/** When instructions, runs and builds succeed, and what a build leaves behind. */
module BuildSuccess {
  import opened CText
  import opened Dockerfile
  import opened DockerfileWords
  import opened FileSystem
  import opened Builder
  import opened Build
  import opened ImageStore

  // ----- one instruction -----

  /** The file that an instruction writes, and how. */
  lemma TargetsSpelled(kind: Kind)
    ensures Target(kind).Some? <==> kind in {Env, Expose, Label, User, Entrypoint, Cmd}
    ensures kind == Env ==> TargetPath(kind) == ["tmp", "docker-build-layer", "environment"]
    ensures kind == Expose ==> TargetPath(kind) == ["tmp", "docker-build-layer", "exposed_ports"]
    ensures kind == Label ==> TargetPath(kind) == ["tmp", "docker-build-layer", "labels"]
    ensures kind == User ==> TargetPath(kind) == ["tmp", "docker-build-layer", "user"]
    ensures kind == Entrypoint ==> TargetPath(kind) == ["tmp", "docker-build-layer", "entrypoint"]
    ensures kind == Cmd ==> TargetPath(kind) == ["tmp", "docker-build-layer", "cmd"]
    ensures kind in {Env, Expose, Label} ==> Target(kind).value.1 == Appends
    ensures kind in {User, Entrypoint, Cmd} ==> Target(kind).value.1 == Overwrites
    ensures SCRIPT == ["tmp", "docker-build-layer", "run_command.sh"]
  {}

  /** An instruction succeeds exactly if it is none of COPY and ADD and its file or directory can be made. */
  lemma ExecuteSucceeds(t: Tree, x: Instruction, io: Builder.Io)
    ensures Execute(t, x, io).1 <==>
      match x.kind
      case Copy => false
      case Add => false
      case Run => io.ok && io.script.Some? && Writable(t, SCRIPT)
      case Workdir => io.ok && Mkdir(t, DirectoryText(x)).Some?
      case Volume => io.ok && Mkdir(t, DirectoryText(x)).Some?
      case _ => Target(x.kind).None? || (io.ok && Writable(t, TargetPath(x.kind)))
  {
    CopyAlwaysFails(x.args);
  }

  /** RUN leaves the script that the shell wrote, also when it fails afterwards, and nothing else. */
  lemma RunLeavesScript(t: Tree, x: Instruction, io: Builder.Io)
    requires x.kind == Run
    ensures Execute(t, x, io).0
            == if io.script.Some? && Writable(t, SCRIPT) then t[SCRIPT := File(io.script.value)] else t
  {}

  // ----- directories of a WORKDIR or VOLUME -----

  lemma LayerNamesOf(name: string)
    requires Component(name)
    ensures Names(LAYER_PATH + "/" + name) == ["tmp", "docker-build-layer", name]
  {
    assert LAYER_PATH == "/tmp/" + "docker-build-layer";
    NamesUnderTmp(LAYER_PATH, "docker-build-layer", name);
  }

  predicate OnlyDirs(t: Tree) {
    DirAt(t, ["tmp"]) && DirAt(t, LAYER)
  }

  /** A single name, and none of those that mean another place. */
  predicate SimpleName(name: string) {
    Component(name) && name != "." && name != ".." && |name| <= 400
  }

  lemma PathWhole(x: Instruction, path: string)
    requires path == LAYER_PATH + x.args && |x.args| <= 401
    ensures DirectoryText(x) == path
  {
    assert |LAYER_PATH| == 23;
  }

  lemma SimpleDirectory(t: Tree, x: Instruction, name: string)
    requires OnlyDirs(t) && SimpleName(name) && x.args == "/" + name
    ensures Locate(t, DirectoryText(x)) == Some(LAYER + [name])
  {
    LayerNamesOf(name);
    LocateUnder(t, "docker-build-layer", LAYER_PATH + "/" + name, name);
    PathWhole(x, LAYER_PATH + "/" + name);
    assert ["tmp", "docker-build-layer", name] == LAYER + [name] && LAYER == ["tmp", "docker-build-layer"];
  }

  lemma MkdirHere(t: Tree, path: string, p: Path)
    requires Locate(t, path) == Some(p) && p != [] && p[|p| - 1] != "." && p[|p| - 1] != ".."
    ensures Mkdir(t, path) == Some(if p in t then t else t[p := Dir])
  {}

  lemma LocateBeside(t: Tree, path: string, dir: string)
    requires path == "/tmp/" + dir && Component(dir)
    ensures Locate(t, path) == if DirAt(t, ["tmp"]) then Some(["tmp", dir]) else None
  {
    TmpChild(t, path, dir);
    assert ["tmp", dir][..1] == ["tmp"] && ["tmp"] + [dir] == ["tmp", dir] && [] + ["tmp"] == ["tmp"];
    assert ["tmp"][1..] == [] && Walk(t, ["tmp"], []) == Some(["tmp"]);
    assert Walk(t, [], ["tmp"]) == Some(["tmp"]);
  }

  /** WORKDIR and VOLUME of `/<name>` make that directory in the layer, unless something is there already. */
  lemma DirectoryInLayer(t: Tree, x: Instruction, io: Builder.Io, name: string)
    requires MakesDirectory(x) && io.ok && OnlyDirs(t) && SimpleName(name) && x.args == "/" + name
    ensures var p := ["tmp", "docker-build-layer", name];
            Execute(t, x, io) == (if p in t then t else t[p := Dir], true)
  {
    SimpleDirectory(t, x, name);
    MkdirHere(t, DirectoryText(x), LAYER + [name]);
    assert LAYER + [name] == ["tmp", "docker-build-layer", name];
  }

  lemma MkdirBeside(t: Tree, path: string, dir: string, name: string)
    requires path == "/tmp/" + dir && '/' !in dir && |dir| > 2 && DirAt(t, ["tmp"]) && Component(name)
    ensures Mkdir(t, path + name) == Some(if ["tmp", dir + name] in t then t else t[["tmp", dir + name] := Dir])
  {
    Regroup("/tmp/", dir, name);
    LocateBeside(t, path + name, dir + name);
    MkdirHere(t, path + name, ["tmp", dir + name]);
  }

  /** Without the slash the directory is made beside the layer, because path and argument are printed together. */
  lemma DirectoryBesideLayer(t: Tree, x: Instruction, io: Builder.Io, name: string)
    requires MakesDirectory(x) && io.ok && DirAt(t, ["tmp"]) && SimpleName(name) && x.args == name
    ensures var p := ["tmp", "docker-build-layer" + name];
            Execute(t, x, io) == (if p in t then t else t[p := Dir], true)
  {
    var dir := "docker-build-layer";
    assert LAYER_PATH == "/tmp/" + dir;
    PathWhole(x, LAYER_PATH + name);
    MkdirBeside(t, LAYER_PATH, dir, name);
  }

  lemma NamesBelow(a: string, b: string, rest: string)
    requires Component(a) && Component(b)
    ensures Names("/" + (a + "/" + (b + "/" + rest))) == [a, b] + Names(rest)
  {
    NamesCons(b, rest);
    NamesCons(a, b + "/" + rest);
    LeadingSlash(a + "/" + (b + "/" + rest));
  }

  lemma NamesOfFour(path: string, dir: string, middle: string, name: string)
    requires path == "/tmp/" + dir && Component(dir) && Component(middle) && Component(name)
    ensures Names(path + ("/" + middle + "/" + name)) == ["tmp", dir, middle, name]
  {
    var last := middle + "/" + name;
    NamesOfTwo(middle, name);
    NamesBelow("tmp", dir, last);
    Rebracket(path, dir, last);
    assert "/" + middle + "/" + name == "/" + last;
    Regroup(path, "/", last);
  }

  lemma WalkBack(t: Tree, dir: string, middle: string)
    requires DirAt(t, ["tmp"]) && DirAt(t, ["tmp", dir]) && dir != "." && dir != ".."
    ensures middle == ".." ==> Walk(t, [], ["tmp", dir, middle]) == Some(["tmp"])
    ensures middle == "." ==> Walk(t, [], ["tmp", dir, middle]) == Some(["tmp", dir])
  {
    var at: Path := ["tmp", dir];
    assert ["tmp", dir, middle][1..] == [dir, middle] && [dir, middle][1..] == [middle] && [middle][1..] == [];
    assert [] + ["tmp"] == ["tmp"] && ["tmp"] + [dir] == at && at[..1] == ["tmp"];
    assert Walk(t, ["tmp"], []) == Some(["tmp"]) && Walk(t, at, []) == Some(at);
    assert Walk(t, ["tmp"], [dir, middle]) == Walk(t, at, [middle]);
  }

  /** Behind `/..` the directory is made outside the layer, where no clean-up reaches it; `/.` stays inside. */
  lemma DirectoryBehindDots(t: Tree, x: Instruction, io: Builder.Io, name: string)
    requires MakesDirectory(x) && io.ok && OnlyDirs(t) && SimpleName(name) && |name| <= 390
    ensures x.args == "/../" + name ==>
              var p := ["tmp", name]; Execute(t, x, io) == (if p in t then t else t[p := Dir], true)
    ensures x.args == "/./" + name ==>
              var p := ["tmp", "docker-build-layer", name];
              Execute(t, x, io) == (if p in t then t else t[p := Dir], true)
  {
    forall middle | (middle == ".." || middle == ".") && x.args == "/" + middle + "/" + name
      ensures var p := (if middle == ".." then ["tmp"] else ["tmp", "docker-build-layer"]) + [name];
              Execute(t, x, io) == (if p in t then t else t[p := Dir], true)
    {
      BehindDots(t, x, middle, name);
    }
    assert "/../" + name == "/" + ".." + "/" + name && "/./" + name == "/" + "." + "/" + name;
    assert ["tmp"] + [name] == ["tmp", name];
    assert ["tmp", "docker-build-layer"] + [name] == ["tmp", "docker-build-layer", name];
  }

  lemma LocateBack(t: Tree, path: string, dir: string, middle: string, name: string)
    requires Names(path) == ["tmp", dir, middle, name] && dir != "." && dir != ".."
    requires DirAt(t, ["tmp"]) && DirAt(t, ["tmp", dir]) && (middle == ".." || middle == ".")
    ensures Locate(t, path) == Some((if middle == ".." then ["tmp"] else ["tmp", dir]) + [name])
  {
    WalkBack(t, dir, middle);
    assert ["tmp", dir, middle, name][..3] == ["tmp", dir, middle];
  }

  lemma BehindDots(t: Tree, x: Instruction, middle: string, name: string)
    requires (middle == ".." || middle == ".") && x.args == "/" + middle + "/" + name
    requires OnlyDirs(t) && SimpleName(name) && |name| <= 390
    ensures var p := (if middle == ".." then ["tmp"] else ["tmp", "docker-build-layer"]) + [name];
            Mkdir(t, DirectoryText(x)) == Some(if p in t then t else t[p := Dir])
  {
    var path := LAYER_PATH + x.args;
    PathWhole(x, path);
    assert LAYER_PATH == "/tmp/" + "docker-build-layer";
    NamesOfFour(LAYER_PATH, "docker-build-layer", middle, name);
    LocateBack(t, path, "docker-build-layer", middle, name);
    MkdirHere(t, DirectoryText(x), (if middle == ".." then ["tmp"] else ["tmp", "docker-build-layer"]) + [name]);
  }

  // ----- whole runs -----

  /** The names that the builder writes in the layer. */
  const OWN_NAMES: set<string> :=
    {"environment", "exposed_ports", "labels", "user", "entrypoint", "cmd", "run_command.sh"}

  /** The directories of WORKDIR and VOLUME are `/<name>`, none of them a file of the builder. */
  predicate PlainInstruction(x: Instruction) {
    MakesDirectory(x) ==> x.args != "" && x.args[0] == '/' && SimpleName(x.args[1..]) && x.args[1..] !in OWN_NAMES
  }

  /** What the tree and the shell must leave to an instruction. */
  predicate Allowed(t: Tree, x: Instruction, io: Builder.Io) {
    && x.kind != Copy && x.kind != Add
    && (x.kind == Run ==> io.script.Some? && !DirAt(t, SCRIPT))
    && (Target(x.kind).Some? ==> !DirAt(t, TargetPath(x.kind)))
  }

  predicate InLayer(p: Path) {
    |p| == 3 && p[..2] == LAYER
  }

  /** Outside the layer nothing changes, and no directory stands where the builder writes that was not there. */
  ghost predicate Keeps(t: Tree, u: Tree) {
    && (forall p :: !InLayer(p) ==> SameAt(t, u, p))
    && (forall p :: InLayer(p) && p[2] in OWN_NAMES ==> (DirAt(u, p) <==> DirAt(t, p)))
  }

  lemma TargetInLayer(kind: Kind)
    requires Target(kind).Some?
    ensures InLayer(TargetPath(kind)) && TargetPath(kind)[2] in OWN_NAMES && TargetPath(kind)[..2] == LAYER
    ensures InLayer(SCRIPT) && SCRIPT[2] in OWN_NAMES && SCRIPT[..2] == LAYER
  {
    TargetsSpelled(kind);
  }

  lemma ScriptInLayer()
    ensures InLayer(SCRIPT) && SCRIPT[2] in OWN_NAMES && SCRIPT[..2] == LAYER
  {
    TargetInLayer(Env);
  }

  lemma FileKeeps(t: Tree, p: Path, text: string)
    requires InLayer(p) && Writable(t, p)
    ensures Keeps(t, t[p := File(text)])
  {}

  lemma DirectoryKeeps(t: Tree, name: string)
    requires name !in OWN_NAMES
    ensures Keeps(t, t[LAYER + [name] := Dir])
  {
    assert InLayer(LAYER + [name]) && (LAYER + [name])[2] == name;
  }

  lemma TargetStep(t: Tree, x: Instruction, io: Builder.Io)
    requires Target(x.kind).Some? && io.ok && OnlyDirs(t)
    ensures Execute(t, x, io).1 <==> !DirAt(t, TargetPath(x.kind))
    ensures Keeps(t, Execute(t, x, io).0)
  {
    var p := TargetPath(x.kind);
    TargetInLayer(x.kind);
    if Writable(t, p) {
      var text := if Target(x.kind).value.1.Appends? then TextAt(t, p) + (x.args + "\n") else x.args + "\n";
      FileKeeps(t, p, text);
    }
  }

  lemma DirectoryStep(t: Tree, x: Instruction, io: Builder.Io)
    requires MakesDirectory(x) && PlainInstruction(x) && io.ok && OnlyDirs(t)
    ensures Execute(t, x, io).1 && Keeps(t, Execute(t, x, io).0)
  {
    var name := x.args[1..];
    assert x.args == "/" + name;
    DirectoryInLayer(t, x, io, name);
    DirectoryKeeps(t, name);
  }

  lemma RunStep(t: Tree, x: Instruction, io: Builder.Io)
    requires x.kind == Run && io.ok && OnlyDirs(t)
    ensures Execute(t, x, io).1 <==> io.script.Some? && !DirAt(t, SCRIPT)
    ensures Keeps(t, Execute(t, x, io).0)
  {
    ScriptInLayer();
    if io.script.Some? && Writable(t, SCRIPT) {
      FileKeeps(t, SCRIPT, io.script.value);
    }
  }

  lemma OtherStep(t: Tree, x: Instruction, io: Builder.Io)
    requires Target(x.kind).None? && !MakesDirectory(x) && x.kind != Run
    ensures Execute(t, x, io) == (t, x.kind != Copy && x.kind != Add)
  {
    CopyAlwaysFails(x.args);
  }

  lemma PlainStep(t: Tree, x: Instruction, io: Builder.Io)
    requires PlainInstruction(x) && io.ok && OnlyDirs(t)
    ensures Execute(t, x, io).1 <==> Allowed(t, x, io)
    ensures Keeps(t, Execute(t, x, io).0)
  {
    if Target(x.kind).Some? {
      TargetStep(t, x, io);
    } else if MakesDirectory(x) {
      DirectoryStep(t, x, io);
    } else if x.kind == Run {
      RunStep(t, x, io);
    } else {
      OtherStep(t, x, io);
    }
  }

  lemma KeepsAllowed(t: Tree, u: Tree, x: Instruction, io: Builder.Io)
    requires Keeps(t, u)
    ensures Allowed(u, x, io) <==> Allowed(t, x, io)
    ensures OnlyDirs(u) <==> OnlyDirs(t)
  {
    ScriptInLayer();
    if Target(x.kind).Some? {
      TargetInLayer(x.kind);
    }
    assert !InLayer(["tmp"]) && !InLayer(LAYER);
    assert SameAt(t, u, ["tmp"]) && SameAt(t, u, LAYER);
  }

  lemma KeepsOn(t: Tree, u: Tree, v: Tree)
    requires Keeps(t, u) && Keeps(u, v)
    ensures Keeps(t, v)
  {
    forall p | !InLayer(p)
      ensures SameAt(t, v, p)
    {
      assert SameAt(t, u, p) && SameAt(u, v, p);
    }
  }

  /** One more step, from a tree that agrees with the first. */
  lemma StepFrom(t: Tree, u: Tree, x: Instruction, io: Builder.Io)
    requires OnlyDirs(t) && Keeps(t, u) && PlainInstruction(x) && io.ok
    ensures Execute(u, x, io).1 <==> Allowed(t, x, io)
    ensures Keeps(t, Execute(u, x, io).0)
  {
    KeepsAllowed(t, u, x, io);
    PlainStep(u, x, io);
    KeepsOn(t, u, Execute(u, x, io).0);
  }

  predicate PlainRun(xs: seq<Instruction>, ios: seq<Builder.Io>) {
    |xs| == |ios| && forall i :: 0 <= i < |xs| ==> PlainInstruction(xs[i]) && ios[i].ok
  }

  /**
   On a layer directory, when nothing is refused from outside, a run completes
   if and only if it has no COPY and no ADD, the shell writes the script of every
   RUN, and no directory stands where a file is to be written.
   */
  lemma {:induction false} RunCompletesExactly(t: Tree, xs: seq<Instruction>, ios: seq<Builder.Io>, n: nat)
    requires OnlyDirs(t) && PlainRun(xs, ios) && n <= |xs|
    ensures var o := Interpret(t, xs, ios, n);
            && (o.failed.None? <==> forall i :: 0 <= i < n ==> Allowed(t, xs[i], ios[i]))
            && Keeps(t, o.tree)
  {
    if n == 0 {
    } else {
      var before := Interpret(t, xs, ios, n - 1);
      RunCompletesExactly(t, xs, ios, n - 1);
      OneMore(t, xs, ios, n, before, Interpret(t, xs, ios, n));
    }
  }

  lemma OneMore(t: Tree, xs: seq<Instruction>, ios: seq<Builder.Io>, n: nat, before: Outcome, after: Outcome)
    requires 0 < n <= |xs| && OnlyDirs(t) && PlainRun(xs, ios) && Keeps(t, before.tree)
    requires before.failed.None? <==> forall i :: 0 <= i < n - 1 ==> Allowed(t, xs[i], ios[i])
    requires var (u, ok) := Execute(before.tree, xs[n - 1], ios[n - 1]);
             after == if before.failed.Some? then before else Outcome(u, if ok then None else Some(n - 1))
    ensures after.failed.None? <==> forall i :: 0 <= i < n ==> Allowed(t, xs[i], ios[i])
    ensures Keeps(t, after.tree)
  {
    StepFrom(t, before.tree, xs[n - 1], ios[n - 1]);
  }

  // ----- whole builds -----

  /** A file that does not begin with FROM, or a refused layer directory, changes nothing. */
  lemma RejectedBuild(t: Tree, xs: seq<Instruction>, name: string, tag: string, o: Outside)
    requires |o.steps| == |xs|
    requires xs == [] || xs[0].kind != From || !o.mkdirOk || !DirAt(t, ["tmp"])
    ensures BuildImage(t, xs, name, tag, o) == (t, false)
  {
    assert LAYER[..1] == ["tmp"];
  }

  /** What a new image needs: the three directories, and no file or directory in the way of what it writes. */
  predicate StoreReady(t: Tree, name: string, tag: string, clock: Clock, copied: Tree) {
    var filled := t + OnlyBelow(LayerDir(clock.directory), copied);
    var key, file := Key(FullName(name, tag)), LayerFile(clock.directory);
    && DirAt(t, LAYERS) && TmpDirs(t) && FileAt(t, LayerDir(clock.directory)).None?
    && (file in filled ==> filled[file].File?) && (key in t ==> t[key].File?)
  }

  lemma OutsideLayer(clock: Clock, full: string, p: Path)
    requires p in {["tmp"], LAYERS, METADATA, LayerDir(clock.directory), LayerFile(clock.directory), Key(full)}
    ensures !InLayer(p) && p != LAYER
  {
    assert LAYERS[1] != LAYER[1] && METADATA[1] != LAYER[1];
    assert |p| >= 3 ==> p[..2] == LAYERS || p[..2] == METADATA;
  }

  lemma ReadyElsewhere(t: Tree, u: Tree, name: string, tag: string, clock: Clock, copied: Tree)
    requires forall p :: !InLayer(p) && p != LAYER ==> SameAt(t, u, p)
    ensures StoreReady(u, name, tag, clock, copied) <==> StoreReady(t, name, tag, clock, copied)
  {
    var full := FullName(name, tag);
    forall p | p in {["tmp"], LAYERS, METADATA, LayerDir(clock.directory), LayerFile(clock.directory), Key(full)}
      ensures SameAt(t, u, p)
    {
      OutsideLayer(clock, full, p);
    }
    assert SameAt(t, u, ["tmp"]) && SameAt(t, u, LAYERS) && SameAt(t, u, METADATA);
    assert SameAt(t, u, LayerDir(clock.directory)) && SameAt(t, u, LayerFile(clock.directory));
    assert SameAt(t, u, Key(full));
  }

  lemma MadeLayer(t: Tree, xs: seq<Instruction>, ios: seq<Builder.Io>)
    requires DirAt(t, ["tmp"]) && FileAt(t, LAYER).None? && |xs| == |ios|
    ensures MkdirAt(t, LAYER).Some?
    ensures var u := MkdirAt(t, LAYER).value;
            && OnlyDirs(u) && (forall p :: p != LAYER ==> SameAt(t, u, p))
            && forall i :: 0 <= i < |xs| ==> (Allowed(u, xs[i], ios[i]) <==> Allowed(t, xs[i], ios[i]))
  {
    assert LAYER[..1] == ["tmp"] && |LAYER| == 2 && |SCRIPT| == 3;
    assert forall k: Kind :: Target(k).Some? ==> |TargetPath(k)| == 3;
  }

  /** Nothing is refused from outside, and the layer is a directory or can be made one. */
  predicate Smooth(t: Tree, xs: seq<Instruction>, o: Outside) {
    && PlainRun(xs, o.steps) && o.mkdirOk && DirAt(t, ["tmp"]) && FileAt(t, LAYER).None?
    && o.image.mkdirOk && o.image.cpOk && o.image.layerOk && o.image.writeOk
  }

  /**
   When nothing is refused from outside, a build succeeds if and only if the
   instructions begin with FROM, each of them may do what it does, and the image
   store is ready. Then the image exists.
   */
  lemma BuildSucceedsExactly(t: Tree, xs: seq<Instruction>, name: string, tag: string, o: Outside)
    requires Smooth(t, xs, o) && GoodName(name, TagOrLatest(tag))
    ensures var (u, ok) := BuildImage(t, xs, name, tag, o);
            && (ok <==>
                && xs != [] && xs[0].kind == From
                && (forall i :: 0 <= i < |xs| ==> Allowed(t, xs[i], o.steps[i]))
                && StoreReady(t, name, TagOrLatest(tag), o.clock, o.image.copied))
            && (ok ==> ImageExists(u, name, TagOrLatest(tag)))
  {
    MadeLayer(t, xs, o.steps);
    var made := MkdirAt(t, LAYER).value;
    var run := Interpret(made, xs, o.steps, |xs|);
    RunCompletesExactly(made, xs, o.steps, |xs|);
    forall p | !InLayer(p) && p != LAYER
      ensures SameAt(t, run.tree, p)
    {
      assert SameAt(made, run.tree, p);
    }
    ReadyElsewhere(t, run.tree, name, TagOrLatest(tag), o.clock, o.image.copied);
    CreateSucceedsExactly(run.tree, name, Some(tag), o.clock, o.image);
    if BuildImage(t, xs, name, tag, o).1 {
      BuildMakesImage(t, xs, name, tag, o);
    }
  }

  /** After a successful build the clean-up takes the layer and everything below it, and nothing else. */
  lemma BuildLeavesNoLayer(t: Tree, xs: seq<Instruction>, name: string, tag: string, o: Outside, p: Path)
    requires |o.steps| == |xs| && o.cleaned && BuildImage(t, xs, name, tag, o).1
    ensures var u, uncleaned := BuildImage(t, xs, name, tag, o).0, BuildImage(t, xs, name, tag, o.(cleaned := false)).0;
            if 2 <= |p| && p[..2] == ["tmp", "docker-build-layer"] then p !in u else SameAt(uncleaned, u, p)
  {
    assert LAYER == ["tmp", "docker-build-layer"] && (|p| == 2 ==> p[..2] == p);
  }

  /** A build that fails cleans nothing up. */
  lemma FailedBuildIsNotCleaned(t: Tree, xs: seq<Instruction>, name: string, tag: string, o: Outside)
    requires |o.steps| == |xs| && !BuildImage(t, xs, name, tag, o).1
    ensures BuildImage(t, xs, name, tag, o) == BuildImage(t, xs, name, tag, o.(cleaned := false))
  {}

  /** Nothing is refused from outside, in a build of one instruction. */
  predicate SmoothOne(t: Tree, o: Outside) {
    && |o.steps| == 1 && o.steps[0].ok && o.mkdirOk && DirAt(t, ["tmp"]) && FileAt(t, LAYER).None?
    && o.image.mkdirOk && o.image.cpOk && o.image.layerOk && o.image.writeOk
  }

  lemma OneFromBuilds(t: Tree, xs: seq<Instruction>, name: string, o: Outside)
    requires |xs| == 1 && xs[0].kind == From && SmoothOne(t, o) && GoodName(name, "latest")
    ensures BuildImage(t, xs, name, "latest", o).1 <==> StoreReady(t, name, "latest", o.clock, o.image.copied)
  {
    BuildSucceedsExactly(t, xs, name, "latest", o);
  }

  /** The smallest file builds: one FROM line, for every base image, succeeds exactly if the image store is ready. */
  lemma FromFileBuilds(t: Tree, base: string, name: string, o: Outside)
    requires EndsInText(base) && OneLine(base, 1000) && GoodName(name, "latest") && SmoothOne(t, o)
    ensures var xs := Stored(Meaning("FROM" + " " + base + "\n"));
            && |xs| == 1
            && (BuildImage(t, xs, name, "latest", o).1 <==> StoreReady(t, name, "latest", o.clock, o.image.copied))
  {
    OneLineFiles("FROM", base);
    OneFromBuilds(t, Stored([Directive(From, base, 1)]), name, o);
  }
}
