/** `build_image_from_dockerfile`: validate, run every instruction on the layer, create the image, clean up. */
module Build {
  import opened CText
  import opened Dockerfile
  import opened DockerfileParser
  import opened FileSystem
  import opened Builder
  import opened ImageStore
  import ImageMetadata

  /** What the outside decides about one build. */
  datatype Outside = Outside(mkdirOk: bool, steps: seq<Builder.Io>, clock: Clock, image: ImageStore.Io, cleaned: bool)

  function BuildImage(t: Tree, instrs: seq<Instruction>, name: string, tag: string, o: Outside): (Tree, bool)
    requires |o.steps| == |instrs|
  {
    var made := if o.mkdirOk then MkdirAt(t, LAYER) else None;
    if !Accepted(instrs) || made.None? then (t, false)
    else
      var run := Interpret(made.value, instrs, o.steps, |instrs|);
      if run.failed.Some? then (run.tree, false)
      else
        var (u, ok) := CreateImage(run.tree, name, Some(tag), o.clock, o.image);
        (if ok && o.cleaned then Pruned(u, LAYER) else u, ok)
  }

  class Host {
    var tree: Tree

    constructor (t: Tree)
      ensures tree == t
    {
      tree := t;
    }

    method Accept(made: Option<Tree>, ok: bool) returns (r: bool)
      modifies this
      ensures r <==> ok && made.Some?
      ensures tree == if r then made.value else old(tree)
    {
      r := ok && made.Some?;
      if r {
        tree := made.value;
      }
    }

    /** `fopen(path, "a")` or `fopen(path, "w")`, and one printed line. */
    method PrintLine(kind: Kind, args: string, io: Builder.Io) returns (r: bool)
      requires Target(kind).Some?
      modifies this
      ensures (tree, r) == Execute(old(tree), Instruction(kind, Keyword(kind), args, 0), io)
    {
      var line := args + "\n";
      var written := if Target(kind).value.1.Appends? then AppendFile(tree, TargetPath(kind), line)
                     else WriteFile(tree, TargetPath(kind), line);
      r := Accept(written, io.ok);
    }

    /** `execute_instruction`. */
    method ExecuteInstruction(x: Instruction, io: Builder.Io) returns (r: bool)
      modifies this
      ensures (tree, r) == Execute(old(tree), x, io)
    {
      match x.kind {
        case Run =>
          var (u, ok) := RunCommand(tree, io);
          tree := u;
          r := ok;
        case Copy =>
          r := CopyFiles(x.args);
        case Add =>
          r := CopyFiles(x.args);
        case Workdir =>
          r := Accept(Mkdir(tree, Cut(LAYER_PATH + x.args, MAX_ARG)), io.ok);
        case Env =>
          r := PrintLine(Env, x.args, io);
        case User =>
          r := PrintLine(User, x.args, io);
        case Expose =>
          r := PrintLine(Expose, x.args, io);
        case Volume =>
          r := Accept(Mkdir(tree, Cut(LAYER_PATH + x.args, MAX_ARG)), io.ok);
        case Entrypoint =>
          r := PrintLine(Entrypoint, x.args, io);
        case Cmd =>
          r := PrintLine(Cmd, x.args, io);
        case Label =>
          r := PrintLine(Label, x.args, io);
        case _ =>
          r := true;
      }
    }

    /** The loop of the build: every instruction in turn, up to the first that fails. */
    method RunInstructions(d: DockerfileInfo, ios: seq<Builder.Io>) returns (r: bool)
      requires d.Valid() && |ios| == d.count
      modifies this
      ensures var run := Interpret(old(tree), d.listing, ios, d.count);
              tree == run.tree && (r <==> run.failed.None?)
    {
      ghost var instrs := d.listing;
      for i := 0 to d.count
        invariant Interpret(old(tree), instrs, ios, i) == Outcome(tree, None)
      {
        var done := ExecuteInstruction(d.instructions[i], ios[i]);
        if !done {
          FailureIsFinal(old(tree), instrs, ios, i + 1, d.count);
          return false;
        }
      }
      return true;
    }

    method BuildFromDockerfile(d: DockerfileInfo, name: string, tag: string, o: Outside) returns (r: bool)
      requires d.Valid() && |o.steps| == d.count
      modifies this
      ensures (tree, r) == BuildImage(old(tree), d.listing, name, tag, o)
    {
      var valid, _ := d.Validate();
      if !valid {
        return false;
      }
      r := Accept(MkdirAt(tree, LAYER), o.mkdirOk);
      if !r {
        return;
      }
      r := RunInstructions(d, o.steps);
      if !r {
        return;
      }
      var (u, ok) := CreateImage(tree, name, Some(tag), o.clock, o.image);
      tree := if ok && o.cleaned then Pruned(u, LAYER) else u;
      return ok;
    }
  }

  /** The part of `handle_image_build` after the query: parse the file, build, always as `latest`. */
  method BuildFile(host: Host, file: Option<string>, name: string, o: Outside) returns (r: bool)
    requires file.Some? ==> |o.steps| == |Meaning(file.value)|
    modifies host
    ensures file.None? ==> !r && host.tree == old(host.tree)
    ensures file.Some? ==> (host.tree, r) == BuildImage(old(host.tree), Stored(Meaning(file.value)), name, "latest", o)
  {
    var d := ParseDockerfile(file);
    if d == null {
      return false;
    }
    r := host.BuildFromDockerfile(d, name, "latest", o);
  }

  lemma {:induction false} FailureIsFinal(t: Tree, xs: seq<Instruction>, ios: seq<Builder.Io>, i: nat, n: nat)
    requires i <= n <= |xs| == |ios| && Interpret(t, xs, ios, i).failed.Some?
    ensures Interpret(t, xs, ios, n) == Interpret(t, xs, ios, i)
    decreases n - i
  {
    if i == n {
    } else {
      FailureIsFinal(t, xs, ios, i, n - 1);
    }
  }

  lemma MetadataNotInLayer(p: Path)
    requires Below(METADATA, p)
    ensures p != LAYER && !Below(LAYER, p) && p != SCRIPT
    ensures forall k: Kind :: Target(k).Some? ==> p != TargetPath(k)
  {
    assert p[1] == p[..2][1] == METADATA[1] && METADATA[1] != LAYER[1];
    assert SCRIPT[1] == LAYER[1] && forall k: Kind :: Target(k).Some? ==> TargetPath(k)[1] == LAYER[1];
    assert |p| >= 2 && p[..2] == METADATA && |LAYER| == 2 && METADATA != LAYER;
  }

  /**
   Of the files in the metadata directory, a successful build writes exactly
   the one for its name and tag, and a failed build changes none.
   */
  lemma BuildWritesOneMetadataFile(t: Tree, instrs: seq<Instruction>, name: string, tag: string, o: Outside, p: Path)
    requires |o.steps| == |instrs| && GoodName(name, TagOrLatest(tag)) && Below(METADATA, p)
    ensures var (u, ok) := BuildImage(t, instrs, name, tag, o);
            FileAt(u, p) ==
              if ok && p == Key(FullName(name, tag)) then
                Some(ImageMetadata.WriteText(NewImage(name, Some(tag), o.clock, o.image.size)))
              else FileAt(t, p)
  {
    MetadataNotInLayer(p);
    var made := MkdirAt(t, LAYER);
    if o.mkdirOk && made.Some? && Accepted(instrs) {
      InterpretFrame(made.value, instrs, o.steps, |instrs|, p);
      var run := Interpret(made.value, instrs, o.steps, |instrs|);
      if run.failed.None? {
        CreateImageMetadata(run.tree, name, Some(tag), o.clock, o.image, p);
      }
    }
  }

  lemma PrunedKeepsMetadata(t: Tree, p: Path)
    requires p == ["tmp"] || p == METADATA || Below(METADATA, p)
    ensures var u := Pruned(t, LAYER); (p in u <==> p in t) && (p in t ==> u[p] == t[p])
  {
    assert |LAYER| == 2 && |METADATA| == 2 && METADATA != LAYER && |["tmp"]| == 1;
    if Below(METADATA, p) {
      MetadataNotInLayer(p);
    }
  }

  lemma PrunedKeepsImage(t: Tree, name: string, tag: string)
    requires GoodName(name, tag)
    ensures ImageExists(Pruned(t, LAYER), name, tag) <==> ImageExists(t, name, tag)
  {
    var key := Key(FullName(name, tag));
    assert Below(METADATA, key);
    PrunedKeepsMetadata(t, ["tmp"]);
    PrunedKeepsMetadata(t, METADATA);
    PrunedKeepsMetadata(t, key);
    ImageExistsMeaning(t, name, tag);
    ImageExistsMeaning(Pruned(t, LAYER), name, tag);
  }

  /** A build that succeeds makes its image exist, and cleaning up afterwards leaves it. */
  lemma BuildMakesImage(t: Tree, instrs: seq<Instruction>, name: string, tag: string, o: Outside)
    requires |o.steps| == |instrs| && GoodName(name, TagOrLatest(tag)) && BuildImage(t, instrs, name, tag, o).1
    ensures ImageExists(BuildImage(t, instrs, name, tag, o).0, name, TagOrLatest(tag))
  {
    var run := Interpret(MkdirAt(t, LAYER).value, instrs, o.steps, |instrs|);
    var u := CreateImage(run.tree, name, Some(tag), o.clock, o.image).0;
    CreateMakesImage(run.tree, name, Some(tag), o.clock, o.image);
    PrunedKeepsImage(u, name, TagOrLatest(tag));
  }

  /** A build that stops at an instruction fails and keeps exactly the prefix; otherwise the image decides. */
  lemma BuildOutcome(t: Tree, instrs: seq<Instruction>, name: string, tag: string, o: Outside)
    requires |o.steps| == |instrs| && o.mkdirOk && MkdirAt(t, LAYER).Some? && Accepted(instrs)
    ensures var start := MkdirAt(t, LAYER).value;
            var run := Interpret(start, instrs, o.steps, |instrs|);
            var (u, ok) := BuildImage(t, instrs, name, tag, o);
            match run.failed
            case None => ok && GoodName(name, TagOrLatest(tag)) ==> ImageExists(u, name, TagOrLatest(tag))
            case Some(i) =>
              var prefix := Interpret(start, instrs, o.steps, i);
              !ok && prefix.failed.None? && (instrs[i].kind != Run ==> u == prefix.tree)
  {
    var start := MkdirAt(t, LAYER).value;
    if Interpret(start, instrs, o.steps, |instrs|).failed.Some? {
      FailedBuildKeepsPrefix(start, instrs, o.steps, |instrs|);
    } else if BuildImage(t, instrs, name, tag, o).1 && GoodName(name, TagOrLatest(tag)) {
      BuildMakesImage(t, instrs, name, tag, o);
    }
  }
}
