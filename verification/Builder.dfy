/** The builder: a second reading of the instructions, as effects on the files of a layer directory. */
module Builder {
  import opened CText
  import opened Dockerfile
  import opened FileSystem

  const LAYER_PATH := "/tmp/docker-build-layer"
  const LAYER: Path := ["tmp", "docker-build-layer"]

  /**
   What the outside decides about one instruction: whether the kernel or the
   shell refuses it for a reason the tree does not show, and what the shell
   leaves in the script of a RUN, if it writes it at all.
   */
  datatype Io = Io(ok: bool, script: Option<string>)

  datatype Mode = Appends | Overwrites

  /** The file an instruction writes, and how it opens it. */
  function Target(kind: Kind): Option<(string, Mode)> {
    match kind
    case Env => Some(("environment", Appends))
    case Expose => Some(("exposed_ports", Appends))
    case Label => Some(("labels", Appends))
    case User => Some(("user", Overwrites))
    case Entrypoint => Some(("entrypoint", Overwrites))
    case Cmd => Some(("cmd", Overwrites))
    case _ => None
  }

  const SCRIPT: Path := LAYER + ["run_command.sh"]

  function TargetPath(kind: Kind): Path
    requires Target(kind).Some?
  {
    LAYER + [Target(kind).value.0]
  }

  lemma TargetsDistinct(j: Kind, k: Kind)
    requires Target(j).Some? && Target(k).Some?
    ensures TargetPath(j) != SCRIPT
    ensures TargetPath(j) == TargetPath(k) ==> j == k
  {
    var a, b := Target(j).value.0, Target(k).value.0;
    assert TargetPath(j)[|LAYER|] == a && TargetPath(k)[|LAYER|] == b && SCRIPT[|LAYER|] == "run_command.sh";
    assert |a| < |"run_command.sh"|;
    assert |a| == |b| ==> (a[0] == b[0] <==> j == k);
  }

  /** `copy_files`, which hands its own first token to itself. */
  function CopyFiles(args: string): bool
    decreases |args|
  {
    match Token(args, " ")
    case None => false
    case Some((src, rest)) =>
      match Token(rest, " ")
      case None => false
      case Some((dest, _)) => CopyFiles(src)
  }

  /** COPY and ADD never succeed. */
  lemma CopyAlwaysFails(args: string)
    ensures !CopyFiles(args)
  {
    match Token(args, " ") {
      case None =>
      case Some((src, rest)) =>
        assert forall c :: c in src ==> c !in " ";
        TokenWhole(src, " ");
    }
  }

  function Settled(t: Tree, u: Option<Tree>, io: Io): (Tree, bool) {
    if io.ok && u.Some? then (u.value, true) else (t, false)
  }

  function RunCommand(t: Tree, io: Io): (Tree, bool) {
    match io.script
    case None => (t, false)
    case Some(text) =>
      match WriteFile(t, SCRIPT, text)
      case None => (t, false)
      case Some(u) => (u, io.ok)
  }

  /** `execute_instruction`: the new tree and whether 0 is returned. */
  function Execute(t: Tree, x: Instruction, io: Io): (Tree, bool) {
    match x.kind
    case Run => RunCommand(t, io)
    case Copy => (t, CopyFiles(x.args))
    case Add => (t, CopyFiles(x.args))
    case Workdir => Settled(t, Mkdir(t, Cut(LAYER_PATH + x.args, MAX_ARG)), io)
    case Env => Settled(t, AppendFile(t, TargetPath(Env), x.args + "\n"), io)
    case User => Settled(t, WriteFile(t, TargetPath(User), x.args + "\n"), io)
    case Expose => Settled(t, AppendFile(t, TargetPath(Expose), x.args + "\n"), io)
    case Volume => Settled(t, Mkdir(t, Cut(LAYER_PATH + x.args, MAX_ARG)), io)
    case Entrypoint => Settled(t, WriteFile(t, TargetPath(Entrypoint), x.args + "\n"), io)
    case Cmd => Settled(t, WriteFile(t, TargetPath(Cmd), x.args + "\n"), io)
    case Label => Settled(t, AppendFile(t, TargetPath(Label), x.args + "\n"), io)
    case _ => (t, true)
  }

  /** The tree after the first `n` instructions, and the one that failed, if any did. */
  datatype Outcome = Outcome(tree: Tree, failed: Option<nat>)

  function Interpret(t: Tree, xs: seq<Instruction>, ios: seq<Io>, n: nat): (o: Outcome)
    requires n <= |xs| == |ios|
    ensures o.failed.Some? ==> o.failed.value < n
  {
    if n == 0 then Outcome(t, None)
    else
      var before := Interpret(t, xs, ios, n - 1);
      if before.failed.Some? then before
      else
        var (u, ok) := Execute(before.tree, xs[n - 1], ios[n - 1]);
        Outcome(u, if ok then None else Some(n - 1))
  }

  // ----- one instruction -----

  /** An instruction that fails has done nothing, unless it is a RUN. */
  lemma FailureLeavesTree(t: Tree, x: Instruction, io: Io)
    requires !Execute(t, x, io).1
    ensures x.kind != Run ==> Execute(t, x, io).0 == t
  {}

  /** Of the files, an instruction touches its own target and nothing else. */
  lemma ExecuteFrame(t: Tree, x: Instruction, io: Io, p: Path)
    requires p != SCRIPT && (Target(x.kind).Some? ==> p != TargetPath(x.kind))
    ensures FileAt(Execute(t, x, io).0, p) == FileAt(t, p)
  {
    if x.kind == Workdir || x.kind == Volume {
      var u := Mkdir(t, Cut(LAYER_PATH + x.args, MAX_ARG));
      if u.Some? {
        MkdirAddsOneDirectory(t, Cut(LAYER_PATH + x.args, MAX_ARG));
      }
    }
  }

  function Written(before: Option<string>, mode: Mode, args: string): string {
    match mode
    case Appends => (if before.Some? then before.value else "") + args + "\n"
    case Overwrites => args + "\n"
  }

  lemma ExecuteTarget(t: Tree, x: Instruction, io: Io)
    requires Target(x.kind).Some? && Execute(t, x, io).1
    ensures var p := TargetPath(x.kind);
            FileAt(Execute(t, x, io).0, p) == Some(Written(FileAt(t, p), Target(x.kind).value.1, x.args))
  {
    var p := TargetPath(x.kind);
    assert TextAt(t, p) + (x.args + "\n") == TextAt(t, p) + x.args + "\n";
  }

  // ----- whole builds -----

  function CutAll(list: seq<string>): (r: seq<string>)
    ensures |r| == |list| && forall i :: 0 <= i < |r| ==> r[i] == Cut(list[i], MAX_ARG)
  {
    seq(|list|, i requires 0 <= i < |list| => Cut(list[i], MAX_ARG))
  }

  /** The file a whole run of one kind's instructions leaves. */
  function Left(before: Option<string>, mode: Mode, args: seq<string>): Option<string> {
    if args == [] then before
    else
      match mode
      case Appends => Some((if before.Some? then before.value else "") + Terminated(CutAll(args)))
      case Overwrites => Some(LastOf(args) + "\n")
  }

  lemma CutAllAppend(args: seq<string>, a: string)
    ensures CutAll(args + [a]) == CutAll(args) + [Cut(a, MAX_ARG)]
  {}

  lemma AppendedStep(b: string, args: seq<string>, a: string)
    ensures b + Terminated(CutAll(args + [a])) == b + Terminated(CutAll(args)) + Cut(a, MAX_ARG) + "\n"
  {
    var x := Cut(a, MAX_ARG);
    CutAllAppend(args, a);
    TerminatedAppend(CutAll(args), [x]);
    assert Terminated([x]) == x + "\n";
    Regroup(b, Terminated(CutAll(args)), x + "\n");
    Regroup(b + Terminated(CutAll(args)), x, "\n");
  }

  lemma LeftStep(before: Option<string>, mode: Mode, args: seq<string>, a: string)
    ensures Left(before, mode, args + [a]) == Some(Written(Left(before, mode, args), mode, Cut(a, MAX_ARG)))
  {
    var b := if before.Some? then before.value else "";
    AppendedStep(b, args, a);
    assert args == [] ==> CutAll(args) == [] && b + "" == b;
  }

  /** While nothing has failed, each written file is the one its own instructions leave, in order. */
  lemma {:induction false} InterpretTargets(t: Tree, ds: seq<Directive>, ios: seq<Io>, n: nat, kind: Kind)
    requires n <= |ds| == |ios| && Target(kind).Some?
    requires Interpret(t, Stored(ds), ios, n).failed.None?
    ensures FileAt(Interpret(t, Stored(ds), ios, n).tree, TargetPath(kind))
            == Left(FileAt(t, TargetPath(kind)), Target(kind).value.1, ArgsOf(ds[..n], kind))
  {
    if n == 0 {
    } else {
      InterpretTargets(t, ds, ios, n - 1, kind);
      assert ds[..n][..n - 1] == ds[..n - 1];
      var before := Interpret(t, Stored(ds), ios, n - 1).tree;
      var x := Store(ds[n - 1]);
      if x.kind == kind {
        ExecuteTarget(before, x, ios[n - 1]);
        LeftStep(FileAt(t, TargetPath(kind)), Target(kind).value.1, ArgsOf(ds[..n - 1], kind), ds[n - 1].args);
      } else {
        if Target(x.kind).Some? {
          TargetsDistinct(kind, x.kind);
        }
        TargetsDistinct(kind, kind);
        ExecuteFrame(before, x, ios[n - 1], TargetPath(kind));
        assert ArgsOf(ds[..n], kind) == ArgsOf(ds[..n - 1], kind);
      }
    }
  }

  /** A fresh layer: none of the files the builder writes is there yet. */
  predicate FreshLayer(t: Tree) {
    forall k: Kind :: Target(k).Some? ==> FileAt(t, TargetPath(k)).None?
  }

  /** The run over all instructions stored for these directives fails nowhere. */
  predicate Completes(t: Tree, ds: seq<Directive>, ios: seq<Io>) {
    |ios| == |ds| && Interpret(t, Stored(ds), ios, |ds|).failed.None?
  }

  function LayerOf(t: Tree, ds: seq<Directive>, ios: seq<Io>): Tree
    requires |ios| == |ds|
  {
    Interpret(t, Stored(ds), ios, |ds|).tree
  }

  /**
   Parser and builder agree. Appended files hold the arguments of every
   instruction of their kind, of which the summary's list is the first `cap`;
   overwritten files hold exactly the summary's field.
   */
  lemma BuildAgreesWithSummary(t: Tree, ds: seq<Directive>, ios: seq<Io>, kind: Kind)
    requires Completes(t, ds, ios) && Target(kind).Some? && FileAt(t, TargetPath(kind)).None?
    ensures var all, s, file := ArgsOf(ds, kind), Summarise(ds), FileAt(LayerOf(t, ds, ios), TargetPath(kind));
            match Target(kind).value.1
            case Appends =>
              && TextAt(LayerOf(t, ds, ios), TargetPath(kind)) == Terminated(CutAll(all))
              && ListField(s, kind).Some? && ListField(s, kind).value.0 == First(all, ListField(s, kind).value.1)
            case Overwrites =>
              && Scalar(s, kind).Some?
              && file == if all == [] then None else Some(Scalar(s, kind).value + "\n")
  {
    assert ds[..|ds|] == ds;
    InterpretTargets(t, ds, ios, |ds|, kind);
    SummaryFields(ds, kind);
  }

  lemma UncutIsFirst(all: seq<string>, cap: nat)
    ensures CutAll(all) == First(all, cap) <==> |all| <= cap && forall a :: a in all ==> |a| <= MAX_ARG
  {
    if CutAll(all) == First(all, cap) {
      forall a | a in all
        ensures |a| <= MAX_ARG
      {
        var i :| 0 <= i < |all| && all[i] == a;
        assert CutAll(all)[i] == First(all, cap)[i];
      }
    }
    if |all| <= cap && forall a :: a in all ==> |a| <= MAX_ARG {
      assert forall i :: 0 <= i < |all| ==> all[i] in all;
      assert CutAll(all) == all;
    }
  }

  lemma SameTextSameList(all: seq<string>, cap: nat)
    requires forall a :: a in all ==> '\n' !in a
    ensures Terminated(CutAll(all)) == Terminated(First(all, cap)) <==> CutAll(all) == First(all, cap)
  {
    if Terminated(CutAll(all)) == Terminated(First(all, cap)) {
      forall l | l in CutAll(all) + First(all, cap)
        ensures '\n' !in l
      {
        if l in CutAll(all) {
          var i :| 0 <= i < |all| && l == CutAll(all)[i];
          assert all[i] in all;
        }
      }
      TerminatedInjective(CutAll(all), First(all, cap));
    }
  }

  /** An appended file is the summary's list if and only if the list did not overflow and no argument was cut. */
  lemma AppendedFileIsListed(t: Tree, ds: seq<Directive>, ios: seq<Io>, kind: Kind)
    requires Completes(t, ds, ios) && Target(kind).Some? && FileAt(t, TargetPath(kind)).None?
    requires Target(kind).value.1.Appends? && forall a :: a in ArgsOf(ds, kind) ==> '\n' !in a
    ensures var all, field := ArgsOf(ds, kind), ListField(Summarise(ds), kind);
            && field.Some?
            && (TextAt(LayerOf(t, ds, ios), TargetPath(kind)) == Terminated(field.value.0)
                <==> |all| <= field.value.1 && forall a :: a in all ==> |a| <= MAX_ARG)
  {
    BuildAgreesWithSummary(t, ds, ios, kind);
    var all, cap := ArgsOf(ds, kind), ListField(Summarise(ds), kind).value.1;
    SameTextSameList(all, cap);
    UncutIsFirst(all, cap);
  }

  lemma ArgsOnOneLine(text: string, kind: Kind)
    ensures forall a :: a in ArgsOf(Meaning(text), kind) ==> '\n' !in a
  {
    MeaningIsGood(text);
    ArgsOfFrom(Meaning(text), kind);
  }

  /** The same of the directives of a Dockerfile, whose arguments are always on one line. */
  lemma BuiltFileIsParsedList(t: Tree, text: string, ios: seq<Io>, kind: Kind)
    requires Completes(t, Meaning(text), ios) && FreshLayer(t)
    requires Target(kind).Some? && Target(kind).value.1.Appends?
    ensures var all, field := ArgsOf(Meaning(text), kind), ListField(Summarise(Meaning(text)), kind);
            && field.Some?
            && (TextAt(LayerOf(t, Meaning(text), ios), TargetPath(kind)) == Terminated(field.value.0)
                <==> |all| <= field.value.1 && forall a :: a in all ==> |a| <= MAX_ARG)
  {
    ArgsOnOneLine(text, kind);
    AppendedFileIsListed(t, Meaning(text), ios, kind);
  }

  /** A build that completes has no COPY and no ADD. */
  lemma {:induction false} CompletedHasNoCopy(t: Tree, xs: seq<Instruction>, ios: seq<Io>, n: nat)
    requires n <= |xs| == |ios| && Interpret(t, xs, ios, n).failed.None?
    ensures forall i :: 0 <= i < n ==> xs[i].kind != Copy && xs[i].kind != Add
  {
    if n == 0 {
    } else {
      CompletedHasNoCopy(t, xs, ios, n - 1);
      CopyAlwaysFails(xs[n - 1].args);
    }
  }

  /**
   A build that fails at instruction `i` stops there: everything before it took
   effect and nothing after it did. Only a failed RUN may have changed
   something itself, and then only its script.
   */
  lemma {:induction false} FailedBuildKeepsPrefix(t: Tree, xs: seq<Instruction>, ios: seq<Io>, n: nat)
    requires n <= |xs| == |ios| && Interpret(t, xs, ios, n).failed.Some?
    ensures var o := Interpret(t, xs, ios, n);
            var i := o.failed.value;
            var prefix := Interpret(t, xs, ios, i);
            && prefix.failed.None?
            && (if xs[i].kind == Run then o.tree - {SCRIPT} == prefix.tree - {SCRIPT} else o.tree == prefix.tree)
  {
    var before := Interpret(t, xs, ios, n - 1);
    if before.failed.Some? {
      FailedBuildKeepsPrefix(t, xs, ios, n - 1);
    } else {
      FailureLeavesTree(before.tree, xs[n - 1], ios[n - 1]);
    }
  }

  /** Whatever happens, no file outside the seven changes, and no directory disappears. */
  lemma {:induction false} InterpretFrame(t: Tree, xs: seq<Instruction>, ios: seq<Io>, n: nat, p: Path)
    requires n <= |xs| == |ios|
    requires p != SCRIPT && forall k: Kind :: Target(k).Some? ==> p != TargetPath(k)
    ensures FileAt(Interpret(t, xs, ios, n).tree, p) == FileAt(t, p)
  {
    if n == 0 {
    } else {
      InterpretFrame(t, xs, ios, n - 1, p);
      ExecuteFrame(Interpret(t, xs, ios, n - 1).tree, xs[n - 1], ios[n - 1], p);
    }
  }

  predicate MakesDirectory(x: Instruction) {
    x.kind == Workdir || x.kind == Volume
  }

  function DirectoryText(x: Instruction): string {
    Cut(LAYER_PATH + x.args, MAX_ARG)
  }

  lemma ExecuteGrows(t: Tree, x: Instruction, io: Io)
    ensures Grows(t, Execute(t, x, io).0)
    ensures MakesDirectory(x) && Execute(t, x, io).1 ==> Leads(Execute(t, x, io).0, DirectoryText(x))
  {
    if MakesDirectory(x) && Mkdir(t, DirectoryText(x)).Some? {
      MkdirLeads(t, DirectoryText(x));
    }
  }

  /** After a build that completes, every WORKDIR and VOLUME path still leads to something. */
  lemma {:induction false} DirectoriesRemain(t: Tree, xs: seq<Instruction>, ios: seq<Io>, n: nat, i: nat)
    requires i < n <= |xs| == |ios| && MakesDirectory(xs[i]) && Interpret(t, xs, ios, n).failed.None?
    ensures Leads(Interpret(t, xs, ios, n).tree, DirectoryText(xs[i]))
  {
    var before := Interpret(t, xs, ios, n - 1).tree;
    ExecuteGrows(before, xs[n - 1], ios[n - 1]);
    if i == n - 1 {
    } else {
      DirectoriesRemain(t, xs, ios, n - 1, i);
      LeadsGrows(before, Interpret(t, xs, ios, n).tree, DirectoryText(xs[i]));
    }
  }
}
