/** The words of a Dockerfile spelled out: which word is which instruction, and what a written file means. */
module DockerfileWords {
  import opened CText
  import opened Dockerfile
  import opened DockerfileNormalForm

  lemma KindExactly(w: string, k: Kind)
    requires !k.Unknown?
    ensures KindOf(w) == k <==> w == Keyword(k)
  {
    KindOfKeyword(k);
  }

  /** Seventeen words are recognised, each as its own kind, and no other word is. */
  lemma WordsSpelled(w: string)
    ensures KindOf(w) == From <==> w == "FROM"
    ensures KindOf(w) == Run <==> w == "RUN"
    ensures KindOf(w) == Cmd <==> w == "CMD"
    ensures KindOf(w) == Label <==> w == "LABEL"
    ensures KindOf(w) == Expose <==> w == "EXPOSE"
    ensures KindOf(w) == Env <==> w == "ENV"
    ensures KindOf(w) == Add <==> w == "ADD"
    ensures KindOf(w) == Copy <==> w == "COPY"
    ensures KindOf(w) == Entrypoint <==> w == "ENTRYPOINT"
    ensures KindOf(w) == Volume <==> w == "VOLUME"
    ensures KindOf(w) == User <==> w == "USER"
    ensures KindOf(w) == Workdir <==> w == "WORKDIR"
    ensures KindOf(w) == Arg <==> w == "ARG"
    ensures KindOf(w) == Onbuild <==> w == "ONBUILD"
    ensures KindOf(w) == Stopsignal <==> w == "STOPSIGNAL"
    ensures KindOf(w) == Healthcheck <==> w == "HEALTHCHECK"
    ensures KindOf(w) == Shell <==> w == "SHELL"
  {
    forall k: Kind | !k.Unknown?
      ensures KindOf(w) == k <==> w == Keyword(k)
    {
      KindExactly(w, k);
    }
  }

  /** An instruction as written: its word and its arguments. */
  datatype Line = Line(word: string, args: string)

  /** A line of one of the seventeen words, with arguments that end in text. */
  predicate Written(l: Line) {
    !KindOf(l.word).Unknown? && EndsInText(l.args) && OneLine(l.args, 1000)
  }

  function Texts(ls: seq<Line>): (r: seq<string>)
    ensures |r| == |ls| && forall i :: 0 <= i < |r| ==> r[i] == ls[i].word + " " + ls[i].args
  {
    seq(|ls|, i requires 0 <= i < |ls| => ls[i].word + " " + ls[i].args)
  }

  lemma WrittenLine(l: Line)
    requires Written(l)
    ensures var t := l.word + " " + l.args;
            OneLine(t, MAX_LINE_LEN) && Classify(t + "\n") == Valid(KindOf(l.word), l.args)
  {
    InstructionLine(KindOf(l.word), l.args);
  }

  lemma {:induction false} AllValid(cs: seq<Class>)
    requires forall c :: c in cs ==> c.Valid?
    ensures |Directives(cs)| == |cs| && !Pending(cs)
    ensures forall i :: 0 <= i < |cs| ==> Directives(cs)[i] == Directive(cs[i].kind, cs[i].args, i + 1)
  {
    if cs == [] {
    } else {
      var n := |cs| - 1;
      AllValid(cs[..n]);
      assert cs[n] in cs && Directives(cs) == Directives(cs[..n]) + [Directive(cs[n].kind, cs[n].args, n + 1)];
    }
  }

  /** A file of such lines means exactly its lines: each word's kind, its arguments, and its place. */
  lemma WrittenFile(ls: seq<Line>)
    requires forall l :: l in ls ==> Written(l)
    ensures var ds := Meaning(Terminated(Texts(ls)));
            |ds| == |ls| && forall i :: 0 <= i < |ls| ==> ds[i] == Directive(KindOf(ls[i].word), ls[i].args, i + 1)
  {
    forall i | 0 <= i < |ls|
      ensures OneLine(Texts(ls)[i], MAX_LINE_LEN)
      ensures Classify(Texts(ls)[i] + "\n") == Valid(KindOf(ls[i].word), ls[i].args)
    {
      assert ls[i] in ls;
      WrittenLine(ls[i]);
    }
    LinesOfTerminated(Texts(ls), MAX_LINE_LEN);
    AllValid(Classes(WithNewline(Texts(ls))));
  }

  lemma OneInstruction(w: string, a: string)
    requires !KindOf(w).Unknown? && EndsInText(a) && OneLine(a, 1000)
    ensures Meaning(w + " " + a + "\n") == [Directive(KindOf(w), a, 1)]
  {
    var ls := [Line(w, a)];
    WrittenFile(ls);
    assert Texts(ls) == [w + " " + a];
    assert Terminated([w + " " + a]) == w + " " + a + "\n";
  }

  lemma {:induction false} TrimDropsLead(lead: string, t: string, tail: string)
    requires Trimmed(t) && t != "" && (forall c :: c in lead ==> IsBlank(c)) && (forall c :: c in tail ==> IsTail(c))
    ensures Trim(lead + (t + tail)) == t
  {
    var s := lead + (t + tail);
    if lead == "" {
      assert s == t + tail;
      TrimDropsTail(t, tail);
    } else {
      assert s[0] == lead[0] && lead[0] in lead && s[1..] == lead[1..] + (t + tail);
      assert forall c :: c in lead[1..] ==> c in lead;
      TrimDropsLead(lead[1..], t, tail);
    }
  }

  lemma PaddedClass(lead: string, w: string, a: string, tail: string)
    requires !KindOf(w).Unknown? && a != "" && !IsTail(a[|a| - 1])
    requires (forall c :: c in lead ==> IsBlank(c)) && (forall c :: c in tail ==> IsTail(c))
    ensures Classify(lead + (w + " " + a + tail)) == Valid(KindOf(w), a)
  {
    var t := w + " " + a;
    KeywordShape(KindOf(w));
    assert t[0] == w[0] && w[0] in w && t[|t| - 1] == a[|a| - 1];
    TrimDropsLead(lead, t, tail);
    TrimTrimmed(t);
    PrintedLineRecognised(w, a);
  }

  /** White space around an instruction does not matter: spaces and tabs before it, also a carriage return behind it. */
  lemma PaddedInstruction(lead: string, w: string, a: string, tail: string)
    requires !KindOf(w).Unknown? && a != "" && a[|a| - 1] !in {' ', '\t', '\n', '\r'}
    requires (forall c :: c in lead ==> c == ' ' || c == '\t') && (forall c :: c in tail ==> c in {' ', '\t', '\r'})
    requires OneLine(lead + (w + " " + a + tail), MAX_LINE_LEN)
    ensures Meaning(lead + (w + " " + a + tail) + "\n") == [Directive(KindOf(w), a, 1)]
  {
    var l := lead + (w + " " + a + tail);
    PaddedClass(lead, w, a, tail + "\n");
    Regroup(w + " " + a, tail, "\n");
    Regroup(lead, w + " " + a + tail, "\n");
    LineAlone(l, MAX_LINE_LEN);
    OneClass(Classes(Lines(l + "\n", MAX_LINE_LEN)));
  }

  lemma OneClass(cs: seq<Class>)
    requires |cs| == 1 && cs[0].Valid?
    ensures Directives(cs) == [Directive(cs[0].kind, cs[0].args, 1)]
  {
    assert cs[..0] == [] && Listed(Emits(cs, 0)) == [Directive(cs[0].kind, cs[0].args, 1)];
  }

  /** A file of one such line, for each of the words. */
  lemma OneLineFiles(w: string, a: string)
    requires EndsInText(a) && OneLine(a, 1000)
    ensures w == "FROM" ==> Meaning(w + " " + a + "\n") == [Directive(From, a, 1)]
    ensures w == "RUN" ==> Meaning(w + " " + a + "\n") == [Directive(Run, a, 1)]
    ensures w == "CMD" ==> Meaning(w + " " + a + "\n") == [Directive(Cmd, a, 1)]
    ensures w == "LABEL" ==> Meaning(w + " " + a + "\n") == [Directive(Label, a, 1)]
    ensures w == "EXPOSE" ==> Meaning(w + " " + a + "\n") == [Directive(Expose, a, 1)]
    ensures w == "ENV" ==> Meaning(w + " " + a + "\n") == [Directive(Env, a, 1)]
    ensures w == "ADD" ==> Meaning(w + " " + a + "\n") == [Directive(Add, a, 1)]
    ensures w == "COPY" ==> Meaning(w + " " + a + "\n") == [Directive(Copy, a, 1)]
    ensures w == "ENTRYPOINT" ==> Meaning(w + " " + a + "\n") == [Directive(Entrypoint, a, 1)]
  {
    WordsSpelled(w);
    if !KindOf(w).Unknown? {
      OneInstruction(w, a);
    }
  }

  lemma OtherOneLineFiles(w: string, a: string)
    requires EndsInText(a) && OneLine(a, 1000)
    ensures w == "VOLUME" ==> Meaning(w + " " + a + "\n") == [Directive(Volume, a, 1)]
    ensures w == "USER" ==> Meaning(w + " " + a + "\n") == [Directive(User, a, 1)]
    ensures w == "WORKDIR" ==> Meaning(w + " " + a + "\n") == [Directive(Workdir, a, 1)]
    ensures w == "ARG" ==> Meaning(w + " " + a + "\n") == [Directive(Arg, a, 1)]
    ensures w == "ONBUILD" ==> Meaning(w + " " + a + "\n") == [Directive(Onbuild, a, 1)]
    ensures w == "STOPSIGNAL" ==> Meaning(w + " " + a + "\n") == [Directive(Stopsignal, a, 1)]
    ensures w == "HEALTHCHECK" ==> Meaning(w + " " + a + "\n") == [Directive(Healthcheck, a, 1)]
    ensures w == "SHELL" ==> Meaning(w + " " + a + "\n") == [Directive(Shell, a, 1)]
  {
    WordsSpelled(w);
    if !KindOf(w).Unknown? {
      OneInstruction(w, a);
    }
  }

  lemma OtherWordInvalid(w: string, a: string)
    requires KindOf(w).Unknown? && w != "" && w[0] != '#' && (forall c :: c in w ==> !IsTail(c)) && EndsInText(a)
    ensures Classify(w + " " + a + "\n") == Invalid
  {
    var t := w + " " + a;
    assert w[0] in w && t[0] == w[0] && t[|t| - 1] == a[|a| - 1];
    TrimDropsTail(t, "\n");
    TrimTrimmed(t);
    BeforeStop(w, ' ', a);
    assert t == w + [' '] + a && t[..|w|] == w && |t| > 1;
  }

  /** A line that begins with any other word is no instruction. */
  lemma OtherWordsMeanNothing(w: string, a: string)
    requires KindOf(w).Unknown? && w != "" && w[0] != '#' && (forall c :: c in w ==> !IsTail(c)) && EndsInText(a)
    requires OneLine(w + " " + a, MAX_LINE_LEN)
    ensures Meaning(w + " " + a + "\n") == []
  {
    OtherWordInvalid(w, a);
    LineAlone(w + " " + a, MAX_LINE_LEN);
    var cs := Classes(Lines(w + " " + a + "\n", MAX_LINE_LEN));
    assert |cs| == 1 && cs[0] == Invalid && cs[..0] == [];
    assert Directives(cs[..0]) == [] && Listed(Emits(cs, 0)) == [];
    assert Directives(cs) == [] + [];
  }

  // ----- comments -----

  /** A line that begins with a number sign, behind blanks if there are any. */
  predicate Comment(l: string) {
    OneLine(l, 1024) && exists k :: 0 <= k < |l| && l[k] == '#' && forall i :: 0 <= i < k ==> IsBlank(l[i])
  }

  lemma {:induction false} BlanksDropped(l: string, k: nat)
    requires k < |l| && !IsBlank(l[k]) && forall i :: 0 <= i < k ==> IsBlank(l[i])
    ensures DropBlanks(l) == l[k..]
  {
    if k == 0 {
    } else {
      BlanksDropped(l[1..], k - 1);
      assert l[1..][k - 1..] == l[k..];
    }
  }

  lemma CommentIgnored(l: string)
    requires Comment(l)
    ensures Classify(l + "\n") == Ignored
  {
    var k :| 0 <= k < |l| && l[k] == '#' && forall i :: 0 <= i < k ==> IsBlank(l[i]);
    BlanksDropped(l + "\n", k);
  }

  lemma {:induction false} IgnoredInside(a: seq<Class>, b: seq<Class>)
    ensures Pending(a + [Ignored] + b) == Pending(a + b)
    ensures Said(Directives(a + [Ignored] + b)) == Said(Directives(a + b))
  {
    if b == [] {
      IgnoredLast(a);
      assert a + [Ignored] + b == a + [Ignored] && a + b == a;
    } else {
      var n := |b| - 1;
      var with, without := a + [Ignored] + b, a + b;
      IgnoredInside(a, b[..n]);
      assert with[..|with| - 1] == a + [Ignored] + b[..n] && without[..|without| - 1] == a + b[..n];
      SameLast(with, without);
    }
  }

  lemma IgnoredLast(a: seq<Class>)
    ensures Pending(a + [Ignored]) == Pending(a) && Directives(a + [Ignored]) == Directives(a)
  {
    assert (a + [Ignored])[..|a|] == a;
  }

  lemma SameLast(cs: seq<Class>, es: seq<Class>)
    requires cs != [] && es != [] && cs[|cs| - 1] == es[|es| - 1]
    requires var c, e := cs[..|cs| - 1], es[..|es| - 1];
             Pending(c) == Pending(e) && Said(Directives(c)) == Said(Directives(e))
    ensures Pending(cs) == Pending(es) && Said(Directives(cs)) == Said(Directives(es))
  {
    SaidAppend(Directives(cs[..|cs| - 1]), Listed(Emits(cs, |cs| - 1)));
    SaidAppend(Directives(es[..|es| - 1]), Listed(Emits(es, |es| - 1)));
  }

  lemma SaidAppend(a: seq<Directive>, b: seq<Directive>)
    ensures Said(a + b) == Said(a) + Said(b)
  {}

  lemma ClassesAppend(a: seq<string>, b: seq<string>)
    ensures Classes(a + b) == Classes(a) + Classes(b)
  {}

  /** A comment on a line of its own changes no instruction, anywhere in any file, even behind a lone backslash. */
  lemma CommentChangesNothing(before: string, comment: string, after: string)
    requires (before == "" || before[|before| - 1] == '\n') && Comment(comment)
    ensures Said(Meaning(before + (comment + "\n" + after))) == Said(Meaning(before + after))
  {
    var a, b := Lines(before, MAX_LINE_LEN), Lines(after, MAX_LINE_LEN);
    var line := comment + "\n";
    LinesAppend(before, line + after, MAX_LINE_LEN);
    LinesAppend(before, after, MAX_LINE_LEN);
    LinesAppend(line, after, MAX_LINE_LEN);
    LineAlone(comment, MAX_LINE_LEN);
    CommentIgnored(comment);
    ClassesAppend(a, [line] + b);
    ClassesAppend([line], b);
    ClassesAppend(a, b);
    assert Classes([line]) == [Ignored];
    Regroup(Classes(a), [Ignored], Classes(b));
    IgnoredInside(Classes(a), Classes(b));
  }

  // ----- long lines -----

  lemma {:induction false} DirectivesGrow(cs: seq<Class>, n: nat)
    requires n <= |cs|
    ensures Directives(cs[..n]) <= Directives(cs)
  {
    if n == |cs| {
      assert cs[..n] == cs;
    } else {
      var init := cs[..|cs| - 1];
      assert init[..n] == cs[..n];
      DirectivesGrow(init, n);
    }
  }

  lemma FirstPiece(s: string, rest: string)
    requires |s| == 1023 && '\n' !in s && '\0' !in s
    ensures Lines(s + rest, MAX_LINE_LEN) == [s] + Lines(rest, MAX_LINE_LEN)
  {
    var t := s + rest;
    assert t[..1023] == s && t[1023..] == rest;
    CStringWhole(s);
  }

  lemma PieceClassified(w: string, a: string)
    requires w != "" && (forall c :: c in w ==> IsCapital(c)) && EndsInText(a) && !KindOf(w).Unknown?
    ensures Classify(w + " " + a) == Valid(KindOf(w), a)
  {
    PrintedLineTrims(w, a);
    PrintedLineRecognised(w, a);
  }

  lemma FirstDirective(cs: seq<Class>)
    requires cs != [] && cs[0].Valid?
    ensures Directives(cs) != [] && Directives(cs)[0] == Directive(cs[0].kind, cs[0].args, 1)
  {
    assert cs[..1][..0] == [];
    assert Directives(cs[..1]) == [Directive(cs[0].kind, cs[0].args, 1)];
    DirectivesGrow(cs, 1);
  }

  /** Of a longer line the reader takes 1023 bytes at first, so its arguments end there. */
  lemma LongLineIsSplit(w: string, a: string, rest: string)
    requires !KindOf(w).Unknown? && |w + " " + a| == 1023 && EndsInText(a) && '\n' !in a && '\0' !in a
    ensures var ds := Meaning(w + " " + a + rest); ds != [] && ds[0] == Directive(KindOf(w), a, 1)
  {
    var s := w + " " + a;
    KeywordShape(KindOf(w));
    assert '\n' !in w && '\0' !in w;
    FirstPiece(s, rest);
    PieceClassified(w, a);
    FirstDirective(Classes(Lines(s + rest, MAX_LINE_LEN)));
  }

  // ----- the summary, field by field -----

  /** The last text, cut to its buffer; nothing if there is none. */
  function LastCut(list: seq<string>, n: nat): string {
    if list == [] then "" else Cut(list[|list| - 1], n)
  }

  ghost predicate Agrees(s: Summary, ds: seq<Directive>) {
    forall kind: Kind ::
      && (Scalar(s, kind).Some? ==> Scalar(s, kind).value == LastCut(ArgsOf(ds, kind), 511))
      && (ListField(s, kind).Some? ==>
          ListField(s, kind).value.0 == First(ArgsOf(ds, kind), ListField(s, kind).value.1))
  }

  lemma TextsByName(s: Summary, ds: seq<Directive>)
    requires Agrees(s, ds)
    ensures s.baseImage == LastCut(ArgsOf(ds, From), 511)
    ensures s.workingDir == LastCut(ArgsOf(ds, Workdir), 511)
    ensures s.user == LastCut(ArgsOf(ds, User), 511)
    ensures s.shell == LastCut(ArgsOf(ds, Shell), 511)
    ensures s.entrypoint == LastCut(ArgsOf(ds, Entrypoint), 511)
    ensures s.cmd == LastCut(ArgsOf(ds, Cmd), 511)
  {
    assert Scalar(s, From).Some? && Scalar(s, Workdir).Some? && Scalar(s, User).Some?;
    assert Scalar(s, Shell).Some? && Scalar(s, Entrypoint).Some? && Scalar(s, Cmd).Some?;
  }

  lemma ListsByName(s: Summary, ds: seq<Directive>)
    requires Agrees(s, ds)
    ensures s.envVars == First(ArgsOf(ds, Env), 256) && s.exposedPorts == First(ArgsOf(ds, Expose), 32)
    ensures s.volumes == First(ArgsOf(ds, Volume), 256) && s.labels == First(ArgsOf(ds, Label), 256)
  {
    assert ListField(s, Env).Some? && ListField(s, Expose).Some?;
    assert ListField(s, Volume).Some? && ListField(s, Label).Some?;
  }

  /** Each field of the record holds what its own instructions say. */
  lemma SummaryByName(ds: seq<Directive>)
    ensures var s := Summarise(ds);
            && s.baseImage == LastCut(ArgsOf(ds, From), 511)
            && s.workingDir == LastCut(ArgsOf(ds, Workdir), 511)
            && s.user == LastCut(ArgsOf(ds, User), 511)
            && s.shell == LastCut(ArgsOf(ds, Shell), 511)
            && s.entrypoint == LastCut(ArgsOf(ds, Entrypoint), 511)
            && s.cmd == LastCut(ArgsOf(ds, Cmd), 511)
            && s.envVars == First(ArgsOf(ds, Env), 256)
            && s.exposedPorts == First(ArgsOf(ds, Expose), 32)
            && s.volumes == First(ArgsOf(ds, Volume), 256)
            && s.labels == First(ArgsOf(ds, Label), 256)
  {
    var s := Summarise(ds);
    forall kind: Kind
      ensures Scalar(s, kind).Some? ==> Scalar(s, kind).value == LastCut(ArgsOf(ds, kind), 511)
      ensures ListField(s, kind).Some? ==>
                ListField(s, kind).value.0 == First(ArgsOf(ds, kind), ListField(s, kind).value.1)
    {
      SummaryFields(ds, kind);
    }
    TextsByName(s, ds);
    ListsByName(s, ds);
  }
}
