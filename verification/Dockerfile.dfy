/**
 What a Dockerfile says, line by line: trimming, recognising an instruction,
 the directives of a whole file, and the summary fields kept beside them.
 */
module Dockerfile {
  import opened CText

  const MAX_LINE_LEN: nat := 1024
  const MAX_ARG: nat := 511  // MAX_ARG_LEN and MAX_PATH_LEN less the terminator
  const MAX_ENV: nat := 256
  const MAX_PORT: nat := 32
  const MAX_VOLUME: nat := 256
  const MAX_LABEL: nat := 256

  datatype Kind =
    | Unknown | From | Run | Cmd | Label | Expose | Env | Add | Copy | Entrypoint | Volume
    | User | Workdir | Arg | Onbuild | Stopsignal | Healthcheck | Shell

  /** The word that names a kind; empty for the kind that has none. */
  function Keyword(k: Kind): string {
    match k
    case Unknown => ""
    case From => "FROM"
    case Run => "RUN"
    case Cmd => "CMD"
    case Label => "LABEL"
    case Expose => "EXPOSE"
    case Env => "ENV"
    case Add => "ADD"
    case Copy => "COPY"
    case Entrypoint => "ENTRYPOINT"
    case Volume => "VOLUME"
    case User => "USER"
    case Workdir => "WORKDIR"
    case Arg => "ARG"
    case Onbuild => "ONBUILD"
    case Stopsignal => "STOPSIGNAL"
    case Healthcheck => "HEALTHCHECK"
    case Shell => "SHELL"
  }

  const KINDS: seq<Kind> :=
    [From, Run, Cmd, Label, Expose, Env, Add, Copy, Entrypoint, Volume,
     User, Workdir, Arg, Onbuild, Stopsignal, Healthcheck, Shell]

  /** The chain of `strcmp` tests, in the order of `kinds`. */
  function KindAmong(word: string, kinds: seq<Kind>): (k: Kind)
    ensures !k.Unknown? ==> word == Keyword(k)
  {
    if kinds == [] then Unknown
    else if word == Keyword(kinds[0]) then kinds[0]
    else KindAmong(word, kinds[1..])
  }

  lemma {:induction false} KindIsFound(word: string, kinds: seq<Kind>, k: Kind)
    requires Unknown !in kinds && k in kinds && word == Keyword(k)
    ensures !KindAmong(word, kinds).Unknown?
  {
    if word == Keyword(kinds[0]) {
    } else {
      KindIsFound(word, kinds[1..], k);
    }
  }

  function KindOf(word: string): (k: Kind)
    ensures !k.Unknown? ==> word == Keyword(k)
  {
    KindAmong(word, KINDS)
  }

  predicate IsCapital(c: char) {
    'A' <= c <= 'Z'
  }

  lemma KeywordShape(k: Kind)
    requires !k.Unknown?
    ensures 0 < |Keyword(k)| <= 11 && forall c :: c in Keyword(k) ==> IsCapital(c)
  {}

  lemma KeywordInjective(j: Kind, k: Kind)
    requires !j.Unknown? && !k.Unknown? && Keyword(j) == Keyword(k)
    ensures j == k
  {
    var a, b := Keyword(j), Keyword(k);
    assert |a| == |b| && a[0] == b[0] && a[1] == b[1] && a[2] == b[2];
  }

  lemma KindListed(k: Kind)
    requires !k.Unknown?
    ensures k in KINDS
  {
    match k
    case From => assert KINDS[0] == k;
    case Run => assert KINDS[1] == k;
    case Cmd => assert KINDS[2] == k;
    case Label => assert KINDS[3] == k;
    case Expose => assert KINDS[4] == k;
    case Env => assert KINDS[5] == k;
    case Add => assert KINDS[6] == k;
    case Copy => assert KINDS[7] == k;
    case Entrypoint => assert KINDS[8] == k;
    case Volume => assert KINDS[9] == k;
    case User => assert KINDS[10] == k;
    case Workdir => assert KINDS[11] == k;
    case Arg => assert KINDS[12] == k;
    case Onbuild => assert KINDS[13] == k;
    case Stopsignal => assert KINDS[14] == k;
    case Healthcheck => assert KINDS[15] == k;
    case Shell => assert KINDS[16] == k;
  }

  /** The recognised words are exactly the keywords, each of its own kind. */
  lemma KindOfKeyword(k: Kind)
    requires !k.Unknown?
    ensures KindOf(Keyword(k)) == k
  {
    KindListed(k);
    KindIsFound(Keyword(k), KINDS, k);
    KeywordInjective(KindOf(Keyword(k)), k);
  }

  // ----- trimming -----

  predicate IsBlank(c: char) {
    c == ' ' || c == '\t'
  }

  predicate IsTail(c: char) {
    c == ' ' || c == '\t' || c == '\n' || c == '\r'
  }

  function DropBlanks(s: string): (r: string)
    ensures r == "" || !IsBlank(r[0])
  {
    if s != "" && IsBlank(s[0]) then DropBlanks(s[1..]) else s
  }

  /** Trailing white space goes, but never the first character. */
  function DropTail(s: string): (r: string)
    requires s != ""
    ensures r != "" && r[0] == s[0] && (|r| == 1 || !IsTail(r[|r| - 1]))
  {
    if 1 < |s| && IsTail(s[|s| - 1]) then DropTail(s[..|s| - 1]) else s
  }

  function Trim(s: string): string {
    var t := DropBlanks(s);
    if t == "" then "" else DropTail(t)
  }

  /** Nothing left to trim. */
  predicate Trimmed(t: string) {
    t == "" || (!IsBlank(t[0]) && (|t| == 1 || !IsTail(t[|t| - 1])))
  }

  lemma {:induction false} DropBlanksPart(s: string) returns (lead: string)
    ensures s == lead + DropBlanks(s) && forall c :: c in lead ==> IsBlank(c)
  {
    if s != "" && IsBlank(s[0]) {
      var more := DropBlanksPart(s[1..]);
      lead := [s[0]] + more;
    } else {
      lead := "";
    }
  }

  lemma {:induction false} DropTailPart(s: string) returns (tail: string)
    requires s != ""
    ensures s == DropTail(s) + tail && forall c :: c in tail ==> IsTail(c)
  {
    if 1 < |s| && IsTail(s[|s| - 1]) {
      var more := DropTailPart(s[..|s| - 1]);
      tail := more + [s[|s| - 1]];
      assert s == s[..|s| - 1] + [s[|s| - 1]];
    } else {
      tail := "";
    }
  }

  /** Trimming takes white space off both ends and nothing else. */
  lemma TrimCutsWhitespace(s: string) returns (lead: string, tail: string)
    ensures s == lead + Trim(s) + tail && Trimmed(Trim(s))
    ensures (forall c :: c in lead ==> IsBlank(c)) && (forall c :: c in tail ==> IsTail(c))
  {
    lead := DropBlanksPart(s);
    tail := "";
    if DropBlanks(s) != "" {
      tail := DropTailPart(DropBlanks(s));
    }
  }

  lemma TrimTrimmed(t: string)
    requires Trimmed(t)
    ensures Trim(t) == t
  {}

  /** White space around a trimmed text that has some other character is taken off again. */
  lemma {:induction false} TrimDropsTail(t: string, tail: string)
    requires Trimmed(t) && t != "" && forall c :: c in tail ==> IsTail(c)
    ensures Trim(t + tail) == t
  {
    assert DropBlanks(t + tail) == t + tail;
    if tail == "" {
      assert t + tail == t;
    } else {
      var init := tail[..|tail| - 1];
      assert (t + tail)[..|t + tail| - 1] == t + init;
      assert tail[|tail| - 1] in tail;
      assert forall c :: c in init ==> c in tail;
      TrimDropsTail(t, init);
    }
  }

  lemma TrimIdempotent(s: string)
    ensures Trim(Trim(s)) == Trim(s)
  {
    var _, _ := TrimCutsWhitespace(s);
    TrimTrimmed(Trim(s));
  }

  /** `is_continuation_line`, which trims its argument once more. */
  predicate IsContinuation(line: string) {
    Trim(line) == "\\"
  }

  // ----- lines to directives -----

  /** What one line is, before its neighbours are looked at. */
  datatype Class = Ignored | Backslash | Invalid | Valid(kind: Kind, args: string)

  /** The keyword up to the first space, and the rest. */
  function Recognise(text: string): Class {
    match Strchr(text, ' ')
    case None => Invalid
    case Some(k) =>
      var kind := KindOf(text[..k]);
      if kind.Unknown? then Invalid else Valid(kind, text[k + 1..])
  }

  function Classify(line: string): Class {
    var t := Trim(line);
    if t == "" || t[0] == '#' then Ignored
    else if IsContinuation(t) then Backslash
    else Recognise(t)
  }

  function Classes(lines: seq<string>): (cs: seq<Class>)
    ensures |cs| == |lines| && forall i :: 0 <= i < |lines| ==> cs[i] == Classify(lines[i])
  {
    seq(|lines|, i requires 0 <= i < |lines| => Classify(lines[i]))
  }

  /** An instruction as written: its full arguments and its line number. */
  datatype Directive = Directive(kind: Kind, args: string, line: nat)

  /** The last line that is not ignored is a lone backslash. */
  predicate Pending(cs: seq<Class>) {
    cs != [] &&
    var last := cs[|cs| - 1];
    if last.Ignored? then Pending(cs[..|cs| - 1]) else last.Backslash?
  }

  /** What line `i` contributes. A line after a lone backslash is lost. */
  function Emits(cs: seq<Class>, i: nat): Option<Directive>
    requires i < |cs|
  {
    if cs[i].Valid? && !Pending(cs[..i]) then Some(Directive(cs[i].kind, cs[i].args, i + 1)) else None
  }

  function Listed(d: Option<Directive>): seq<Directive> {
    if d.None? then [] else [d.value]
  }

  /** The plain filter-map over the lines of a file. */
  function Directives(cs: seq<Class>): seq<Directive> {
    if cs == [] then []
    else Directives(cs[..|cs| - 1]) + Listed(Emits(cs, |cs| - 1))
  }

  /** The directives of a whole file. */
  function Meaning(text: string): seq<Directive> {
    Directives(Classes(Lines(text, MAX_LINE_LEN)))
  }

  /** The entry comes from the line it names. */
  predicate NamesItsLine(cs: seq<Class>, d: Directive) {
    1 <= d.line <= |cs| && Emits(cs, d.line - 1) == Some(d)
  }

  lemma NamesItsLineLater(cs: seq<Class>, n: nat, d: Directive)
    requires n <= |cs| && NamesItsLine(cs[..n], d)
    ensures NamesItsLine(cs, d) && d.line <= n
  {
    assert cs[..n][..d.line - 1] == cs[..d.line - 1];
  }

  /** Every directive comes from the line it names, and lines increase along the result. */
  lemma {:induction false} DirectivesNameTheirLines(cs: seq<Class>)
    ensures forall a :: 0 <= a < |Directives(cs)| ==> NamesItsLine(cs, Directives(cs)[a])
    ensures forall a, b :: 0 <= a < b < |Directives(cs)| ==> Directives(cs)[a].line < Directives(cs)[b].line
  {
    if cs == [] {
    } else {
      var n := |cs| - 1;
      var init := Directives(cs[..n]);
      DirectivesNameTheirLines(cs[..n]);
      forall a | 0 <= a < |init|
        ensures NamesItsLine(cs, init[a]) && init[a].line <= n
      {
        NamesItsLineLater(cs, n, init[a]);
      }
      assert Directives(cs) == init + Listed(Emits(cs, n));
    }
  }

  /** No line that emits something is left out. */
  lemma {:induction false} DirectivesComplete(cs: seq<Class>, i: nat)
    requires i < |cs| && Emits(cs, i).Some?
    ensures Emits(cs, i).value in Directives(cs)
  {
    if i == |cs| - 1 {
    } else {
      assert cs[..|cs| - 1][..i] == cs[..i];
      DirectivesComplete(cs[..|cs| - 1], i);
    }
  }

  /** Line `j` is a lone backslash and everything after it is ignored. */
  predicate OpenAt(cs: seq<Class>, j: int) {
    0 <= j < |cs| && cs[j].Backslash? && forall k :: j < k < |cs| ==> cs[k].Ignored?
  }

  /** The last significant line is a lone backslash, if and only if some line is one and only ignored lines follow. */
  lemma {:induction false} PendingMeaning(cs: seq<Class>)
    ensures Pending(cs) <==> exists j :: OpenAt(cs, j)
  {
    if cs == [] {
    } else {
      var n := |cs| - 1;
      PendingMeaning(cs[..n]);
      if cs[n].Ignored? {
        assert forall j :: j < n ==> (OpenAt(cs, j) <==> OpenAt(cs[..n], j));
      } else {
        assert cs[n].Backslash? <==> OpenAt(cs, n);
      }
    }
  }

  /** An instruction with an open backslash before it. */
  predicate Lost(cs: seq<Class>, i: nat)
    requires i < |cs|
  {
    cs[i].Valid? && exists j :: 0 <= j < i && OpenAt(cs[..i], j)
  }

  /** Of the instruction lines exactly those behind an open backslash are missing from the result. */
  lemma LostLines(cs: seq<Class>, i: nat)
    requires i < |cs| && cs[i].Valid?
    ensures Directive(cs[i].kind, cs[i].args, i + 1) in Directives(cs) <==> !Lost(cs, i)
  {
    var d := Directive(cs[i].kind, cs[i].args, i + 1);
    PendingMeaning(cs[..i]);
    DirectivesNameTheirLines(cs);
    assert d in Directives(cs) ==> NamesItsLine(cs, d);
    if !Lost(cs, i) {
      DirectivesComplete(cs, i);
    }
  }

  /** The recognised lines, with no regard to continuation. */
  function Plain(cs: seq<Class>): seq<Directive> {
    if cs == [] then []
    else
      var n := |cs| - 1;
      Plain(cs[..n]) + if cs[n].Valid? then [Directive(cs[n].kind, cs[n].args, n + 1)] else []
  }

  lemma {:induction false} NoMoreThanPlain(cs: seq<Class>)
    ensures |Directives(cs)| <= |Plain(cs)|
  {
    if cs == [] {
    } else {
      NoMoreThanPlain(cs[..|cs| - 1]);
    }
  }

  /** The result is the plain filter-map of the lines if and only if no instruction has an open backslash before it. */
  lemma {:induction false} NothingLost(cs: seq<Class>)
    ensures Directives(cs) == Plain(cs) <==> forall i :: 0 <= i < |cs| ==> !Lost(cs, i)
  {
    if cs == [] {
    } else {
      var n := |cs| - 1;
      var init := cs[..n];
      NothingLost(init);
      NoMoreThanPlain(init);
      PendingMeaning(init);
      forall i | 0 <= i < n
        ensures Lost(cs, i) <==> Lost(init, i)
      {
        assert init[..i] == cs[..i];
      }
      if Lost(cs, n) {
        assert |Directives(cs)| == |Directives(init)| && |Plain(cs)| == |Plain(init)| + 1;
      } else {
        var last := Listed(Emits(cs, n));
        assert Directives(cs) == Directives(init) + last && Plain(cs) == Plain(init) + last;
        SameTail(Directives(init), Plain(init), last);
      }
    }
  }

  lemma SameTail<T>(a: seq<T>, b: seq<T>, c: seq<T>)
    ensures a + c == b + c <==> a == b
  {
    if a + c == b + c {
      assert |a| == |b| && a == (a + c)[..|a|] && b == (b + c)[..|b|];
    }
  }

  // ----- printed lines -----

  predicate EndsInText(args: string) {
    args != "" && !IsTail(args[|args| - 1])
  }

  lemma PrintedLineTrims(word: string, args: string)
    requires word != "" && IsCapital(word[0]) && EndsInText(args)
    ensures var t := word + " " + args;
            Trim(t + "\n") == t && Trim(t) == t && t[0] == word[0]
  {
    var t := word + " " + args;
    assert t[0] == word[0] && t[|t| - 1] == args[|args| - 1];
    TrimDropsTail(t, "\n");
    TrimTrimmed(t);
  }

  lemma PrintedLineRecognised(word: string, args: string)
    requires ' ' !in word && !KindOf(word).Unknown?
    ensures Recognise(word + " " + args) == Valid(KindOf(word), args)
  {
    BeforeStop(word, ' ', args);
    var t := word + [' '] + args;
    assert t == word + " " + args;
    assert t[..|word|] == word && t[|word| + 1..] == args;
  }

  lemma PrintedLineReadsBack(kind: Kind, args: string)
    requires !kind.Unknown? && EndsInText(args)
    ensures Classify(Keyword(kind) + " " + args + "\n") == Valid(kind, args)
  {
    KindOfKeyword(kind);
    KeywordShape(kind);
    CapitalLine(Keyword(kind), args);
  }

  lemma CapitalLine(word: string, args: string)
    requires word != "" && (forall c :: c in word ==> IsCapital(c)) && EndsInText(args)
    requires !KindOf(word).Unknown?
    ensures Classify(word + " " + args + "\n") == Valid(KindOf(word), args)
  {
    PrintedLineTrims(word, args);
    PrintedLineRecognised(word, args);
  }

  lemma ThreeLines(a: string, b: string, c: string)
    requires OneLine(a, MAX_LINE_LEN) && OneLine(b, MAX_LINE_LEN) && OneLine(c, MAX_LINE_LEN)
    ensures Classes(Lines(Terminated([a, b, c]), MAX_LINE_LEN))
            == [Classify(a + "\n"), Classify(b + "\n"), Classify(c + "\n")]
  {
    LinesOfTerminated([a, b, c], MAX_LINE_LEN);
  }

  lemma JoinedOneLine(word: string, args: string)
    requires |word| <= 11 && (forall c :: c in word ==> IsCapital(c)) && OneLine(args, 1000)
    ensures OneLine(word + " " + args, MAX_LINE_LEN)
  {
    assert '\n' !in word && '\0' !in word;
  }

  lemma InstructionLine(kind: Kind, args: string)
    requires !kind.Unknown? && EndsInText(args) && OneLine(args, 1000)
    ensures var l := Keyword(kind) + " " + args; OneLine(l, MAX_LINE_LEN) && Classify(l + "\n") == Valid(kind, args)
  {
    KeywordShape(kind);
    JoinedOneLine(Keyword(kind), args);
    PrintedLineReadsBack(kind, args);
  }

  /** A witness: of an instruction, a lone backslash and another instruction only the first is in the result. */
  lemma LineAfterBackslashIsLost(first: Kind, base: string, second: Kind, command: string)
    requires !first.Unknown? && EndsInText(base) && OneLine(base, 1000)
    requires !second.Unknown? && EndsInText(command) && OneLine(command, 1000)
    ensures Meaning(Terminated([Keyword(first) + " " + base, "\\", Keyword(second) + " " + command]))
            == [Directive(first, base, 1)]
  {
    var backslash := "\\";
    InstructionLine(first, base);
    InstructionLine(second, command);
    BackslashLine();
    ThreeLines(Keyword(first) + " " + base, backslash, Keyword(second) + " " + command);
    ThirdIsLost([Valid(first, base), Backslash, Valid(second, command)]);
  }

  lemma BackslashLine()
    ensures OneLine("\\", MAX_LINE_LEN) && Classify("\\" + "\n") == Backslash
  {
    TrimDropsTail("\\", "\n");
    TrimTrimmed("\\");
  }

  lemma ThirdIsLost(cs: seq<Class>)
    requires |cs| == 3 && cs[0].Valid? && cs[1].Backslash? && cs[2].Valid?
    ensures Directives(cs) == [Directive(cs[0].kind, cs[0].args, 1)] && Lost(cs, 2)
  {
    assert cs[..2][..1] == cs[..1] && cs[..1][..0] == [];
    assert OpenAt(cs[..2], 1);
    assert Directives(cs[..1]) == [Directive(cs[0].kind, cs[0].args, 1)];
    assert Pending(cs[..2]);
  }

  // ----- what is known of the arguments -----

  /** Kept arguments: non-empty, ending in no white space, on one line, without NUL. */
  predicate GoodArgs(args: string) {
    args != "" && !IsTail(args[|args| - 1]) && '\n' !in args && '\0' !in args
  }

  /** Trimming leaves a newline only where it is the whole text. */
  lemma TrimmedLine(line: string)
    requires FileLine(line)
    ensures var t := Trim(line); '\0' !in t && (1 < |t| ==> '\n' !in t)
  {
    var t := Trim(line);
    var lead, tail := TrimCutsWhitespace(line);
    assert forall i :: 0 <= i < |t| ==> line[|lead| + i] == t[i];
    if 1 < |t| {
      forall i | 0 <= i < |t|
        ensures t[i] != '\n'
      {
        if i < |t| - 1 {
          assert line[..|line| - 1][|lead| + i] == t[i];
        }
      }
    }
  }

  /** A recognised text is its keyword, one space and non-empty arguments. */
  lemma RecognisedShape(t: string)
    requires Trimmed(t)
    ensures var c := Recognise(t);
            c.Valid? ==> !c.kind.Unknown? && t == Keyword(c.kind) + " " + c.args
                         && c.args != "" && !IsTail(c.args[|c.args| - 1])
  {
    var c := Recognise(t);
    if c.Valid? {
      var k := Strchr(t, ' ').value;
      assert t == t[..k] + " " + c.args;
      assert t[k] == ' ' && !IsTail(t[|t| - 1]);
      assert c.args[|c.args| - 1] == t[|t| - 1];
    }
  }

  lemma ClassifiedGood(line: string)
    requires FileLine(line)
    ensures var c := Classify(line); c.Valid? ==> !c.kind.Unknown? && GoodArgs(c.args)
  {
    var t := Trim(line);
    var _, _ := TrimCutsWhitespace(line);
    TrimmedLine(line);
    var c := Recognise(t);
    if c.Valid? {
      RecognisedShape(t);
      assert forall i :: 0 <= i < |c.args| ==> c.args[i] == t[|t| - |c.args| + i] && c.args[i] in t;
    }
  }

  predicate GoodDirective(d: Directive) {
    !d.kind.Unknown? && GoodArgs(d.args)
  }

  lemma MeaningIsGood(text: string)
    ensures forall d :: d in Meaning(text) ==> GoodDirective(d)
  {
    var lines := Lines(text, MAX_LINE_LEN);
    LinesAreFileLines(text, MAX_LINE_LEN);
    DirectivesNameTheirLines(Classes(lines));
    forall d | d in Meaning(text)
      ensures GoodDirective(d)
    {
      assert NamesItsLine(Classes(lines), d);
      assert lines[d.line - 1] in lines;
      ClassifiedGood(lines[d.line - 1]);
    }
  }

  // ----- what the parser stores -----

  datatype Instruction = Instruction(kind: Kind, name: string, args: string, line: nat)

  function Store(d: Directive): Instruction {
    Instruction(d.kind, Keyword(d.kind), Cut(d.args, MAX_ARG), d.line)
  }

  function Stored(ds: seq<Directive>): (r: seq<Instruction>)
    ensures |r| == |ds|
    ensures forall i :: 0 <= i < |ds| ==> r[i] == Store(ds[i])
  {
    seq(|ds|, i requires 0 <= i < |ds| => Store(ds[i]))
  }

  datatype Summary = Summary(
    baseImage: string, workingDir: string, user: string, shell: string, entrypoint: string, cmd: string,
    envVars: seq<string>, exposedPorts: seq<string>, volumes: seq<string>, labels: seq<string>)

  const EMPTY_SUMMARY := Summary("", "", "", "", "", "", [], [], [], [])

  /** Appends while there is room. */
  function Push(list: seq<string>, x: string, cap: nat): seq<string> {
    if |list| < cap then list + [x] else list
  }

  /** The `switch` of the parser. */
  function Note(s: Summary, kind: Kind, args: string): Summary {
    match kind
    case From => s.(baseImage := Cut(args, MAX_ARG))
    case Workdir => s.(workingDir := Cut(args, MAX_ARG))
    case User => s.(user := Cut(args, MAX_ARG))
    case Shell => s.(shell := Cut(args, MAX_ARG))
    case Entrypoint => s.(entrypoint := Cut(args, MAX_ARG))
    case Cmd => s.(cmd := Cut(args, MAX_ARG))
    case Env => s.(envVars := Push(s.envVars, args, MAX_ENV))
    case Expose => s.(exposedPorts := Push(s.exposedPorts, args, MAX_PORT))
    case Volume => s.(volumes := Push(s.volumes, args, MAX_VOLUME))
    case Label => s.(labels := Push(s.labels, args, MAX_LABEL))
    case _ => s
  }

  function Summarise(ds: seq<Directive>): Summary {
    if ds == [] then EMPTY_SUMMARY
    else
      var n := |ds| - 1;
      Note(Summarise(ds[..n]), ds[n].kind, ds[n].args)
  }

  /** The arguments of all directives of one kind, in order. */
  function ArgsOf(ds: seq<Directive>, kind: Kind): seq<string> {
    if ds == [] then []
    else
      var n := |ds| - 1;
      ArgsOf(ds[..n], kind) + if ds[n].kind == kind then [ds[n].args] else []
  }

  function First(list: seq<string>, n: nat): seq<string> {
    if |list| <= n then list else list[..n]
  }

  function LastOf(list: seq<string>): string {
    if list == [] then "" else Cut(list[|list| - 1], MAX_ARG)
  }

  /** The text field that belongs to a kind, if it has one. */
  function Scalar(s: Summary, kind: Kind): Option<string> {
    match kind
    case From => Some(s.baseImage)
    case Workdir => Some(s.workingDir)
    case User => Some(s.user)
    case Shell => Some(s.shell)
    case Entrypoint => Some(s.entrypoint)
    case Cmd => Some(s.cmd)
    case _ => None
  }

  /** The list field that belongs to a kind, and its size. */
  function ListField(s: Summary, kind: Kind): Option<(seq<string>, nat)> {
    match kind
    case Env => Some((s.envVars, MAX_ENV))
    case Expose => Some((s.exposedPorts, MAX_PORT))
    case Volume => Some((s.volumes, MAX_VOLUME))
    case Label => Some((s.labels, MAX_LABEL))
    case _ => None
  }

  lemma NoteScalar(s: Summary, noted: Kind, args: string, kind: Kind)
    requires Scalar(s, kind).Some?
    ensures Scalar(Note(s, noted, args), kind) == if noted == kind then Some(Cut(args, MAX_ARG)) else Scalar(s, kind)
  {}

  lemma NoteList(s: Summary, noted: Kind, args: string, kind: Kind)
    requires ListField(s, kind).Some?
    ensures var (list, cap) := ListField(s, kind).value;
            ListField(Note(s, noted, args), kind) == Some((if noted == kind then Push(list, args, cap) else list, cap))
  {}

  lemma {:induction false} ScalarIsLast(ds: seq<Directive>, kind: Kind)
    requires Scalar(EMPTY_SUMMARY, kind).Some?
    ensures Scalar(Summarise(ds), kind) == Some(LastOf(ArgsOf(ds, kind)))
  {
    if ds == [] {
    } else {
      var n := |ds| - 1;
      ScalarIsLast(ds[..n], kind);
      NoteScalar(Summarise(ds[..n]), ds[n].kind, ds[n].args, kind);
    }
  }

  lemma PushFirst(all: seq<string>, a: string, cap: nat)
    ensures Push(First(all, cap), a, cap) == First(all + [a], cap)
  {
    assert |all| >= cap ==> (all + [a])[..cap] == all[..cap];
  }

  lemma {:induction false} ListIsFirst(ds: seq<Directive>, kind: Kind)
    requires ListField(EMPTY_SUMMARY, kind).Some?
    ensures var cap := ListField(EMPTY_SUMMARY, kind).value.1;
            ListField(Summarise(ds), kind) == Some((First(ArgsOf(ds, kind), cap), cap))
  {
    if ds == [] {
    } else {
      var n := |ds| - 1;
      ListIsFirst(ds[..n], kind);
      var cap := ListField(EMPTY_SUMMARY, kind).value.1;
      NoteList(Summarise(ds[..n]), ds[n].kind, ds[n].args, kind);
      PushFirst(ArgsOf(ds[..n], kind), ds[n].args, cap);
      assert ArgsOf(ds[..n], kind) + [] == ArgsOf(ds[..n], kind);
    }
  }

  lemma FieldOfKind(s: Summary, kind: Kind)
    ensures Scalar(s, kind).Some? <==> Scalar(EMPTY_SUMMARY, kind).Some?
    ensures ListField(s, kind).Some? <==> ListField(EMPTY_SUMMARY, kind).Some?
  {}

  /** Text fields are last-wins; list fields are the first ones up to the cap. */
  lemma SummaryFields(ds: seq<Directive>, kind: Kind)
    ensures var s := Summarise(ds);
            && (Scalar(s, kind).Some? ==> Scalar(s, kind).value == LastOf(ArgsOf(ds, kind)))
            && (ListField(s, kind).Some? ==>
                ListField(s, kind).value.0 == First(ArgsOf(ds, kind), ListField(s, kind).value.1))
  {
    FieldOfKind(Summarise(ds), kind);
    if Scalar(EMPTY_SUMMARY, kind).Some? {
      ScalarIsLast(ds, kind);
    }
    if ListField(EMPTY_SUMMARY, kind).Some? {
      ListIsFirst(ds, kind);
    }
  }

  lemma {:induction false} ArgsOfFrom(ds: seq<Directive>, kind: Kind)
    ensures forall a :: a in ArgsOf(ds, kind) ==> exists d :: d in ds && d.kind == kind && d.args == a
    ensures forall d :: d in ds && d.kind == kind ==> d.args in ArgsOf(ds, kind)
  {
    if ds == [] {
    } else {
      var n := |ds| - 1;
      ArgsOfFrom(ds[..n], kind);
      assert ds == ds[..n] + [ds[n]];
      forall a | a in ArgsOf(ds, kind)
        ensures exists d :: d in ds && d.kind == kind && d.args == a
      {
        if a in ArgsOf(ds[..n], kind) {
          var d :| d in ds[..n] && d.kind == kind && d.args == a;
          assert d in ds;
        } else {
          assert ds[n] in ds && ds[n].kind == kind && ds[n].args == a;
        }
      }
    }
  }

  // ----- validation -----

  predicate Accepted(instrs: seq<Instruction>) {
    instrs != [] && instrs[0].kind == From
  }

  lemma FirstFromHasBase(ds: seq<Directive>)
    requires ds != [] && ds[0].kind == From && forall d :: d in ds ==> d.args != ""
    ensures ArgsOf(ds, From) != []
    ensures Summarise(ds).baseImage == LastOf(ArgsOf(ds, From)) && Summarise(ds).baseImage != ""
  {
    SummaryFields(ds, From);
    ArgsOfFrom(ds, From);
    assert ds[0] in ds && ds[0].args in ArgsOf(ds, From);
    var all := ArgsOf(ds, From);
    assert all[|all| - 1] in all;
  }

  /** An accepted file has a base image: that of its last FROM. */
  lemma AcceptedHasBase(text: string)
    requires Accepted(Stored(Meaning(text)))
    ensures var froms, base := ArgsOf(Meaning(text), From), Summarise(Meaning(text)).baseImage;
            froms != [] && base == Cut(froms[|froms| - 1], MAX_ARG) && base != ""
  {
    MeaningIsGood(text);
    FirstFromHasBase(Meaning(text));
  }
}
