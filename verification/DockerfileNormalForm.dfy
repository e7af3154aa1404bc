/** Printing the stored instructions, one `INSTR args` per line, and parsing that again. */
module DockerfileNormalForm {
  import opened CText
  import opened Dockerfile

  function Printed(instrs: seq<Instruction>): (ls: seq<string>)
    ensures |ls| == |instrs|
    ensures forall i :: 0 <= i < |ls| ==> ls[i] == instrs[i].name + " " + instrs[i].args
  {
    seq(|instrs|, i requires 0 <= i < |instrs| => instrs[i].name + " " + instrs[i].args)
  }

  function Reprint(text: string): string {
    Terminated(Printed(Stored(Meaning(text))))
  }

  /** Arguments as they are once stored: non-empty, at most 511 bytes, on one line. */
  predicate Storable(args: string) {
    args != "" && |args| <= MAX_ARG && '\n' !in args && '\0' !in args
  }

  lemma PrintedIsOneLine(kind: Kind, args: string)
    requires !kind.Unknown? && Storable(args)
    ensures OneLine(Keyword(kind) + " " + args, MAX_LINE_LEN)
  {
    KeywordShape(kind);
  }

  /** Where every line is an instruction, the result lists them by position. */
  lemma {:induction false} PlainOfValids(cs: seq<Class>)
    requires forall c :: c in cs ==> c.Valid?
    ensures |Plain(cs)| == |cs|
    ensures forall i :: 0 <= i < |cs| ==> Plain(cs)[i] == Directive(cs[i].kind, cs[i].args, i + 1)
  {
    if cs == [] {
    } else {
      PlainOfValids(cs[..|cs| - 1]);
    }
  }

  predicate Printable(x: Instruction) {
    !x.kind.Unknown? && x.name == Keyword(x.kind) && Storable(x.args)
  }

  /** The instructions of a file, as the parser stores them. */
  lemma StoredArgs(text: string)
    ensures forall x :: x in Stored(Meaning(text)) ==> Printable(x)
  {
    MeaningIsGood(text);
    var ds := Meaning(text);
    forall x | x in Stored(ds)
      ensures Printable(x)
    {
      var i :| 0 <= i < |ds| && x == Store(ds[i]);
      assert ds[i] in ds;
    }
  }

  /** A directive or a stored instruction without its place. */
  datatype Words = Words(kind: Kind, args: string)

  function Said(ds: seq<Directive>): (r: seq<Words>)
    ensures |r| == |ds| && forall i :: 0 <= i < |ds| ==> r[i] == Words(ds[i].kind, ds[i].args)
  {
    seq(|ds|, i requires 0 <= i < |ds| => Words(ds[i].kind, ds[i].args))
  }

  function Kept(xs: seq<Instruction>): (r: seq<Words>)
    ensures |r| == |xs| && forall i :: 0 <= i < |xs| ==> r[i] == Words(xs[i].kind, xs[i].args)
  {
    seq(|xs|, i requires 0 <= i < |xs| => Words(xs[i].kind, xs[i].args))
  }

  lemma PrintedAreLines(instrs: seq<Instruction>)
    requires forall x :: x in instrs ==> Printable(x)
    ensures forall l :: l in Printed(instrs) ==> OneLine(l, MAX_LINE_LEN)
  {
    forall i | 0 <= i < |instrs|
      ensures OneLine(Printed(instrs)[i], MAX_LINE_LEN)
    {
      assert Printable(instrs[i]);
      PrintedIsOneLine(instrs[i].kind, instrs[i].args);
    }
  }

  lemma PrintedClasses(instrs: seq<Instruction>)
    requires forall x :: x in instrs ==> Printable(x) && EndsInText(x.args)
    ensures var cs := Classes(WithNewline(Printed(instrs)));
            forall i :: 0 <= i < |instrs| ==> cs[i] == Valid(instrs[i].kind, instrs[i].args)
  {
    var ls := WithNewline(Printed(instrs));
    forall i | 0 <= i < |instrs|
      ensures Classify(ls[i]) == Valid(instrs[i].kind, instrs[i].args)
    {
      assert instrs[i] in instrs;
      PrintedLineReadsBack(instrs[i].kind, instrs[i].args);
    }
  }

  lemma ReparseOfGood(text: string)
    requires forall x :: x in Stored(Meaning(text)) ==> EndsInText(x.args)
    ensures Said(Meaning(Reprint(text))) == Kept(Stored(Meaning(text)))
  {
    var instrs := Stored(Meaning(text));
    var printed := Printed(instrs);
    StoredArgs(text);
    PrintedAreLines(instrs);
    LinesOfTerminated(printed, MAX_LINE_LEN);
    var cs := Classes(WithNewline(printed));
    PrintedClasses(instrs);
    NothingLost(cs);
    PlainOfValids(cs);
  }

  /**
   Parsing the printed form gives the same kinds and arguments if and only if
   no stored argument ends in white space (only the 511-byte cut can leave one).
   */
  lemma NormalForm(text: string)
    ensures Said(Meaning(Reprint(text))) == Kept(Stored(Meaning(text)))
            <==> forall x :: x in Stored(Meaning(text)) ==> EndsInText(x.args)
  {
    var instrs, again := Stored(Meaning(text)), Meaning(Reprint(text));
    if forall x :: x in instrs ==> EndsInText(x.args) {
      ReparseOfGood(text);
    }
    if Said(again) == Kept(instrs) {
      MeaningIsGood(Reprint(text));
      forall x | x in instrs
        ensures EndsInText(x.args)
      {
        var i :| 0 <= i < |instrs| && x == instrs[i];
        assert |Said(again)| == |Kept(instrs)| && Said(again)[i] == Kept(instrs)[i] && again[i] in again;
      }
    }
  }

  lemma {:induction false} SummaryOfWords(a: seq<Directive>, b: seq<Directive>)
    requires Said(a) == Said(b)
    ensures Summarise(a) == Summarise(b)
  {
    assert |Said(a)| == |Said(b)|;
    if a == [] {
    } else {
      var n := |a| - 1;
      assert Said(a[..n]) == Said(a)[..n] && Said(b[..n]) == Said(b)[..n] && Said(a)[n] == Said(b)[n];
      SummaryOfWords(a[..n], b[..n]);
    }
  }

  /** With arguments of at most 511 bytes the second parse has the same words and the same summary. */
  lemma NormalFormOfShortArgs(text: string)
    requires forall d :: d in Meaning(text) ==> |d.args| <= MAX_ARG
    ensures Said(Meaning(Reprint(text))) == Said(Meaning(text))
    ensures Summarise(Meaning(Reprint(text))) == Summarise(Meaning(text))
  {
    var ds := Meaning(text);
    MeaningIsGood(text);
    forall x | x in Stored(ds)
      ensures EndsInText(x.args)
    {
      var i :| 0 <= i < |ds| && x == Store(ds[i]);
      assert ds[i] in ds;
    }
    ReparseOfGood(text);
    forall i | 0 <= i < |ds|
      ensures Stored(ds)[i].kind == ds[i].kind && Stored(ds)[i].args == ds[i].args
    {
      assert ds[i] in ds;
    }
    SummaryOfWords(Meaning(Reprint(text)), ds);
  }
}
