/**
 The metadata format shared by containers and images: one `"key": value` line
 per field, read back by a chain of substring tests followed by `sscanf`.
 */
module KeyedLines {
  import opened CText

  datatype Value = Text(text: string) | Number(n: int)

  datatype Field = Field(key: string, value: Value, end: string)

  /** One test of the chain: the keyword, and whether its format is `%d`. */
  datatype Slot = Slot(key: string, numeric: bool)

  function Quoted(s: string): string {
    "\"" + s + "\""
  }

  function Shown(f: Field): string {
    match f.value
    case Text(s) => "\"" + (s + "\"" + f.end)
    case Number(n) => Dec(n) + f.end
  }

  /** `  "key": "text",` or `  "key": number,` */
  function Print(f: Field): string {
    "  " + "\"" + (f.key + "\"" + (": " + Shown(f)))
  }

  /** `sscanf(line, "  \"key\":`: the keyword and its colon, after white space. */
  function AfterKey(key: string, line: string): Option<string> {
    var a := SkipSpace(line);
    var head := Quoted(key) + ":";
    if head <= a then Some(SkipSpace(a[|head|..])) else None
  }

  /** The format `"%[^"]"`, which needs at least one character. */
  function ScanQuoted(s: string): Option<string> {
    if s == "" || s[0] != '"' || Before(s[1..], '"') == "" then None else Some(Before(s[1..], '"'))
  }

  function Scan(slot: Slot, line: string): (r: Option<Value>)
    ensures r.Some? ==> r.value.Number? == slot.numeric
  {
    match AfterKey(slot.key, line)
    case None => None
    case Some(rest) =>
      if slot.numeric then
        match ScanInt(rest) case None => None case Some(n) => Some(Number(n))
      else
        match ScanQuoted(rest) case None => None case Some(s) => Some(Text(s))
  }

  /** The first slot whose quoted keyword occurs in the line. */
  function Dispatch(slots: seq<Slot>, line: string): (j: nat)
    ensures j <= |slots| && forall i :: 0 <= i < j ==> !Contains(line, Quoted(slots[i].key))
    ensures j < |slots| ==> Contains(line, Quoted(slots[j].key))
  {
    if slots == [] then 0
    else if Contains(line, Quoted(slots[0].key)) then 0
    else
      var k := Dispatch(slots[1..], line);
      assert forall i :: 0 < i < 1 + k ==> slots[i] == slots[1..][i - 1];
      1 + k
  }

  predicate Assigns(slots: seq<Slot>, line: string, j: int) {
    0 <= j < |slots| && Dispatch(slots, line) == j && Scan(slots[j], line).Some?
  }

  /** The slots hold numbers and texts as their formats read them. */
  predicate Typed(slots: seq<Slot>, r: seq<Value>) {
    |r| == |slots| && forall j :: 0 <= j < |r| ==> r[j].Number? == slots[j].numeric
  }

  /** One turn of the reading loop. */
  function Absorb(slots: seq<Slot>, r: seq<Value>, line: string): (u: seq<Value>)
    requires |r| == |slots|
    ensures |u| == |r|
    ensures forall j :: 0 <= j < |r| ==>
              u[j] == if Assigns(slots, line, j) then Scan(slots[j], line).value else r[j]
  {
    var j := Dispatch(slots, line);
    if Assigns(slots, line, j) then r[j := Scan(slots[j], line).value] else r
  }

  function AbsorbAll(slots: seq<Slot>, r: seq<Value>, lines: seq<string>): (u: seq<Value>)
    requires |r| == |slots|
    ensures |u| == |r|
  {
    if lines == [] then r
    else Absorb(slots, AbsorbAll(slots, r, lines[..|lines| - 1]), lines[|lines| - 1])
  }

  /** The reading loop over a file's text, started with `r`. */
  function ReadText(slots: seq<Slot>, r: seq<Value>, text: string, size: nat): (u: seq<Value>)
    requires |r| == |slots| && 2 <= size
    ensures |u| == |r|
  {
    AbsorbAll(slots, r, Lines(text, size))
  }

  /** One turn of the loop: `rest` is what the lines from `n` on are read from. */
  lemma ReadingStep(slots: seq<Slot>, r: seq<Value>, lines: seq<string>, n: nat, rest: string, size: nat)
    requires |r| == |slots| && 2 <= size && rest != "" && n <= |lines| && Lines(rest, size) == lines[n..]
    ensures var taken := FgetsLength(rest, size);
            && n < |lines| && lines[n] == CString(rest[..taken]) && Lines(rest[taken..], size) == lines[n + 1..]
            && AbsorbAll(slots, r, lines[..n + 1]) == Absorb(slots, AbsorbAll(slots, r, lines[..n]), lines[n])
  {
    assert lines[n..][0] == lines[n] && lines[n + 1..] == lines[n..][1..];
    assert lines[..n + 1][..n] == lines[..n];
  }

  lemma ScanNotBlank(slot: Slot, line: string)
    requires Scan(slot, line).Some?
    ensures Scan(slot, line).value != Text("")
  {}

  predicate QuoteFree(v: Value) {
    v.Text? ==> '"' !in v.text
  }

  /** Every value is of its slot's kind, and no text has a quote: so the formats read it. */
  predicate Readable(slots: seq<Slot>, r: seq<Value>) {
    Typed(slots, r) && forall j :: 0 <= j < |r| ==> QuoteFree(r[j])
  }

  lemma {:induction false} ReadsReadable(slots: seq<Slot>, r: seq<Value>, lines: seq<string>)
    requires Readable(slots, r)
    ensures Readable(slots, AbsorbAll(slots, r, lines))
  {
    if lines == [] {
    } else {
      ReadsReadable(slots, r, lines[..|lines| - 1]);
    }
  }

  /** When only line `p` can assign slot `j`, that line decides it. */
  lemma {:induction false} SlotDecidedBy(slots: seq<Slot>, r: seq<Value>, lines: seq<string>, j: nat, p: nat)
    requires |r| == |slots| && j < |slots| && p < |lines|
    requires forall i :: 0 <= i < |lines| && i != p ==> !Assigns(slots, lines[i], j)
    ensures AbsorbAll(slots, r, lines)[j]
            == if Assigns(slots, lines[p], j) then Scan(slots[j], lines[p]).value else r[j]
  {
    var n := |lines| - 1;
    if p < n {
      SlotDecidedBy(slots, r, lines[..n], j, p);
    } else {
      SlotUntouched(slots, r, lines[..n], j);
    }
  }

  /** The last line that assigns a slot decides it. */
  lemma {:induction false} LastAssignment(slots: seq<Slot>, r: seq<Value>, lines: seq<string>, j: nat, p: nat)
    requires |r| == |slots| && j < |slots| && p < |lines| && Assigns(slots, lines[p], j)
    requires forall i :: p < i < |lines| ==> !Assigns(slots, lines[i], j)
    ensures AbsorbAll(slots, r, lines)[j] == Scan(slots[j], lines[p]).value
  {
    var n := |lines| - 1;
    if p == n {
    } else {
      LastAssignment(slots, r, lines[..n], j, p);
    }
  }

  lemma {:induction false} SlotUntouched(slots: seq<Slot>, r: seq<Value>, lines: seq<string>, j: nat)
    requires |r| == |slots| && j < |slots|
    requires forall i :: 0 <= i < |lines| ==> !Assigns(slots, lines[i], j)
    ensures AbsorbAll(slots, r, lines)[j] == r[j]
  {
    if lines == [] {
    } else {
      SlotUntouched(slots, r, lines[..|lines| - 1], j);
    }
  }

  lemma {:induction false} AssignedNotBlank(slots: seq<Slot>, r: seq<Value>, lines: seq<string>, j: nat, i: nat)
    requires |r| == |slots| && j < |slots| && i < |lines| && Assigns(slots, lines[i], j)
    ensures AbsorbAll(slots, r, lines)[j] != Text("")
  {
    var n := |lines| - 1;
    if Assigns(slots, lines[n], j) {
      ScanNotBlank(slots[j], lines[n]);
    } else {
      AssignedNotBlank(slots, r, lines[..n], j, i);
    }
  }

  /** A blank text slot stays blank if and only if no line assigns it. */
  lemma BlankExactly(slots: seq<Slot>, r: seq<Value>, lines: seq<string>, j: nat)
    requires |r| == |slots| && j < |slots| && r[j] == Text("")
    ensures AbsorbAll(slots, r, lines)[j] == Text("")
            <==> forall i :: 0 <= i < |lines| ==> !Assigns(slots, lines[i], j)
  {
    if i :| 0 <= i < |lines| && Assigns(slots, lines[i], j) {
      AssignedNotBlank(slots, r, lines, j, i);
    } else {
      SlotUntouched(slots, r, lines, j);
    }
  }

  /** A text that stands on one line of the buffer: short, and with a newline at most at its end. */
  predicate LineText(v: Value, size: nat) {
    v.Text? ==> |v.text| < size && FileLine(v.text)
  }

  lemma {:induction false} SkippedPart(s: string) returns (lead: string)
    ensures s == lead + SkipSpace(s)
  {
    if s == "" || !IsSpace(s[0]) {
      lead := "";
    } else {
      var more := SkippedPart(s[1..]);
      lead := [s[0]] + more;
    }
  }

  /** A part of a line has a newline at most at its end, too. */
  lemma PartOfLine(a: string, b: string, c: string)
    requires FileLine(a + (b + c))
    ensures FileLine(b)
  {
    var l := a + (b + c);
    assert forall i :: 0 <= i < |b| ==> l[|a| + i] == b[i] && l[|a| + i] in l;
    assert forall i :: 0 <= i < |b| - 1 ==> l[..|l| - 1][|a| + i] == b[i];
  }

  lemma KeyPart(key: string, line: string) returns (front: string)
    requires AfterKey(key, line).Some?
    ensures line == front + AfterKey(key, line).value
  {
    var head, a := Quoted(key) + ":", SkipSpace(line);
    var lead := SkippedPart(line);
    var between := SkippedPart(a[|head|..]);
    PrefixRest(head, a);
    Regroup(head, between, AfterKey(key, line).value);
    Regroup(lead, head + between, AfterKey(key, line).value);
    front := lead + (head + between);
  }

  lemma QuotedPart(s: string) returns (rest: string)
    requires ScanQuoted(s).Some?
    ensures s == "\"" + (ScanQuoted(s).value + rest)
  {
    rest := s[1 + |ScanQuoted(s).value|..];
  }

  lemma ScanGivesLineText(slot: Slot, line: string, size: nat)
    requires FileLine(line) && |line| < size && Scan(slot, line).Some?
    ensures LineText(Scan(slot, line).value, size)
  {
    if !slot.numeric {
      var front := KeyPart(slot.key, line);
      var t := AfterKey(slot.key, line).value;
      var rest := QuotedPart(t);
      Regroup(front, "\"", ScanQuoted(t).value + rest);
      PartOfLine(front + "\"", ScanQuoted(t).value, rest);
    }
  }

  lemma {:induction false} ReadsLineTexts(slots: seq<Slot>, r: seq<Value>, lines: seq<string>, size: nat)
    requires |r| == |slots| && forall j :: 0 <= j < |r| ==> LineText(r[j], size)
    requires forall l :: l in lines ==> FileLine(l) && |l| < size
    ensures forall j :: 0 <= j < |r| ==> LineText(AbsorbAll(slots, r, lines)[j], size)
  {
    if lines == [] {
    } else {
      var last := lines[|lines| - 1];
      ReadsLineTexts(slots, r, lines[..|lines| - 1], size);
      assert last in lines;
      forall j | 0 <= j < |slots| && Assigns(slots, last, j)
        ensures LineText(Scan(slots[j], last).value, size)
      {
        ScanGivesLineText(slots[j], last, size);
      }
    }
  }

  // ----- where quoted words occur -----

  predicate Plain(s: string) {
    '"' !in s && '\n' !in s && '\0' !in s
  }

  /** Up to a quote, and `e` behind it, texts agree only if the words do. */
  lemma PrefixWord(k: string, e: string, b: string, rest: string)
    requires '"' !in k && '"' !in b
    ensures k + "\"" + e <= b + "\"" + rest <==> k == b && e <= rest
  {
    var t, s := k + "\"" + e, b + "\"" + rest;
    assert t[|k|] == '"' && s[|b|] == '"' && t[|k| + 1..] == e && s[|b| + 1..] == rest;
    assert |k| < |b| ==> s[|k|] == b[|k|] && b[|k|] in b;
    assert |b| < |k| ==> t[|b|] == k[|b|] && k[|b|] in k;
    assert k == t[..|k|] && b == s[..|b|];
    if t <= s {
      assert t[|k|] == s[|k|];
      assert |k| == |b|;
      assert s[|k| + 1..][..|e|] == e;
    }
    if k == b && e <= rest {
      assert s == t + rest[|e|..];
    }
  }

  lemma NoQuoteNoWord(a: string, e: string, k: string, c: string)
    requires '"' !in a && '"' !in e
    ensures !Contains(a + "\"" + e, Quoted(k) + c)
  {
    var s, p := a + "\"" + e, Quoted(k) + c;
    assert p[0] == '"' && p[|k| + 1] == '"';
    if Contains(s, p) {
      var j := Strstr(s, p).value;
      AtChar(s, p, j, 0);
      AtChar(s, p, j, |k| + 1);
    }
  }

  /** Past quote-free text and a quote, the next word is either `k` with `e` behind it or passed over. */
  lemma NextWord(a: string, b: string, rest: string, k: string, e: string)
    requires '"' !in a && '"' !in b && '"' !in k
    ensures Contains(a + "\"" + (b + "\"" + rest), Quoted(k) + e)
            <==> (k == b && e <= rest) || Contains(b + "\"" + rest, Quoted(k) + e)
  {
    var head, inner, p := a + "\"", b + "\"" + rest, Quoted(k) + e;
    var s := head + inner;
    assert p == "\"" + (k + "\"" + e);
    forall j | 0 <= j < |head| && j != |a|
      ensures !At(s, p, j)
    {
      assert s[j] == a[j] && a[j] in a;
      if At(s, p, j) {
        AtChar(s, p, j, 0);
      }
    }
    OnlyAt(head, inner, p, |a|);
    WordAt(a, inner, k + "\"" + e);
    PrefixWord(k, e, b, rest);
  }

  lemma WordAt(a: string, inner: string, t: string)
    ensures At(a + "\"" + inner, "\"" + t, |a|) <==> t <= inner
  {
    var s, p := a + "\"" + inner, "\"" + t;
    assert s[|a|..] == "\"" + inner;
    assert |t| <= |inner| ==> s[|a|..|a| + |p|] == "\"" + inner[..|t|];
    assert |t| <= |inner| ==> ("\"" + inner[..|t|])[1..] == inner[..|t|] && p[1..] == t;
  }

  /** A key and an end as the writers print them; the value may be any. */
  predicate PlainKey(f: Field) {
    Plain(f.key) && '"' !in f.end && StopsNumber(f.end)
  }

  predicate PlainField(f: Field) {
    PlainKey(f) && (f.value.Text? ==> Plain(f.value.text))
  }

  /** A field whose parts have no quote of their own; its value may be of any length and in any number of lines. */
  predicate QuoteFreeField(f: Field) {
    '"' !in f.key && '"' !in f.end && (f.end == "" || f.end[0] != ':') && QuoteFree(f.value)
  }

  /** A quoted keyword with `e` behind it, in a printed field. */
  lemma MarksOfField(f: Field, k: string, e: string)
    requires '"' !in f.key && '"' !in f.end && QuoteFree(f.value) && '"' !in k && k != ": "
    ensures Contains(Print(f), Quoted(k) + e)
            <==> (k == f.key && e <= ": " + Shown(f)) || (f.value == Text(k) && e <= f.end)
  {
    match f.value {
      case Text(v) =>
        var third := v + "\"" + f.end;
        var second := ": " + "\"" + third;
        assert ": " + ("\"" + third) == second;
        NextWord("  ", f.key, second, k, e);
        NextWord(f.key, ": ", third, k, e);
        NextWord(": ", v, f.end, k, e);
        NoQuoteNoWord(v, f.end, k, e);
      case Number(n) =>
        NextWord("  ", f.key, ": " + Shown(f), k, e);
        NoQuoteNoWord(f.key, ": " + Shown(f), k, e);
    }
  }

  /** The quoted keyword occurs in the quoted value; without quotes of its own the value is the keyword. */
  predicate Held(v: Value, k: string) {
    v.Text? && Contains(Quoted(v.text), Quoted(k))
  }

  lemma HeldWithoutQuotes(v: Value, k: string)
    requires QuoteFree(v) && '"' !in k
    ensures Held(v, k) <==> v == Text(k)
  {
    if v.Text? {
      assert Quoted(v.text) == "" + "\"" + (v.text + "\"" + "") && Quoted(k) + "" == Quoted(k);
      NextWord("", v.text, "", k, "");
      NoQuoteNoWord(v.text, "", k, "");
    }
  }

  /** Neither quote-free text in front nor behind adds an occurrence of a quoted word. */
  lemma WordInside(a: string, b: string, c: string, k: string)
    requires '"' !in a && '"' !in c
    ensures Contains(a + (b + c), Quoted(k)) <==> Contains(b, Quoted(k))
  {
    var p := Quoted(k);
    forall j | 0 <= j < |a|
      ensures !At(a + (b + c), p, j)
    {
      assert (a + (b + c))[j] == a[j] && a[j] in a;
      if At(a + (b + c), p, j) {
        AtChar(a + (b + c), p, j, 0);
      }
    }
    OnlyAt(a, b + c, p, -1);
    if Contains(b, p) {
      assert b + c == "" + (b + c);
      PartContains("", b, c, p);
    }
    if Contains(b + c, p) {
      WordBeforeEnd(b, c, k);
    }
  }

  lemma WordBeforeEnd(b: string, c: string, k: string)
    requires '"' !in c && Contains(b + c, Quoted(k))
    ensures Contains(b, Quoted(k))
  {
    var p := Quoted(k);
    var j, last := Strstr(b + c, p).value, |p| - 1;
    forall i | |b| <= i < |b + c|
      ensures (b + c)[i] != '"'
    {
      assert (b + c)[i] == c[i - |b|] && c[i - |b|] in c;
    }
    AtChar(b + c, p, j, last);
    AtPrefix(b, c, p, j);
    ContainsIffAt(b, p);
  }

  /** A keyword occurs, quoted, in a printed field exactly as its key or inside its quoted value. */
  lemma WordsOfField(f: Field, k: string)
    requires '"' !in f.key && '"' !in f.end && '"' !in k && k != ": "
    ensures Contains(Print(f), Quoted(k)) <==> k == f.key || Held(f.value, k)
  {
    assert Quoted(k) + "" == Quoted(k);
    match f.value {
      case Text(v) =>
        var third := v + "\"" + f.end;
        var second := ": " + "\"" + third;
        assert ": " + ("\"" + third) == second == ": " + (Quoted(v) + f.end);
        NextWord("  ", f.key, second, k, "");
        NextWord(f.key, ": ", third, k, "");
        WordInside(": ", Quoted(v), f.end, k);
      case Number(n) =>
        NextWord("  ", f.key, ": " + Shown(f), k, "");
        NoQuoteNoWord(f.key, ": " + Shown(f), k, "");
    }
  }

  function Ended(f: Field): Field {
    f.(end := f.end + "\n")
  }

  lemma NewlineGoesToEnd(f: Field)
    ensures Print(f) + "\n" == Print(Ended(f))
    ensures PlainKey(f) ==> PlainKey(Ended(f))
    ensures QuoteFreeField(f) ==> QuoteFreeField(Ended(f))
  {
    assert Shown(f) + "\n" == Shown(Ended(f));
    assert (": " + Shown(f)) + "\n" == ": " + (Shown(f) + "\n");
    var inner := ": " + Shown(f);
    assert (f.key + "\"" + inner) + "\n" == f.key + "\"" + (inner + "\n");
    var middle := f.key + "\"" + inner;
    assert ("  " + "\"" + middle) + "\n" == "  " + "\"" + (middle + "\n");
  }

  // ----- what a line can assign -----

  lemma SkipOne(s: string)
    ensures SkipSpace(" " + s) == SkipSpace(s)
  {
    assert (" " + s)[1..] == s;
  }

  lemma SkipTwo(s: string)
    requires s == "" || !IsSpace(s[0])
    ensures SkipSpace(" " + s) == s && SkipSpace("  " + s) == s && SkipSpace("    " + s) == s
  {
    SkipOne(s);
    SkipOne(" " + s);
    SkipOne("  " + s);
    SkipOne("   " + s);
    assert "  " + s == " " + (" " + s) && "   " + s == " " + ("  " + s) && "    " + s == " " + ("   " + s);
  }

  /** The scanned keyword is matched by that very word with a colon behind it. */
  lemma HeadWord(key: string, word: string, rest: string)
    requires '"' !in word && '"' !in key
    ensures Quoted(key) + ":" <= Quoted(word) + rest <==> key == word && rest != "" && rest[0] == ':'
  {
    var t, s := key + "\"" + ":", word + "\"" + rest;
    PrefixWord(key, ":", word, rest);
    assert Quoted(key) + ":" == "\"" + t && Quoted(word) + rest == "\"" + s;
    assert ("\"" + t)[1..] == t && ("\"" + s)[1..] == s;
  }

  /** A line that starts with another word, or with no colon after its word, assigns nothing. */
  lemma OtherWordAssignsNothing(indent: string, word: string, rest: string, slot: Slot)
    requires indent == "  " || indent == "    "
    requires '"' !in word && '"' !in slot.key
    requires word != slot.key || rest == "" || rest[0] != ':'
    ensures Scan(slot, indent + (Quoted(word) + rest)).None?
  {
    SkipTwo(Quoted(word) + rest);
    HeadWord(slot.key, word, rest);
  }

  lemma AfterPrintedKey(f: Field)
    requires StopsSpace(Shown(f)) && '"' !in f.key
    ensures AfterKey(f.key, Print(f)) == Some(Shown(f))
  {
    var rest := ": " + Shown(f);
    var line := Quoted(f.key) + rest;
    PrintSplit(f);
    SkipTwo(line);
    SkipTwo(Shown(f));
    HeadWord(f.key, f.key, rest);
    assert line[|Quoted(f.key)|..] == rest;
    assert line[|Quoted(f.key) + ":"|..] == rest[1..];
  }

  predicate StopsSpace(s: string) {
    s == "" || !IsSpace(s[0])
  }

  /** What the format takes of a printed value: of a text, the part before its first quote, if there is one. */
  function Taken(v: Value): Option<Value> {
    match v
    case Text(s) => if Before(s, '"') == "" then None else Some(Text(Before(s, '"')))
    case Number(_) => Some(v)
  }

  /** Of a field on one line the scan takes the whole value exactly if it is not empty and has no quote. */
  lemma ScanPrinted(f: Field, slot: Slot)
    requires PlainKey(f) && slot == Slot(f.key, f.value.Number?)
    ensures Scan(slot, Print(f)) == Taken(f.value)
    ensures Taken(f.value) == Some(f.value) <==> f.value != Text("") && QuoteFree(f.value)
  {
    match f.value {
      case Text(v) =>
        AfterPrintedKey(f);
        BeforeFirst(v, '"', f.end);
        assert Shown(f)[1..] == v + ['"'] + f.end;
      case Number(n) =>
        assert Dec(n)[0] in Dec(n);
        AfterPrintedKey(f);
        ScanDec(n, f.end);
    }
  }

  /** The value is the keyword of a slot tested before slot `j`. */
  predicate Captured(slots: seq<Slot>, v: Value, j: int) {
    exists i :: 0 <= i < j && i < |slots| && v == Text(slots[i].key)
  }

  /** No quote in the value, and it is not an earlier keyword. */
  predicate ComesBack(slots: seq<Slot>, v: Value, j: int) {
    QuoteFree(v) && !Captured(slots, v, j)
  }

  /** The quoted value holds the quoted keyword of a slot tested before slot `j`. */
  predicate Masked(slots: seq<Slot>, v: Value, j: int) {
    exists i :: 0 <= i < j && i < |slots| && Held(v, slots[i].key)
  }

  lemma MaskedWithoutQuotes(slots: seq<Slot>, v: Value, j: int)
    requires GoodSlots(slots) && QuoteFree(v)
    ensures Masked(slots, v, j) <==> Captured(slots, v, j)
  {
    forall i | 0 <= i < |slots|
      ensures Held(v, slots[i].key) <==> v == Text(slots[i].key)
    {
      HeldWithoutQuotes(v, slots[i].key);
    }
  }

  predicate GoodSlots(slots: seq<Slot>) {
    && (forall i :: 0 <= i < |slots| ==> '"' !in slots[i].key && slots[i].key != ": " && slots[i].key != "")
    && (forall i, j :: 0 <= i < j < |slots| ==> slots[i].key != slots[j].key)
  }

  /** The chain reaches the field's own slot unless the field's value holds an earlier keyword. */
  lemma DispatchOfField(slots: seq<Slot>, f: Field, j: nat)
    requires GoodSlots(slots) && PlainKey(f) && j < |slots| && slots[j].key == f.key
    ensures Dispatch(slots, Print(f)) == j <==> !Masked(slots, f.value, j)
  {
    var d := Dispatch(slots, Print(f));
    forall i | 0 <= i < |slots|
      ensures Contains(Print(f), Quoted(slots[i].key)) <==> slots[i].key == f.key || Held(f.value, slots[i].key)
    {
      WordsOfField(f, slots[i].key);
    }
    assert Contains(Print(f), Quoted(slots[j].key));
    assert d < j ==> slots[d].key != f.key && Held(f.value, slots[d].key);
  }

  lemma PrintSplit(f: Field)
    ensures Print(f) == "  " + (Quoted(f.key) + (": " + Shown(f)))
  {
    var rest := ": " + Shown(f);
    var inner := f.key + "\"" + rest;
    assert "\"" + inner == Quoted(f.key) + rest;
    assert "  " + "\"" + inner == "  " + ("\"" + inner);
  }

  lemma OtherKeyAssignsNothing(f: Field, slot: Slot)
    requires PlainKey(f) && '"' !in slot.key && slot.key != f.key
    ensures Scan(slot, Print(f)).None?
  {
    PrintSplit(f);
    OtherWordAssignsNothing("  ", f.key, ": " + Shown(f), slot);
  }

  /**
   A field on one line, whatever its value, assigns its own slot the part before
   the first quote, unless that is empty or the value holds an earlier keyword.
   It never assigns another slot.
   */
  lemma PrintedAssigns(slots: seq<Slot>, f: Field, j: nat)
    requires GoodSlots(slots) && j < |slots| && PlainKey(f)
    requires slots[j].key == f.key ==> slots[j].numeric == f.value.Number?
    ensures Assigns(slots, Print(f), j)
            <==> slots[j].key == f.key && Taken(f.value).Some? && !Masked(slots, f.value, j)
    ensures Assigns(slots, Print(f), j) ==> Scan(slots[j], Print(f)) == Taken(f.value)
  {
    if slots[j].key == f.key {
      DispatchOfField(slots, f, j);
      ScanPrinted(f, slots[j]);
    } else {
      OtherKeyAssignsNothing(f, slots[j]);
    }
  }

  lemma NoQuoteAssignsNothing(slots: seq<Slot>, line: string, j: int)
    requires '"' !in line
    ensures !Assigns(slots, line, j)
  {
    if Assigns(slots, line, j) {
      AtChar(line, Quoted(slots[j].key), Strstr(line, Quoted(slots[j].key)).value, 0);
    }
  }

  // ----- whole records -----

  /** An opening brace, the fields, and what follows them. */
  function RecordLines(fs: seq<Field>, after: seq<string>): (ls: seq<string>)
    ensures |ls| == 1 + |fs| + |after|
    ensures forall i :: 0 <= i < |ls| ==> ls[i] == RecordLine(fs, after, i)
  {
    seq(1 + |fs| + |after|, i requires 0 <= i < 1 + |fs| + |after| => RecordLine(fs, after, i))
  }

  function RecordLine(fs: seq<Field>, after: seq<string>, i: nat): string
    requires i < 1 + |fs| + |after|
  {
    if i == 0 then "{" else if i <= |fs| then Print(fs[i - 1]) else after[i - 1 - |fs|]
  }

  function RecordText(fs: seq<Field>, after: seq<string>): string {
    Terminated(RecordLines(fs, after))
  }

  /** Every field is printed on one line that the reader gets whole. */
  predicate Printable(fs: seq<Field>, size: nat) {
    forall i :: 0 <= i < |fs| ==> PlainKey(fs[i]) && OneLine(Print(fs[i]), size)
  }

  /** The lines the reader sees. */
  lemma LinesOfRecord(fs: seq<Field>, after: seq<string>, size: nat)
    requires 2 < size && Printable(fs, size) && forall i :: 0 <= i < |after| ==> OneLine(after[i], size)
    ensures Lines(RecordText(fs, after), size) == WithNewline(RecordLines(fs, after))
  {
    var ls := RecordLines(fs, after);
    forall i | 0 <= i < |ls|
      ensures OneLine(ls[i], size)
    {
      assert ls[i] == RecordLine(fs, after, i);
    }
    LinesOfTerminated(ls, size);
  }

  /** Field `p` is the one for slot `j`, and no other field and no later line is. */
  predicate OwnedBy(slots: seq<Slot>, fs: seq<Field>, after: seq<string>, j: nat, p: nat)
    requires j < |slots| && p < |fs|
  {
    && fs[p].key == slots[j].key && fs[p].value.Number? == slots[j].numeric
    && (forall i :: 0 <= i < |fs| && i != p ==> fs[i].key != slots[j].key)
    && (forall i :: 0 <= i < |after| ==> !Assigns(slots, after[i] + "\n", j))
  }

  lemma FieldLineAssigns(slots: seq<Slot>, f: Field, j: nat)
    requires GoodSlots(slots) && j < |slots| && PlainKey(f)
    requires slots[j].key == f.key ==> slots[j].numeric == f.value.Number?
    ensures var line := Print(f) + "\n";
            && (Assigns(slots, line, j) <==>
                slots[j].key == f.key && Taken(f.value).Some? && !Masked(slots, f.value, j))
            && (Assigns(slots, line, j) ==> Scan(slots[j], line) == Taken(f.value))
  {
    NewlineGoesToEnd(f);
    PrintedAssigns(slots, Ended(f), j);
  }

  lemma OnlyOwnLineAssigns(slots: seq<Slot>, fs: seq<Field>, after: seq<string>, j: nat, p: nat, i: nat)
    requires GoodSlots(slots) && j < |slots| && p < |fs| && i < 1 + |fs| + |after| && i != 1 + p
    requires (forall k :: 0 <= k < |fs| ==> PlainKey(fs[k])) && OwnedBy(slots, fs, after, j, p)
    ensures !Assigns(slots, RecordLine(fs, after, i) + "\n", j)
  {
    if i == 0 {
      NoQuoteAssignsNothing(slots, "{\n", j);
    } else if i <= |fs| {
      FieldLineAssigns(slots, fs[i - 1], j);
    }
  }

  /**
   What reading a record's text leaves in slot `j`: the printed value up to its
   first quote, unless that is empty or the value holds an earlier keyword; then
   what was there before.
   */
  lemma RecordRead(slots: seq<Slot>, fs: seq<Field>, after: seq<string>, size: nat, r: seq<Value>, j: nat, p: nat)
    requires GoodSlots(slots) && |r| == |slots| && j < |slots| && p < |fs| && 2 < size
    requires Printable(fs, size) && (forall i :: 0 <= i < |after| ==> OneLine(after[i], size))
    requires OwnedBy(slots, fs, after, j, p)
    ensures ReadText(slots, r, RecordText(fs, after), size)[j]
            == if Taken(fs[p].value).None? || Masked(slots, fs[p].value, j) then r[j] else Taken(fs[p].value).value
  {
    LinesOfRecord(fs, after, size);
    var lines := WithNewline(RecordLines(fs, after));
    forall i | 0 <= i < |lines| && i != 1 + p
      ensures !Assigns(slots, lines[i], j)
    {
      OnlyOwnLineAssigns(slots, fs, after, j, p, i);
    }
    FieldLineAssigns(slots, fs[p], j);
    SlotDecidedBy(slots, r, lines, j, 1 + p);
  }

  /** Every slot has its own field. */
  predicate Owned(slots: seq<Slot>, fs: seq<Field>, after: seq<string>, own: seq<nat>) {
    && |own| == |slots|
    && forall j :: 0 <= j < |slots| ==> own[j] < |fs| && OwnedBy(slots, fs, after, j, own[j])
  }

  /**
   The exact condition of the round trip, read into a blank record: no value
   has a quote or is a keyword that is tested before its own.
   */
  lemma RoundTrip(slots: seq<Slot>, fs: seq<Field>, after: seq<string>, own: seq<nat>, size: nat,
                  blank: seq<Value>, values: seq<Value>)
    requires GoodSlots(slots) && 2 < size && Printable(fs, size) && Owned(slots, fs, after, own)
    requires forall i :: 0 <= i < |after| ==> OneLine(after[i], size)
    requires Typed(slots, blank) && forall j :: 0 <= j < |blank| && blank[j].Text? ==> blank[j] == Text("")
    requires |values| == |slots| && forall j :: 0 <= j < |slots| ==> values[j] == fs[own[j]].value
    ensures ReadText(slots, blank, RecordText(fs, after), size) == values
            <==> forall j :: 0 <= j < |slots| ==> ComesBack(slots, values[j], j)
  {
    var u := ReadText(slots, blank, RecordText(fs, after), size);
    forall j | 0 <= j < |slots|
      ensures u[j] == values[j] <==> ComesBack(slots, values[j], j)
    {
      assert OwnedBy(slots, fs, after, j, own[j]);
      RecordRead(slots, fs, after, size, blank, j, own[j]);
      SlotRoundTrip(slots, values[j], blank[j], u[j], j);
    }
    assert u == values <==> forall j :: 0 <= j < |slots| ==> u[j] == values[j];
  }

  lemma SlotRoundTrip(slots: seq<Slot>, v: Value, blank: Value, u: Value, j: nat)
    requires GoodSlots(slots) && j < |slots| && v.Number? == blank.Number? && (blank.Text? ==> blank == Text(""))
    requires u == if Taken(v).None? || Masked(slots, v, j) then blank else Taken(v).value
    ensures u == v <==> ComesBack(slots, v, j)
  {
    if QuoteFree(v) {
      MaskedWithoutQuotes(slots, v, j);
    }
  }

  // ----- values that break the format -----

  /** No line that is read from this printed line assigns slot `j`. */
  predicate Silent(slots: seq<Slot>, line: string, j: int, size: nat)
    requires 2 <= size
  {
    forall l :: l in Lines(line + "\n", size) ==> !Assigns(slots, l, j)
  }

  lemma {:induction false} SkippedContains(s: string, p: string)
    requires p <= SkipSpace(s)
    ensures Contains(s, p)
  {
    if s == "" || !IsSpace(s[0]) {
      assert s[0..|p|] == p && At(s, p, 0);
    } else {
      SkippedContains(s[1..], p);
      assert s == [s[0]] + (s[1..] + "");
      PartContains([s[0]], s[1..], "", p);
    }
  }

  lemma SilentWithoutMark(slots: seq<Slot>, line: string, j: nat, size: nat)
    requires j < |slots| && 2 <= size && !Contains(line + "\n", Quoted(slots[j].key) + ":")
    ensures Silent(slots, line, j, size)
  {
    var mark := Quoted(slots[j].key) + ":";
    LinesContain(line + "\n", mark, size);
    forall l | l in Lines(line + "\n", size)
      ensures !Assigns(slots, l, j)
    {
      if mark <= SkipSpace(l) {
        SkippedContains(l, mark);
      }
    }
  }

  /** A field with a quote-free value of any length, even of many lines, is never taken for another one. */
  lemma FieldIsSilent(slots: seq<Slot>, f: Field, j: nat, size: nat)
    requires GoodSlots(slots) && j < |slots| && 2 <= size && QuoteFreeField(f) && slots[j].key != f.key
    ensures Silent(slots, Print(f), j, size)
  {
    NewlineGoesToEnd(f);
    MarksOfField(Ended(f), slots[j].key, ":");
    SilentWithoutMark(slots, Print(f), j, size);
  }

  lemma NoQuoteIsSilent(slots: seq<Slot>, line: string, j: nat, size: nat)
    requires j < |slots| && 2 <= size && '"' !in line
    ensures Silent(slots, line, j, size)
  {
    var mark := Quoted(slots[j].key) + ":";
    assert mark[0] == '"';
    if Contains(line + "\n", mark) {
      AtChar(line + "\n", mark, Strstr(line + "\n", mark).value, 0);
    }
    SilentWithoutMark(slots, line, j, size);
  }

  lemma {:induction false} SilentLines(slots: seq<Slot>, ls: seq<string>, j: int, size: nat)
    requires 2 <= size && forall l :: l in ls ==> Silent(slots, l, j, size)
    ensures forall l :: l in Lines(Terminated(ls), size) ==> !Assigns(slots, l, j)
  {
    if ls == [] {
    } else {
      assert Silent(slots, ls[0], j, size);
      LinesAppend(ls[0] + "\n", Terminated(ls[1..]), size);
      SilentLines(slots, ls[1..], j, size);
    }
  }

  lemma {:induction false} TerminatedEndsLine(ls: seq<string>)
    ensures ls != [] ==> Terminated(ls) != "" && Terminated(ls)[|Terminated(ls)| - 1] == '\n'
  {
    if ls == [] {
    } else {
      TerminatedEndsLine(ls[1..]);
    }
  }

  lemma LinesAround(before: seq<string>, l: string, after: seq<string>, size: nat)
    requires 2 <= size && OneLine(l, size)
    ensures Lines(Terminated(before + ([l] + after)), size)
            == Lines(Terminated(before), size) + ([l + "\n"] + Lines(Terminated(after), size))
  {
    var rest := [l] + after;
    assert rest[0] == l && rest[1..] == after;
    TerminatedAppend(before, rest);
    TerminatedEndsLine(before);
    LinesAppend(Terminated(before), Terminated(rest), size);
    LinesAppend(l + "\n", Terminated(after), size);
    LineAlone(l, size);
  }

  lemma LastOf(slots: seq<Slot>, r: seq<Value>, before: seq<string>, line: string, after: seq<string>, j: nat)
    requires |r| == |slots| && j < |slots| && Assigns(slots, line, j)
    requires forall l :: l in after ==> !Assigns(slots, l, j)
    ensures AbsorbAll(slots, r, before + ([line] + after))[j] == Scan(slots[j], line).value
  {
    var all, p := before + ([line] + after), |before|;
    ElementBehind(before, line, after, p);
    forall i | p < i < |all|
      ensures !Assigns(slots, all[i], j)
    {
      ElementBehind(before, line, after, i);
      assert after[i - p - 1] in after;
    }
    LastAssignment(slots, r, all, j, p);
  }

  /**
   Whatever stands before it, even lines that look like fields, a short plain
   field decides its slot when only silent lines follow.
   */
  lemma LastLineDecides(slots: seq<Slot>, r: seq<Value>, before: seq<string>, f: Field, after: seq<string>,
                        j: nat, size: nat)
    requires GoodSlots(slots) && |r| == |slots| && j < |slots| && 2 <= size
    requires slots[j] == Slot(f.key, f.value.Number?) && PlainField(f) && OneLine(Print(f), size)
    requires f.value != Text("") && !Captured(slots, f.value, j)
    requires forall l :: l in after ==> Silent(slots, l, j, size)
    ensures ReadText(slots, r, Terminated(before + ([Print(f)] + after)), size)[j] == f.value
  {
    var line, lines := Print(f) + "\n", Lines(Terminated(after), size);
    LinesAround(before, Print(f), after, size);
    SilentLines(slots, after, j, size);
    FieldLineAssigns(slots, f, j);
    MaskedWithoutQuotes(slots, f.value, j);
    LastOf(slots, r, Lines(Terminated(before), size), line, lines, j);
  }

  lemma TailIsSilent(slots: seq<Slot>, fs: seq<Field>, after: seq<string>, n: nat, j: int, size: nat)
    requires 2 <= size && n <= |fs| + |after|
    requires forall i :: n < i <= |fs| + |after| ==> Silent(slots, RecordLine(fs, after, i), j, size)
    ensures forall l :: l in RecordLines(fs, after)[n + 1..] ==> Silent(slots, l, j, size)
  {
    var ls := RecordLines(fs, after);
    forall l | l in ls[n + 1..]
      ensures Silent(slots, l, j, size)
    {
      var i :| n < i < |ls| && l == ls[i];
      assert Silent(slots, RecordLine(fs, after, i), j, size);
    }
  }

  /** The same for field `p` of a record's text. */
  lemma LastFieldDecides(slots: seq<Slot>, r: seq<Value>, fs: seq<Field>, after: seq<string>, j: nat, p: nat, size: nat)
    requires GoodSlots(slots) && |r| == |slots| && j < |slots| && p < |fs| && 2 <= size
    requires slots[j] == Slot(fs[p].key, fs[p].value.Number?) && PlainField(fs[p]) && OneLine(Print(fs[p]), size)
    requires fs[p].value != Text("") && !Captured(slots, fs[p].value, j)
    requires forall i :: 1 + p < i <= |fs| + |after| ==> Silent(slots, RecordLine(fs, after, i), j, size)
    ensures ReadText(slots, r, RecordText(fs, after), size)[j] == fs[p].value
  {
    var ls, n := RecordLines(fs, after), 1 + p;
    TailIsSilent(slots, fs, after, n, j, size);
    SplitAround(ls, n);
    LastLineDecides(slots, r, ls[..n], fs[p], ls[n + 1..], j, size);
  }

  // ----- forged fields -----

  /** A field without its indent, up to its value. */
  function Bared(key: string, t: string): string {
    "\"" + (key + "\"" + (": " + ("\"" + t)))
  }

  /** A value that goes on with a field of its own, on a line of its own. */
  function Forged(key: string, t: string): string {
    "\n" + ("  " + Bared(key, t))
  }

  /** What is left of the field's own line. */
  function Opening(key: string): string {
    "  " + "\"" + (key + "\"" + (": " + "\""))
  }

  lemma BaredEnd(key: string, t: string)
    ensures "  " + (Bared(key, t) + "\",") == Print(Field(key, Text(t), ","))
  {
    var u := "\"" + t;
    assert u + "\"," == Shown(Field(key, Text(t), ","));
    assert (": " + u) + "\"," == ": " + (u + "\",");
    var v := key + "\"" + (": " + u);
    assert v + "\"," == key + "\"" + ((": " + u) + "\",");
    assert "  " + ("\"" + v + "\",") == "  " + "\"" + (v + "\",");
  }

  lemma ForgedEnd(key: string, t: string)
    ensures Forged(key, t) + "\"," == "\n" + Print(Field(key, Text(t), ","))
  {
    BaredEnd(key, t);
    var b := Bared(key, t);
    assert ("\n" + ("  " + b)) + "\"," == "\n" + ("  " + (b + "\","));
  }

  lemma OpeningThen(key: string, v: string)
    ensures Print(Field(key, Text(v), ",")) == Opening(key) + (v + "\",")
  {
    var x := v + "\",";
    assert Shown(Field(key, Text(v), ",")) == "\"" + x;
    assert ": " + ("\"" + x) == (": " + "\"") + x;
    var open := ": " + "\"";
    assert key + "\"" + (open + x) == (key + "\"" + open) + x;
    var rest := key + "\"" + open;
    assert "  " + "\"" + (rest + x) == ("  " + "\"" + rest) + x;
  }

  lemma PrintForged(key: string, forged: string, t: string)
    ensures Print(Field(key, Text(Forged(forged, t)), ","))
            == Opening(key) + ("\n" + Print(Field(forged, Text(t), ",")))
  {
    OpeningThen(key, Forged(forged, t));
    ForgedEnd(forged, t);
  }

  /** A printed line with a newline in it is two lines of the file. */
  lemma SplitLine(before: seq<string>, a: string, b: string, after: seq<string>)
    ensures Terminated(before + ([a + ("\n" + b)] + after)) == Terminated((before + [a]) + ([b] + after))
  {
    var rest, tail := [b] + after, Terminated(after);
    var one := [a + ("\n" + b)] + after;
    assert rest[1..] == after && one[1..] == after && ([a] + rest)[1..] == rest;
    assert a + ("\n" + b) + "\n" + tail == a + "\n" + (b + "\n" + tail);
    assert Terminated(one) == Terminated([a] + rest);
    Regroup(before, [a], rest);
    TerminatedAppend(before, one);
    TerminatedAppend(before, [a] + rest);
  }

  /** A forged field in field `q` is read when only silent lines follow. */
  lemma ForgedFieldIsRead(slots: seq<Slot>, r: seq<Value>, fs: seq<Field>, after: seq<string>, j: nat, q: nat,
                          t: string, size: nat)
    requires GoodSlots(slots) && |r| == |slots| && j < |slots| && q < |fs| && 2 <= size && !slots[j].numeric
    requires fs[q] == Field(fs[q].key, Text(Forged(slots[j].key, t)), ",")
    requires var g := Field(slots[j].key, Text(t), ","); PlainField(g) && OneLine(Print(g), size)
    requires t != "" && !Captured(slots, Text(t), j)
    requires forall i :: 1 + q < i <= |fs| + |after| ==> Silent(slots, RecordLine(fs, after, i), j, size)
    ensures ReadText(slots, r, RecordText(fs, after), size)[j] == Text(t)
  {
    var ls, n, g := RecordLines(fs, after), 1 + q, Field(slots[j].key, Text(t), ",");
    TailIsSilent(slots, fs, after, n, j, size);
    SplitAround(ls, n);
    PrintForged(fs[q].key, slots[j].key, t);
    SplitLine(ls[..n], Opening(fs[q].key), Print(g), ls[n + 1..]);
    LastLineDecides(slots, r, ls[..n] + [Opening(fs[q].key)], g, ls[n + 1..], j, size);
  }

  lemma DispatchSame(slots: seq<Slot>, a: string, b: string)
    requires forall i :: 0 <= i < |slots| ==> (Contains(a, Quoted(slots[i].key)) <==> Contains(b, Quoted(slots[i].key)))
    ensures Dispatch(slots, a) == Dispatch(slots, b)
  {}

  lemma IndentDispatch(slots: seq<Slot>, l: string)
    ensures Dispatch(slots, "  " + l) == Dispatch(slots, l)
  {
    assert l + "" == l;
    forall i | 0 <= i < |slots|
      ensures Contains("  " + l, Quoted(slots[i].key)) <==> Contains(l, Quoted(slots[i].key))
    {
      WordInside("  ", l, "", slots[i].key);
    }
    DispatchSame(slots, "  " + l, l);
  }

  lemma IndentScan(slot: Slot, l: string)
    requires l == "" || !IsSpace(l[0])
    ensures Scan(slot, "  " + l) == Scan(slot, l)
  {
    SkipTwo(l);
  }

  /** The indent does not matter. */
  lemma IndentAssigns(slots: seq<Slot>, l: string, j: nat)
    requires j < |slots| && (l == "" || !IsSpace(l[0]))
    ensures Assigns(slots, "  " + l, j) <==> Assigns(slots, l, j)
    ensures Scan(slots[j], "  " + l) == Scan(slots[j], l)
  {
    IndentDispatch(slots, l);
    IndentScan(slots[j], l);
  }

  /** A line that is too long is read in two parts. */
  lemma TwoTakes(a: string, l: string, size: nat)
    requires '\n' !in a && '\0' !in a && |a| + 1 == size && 2 <= size && OneLine(l, size)
    ensures Lines(a + (l + "\n"), size) == [a] + [l + "\n"]
  {
    var s := a + (l + "\n");
    assert s[..size - 1] == a && s[size - 1..] == l + "\n";
    assert FgetsLength(s, size) == size - 1;
    CStringWhole(a);
    LineAlone(l, size);
  }

  lemma LinesAroundLong(before: seq<string>, a: string, l: string, after: seq<string>, size: nat)
    requires '\n' !in a && '\0' !in a && |a| + 1 == size && 2 <= size && OneLine(l, size)
    ensures Lines(Terminated(before + ([a + l] + after)), size)
            == (Lines(Terminated(before), size) + [a]) + ([l + "\n"] + Lines(Terminated(after), size))
  {
    var rest, head, tail := [a + l] + after, Lines(Terminated(before), size), Lines(Terminated(after), size);
    assert rest[0] == a + l && rest[1..] == after;
    TerminatedAppend(before, rest);
    TerminatedEndsLine(before);
    LinesAppend(Terminated(before), Terminated(rest), size);
    Regroup(a, l, "\n");
    LinesAppend(a + (l + "\n"), Terminated(after), size);
    TwoTakes(a, l, size);
    Regroup([a], [l + "\n"], tail);
    Regroup(head, [a], [l + "\n"] + tail);
  }

  /** So is a field that stands where the buffer splits a long line, without any newline. */
  lemma SplitFieldIsRead(slots: seq<Slot>, r: seq<Value>, fs: seq<Field>, after: seq<string>, j: nat, q: nat,
                         pad: string, t: string, size: nat)
    requires GoodSlots(slots) && |r| == |slots| && j < |slots| && q < |fs| && 2 <= size && !slots[j].numeric
    requires fs[q] == Field(fs[q].key, Text(pad + Bared(slots[j].key, t)), ",")
    requires var a := Opening(fs[q].key) + pad; '\n' !in a && '\0' !in a && |a| + 1 == size
    requires var g := Field(slots[j].key, Text(t), ","); PlainField(g) && OneLine(Print(g), size)
    requires t != "" && !Captured(slots, Text(t), j)
    requires forall i :: 1 + q < i <= |fs| + |after| ==> Silent(slots, RecordLine(fs, after, i), j, size)
    ensures ReadText(slots, r, RecordText(fs, after), size)[j] == Text(t)
  {
    var ls, n, g := RecordLines(fs, after), 1 + q, Field(slots[j].key, Text(t), ",");
    var a, l, tail := Opening(fs[q].key) + pad, Bared(slots[j].key, t) + "\",", ls[n + 1..];
    TailIsSilent(slots, fs, after, n, j, size);
    SplitAround(ls, n);
    OpeningThen(fs[q].key, pad + Bared(slots[j].key, t));
    Regroup(pad, Bared(slots[j].key, t), "\",");
    Regroup(Opening(fs[q].key), pad, l);
    SplitPartAssigns(slots, g, l, j, size);
    LinesAroundLong(ls[..n], a, l, tail, size);
    SilentLines(slots, tail, j, size);
    LastOf(slots, r, Lines(Terminated(ls[..n]), size) + [a], l + "\n", Lines(Terminated(tail), size), j);
  }

  lemma SplitPartAssigns(slots: seq<Slot>, g: Field, l: string, j: nat, size: nat)
    requires GoodSlots(slots) && j < |slots| && slots[j] == Slot(g.key, false) && PlainField(g)
    requires g.value.Text? && g.end == "," && l == Bared(g.key, g.value.text) + "\","
    requires g.value != Text("") && !Captured(slots, g.value, j) && OneLine(Print(g), size)
    ensures OneLine(l, size) && Assigns(slots, l + "\n", j) && Scan(slots[j], l + "\n") == Some(g.value)
  {
    BaredEnd(g.key, g.value.text);
    assert "  " + l == Print(g) && "  " + (l + "\n") == Print(g) + "\n";
    assert forall i :: 0 <= i < |l| ==> Print(g)[i + 2] == l[i];
    FieldLineAssigns(slots, g, j);
    MaskedWithoutQuotes(slots, g.value, j);
    IndentAssigns(slots, l + "\n", j);
  }

  /** An empty field on one line assigns nothing, not even its own slot. */
  lemma EmptyFieldIsSilent(slots: seq<Slot>, f: Field, j: nat, size: nat)
    requires GoodSlots(slots) && j < |slots| && 2 <= size && PlainKey(f) && f.value == Text("")
    requires slots[j].key == f.key ==> !slots[j].numeric
    requires OneLine(Print(f), size)
    ensures Silent(slots, Print(f), j, size)
  {
    LineAlone(Print(f), size);
    FieldLineAssigns(slots, f, j);
  }

  function ValueLength(v: Value): nat {
    match v case Text(s) => |s| + 2 case Number(n) => |Dec(n)|
  }

  lemma PrintedLength(f: Field)
    ensures |Print(f)| == |f.key| + ValueLength(f.value) + |f.end| + 6
  {}

  lemma PrintedOneLine(f: Field, size: nat)
    requires PlainKey(f) && '\n' !in f.end && '\0' !in f.end
    requires f.value.Text? ==> '\n' !in f.value.text && '\0' !in f.value.text
    requires |f.key| + ValueLength(f.value) + |f.end| + 7 < size
    ensures OneLine(Print(f), size)
  {
    PrintedLength(f);
    assert '\n' !in Shown(f) && '\0' !in Shown(f);
  }

  // ----- lines behind the fields -----

  /** A nested line: a word of its own after an indent, or punctuation. */
  datatype Nested = Keyed(indent: string, word: string, rest: string) | Bare(text: string)

  function ShowNested(n: Nested): string {
    match n
    case Keyed(indent, word, rest) => indent + (Quoted(word) + rest)
    case Bare(text) => text
  }

  /** The line cannot be taken for a field of this slot. */
  predicate Inert(n: Nested, slot: Slot) {
    match n
    case Keyed(indent, word, rest) =>
      && (indent == "  " || indent == "    ") && '"' !in word
      && (word != slot.key || rest == "" || rest[0] != ':')
    case Bare(text) => '"' !in text
  }

  lemma InertAssignsNothing(slots: seq<Slot>, n: Nested, j: nat)
    requires j < |slots| && '"' !in slots[j].key && Inert(n, slots[j])
    ensures !Assigns(slots, ShowNested(n) + "\n", j)
  {
    match n {
      case Keyed(indent, word, rest) =>
        assert indent + (Quoted(word) + rest) + "\n" == indent + (Quoted(word) + (rest + "\n"));
        OtherWordAssignsNothing(indent, word, rest + "\n", slots[j]);
      case Bare(text) =>
        NoQuoteAssignsNothing(slots, text + "\n", j);
    }
  }
}
