/**
 The C library's view of text, as far as the daemon uses it: NUL-terminated
 strings, `strstr`, `strchr`, bounded copies, `fgets`, and the `%d` and `%08x`
 conversions. A string value stands for the bytes before the terminating NUL.
 */
module CText {

  datatype Option<+T> = None | Some(value: T)

  /** `p` occurs in `s` at index `i`. */
  predicate At(s: string, p: string, i: int) {
    0 <= i <= |s| - |p| && s[i..i + |p|] == p
  }

  lemma AtChar(s: string, p: string, j: int, i: nat)
    requires At(s, p, j) && i < |p|
    ensures s[j + i] == p[i]
  {
    assert s[j..j + |p|][i] == s[j + i];
  }

  lemma Regroup<T>(a: seq<T>, b: seq<T>, c: seq<T>)
    ensures a + (b + c) == a + b + c
  {}

  lemma PrefixRest<T>(a: seq<T>, s: seq<T>)
    requires a <= s
    ensures s == a + s[|a|..]
  {}

  lemma SplitAround<T>(s: seq<T>, p: nat)
    requires p < |s|
    ensures s == s[..p] + ([s[p]] + s[p + 1..])
  {}

  lemma ElementBehind<T>(a: seq<T>, x: T, b: seq<T>, i: nat)
    requires |a| <= i <= |a| + |b|
    ensures (a + ([x] + b))[i] == if i == |a| then x else b[i - |a| - 1]
  {}

  /** First occurrence of `p` in `s` at or after `i`. */
  function FindFrom(s: string, p: string, i: nat): (r: Option<nat>)
    ensures r.Some? ==> i <= r.value && At(s, p, r.value) && forall j :: i <= j < r.value ==> !At(s, p, j)
    ensures r.None? ==> forall j :: i <= j ==> !At(s, p, j)
    decreases |s| - i
  {
    if |s| < i + |p| then None
    else if At(s, p, i) then Some(i)
    else FindFrom(s, p, i + 1)
  }

  /** `strstr`, as an index. */
  function Strstr(s: string, p: string): (r: Option<nat>)
    ensures r.Some? ==> At(s, p, r.value) && forall j :: 0 <= j < r.value ==> !At(s, p, j)
    ensures r.None? ==> forall j :: !At(s, p, j)
  {
    FindFrom(s, p, 0)
  }

  predicate Contains(s: string, p: string) {
    Strstr(s, p).Some?
  }

  lemma ContainsIffAt(s: string, p: string)
    ensures Contains(s, p) <==> exists j :: At(s, p, j)
  {
    if Contains(s, p) {
      assert At(s, p, Strstr(s, p).value);
    }
  }

  lemma AtShift(a: string, b: string, p: string, j: int)
    requires |a| <= j
    ensures At(a + b, p, j) <==> At(b, p, j - |a|)
  {
    if j + |p| <= |a| + |b| {
      assert (a + b)[j..j + |p|] == b[j - |a|..j - |a| + |p|];
    }
  }

  lemma AtPrefix(a: string, b: string, p: string, j: int)
    requires j + |p| <= |a|
    ensures At(a + b, p, j) <==> At(a, p, j)
  {
    if 0 <= j {
      assert (a + b)[j..j + |p|] == a[j..j + |p|];
    }
  }

  /** A pattern that can begin in `a` only at `i` begins there or lies in `b`. */
  lemma OnlyAt(a: string, b: string, p: string, i: int)
    requires forall j :: 0 <= j < |a| && j != i ==> !At(a + b, p, j)
    requires i < |a|
    ensures Contains(a + b, p) <==> At(a + b, p, i) || Contains(b, p)
  {
    ContainsIffAt(a + b, p);
    ContainsIffAt(b, p);
    if j :| At(a + b, p, j) && j != i {
      AtShift(a, b, p, j);
    }
    if j :| At(b, p, j) {
      AtShift(a, b, p, j + |a|);
    }
  }

  /** A part of a text contains nothing that the text does not. */
  lemma PartContains(a: string, b: string, c: string, p: string)
    requires Contains(b, p)
    ensures Contains(a + (b + c), p)
  {
    var j := Strstr(b, p).value;
    AtPrefix(b, c, p, j);
    AtShift(a, b + c, p, j + |a|);
    ContainsIffAt(a + (b + c), p);
  }

  /** `strchr`, as an index. */
  function Strchr(s: string, c: char): (r: Option<nat>)
    ensures r.Some? ==> r.value < |s| && s[r.value] == c && c !in s[..r.value]
    ensures r.None? ==> c !in s
  {
    if s == "" then None
    else if s[0] == c then Some(0)
    else match Strchr(s[1..], c)
      case None => None
      case Some(k) =>
        assert s[..k + 1] == [s[0]] + s[1..][..k];
        Some(k + 1)
  }

  /** The part of `s` before the first `c`, or all of `s`. */
  function Before(s: string, c: char): (r: string)
    ensures c !in r && r <= s
  {
    match Strchr(s, c)
    case None => s
    case Some(k) => s[..k]
  }

  lemma BeforeStop(v: string, c: char, rest: string)
    requires c !in v
    ensures Strchr(v + [c] + rest, c) == Some(|v|)
    ensures Before(v + [c] + rest, c) == v
  {
    var s := v + [c] + rest;
    assert s[|v|] == c && c in s;
    assert forall i :: 0 <= i < |v| ==> s[i] == v[i];
    assert forall j :: |v| < j <= |s| ==> s[..j][|v|] == c;
    assert s[..|v|] == v;
  }

  lemma BeforeFirst(v: string, c: char, rest: string)
    ensures Before(v + [c] + rest, c) == Before(v, c)
  {
    match Strchr(v, c) {
      case None => BeforeStop(v, c, rest);
      case Some(k) =>
        assert v + [c] + rest == v[..k] + [c] + (v[k + 1..] + [c] + rest);
        BeforeStop(v[..k], c, v[k + 1..] + [c] + rest);
    }
  }

  /** A buffer read as a C string: the bytes before the first NUL. */
  function CString(s: string): string {
    Before(s, '\0')
  }

  lemma CStringWhole(s: string)
    requires '\0' !in s
    ensures CString(s) == s
  {}

  /** `strncpy(dst, s, n)` into a zeroed buffer of n + 1 bytes. */
  function Cut(s: string, n: nat): (r: string)
    ensures r <= s && |r| == if |s| <= n then |s| else n
    ensures |s| <= n <==> r == s
  {
    if |s| <= n then s else s[..n]
  }

  /** Number of bytes one `fgets` with a buffer of `size` bytes takes. */
  function FgetsLength(s: string, size: nat): (n: nat)
    requires s != "" && 2 <= size
    ensures 0 < n <= |s|
  {
    var room := if |s| < size then |s| else size - 1;
    match Strchr(s[..room], '\n')
    case None => room
    case Some(k) => k + 1
  }

  /** All the strings an `fgets` loop sees, each as a C string. */
  function Lines(s: string, size: nat): seq<string>
    requires 2 <= size
  {
    if s == "" then []
    else
      var n := FgetsLength(s, size);
      [CString(s[..n])] + Lines(s[n..], size)
  }

  /** No NUL, and a newline only at the end. */
  predicate FileLine(line: string) {
    '\0' !in line && ('\n' in line ==> '\n' !in line[..|line| - 1])
  }

  lemma {:induction false} LinesAreFileLines(s: string, size: nat)
    requires 2 <= size
    ensures forall l :: l in Lines(s, size) ==> FileLine(l) && |l| < size
  {
    if s == "" {
    } else {
      var n := FgetsLength(s, size);
      var room := if |s| < size then |s| else size - 1;
      assert n <= room;
      assert s[..n][..n - 1] == s[..room][..n - 1];
      var l := CString(s[..n]);
      assert l <= s[..n];
      assert |l| > 0 ==> l[..|l| - 1] <= s[..room][..n - 1];
      assert '\n' !in s[..room][..n - 1];
      LinesAreFileLines(s[n..], size);
    }
  }

  /** Reading starts afresh behind every newline. */
  lemma {:induction false} LinesAppend(a: string, b: string, size: nat)
    requires 2 <= size && (a == "" || a[|a| - 1] == '\n')
    ensures Lines(a + b, size) == Lines(a, size) + Lines(b, size)
    decreases |a|
  {
    if a == "" {
      assert a + b == b;
    } else {
      var n := FgetsLength(a, size);
      FirstTakeAppend(a, b, size);
      assert (a + b)[..n] == a[..n] && (a + b)[n..] == a[n..] + b;
      LinesAppend(a[n..], b, size);
      Regroup([CString(a[..n])], Lines(a[n..], size), Lines(b, size));
    }
  }

  lemma FirstTakeAppend(a: string, b: string, size: nat)
    requires a != "" && a[|a| - 1] == '\n' && 2 <= size
    ensures FgetsLength(a + b, size) == FgetsLength(a, size)
  {
    if |a| < size {
      var k := Strchr(a, '\n').value;
      var room := if |a + b| < size then |a + b| else size - 1;
      assert a[..|a|] == a;
      assert (a + b)[..room] == a[..k] + ['\n'] + (a + b)[k + 1..room];
      BeforeStop(a[..k], '\n', (a + b)[k + 1..room]);
    } else {
      assert (a + b)[..size - 1] == a[..size - 1];
    }
  }

  /** What a text does not contain, none of its lines does. */
  lemma {:induction false} LinesContain(s: string, p: string, size: nat)
    requires 2 <= size && !Contains(s, p)
    ensures forall l :: l in Lines(s, size) ==> !Contains(l, p)
    decreases |s|
  {
    if s == "" {
    } else {
      var n := FgetsLength(s, size);
      var l := CString(s[..n]);
      PartHasNot("", l, s[|l|..], s, p);
      PartHasNot(s[..n], s[n..], "", s, p);
      LinesContain(s[n..], p, size);
    }
  }

  lemma PartHasNot(a: string, b: string, c: string, s: string, p: string)
    requires s == a + b + c && !Contains(s, p)
    ensures !Contains(b, p)
  {
    if Contains(b, p) {
      Regroup(a, b, c);
      PartContains(a, b, c, p);
    }
  }

  /** Lines written with `fprintf(fp, "%s\n", ...)`, one after the other. */
  function Terminated(ls: seq<string>): string {
    if ls == [] then "" else ls[0] + "\n" + Terminated(ls[1..])
  }

  function WithNewline(ls: seq<string>): (r: seq<string>)
    ensures |r| == |ls|
    ensures forall i :: 0 <= i < |ls| ==> r[i] == ls[i] + "\n"
  {
    seq(|ls|, i requires 0 <= i < |ls| => ls[i] + "\n")
  }

  /** A line that one `fgets` of `size` bytes can return whole. */
  predicate OneLine(l: string, size: nat) {
    '\n' !in l && '\0' !in l && |l| + 1 < size
  }

  lemma LineAlone(l: string, size: nat)
    requires 2 <= size && OneLine(l, size)
    ensures Lines(l + "\n", size) == [l + "\n"]
  {
    var s := l + "\n";
    BeforeStop(l, '\n', "");
    assert s == l + ['\n'] + "" && s[..|s|] == s;
    assert FgetsLength(s, size) == |s|;
    CStringWhole(s);
  }

  lemma {:induction false} LinesOfTerminated(ls: seq<string>, size: nat)
    requires 2 <= size && forall l :: l in ls ==> OneLine(l, size)
    ensures Lines(Terminated(ls), size) == WithNewline(ls)
  {
    if ls == [] {
    } else {
      LineAlone(ls[0], size);
      LinesAppend(ls[0] + "\n", Terminated(ls[1..]), size);
      LinesOfTerminated(ls[1..], size);
      assert WithNewline(ls) == [ls[0] + "\n"] + WithNewline(ls[1..]);
    }
  }

  lemma {:induction false} TerminatedAppend(a: seq<string>, b: seq<string>)
    ensures Terminated(a + b) == Terminated(a) + Terminated(b)
  {
    if a == [] {
      assert a + b == b;
    } else {
      TerminatedAppend(a[1..], b);
      assert (a + b)[0] == a[0] && (a + b)[1..] == a[1..] + b;
      Regroup(a[0] + "\n", Terminated(a[1..]), Terminated(b));
    }
  }

  /** Newline-free lines can be told apart in the text they make. */
  lemma {:induction false} TerminatedInjective(a: seq<string>, b: seq<string>)
    requires forall l :: l in a + b ==> '\n' !in l
    requires Terminated(a) == Terminated(b)
    ensures a == b
  {
    if a == [] || b == [] {
    } else {
      assert a[0] in a + b && b[0] in a + b;
      BeforeStop(a[0], '\n', Terminated(a[1..]));
      BeforeStop(b[0], '\n', Terminated(b[1..]));
      assert Terminated(a) == a[0] + ['\n'] + Terminated(a[1..]);
      assert Terminated(b) == b[0] + ['\n'] + Terminated(b[1..]);
      assert a[0] == b[0];
      assert Terminated(a)[|a[0]| + 1..] == Terminated(a[1..]);
      assert Terminated(b)[|b[0]| + 1..] == Terminated(b[1..]);
      assert forall l :: l in a[1..] + b[1..] ==> l in a + b;
      TerminatedInjective(a[1..], b[1..]);
      assert a == [a[0]] + a[1..] && b == [b[0]] + b[1..];
    }
  }

  // ----- strtok -----

  function SkipAny(s: string, delims: string): (r: string)
    ensures |r| <= |s| && (r == "" || r[0] !in delims)
  {
    if s != "" && s[0] in delims then SkipAny(s[1..], delims) else s
  }

  /** Length of the longest prefix without a delimiter. */
  function Span(s: string, delims: string): (n: nat)
    ensures n <= |s| && (n == |s| || s[n] in delims)
    ensures forall i :: 0 <= i < n ==> s[i] !in delims
    ensures s != "" && s[0] !in delims ==> 0 < n
  {
    if s == "" || s[0] in delims then 0 else 1 + Span(s[1..], delims)
  }

  /** One `strtok` step: the token and what a further call would go on with. */
  function Token(s: string, delims: string): (r: Option<(string, string)>)
    ensures r.Some? ==> r.value.0 != "" && |r.value.0| + |r.value.1| <= |s|
    ensures r.Some? ==> forall c :: c in r.value.0 ==> c !in delims
  {
    var t := SkipAny(s, delims);
    if t == "" then None
    else
      var n := Span(t, delims);
      Some((t[..n], if n < |t| then t[n + 1..] else ""))
  }

  lemma TokenWhole(s: string, delims: string)
    requires s != "" && forall c :: c in s ==> c !in delims
    ensures Token(s, delims) == Some((s, ""))
  {
    assert forall i :: 0 <= i < |s| ==> s[i] in s && s[i] !in delims;
    assert Span(s, delims) == |s| && s[..|s|] == s;
  }

  lemma TokenThen(s: string, d: char, rest: string, delims: string)
    requires s != "" && d in delims && forall c :: c in s ==> c !in delims
    ensures Token(s + [d] + rest, delims) == Some((s, rest))
  {
    var t := s + [d] + rest;
    assert forall i :: 0 <= i < |s| ==> t[i] == s[i] && s[i] in s && s[i] !in delims;
    assert t[|s|] == d && Span(t, delims) == |s|;
    assert t[..|s|] == s && t[|s| + 1..] == rest;
  }

  // ----- numbers -----

  predicate IsInt32(n: int) {
    -0x8000_0000 <= n < 0x8000_0000
  }

  type Int32 = n: int | IsInt32(n)

  predicate IsDigit(c: char) {
    '0' <= c <= '9'
  }

  function Digit(d: nat): (c: char)
    requires d < 16
    ensures d < 10 ==> IsDigit(c) && DigitValue(c) == d
  {
    "0123456789abcdef"[d]
  }

  function DigitValue(c: char): int {
    c as int - '0' as int
  }

  function DecNat(n: nat): (s: string)
    ensures 0 < |s| && forall c :: c in s ==> IsDigit(c)
  {
    if n < 10 then [Digit(n)] else DecNat(n / 10) + [Digit(n % 10)]
  }

  /** `%d` and `%ld`. */
  function Dec(n: int): (s: string)
    ensures 0 < |s| && forall c :: c in s ==> IsDigit(c) || c == '-'
  {
    if n < 0 then "-" + DecNat(-n) else DecNat(n)
  }

  function Pow10(n: nat): nat {
    if n == 0 then 1 else 10 * Pow10(n - 1)
  }

  lemma {:induction false} DecNatShort(n: nat, k: nat)
    requires 0 < k && n < Pow10(k)
    ensures |DecNat(n)| <= k
  {
    if n < 10 {
    } else {
      assert k > 1;
      DecNatShort(n / 10, k - 1);
    }
  }

  lemma DecShort(n: int)
    ensures IsInt32(n) ==> |Dec(n)| <= 11
    ensures 0 <= n < 0x8000_0000_0000_0000 ==> |Dec(n)| <= 19
  {
    var m := if n < 0 then -n else n;
    assert Pow10(10) == 10_000_000_000;
    assert Pow10(19) == 1_000_000_000 * Pow10(10);
    if IsInt32(n) {
      DecNatShort(m, 10);
    }
    if 0 <= n < 0x8000_0000_0000_0000 {
      DecNatShort(m, 19);
    }
  }

  /** Reads digits while there are any, most significant first. */
  function ScanDigits(s: string, acc: int): int {
    if s == "" || !IsDigit(s[0]) then acc
    else ScanDigits(s[1..], 10 * acc + DigitValue(s[0]))
  }

  predicate IsSpace(c: char) {
    c == ' ' || '\t' <= c <= '\r'
  }

  function SkipSpace(s: string): (r: string)
    ensures |r| <= |s| && (r == "" || !IsSpace(r[0]))
  {
    if s != "" && IsSpace(s[0]) then SkipSpace(s[1..]) else s
  }

  /** `sscanf(s, "%d", ...)`: optional white space, optional sign, digits. */
  function ScanInt(s: string): Option<int> {
    var t := SkipSpace(s);
    var negative := t != "" && t[0] == '-';
    var u := if t != "" && (t[0] == '-' || t[0] == '+') then t[1..] else t;
    if u == "" || !IsDigit(u[0]) then None
    else Some(if negative then -ScanDigits(u, 0) else ScanDigits(u, 0))
  }

  /** No digit follows: the place where `%d` stops. */
  predicate StopsNumber(rest: string) {
    rest == "" || !IsDigit(rest[0])
  }

  lemma {:induction false} ScanDigitsAppend(s: string, rest: string, acc: int)
    requires forall c :: c in s ==> IsDigit(c)
    ensures ScanDigits(s + rest, acc) == ScanDigits(rest, ScanDigits(s, acc))
  {
    if s == "" {
      assert s + rest == rest;
    } else {
      assert (s + rest)[1..] == s[1..] + rest;
      ScanDigitsAppend(s[1..], rest, 10 * acc + DigitValue(s[0]));
    }
  }

  lemma {:induction false} ScanDecNat(n: nat)
    ensures ScanDigits(DecNat(n), 0) == n
  {
    if n < 10 {
    } else {
      ScanDecNat(n / 10);
      ScanDigitsAppend(DecNat(n / 10), [Digit(n % 10)], 0);
    }
  }

  lemma ScanNat(m: nat, rest: string)
    requires StopsNumber(rest)
    ensures var body := DecNat(m) + rest; IsDigit(body[0]) && ScanDigits(body, 0) == m
  {
    ScanDecNat(m);
    ScanDigitsAppend(DecNat(m), rest, 0);
    assert DecNat(m)[0] in DecNat(m);
  }

  lemma ScanBody(body: string)
    requires body != "" && IsDigit(body[0])
    ensures ScanInt(body) == Some(ScanDigits(body, 0))
    ensures ScanInt("-" + body) == Some(-ScanDigits(body, 0))
  {
    assert SkipSpace(body) == body;
    var t := "-" + body;
    assert t[0] == '-' && t[1..] == body && SkipSpace(t) == t;
  }

  lemma DecBody(n: int, rest: string)
    ensures Dec(n) + rest == if n < 0 then "-" + (DecNat(-n) + rest) else DecNat(n) + rest
  {}

  lemma ScanDec(n: int, rest: string)
    requires StopsNumber(rest)
    ensures ScanInt(Dec(n) + rest) == Some(n)
  {
    var m := if n < 0 then -n else n;
    DecBody(n, rest);
    ScanNat(m, rest);
    ScanBody(DecNat(m) + rest);
  }
}
