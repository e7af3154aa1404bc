/** The daemon's response printer and the client's response parser. */
module HttpResponse {
  import opened CText

  const MAX_RESPONSE_SIZE: nat := 8192

  const CRLF := "\r\n"
  const SEAM := "\r\n\r\n"

  function Headers(length: int): string {
    "Content-Type: application/json" + CRLF + "Content-Length: " + Dec(length) + CRLF + "Connection: close" + CRLF
  }

  /** The `snprintf` of `send_http_response`. */
  function Format(version: string, code: int, message: string, headers: string, body: string): string {
    version + " " + Dec(code) + " " + message + CRLF + headers + CRLF + body
  }

  /** The whole message, before the buffer bounds it. */
  function Message(code: int, message: string, body: string): string {
    Format("HTTP/1.1", code, message, Headers(|body|), body)
  }

  /** Status code, if one could be read, and body. */
  datatype Parsed = Parsed(status: Option<int>, body: string)

  /** `parse_http_response`. */
  function Parse(response: string): Option<Parsed> {
    match Strstr(response, "HTTP/1.1 ")
    case None => None
    case Some(k) =>
      match Strstr(response, SEAM)
      case None => None
      case Some(j) => Some(Parsed(ScanInt(response[k + 8..]), response[j + 4..]))
  }

  class HttpResponse {
    var version: string
    var statusCode: int
    var statusMessage: string
    var headers: string
    var body: string
    var contentLength: int

    constructor ()
    {
      version, statusCode, statusMessage, headers, body, contentLength := "", 0, "", "", "", 0;
    }

    function Formatted(): string
      reads this
    {
      Format(version, statusCode, statusMessage, headers, body)
    }

    /**
     `create_http_response`. The struct is not cleared first, so the message
     and the body must leave room for the padding that terminates them.
     */
    method Create(code: int, message: string, text: Option<string>)
      requires |message| < 63 && (text.Some? ==> |text.value| < MAX_RESPONSE_SIZE - 1)
      modifies this
      ensures var b := if text.Some? then text.value else "";
              && Formatted() == Message(code, message, b)
              && contentLength == |b| && statusCode == code && body == b
    {
      version := "HTTP/1.1";
      statusCode := code;
      statusMessage := Cut(message, 63);
      match text {
        case Some(b) =>
          body := Cut(b, MAX_RESPONSE_SIZE - 1);
          contentLength := |b|;
        case None =>
          body := "";
          contentLength := 0;
      }
      headers := Headers(contentLength);
    }

    /** The buffer `send_http_response` puts on the wire. */
    method Send() returns (buffer: string)
      ensures buffer == Cut(Formatted(), MAX_RESPONSE_SIZE - 1)
    {
      buffer := Cut(Format(version, statusCode, statusMessage, headers, body), MAX_RESPONSE_SIZE - 1);
    }
  }

  // ----- where the header ends -----

  /** First occurrences are unique. */
  lemma FirstAt(s: string, p: string, j: nat)
    requires At(s, p, j) && forall i :: 0 <= i < j ==> !At(s, p, i)
    ensures Strstr(s, p) == Some(j)
  {}

  /** Text without CR in front does not matter. */
  lemma NoCRInFront(a: string, b: string)
    requires '\r' !in a
    ensures Contains(a + b, SEAM) <==> Contains(b, SEAM)
  {
    forall j | 0 <= j < |a|
      ensures !At(a + b, SEAM, j)
    {
      if At(a + b, SEAM, j) {
        AtChar(a + b, SEAM, j, 0);
      }
    }
    OnlyAt(a, b, SEAM, -1);
  }

  lemma OneCRIsNoSeam(a: string)
    requires '\r' !in a
    ensures !Contains(a + CRLF, SEAM)
  {
    ContainsIffAt(a + CRLF, SEAM);
    if j :| At(a + CRLF, SEAM, j) {
      AtChar(a + CRLF, SEAM, j, 0);
    }
  }

  /** A seam-free line, then something that does not start with CR: the first seam is in the rest. */
  lemma SeamAfterLine(a: string, rest: string, k: nat)
    requires !Contains(a + CRLF, SEAM) && rest != "" && rest[0] != '\r' && Strstr(rest, SEAM) == Some(k)
    ensures Strstr(a + CRLF + rest, SEAM) == Some(|a| + 2 + k)
  {
    var line := a + CRLF;
    var s := line + rest;
    forall j: nat | j < |a| + 2 + k
      ensures !At(s, SEAM, j)
    {
      if j + 4 <= |line| {
        AtPrefix(line, rest, SEAM, j);
        ContainsIffAt(line, SEAM);
      } else if j < |line| {
        if At(s, SEAM, j) {
          assert s[|a|] == '\r' && s[|a| + 1] == '\n' && s[|a| + 2] == rest[0];
          AtChar(s, SEAM, j, 0);
          AtChar(s, SEAM, j, 1);
          AtChar(s, SEAM, j, 2);
        }
      } else {
        AtShift(line, rest, SEAM, j);
      }
    }
    AtShift(line, rest, SEAM, |line| + k);
    FirstAt(s, SEAM, |line| + k);
  }

  lemma SeamHere(a: string, body: string)
    requires '\r' !in a
    ensures Strstr(a + (SEAM + body), SEAM) == Some(|a|)
  {
    var s := a + (SEAM + body);
    assert s[|a|..|a| + 4] == SEAM;
    forall j: nat | j < |a|
      ensures !At(s, SEAM, j)
    {
      if At(s, SEAM, j) {
        AtChar(s, SEAM, j, 0);
      }
    }
    FirstAt(s, SEAM, |a|);
  }

  /** Four header lines and a body, bracketed from the right. */
  function Framed(first: string, t: string, n: string, c: string, body: string): string {
    first + CRLF + (t + CRLF + (n + CRLF + (c + (SEAM + body))))
  }

  predicate HeaderLine(l: string) {
    l != "" && '\r' !in l
  }

  lemma SeamOfRest(t: string, n: string, c: string, body: string)
    requires HeaderLine(t) && HeaderLine(n) && HeaderLine(c)
    ensures Strstr(t + CRLF + (n + CRLF + (c + (SEAM + body))), SEAM) == Some(|t| + 2 + |n| + 2 + |c|)
  {
    SeamHere(c, body);
    OneCRIsNoSeam(n);
    SeamAfterLine(n, c + (SEAM + body), |c|);
    OneCRIsNoSeam(t);
    SeamAfterLine(t, n + CRLF + (c + (SEAM + body)), |n| + 2 + |c|);
  }

  /** The first seam ends the headers if and only if the first line makes none of its own. */
  lemma FramedSeam(first: string, t: string, n: string, c: string, body: string)
    requires HeaderLine(t) && HeaderLine(n) && HeaderLine(c)
    ensures var s := Framed(first, t, n, c, body);
            && Contains(s, SEAM) && Strstr(s, SEAM).value + 4 + |body| <= |s|
            && (Strstr(s, SEAM).value + 4 + |body| == |s| <==> !Contains(first + CRLF, SEAM))
  {
    var line := first + CRLF;
    var rest := t + CRLF + (n + CRLF + (c + (SEAM + body)));
    SeamOfRest(t, n, c, body);
    var k := |t| + 2 + |n| + 2 + |c|;
    AtShift(line, rest, SEAM, |line| + k);
    if Contains(line, SEAM) {
      var j := Strstr(line, SEAM).value;
      AtPrefix(line, rest, SEAM, j);
    } else {
      SeamAfterLine(first, rest, k);
    }
  }

  lemma NotBeforeType(first: string, t: string, rest: string, j: nat)
    requires '\r' !in first && HeaderLine(t) && |t| > 8 && t[8] != 'L' && j < |first| + 2 + |t|
    ensures !At(first + CRLF + t + rest, CRLF + "Content-Length: ", j)
  {
    var s, pattern := first + CRLF + t + rest, CRLF + "Content-Length: ";
    assert pattern[0] == '\r' && pattern[10] == 'L';
    assert s[|first| + 10] == t[8];
    assert s[j] == '\r' ==> j == |first|;
    if At(s, pattern, j) {
      AtChar(s, pattern, j, 0);
      AtChar(s, pattern, j, 10);
    }
  }

  /** The declared length is found behind a first line and a type line without CR. */
  lemma FramedLength(first: string, t: string, length: int, tail: string)
    requires '\r' !in first && HeaderLine(t) && |t| > 8 && t[8] != 'L' && StopsNumber(tail)
    ensures DeclaredLength(first + CRLF + (t + (CRLF + "Content-Length: " + (Dec(length) + tail)))) == Some(length)
  {
    var pattern := CRLF + "Content-Length: ";
    var head := first + CRLF + t;
    var number := Dec(length) + tail;
    FirstDeclared(first, t, number);
    Regroup(first + CRLF, t, pattern + number);
    BehindBoth(head, pattern, number);
    ScanDec(length, tail);
  }

  lemma BehindBoth(a: string, b: string, c: string)
    ensures (a + (b + c))[|a| + |b|..] == c
  {}

  lemma FirstDeclared(first: string, t: string, rest: string)
    requires '\r' !in first && HeaderLine(t) && |t| > 8 && t[8] != 'L'
    ensures var pattern := CRLF + "Content-Length: ";
            Strstr(first + CRLF + t + (pattern + rest), pattern) == Some(|first| + 2 + |t|)
  {
    var pattern := CRLF + "Content-Length: ";
    var head, tail := first + CRLF + t, pattern + rest;
    var s := head + tail;
    forall j: nat | j < |head|
      ensures !At(s, pattern, j)
    {
      NotBeforeType(first, t, tail, j);
    }
    AtShift(head, tail, pattern, |head|);
    assert tail[..18] == pattern;
    FirstAt(s, pattern, |head|);
  }

  /** The printed status code is read back. */
  lemma StatusScanned(code: int, rest: string)
    requires StopsNumber(rest)
    ensures var s := "HTTP/1.1" + (" " + (Dec(code) + rest));
            Strstr(s, "HTTP/1.1 ") == Some(0) && ScanInt(s[8..]) == Some(code)
  {
    var number := Dec(code) + rest;
    var s := "HTTP/1.1" + (" " + number);
    assert s[0..9] == "HTTP/1.1 ";
    FirstAt(s, "HTTP/1.1 ", 0);
    assert s[8..] == " " + number;
    assert Dec(code)[0] in Dec(code) && number[0] == Dec(code)[0];
    assert (" " + number)[1..] == number;
    assert SkipSpace(" " + number) == number == SkipSpace(number);
    ScanDec(code, rest);
  }

  // ----- the daemon's messages -----

  const TYPE := "Content-Type: application/json"
  const CLOSE := "Connection: close"

  function FirstLine(code: int, message: string): string {
    "HTTP/1.1" + (" " + (Dec(code) + (" " + message)))
  }

  lemma MessageFramed(code: int, message: string, body: string)
    ensures Message(code, message, body)
            == Framed(FirstLine(code, message), TYPE, "Content-Length: " + Dec(|body|), CLOSE, body)
  {
    var n := "Content-Length: " + Dec(|body|);
    FormatRegroups("HTTP/1.1", Dec(code), message, TYPE, n, CLOSE, body);
    assert TYPE + CRLF + "Content-Length: " + Dec(|body|) + CRLF + CLOSE + CRLF
           == TYPE + CRLF + n + CRLF + CLOSE + CRLF;
  }

  lemma FormatRegroups(v: string, d: string, m: string, t: string, n: string, c: string, body: string)
    ensures v + " " + d + " " + m + CRLF + (t + CRLF + n + CRLF + c + CRLF) + CRLF + body
            == Framed(v + (" " + (d + (" " + m))), t, n, c, body)
  {
    var first := v + (" " + (d + (" " + m)));
    assert v + " " + d + " " + m == first;
    var headers := t + CRLF + n + CRLF + c + CRLF;
    var line := first + CRLF;
    assert line + headers + CRLF + body == line + (headers + CRLF + body);
    assert headers + CRLF + body == t + CRLF + (n + CRLF + (c + (SEAM + body))) by {
      assert CRLF + CRLF == SEAM;
      assert headers + CRLF == t + CRLF + n + CRLF + (c + SEAM);
      assert headers + CRLF + body == t + CRLF + n + CRLF + (c + (SEAM + body));
    }
  }

  lemma HeaderLines(length: nat)
    ensures HeaderLine(TYPE) && HeaderLine(CLOSE) && HeaderLine("Content-Length: " + Dec(length))
    ensures |TYPE| > 8 && TYPE[8] == 'T'
  {
    var n := "Content-Length: ";
    assert '\r' !in n && '\r' !in Dec(length);
  }

  lemma FirstLineSeam(code: int, message: string)
    ensures Contains(FirstLine(code, message) + CRLF, SEAM) <==> Contains(message + CRLF, SEAM)
  {
    var front := "HTTP/1.1" + (" " + (Dec(code) + " "));
    assert '\r' !in front by {
      assert '\r' !in Dec(code);
    }
    assert FirstLine(code, message) + CRLF == front + (message + CRLF);
    NoCRInFront(front, message + CRLF);
  }

  lemma StatusComesBack(code: int, message: string, body: string)
    ensures var s := Message(code, message, body);
            Strstr(s, "HTTP/1.1 ") == Some(0) && ScanInt(s[8..]) == Some(code)
  {
    var n := "Content-Length: " + Dec(|body|);
    MessageFramed(code, message, body);
    FramedStartsWithStatus(code, message, TYPE, n, CLOSE, body);
  }

  lemma FirstLineThen(code: int, m: string, more: string)
    ensures FirstLine(code, m) + more == "HTTP/1.1" + (" " + (Dec(code) + (" " + m + more)))
  {
    var d, sm := Dec(code), " " + m;
    assert (d + sm) + more == d + (sm + more);
    assert (" " + (d + sm)) + more == " " + (d + (sm + more));
    var inner := " " + (d + sm);
    assert ("HTTP/1.1" + inner) + more == "HTTP/1.1" + (inner + more);
  }

  lemma FramedStartsWithStatus(code: int, m: string, t: string, n: string, c: string, body: string)
    ensures var s := Framed(FirstLine(code, m), t, n, c, body);
            Strstr(s, "HTTP/1.1 ") == Some(0) && ScanInt(s[8..]) == Some(code)
  {
    var first, rest := FirstLine(code, m), t + CRLF + (n + CRLF + (c + (SEAM + body)));
    assert first + CRLF + rest == first + (CRLF + rest);
    FirstLineThen(code, m, CRLF + rest);
    assert (" " + m + (CRLF + rest))[0] == ' ';
    StatusScanned(code, " " + m + (CRLF + rest));
  }

  lemma MessageLength(code: int, message: string, body: string)
    ensures |Message(code, message, body)| <= |Dec(code)| + |message| + |Dec(|body|)| + |body| + 100
  {}

  lemma SuffixFrom(s: string, head: string, body: string)
    requires s == head + body
    ensures s[|s| - |body|..] == body
  {}

  lemma FramedEndsInBody(first: string, t: string, n: string, c: string, body: string)
    ensures var s := Framed(first, t, n, c, body); |s| >= |body| + 4 && s[|s| - |body|..] == body
  {
    var s := Framed(first, t, n, c, body);
    var head := first + CRLF + (t + CRLF + (n + CRLF + (c + SEAM)));
    assert s == head + body;
    SuffixFrom(s, head, body);
  }

  /**
   Response round trip, for any body, even one with blank lines of its own:
   the code comes back, and the body does exactly if the status message
   contains no header end. A message without CR never does.
   */
  lemma ResponseRoundTrip(code: int, message: string, body: string)
    requires |Message(code, message, body)| <= MAX_RESPONSE_SIZE - 1
    ensures var r := Parse(Cut(Message(code, message, body), MAX_RESPONSE_SIZE - 1));
            && r.Some? && r.value.status == Some(code)
            && (r.value.body == body <==> !Contains(message + CRLF, SEAM))
    ensures '\r' !in message ==> !Contains(message + CRLF, SEAM)
  {
    var s := Message(code, message, body);
    var n := "Content-Length: " + Dec(|body|);
    MessageFramed(code, message, body);
    StatusComesBack(code, message, body);
    HeaderLines(|body|);
    FramedSeam(FirstLine(code, message), TYPE, n, CLOSE, body);
    FirstLineSeam(code, message);
    FramedEndsInBody(FirstLine(code, message), TYPE, n, CLOSE, body);
    if '\r' !in message {
      OneCRIsNoSeam(message);
    }
  }

  /** The length a recipient reads from the header section (section 6.2 of RFC 9112). */
  function DeclaredLength(response: string): Option<int> {
    match Strstr(response, CRLF + "Content-Length: ")
    case None => None
    case Some(k) => ScanInt(response[k + 18..])
  }

  /** The declared length is the length of the body, so framing by it cuts the same body. */
  lemma DeclaredLengthIsBodyLength(code: int, message: string, body: string)
    requires '\r' !in message
    ensures DeclaredLength(Message(code, message, body)) == Some(|body|)
  {
    MessageFramed(code, message, body);
    HeaderLines(|body|);
    var first, tail := FirstLine(code, message), CRLF + (CLOSE + (SEAM + body));
    assert '\r' !in first by {
      assert '\r' !in Dec(code);
    }
    FramedLength(first, TYPE, |body|, tail);
    LengthLine(first, TYPE, Dec(|body|), CLOSE + (SEAM + body));
  }

  lemma LengthLine(first: string, t: string, d: string, rest: string)
    ensures first + CRLF + (t + CRLF + ("Content-Length: " + d + CRLF + rest))
            == first + CRLF + (t + (CRLF + "Content-Length: " + (d + (CRLF + rest))))
  {
    var n := "Content-Length: ";
    assert n + d + CRLF + rest == n + (d + (CRLF + rest));
    assert t + CRLF + (n + (d + (CRLF + rest))) == t + (CRLF + n + (d + (CRLF + rest)));
  }

  /** A response that is cut off before its headers end is refused by the client. */
  lemma TruncatedIsRefused(s: string, end: nat, n: nat)
    requires Strstr(s, "\r\n\r\n") == Some(end) && n < end + 4 && n <= |s|
    ensures Parse(s[..n]).None?
  {
    assert SEAM == "\r\n\r\n";
    if Contains(s[..n], SEAM) {
      var j := Strstr(s[..n], SEAM).value;
      assert s[..n][j..j + 4] == s[j..j + 4];
      assert At(s, SEAM, j);
    }
  }

  lemma GroupHeaders(t: string, n: string, d: string, c: string, crlf: string)
    ensures t + crlf + n + d + crlf + c + crlf == t + crlf + n + d + (crlf + c + crlf)
  {}

  lemma HeaderLiterals()
    ensures "Content-Type: application/json" + CRLF + "Content-Length: "
            == "Content-Type: application/json\r\nContent-Length: "
    ensures CRLF + "Connection: close" + CRLF == "\r\nConnection: close\r\n"
  {}

  lemma HeadersSpelled(length: int, d: string)
    requires d == Dec(length)
    ensures Headers(length)
            == "Content-Type: application/json\r\nContent-Length: " + d + "\r\nConnection: close\r\n"
  {
    HeaderLiterals();
    GroupHeaders("Content-Type: application/json", "Content-Length: ", d, "Connection: close", CRLF);
  }

  /** The text that the daemon sends: status line, three headers, a blank line, the body. */
  lemma MessageSpelled(code: int, message: string, body: string, headers: string)
    requires headers == "Content-Type: application/json\r\nContent-Length: " + Dec(|body|) + "\r\nConnection: close\r\n"
    ensures Message(code, message, body)
            == "HTTP/1.1" + " " + Dec(code) + " " + message + "\r\n" + headers + "\r\n" + body
  {
    HeadersSpelled(|body|, Dec(|body|));
  }
}
