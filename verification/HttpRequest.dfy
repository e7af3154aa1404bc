/** The client's request printer, the daemon's request parser with its one `strtok` cursor, and routing. */
module HttpRequest {
  import opened CText
  import opened Ids

  const CLIENT_REQUEST_SIZE: nat := 4096
  const MAX_NAME: nat := 256

  // ----- printing -----

  const VERSION := "HTTP/1.1"

  function RequestLine(method_: string, url: string): string {
    method_ + " " + (url + " " + VERSION)
  }

  function RequestTail(body: string): string {
    "\nHost: localhost\r\nContent-Type: application/json\r\nContent-Length: " + Dec(|body|)
    + "\r\nConnection: close\r\n\r\n" + body
  }

  /** `create_http_request`. */
  function CreateRequest(method_: string, url: string, body: string): string {
    Cut(RequestLine(method_, url) + "\r" + RequestTail(body), CLIENT_REQUEST_SIZE - 1)
  }

  // ----- parsing -----

  datatype Request = Request(
    method_: string, url: string, version: string, headers: string, contentLength: Option<int>, body: string)

  /** The single static position of `strtok`: every first call replaces it. */
  class Cursor {
    var rest: string

    constructor ()
      ensures rest == ""
    {
      rest := "";
    }

    method Next(delims: string) returns (token: Option<string>)
      modifies this
      ensures match Token(old(rest), delims)
              case None => token == None && rest == ""
              case Some((t, more)) => token == Some(t) && rest == more
    {
      var r := Token(rest, delims);
      match r {
        case None =>
          token, rest := None, "";
        case Some((t, more)) =>
          token, rest := Some(t), more;
      }
    }

    method Start(s: string, delims: string) returns (token: Option<string>)
      modifies this
      ensures match Token(s, delims)
              case None => token == None && rest == ""
              case Some((t, more)) => token == Some(t) && rest == more
    {
      rest := s;
      token := Next(delims);
    }
  }

  /** The first line's words, and what the cursor is left with: the rest of that line only. */
  function ParseLine(text: string): Option<(string, string, string, string)> {
    match Token(text, "\r\n")
    case None => None
    case Some((line, _)) =>
      match Token(line, " ")
      case None => None
      case Some((m, r1)) =>
        match Token(r1, " ")
        case None => None
        case Some((u, r2)) =>
          match Token(r2, " ")
          case None => None
          case Some((v, r3)) => Some((m, u, v, r3))
  }

  const LENGTH_KEY := "Content-Length:"

  /** The header text collected from what the cursor was left with. */
  function HeaderText(rest: string): string
    decreases |rest|
  {
    match Token(rest, "\r\n")
    case None => ""
    case Some((line, more)) => line + "\r\n" + HeaderText(more)
  }

  function ScanLength(line: string, before: Option<int>): Option<int> {
    if Contains(line, LENGTH_KEY) && LENGTH_KEY <= line && ScanInt(line[|LENGTH_KEY|..]).Some? then
      ScanInt(line[|LENGTH_KEY|..])
    else before
  }

  function LengthIn(rest: string, before: Option<int>): Option<int>
    decreases |rest|
  {
    match Token(rest, "\r\n")
    case None => before
    case Some((line, more)) => LengthIn(more, ScanLength(line, before))
  }

  /** `parse_http_request`. The header loop runs until the cursor is empty, so no body is ever found. */
  method ParseHttpRequest(text: string) returns (r: Option<Request>)
    ensures r == match ParseLine(text)
                 case None => None
                 case Some((m, u, v, rest)) =>
                   Some(Request(Cut(m, 15), Cut(u, 511), Cut(v, 15), HeaderText(rest), LengthIn(rest, None), ""))
  {
    var cursor := new Cursor();
    var line := cursor.Start(text, "\r\n");
    if line.None? {
      return None;
    }
    var method_ := cursor.Start(line.value, " ");
    if method_.None? {
      return None;
    }
    var url := cursor.Next(" ");
    if url.None? {
      return None;
    }
    var version := cursor.Next(" ");
    if version.None? {
      return None;
    }
    var headers, contentLength, body := CollectHeaders(cursor);
    return Some(Request(Cut(method_.value, 15), Cut(url.value, 511), Cut(version.value, 15), headers, contentLength,
                        body));
  }

  method CollectHeaders(cursor: Cursor) returns (headers: string, contentLength: Option<int>, body: string)
    modifies cursor
    ensures headers == HeaderText(old(cursor.rest)) && contentLength == LengthIn(old(cursor.rest), None) && body == ""
  {
    headers, contentLength := "", None;
    ghost var rest, left := cursor.rest, cursor.rest;
    var header := cursor.Next("\r\n");
    assert "" + HeaderText(left) == HeaderText(left);
    while header.Some?
      invariant match Token(left, "\r\n")
                case None => header == None && cursor.rest == ""
                case Some((t, more)) => header == Some(t) && cursor.rest == more
      invariant headers + HeaderText(left) == HeaderText(rest)
      invariant LengthIn(left, contentLength) == LengthIn(rest, None)
      decreases header.Some?, |cursor.rest|
    {
      contentLength := ScanLength(header.value, contentLength);
      Regroup(headers, header.value + "\r\n", HeaderText(cursor.rest));
      Regroup(headers, header.value, "\r\n");
      headers := headers + header.value + "\r\n";
      left := cursor.rest;
      header := cursor.Next("\r\n");
    }
    assert headers + "" == headers;
    body := "";
    var remaining := cursor.Next("");
    match remaining {
      case Some(b) => body := b;
      case None =>
    }
  }

  /** A word that `strtok` keeps whole. */
  predicate Word(s: string) {
    s != "" && ' ' !in s && '\r' !in s && '\n' !in s
  }

  lemma LineParsed(m: string, u: string, v: string, tail: string, n: nat)
    requires Word(m) && Word(u) && Word(v) && |m| + |u| + |v| + 3 <= n
    ensures ParseLine(Cut(m + " " + (u + " " + v) + "\r" + tail, n)) == Some((m, u, v, ""))
  {
    var line := m + " " + (u + " " + v);
    var more := Cut(tail, n - |line| - 1);
    assert Cut(line + "\r" + tail, n) == line + ['\r'] + more;
    assert forall c :: c in line ==> c !in "\r\n";
    TokenThen(line, '\r', more, "\r\n");
    assert line == m + [' '] + (u + " " + v) && u + " " + v == u + [' '] + v;
    TokenThen(m, ' ', u + " " + v, " ");
    TokenThen(u, ' ', v, " ");
    TokenWhole(v, " ");
  }

  /** A printed request line is parsed back; headers and body are out of reach. */
  lemma PrintedLineParsed(method_: string, url: string, body: string)
    requires Word(method_) && Word(url) && |method_| + |url| + 12 <= CLIENT_REQUEST_SIZE
    ensures ParseLine(CreateRequest(method_, url, body)) == Some((method_, url, VERSION, ""))
  {
    LineParsed(method_, url, VERSION, RequestTail(body), CLIENT_REQUEST_SIZE - 1);
  }

  // ----- routing -----

  /** The handler reached, with the name cut out of the URL. */
  datatype Action =
    | StartContainer(id: string) | StopContainer(id: string) | RemoveContainer(id: string) | CreateContainer
    | ListImages | BuildImage | RemoveImage(name: string) | BadRequest | NotFound

  /** `extract_container_id_from_url` and `extract_image_name_from_url`. */
  function Extract(url: string, marker: string): Option<string> {
    match Strstr(url, marker)
    case None => None
    case Some(k) =>
      var name := Before(url[k + |marker|..], '/');
      if |name| >= MAX_NAME then None else Some(name)
  }

  function Named(name: Option<string>, handler: string -> Action): Action {
    match name case None => BadRequest case Some(s) => handler(s)
  }

  function ContainersApi(method_: string, url: string): Action {
    if method_ == "GET" then
      if Contains(url, "/containers/json") then NotFound
      else if Contains(url, "/containers/") && Contains(url, "/start") then
        Named(Extract(url, "/containers/"), id => StartContainer(id))
      else if Contains(url, "/containers/") && Contains(url, "/stop") then
        Named(Extract(url, "/containers/"), id => StopContainer(id))
      else if Contains(url, "/containers/") && Contains(url, "/remove") then
        Named(Extract(url, "/containers/"), id => RemoveContainer(id))
      else NotFound
    else if method_ == "POST" && Contains(url, "/containers/create") then CreateContainer
    else NotFound
  }

  function ImagesApi(method_: string, url: string): Action {
    if method_ == "GET" && Contains(url, "/images/json") then ListImages
    else if method_ == "POST" && Contains(url, "/build") then BuildImage
    else if method_ == "DELETE" && Contains(url, "/images/") then
      Named(Extract(url, "/images/"), name => RemoveImage(name))
    else NotFound
  }

  /** `handle_api_request`. */
  function Route(method_: string, url: string): Action {
    if Contains(url, "/containers") then ContainersApi(method_, url)
    else if Contains(url, "/images") then ImagesApi(method_, url)
    else NotFound
  }

  /** What the daemon does with the text of a request. */
  function Handle(text: string): Action {
    match ParseLine(text)
    case None => BadRequest
    case Some((m, u, _, _)) => Route(Cut(m, 15), Cut(u, 511))
  }

  /** Of a printed request the daemon sees neither headers nor body. */
  lemma PrintedHeadersAreLost(method_: string, url: string, body: string)
    requires Word(method_) && Word(url) && |method_| + |url| + 12 <= CLIENT_REQUEST_SIZE
    ensures var p := ParseLine(CreateRequest(method_, url, body));
            p.Some? && HeaderText(p.value.3) == "" && LengthIn(p.value.3, None) == None
  {
    PrintedLineParsed(method_, url, body);
  }

  lemma PrintedRequestIsRouted(method_: string, url: string, body: string)
    requires Word(method_) && Word(url) && |method_| <= 15 && |url| <= 511
    ensures Handle(CreateRequest(method_, url, body)) == Route(method_, url)
  {
    PrintedLineParsed(method_, url, body);
  }

  // ----- substring tests on paths -----

  const CONTAINERS := "containers"
  const IMAGES := "images"

  function ThreeSegments(a: string, b: string, c: string): string {
    "/" + a + ("/" + b + ("/" + c))
  }

  /** Past one path segment, a pattern that starts with a slash is at its head or behind it. */
  lemma NextSegment(seg: string, rest: string, p: string)
    requires '/' !in seg && p != "" && p[0] == '/'
    ensures Contains("/" + seg + rest, p) <==> p <= "/" + seg + rest || Contains(rest, p)
  {
    var head := "/" + seg;
    var s := head + rest;
    forall j | 0 <= j < |head| && j != 0
      ensures !At(s, p, j)
    {
      assert s[j] == seg[j - 1] && seg[j - 1] in seg;
      if At(s, p, j) {
        AtChar(s, p, j, 0);
      }
    }
    OnlyAt(head, rest, p, 0);
    assert At(s, p, 0) <==> p <= s;
  }

  predicate EndsSegment(rest: string) {
    rest == "" || rest[0] == '/'
  }

  lemma WordInSegment(w: string, seg: string, rest: string)
    requires '/' !in w && EndsSegment(rest)
    ensures w <= seg + rest <==> w <= seg
    ensures "/" + w <= "/" + seg + rest <==> w <= seg
  {
    assert "/" + seg + rest == "/" + (seg + rest);
    assert ("/" + (seg + rest))[1..] == seg + rest && ("/" + w)[1..] == w;
    assert |seg| < |w| && rest != "" ==> (seg + rest)[|seg|] != w[|seg|];
  }

  lemma NothingInEmpty(p: string)
    requires p != ""
    ensures !Contains("", p)
  {}

  /** One-word patterns on a path of segments: some segment starts with the word. */
  lemma WordInThree(a: string, b: string, c: string, w: string)
    requires '/' !in a && '/' !in b && '/' !in c && '/' !in w
    ensures Contains(ThreeSegments(a, b, c), "/" + w) <==> w <= a || w <= b || w <= c
  {
    var p := "/" + w;
    assert "/" + c + "" == "/" + c;
    NextSegment(a, "/" + b + ("/" + c), p);
    NextSegment(b, "/" + c, p);
    NextSegment(c, "", p);
    NothingInEmpty(p);
    WordInSegment(w, a, "/" + b + ("/" + c));
    WordInSegment(w, b, "/" + c);
    WordInSegment(w, c, "");
  }

  /** Two-word patterns: a whole segment, and the start of the next one. */
  lemma PairAtHead(v: string, w: string, a: string, rest: string)
    requires '/' !in v && '/' !in a && EndsSegment(rest)
    ensures "/" + v + ("/" + w) <= "/" + a + rest <==> v == a && "/" + w <= rest
  {
    var p, s := v + ("/" + w), a + rest;
    assert "/" + v + ("/" + w) == "/" + p && "/" + a + rest == "/" + s;
    assert ("/" + p)[1..] == p && ("/" + s)[1..] == s;
    assert p[|v|] == '/' && p[|v|..] == "/" + w && s[|a|..] == rest;
    assert |v| < |a| ==> s[|v|] != '/';
    assert |a| < |v| && rest != "" ==> p[|a|] != s[|a|];
    if p <= s {
      assert |v| == |a| && v == p[..|v|] && a == s[..|v|];
    }
    if v == a && "/" + w <= rest {
      assert s == p + rest[|w| + 1..];
    }
  }

  lemma PairInThree(a: string, b: string, c: string, v: string, w: string)
    requires '/' !in a && '/' !in b && '/' !in c && '/' !in v && '/' !in w
    ensures Contains(ThreeSegments(a, b, c), "/" + v + ("/" + w))
            <==> (v == a && w <= b) || (v == b && w <= c)
  {
    var p := "/" + v + ("/" + w);
    assert "/" + c + "" == "/" + c && "/" + b + "" == "/" + b;
    NextSegment(a, "/" + b + ("/" + c), p);
    NextSegment(b, "/" + c, p);
    NextSegment(c, "", p);
    NothingInEmpty(p);
    PairAtHead(v, w, a, "/" + b + ("/" + c));
    PairAtHead(v, w, b, "/" + c);
    PairAtHead(v, w, c, "");
    WordInSegment(w, b, "/" + c);
    WordInSegment(w, c, "");
  }

  // ----- container requests -----

  datatype Verb = Start | Stop | Remove

  function VerbText(v: Verb): string {
    match v case Start => "start" case Stop => "stop" case Remove => "remove"
  }

  function Handler(v: Verb, id: string): Action {
    match v case Start => StartContainer(id) case Stop => StopContainer(id) case Remove => RemoveContainer(id)
  }

  /** `/containers/<id>/<verb>` */
  function ContainerUrl(id: string, v: Verb): string {
    ThreeSegments(CONTAINERS, id, VerbText(v))
  }

  predicate UrlName(name: string) {
    '/' !in name && ' ' !in name && '\r' !in name && '\n' !in name && |name| < MAX_NAME
  }

  /** The id does not begin with a word that is tested before this verb. */
  predicate Reachable(id: string, v: Verb) {
    && !("json" <= id)
    && (v != Start ==> !("start" <= id))
    && (v == Remove ==> !("stop" <= id))
  }

  lemma MiddleExtracted(a: string, b: string, c: string)
    requires '/' !in b && |b| < MAX_NAME
    ensures Extract(ThreeSegments(a, b, c), "/" + a + "/") == Some(b)
  {
    var url, m, tail := ThreeSegments(a, b, c), "/" + a + "/", b + ['/'] + c;
    assert url == m + tail;
    assert url[0..|m|] == m && url[|m|..] == tail;
    assert At(url, m, 0);
    BeforeStop(b, '/', c);
  }

  lemma IdExtracted(id: string, v: Verb)
    requires UrlName(id)
    ensures Extract(ContainerUrl(id, v), "/containers/") == Some(id)
  {
    MiddleExtracted(CONTAINERS, id, VerbText(v));
    assert "/" + CONTAINERS + "/" == "/containers/";
  }

  lemma VerbWords(v: Verb)
    ensures '/' !in VerbText(v) && !(CONTAINERS <= VerbText(v))
    ensures ("start" <= VerbText(v) <==> v == Start) && ("stop" <= VerbText(v) <==> v == Stop)
    ensures ("remove" <= VerbText(v) <==> v == Remove) && !("json" <= VerbText(v))
  {
    assert "start"[2] == 'a' && "stop"[2] == 'o' && "remove"[2] == 'm' && CONTAINERS[2] == 'n' && "json"[0] == 'j';
  }

  lemma ContainersWord()
    ensures '/' !in CONTAINERS && CONTAINERS[0] == 'c' && "" <= CONTAINERS && CONTAINERS <= CONTAINERS
  {}

  /** What each substring test of the router says about a container URL. */
  lemma ContainerTests(id: string, v: Verb, w: string)
    requires '/' !in id && w != "" && '/' !in w && w[0] != 'c'
    ensures Contains(ContainerUrl(id, v), "/" + w) <==> w <= id || w <= VerbText(v)
  {
    VerbWords(v);
    ContainersWord();
    WordInThree(CONTAINERS, id, VerbText(v), w);
  }

  lemma ContainersTests(id: string, v: Verb, w: string)
    requires '/' !in id && '/' !in w && (w <= VerbText(v) ==> w == "")
    ensures Contains(ContainerUrl(id, v), "/" + CONTAINERS)
    ensures Contains(ContainerUrl(id, v), "/" + CONTAINERS + ("/" + w)) <==> w <= id
  {
    VerbWords(v);
    ContainersWord();
    WordInThree(CONTAINERS, id, VerbText(v), CONTAINERS);
    PairInThree(CONTAINERS, id, VerbText(v), CONTAINERS, w);
  }

  lemma Literals()
    ensures "/" + CONTAINERS == "/containers" && "/" + CONTAINERS + ("/" + "") == "/containers/"
    ensures "/" + CONTAINERS + ("/" + "json") == "/containers/json"
    ensures "/" + "start" == "/start" && "/" + "stop" == "/stop" && "/" + "remove" == "/remove"
  {}

  lemma ContainerUrlTest(id: string, v: Verb)
    requires UrlName(id)
    ensures Contains(ContainerUrl(id, v), "/containers")
  {
    VerbWords(v);
    ContainersTests(id, v, "");
    Literals();
  }

  lemma ContainerRouted(id: string, v: Verb)
    requires UrlName(id)
    ensures Route("GET", ContainerUrl(id, v)) == Handler(v, id) <==> Reachable(id, v)
  {
    Literals();
    VerbWords(v);
    ContainersTests(id, v, "");
    ContainersTests(id, v, "json");
    ContainerTests(id, v, "start");
    ContainerTests(id, v, "stop");
    ContainerTests(id, v, "remove");
    IdExtracted(id, v);
  }

  lemma ContainerUrlIsWord(id: string, v: Verb)
    requires UrlName(id)
    ensures Word(ContainerUrl(id, v)) && |ContainerUrl(id, v)| <= 511 && Word("GET")
  {
    assert forall c :: c in CONTAINERS || c in VerbText(v) ==> 'a' <= c <= 'z';
  }

  /**
   End to end: print `/containers/<id>/<verb>`, parse the request, route it. The
   verb's own handler gets exactly this id if and only if the id does not
   begin with `json` or with a verb that is tested earlier.
   */
  lemma ContainerRequestReachesHandler(id: string, v: Verb, body: string)
    requires UrlName(id)
    ensures Handle(CreateRequest("GET", ContainerUrl(id, v), body)) == Handler(v, id) <==> Reachable(id, v)
  {
    ContainerUrlIsWord(id, v);
    PrintedRequestIsRouted("GET", ContainerUrl(id, v), body);
    ContainerRouted(id, v);
  }

  lemma OtherHead(w: string, s: string)
    requires w != "" && s != "" && w[0] != s[0]
    ensures !(w <= s)
  {}

  lemma GeneratedIdQualifies(now: nat, v: Verb)
    ensures UrlName(ContainerId(now)) && Reachable(ContainerId(now), v)
  {
    var id := ContainerId(now);
    assert id[0] == 'c';
    OtherHead("json", id);
    OtherHead("start", id);
    OtherHead("stop", id);
  }

  /** Every generated id qualifies, for every verb. */
  lemma GeneratedIdsReachTheirHandlers(now: nat, v: Verb, body: string)
    ensures Handle(CreateRequest("GET", ContainerUrl(ContainerId(now), v), body)) == Handler(v, ContainerId(now))
  {
    GeneratedIdQualifies(now, v);
    ContainerRequestReachesHandler(ContainerId(now), v, body);
  }

  // ----- image requests -----

  function ImageUrl(name: string): string {
    "/" + IMAGES + ("/" + name)
  }

  lemma ImageTests(name: string)
    requires '/' !in name
    ensures Contains(ImageUrl(name), "/" + CONTAINERS) <==> CONTAINERS <= name
    ensures Contains(ImageUrl(name), "/" + IMAGES)
  {
    ContainersWord();
    assert IMAGES[0] == 'i' && '/' !in IMAGES;
    assert "/" + name + "" == "/" + name;
    forall w | w == CONTAINERS || w == IMAGES
      ensures Contains(ImageUrl(name), "/" + w) <==> w <= IMAGES || w <= name
    {
      NextSegment(IMAGES, "/" + name, "/" + w);
      NextSegment(name, "", "/" + w);
      NothingInEmpty("/" + w);
      WordInSegment(w, IMAGES, "/" + name);
      WordInSegment(w, name, "");
    }
  }

  lemma NameExtracted(name: string)
    requires UrlName(name)
    ensures Contains(ImageUrl(name), "/images/") && Extract(ImageUrl(name), "/images/") == Some(name)
  {
    var url, m := ImageUrl(name), "/images/";
    assert m == "/" + IMAGES + "/" && url == m + name;
    assert url[0..|m|] == m && url[|m|..] == name;
    assert At(url, m, 0);
  }

  lemma ImageRouted(name: string)
    requires UrlName(name)
    ensures Route("DELETE", ImageUrl(name)) == if CONTAINERS <= name then NotFound else RemoveImage(name)
  {
    Literals();
    assert "/" + IMAGES == "/images";
    ImageTests(name);
    NameExtracted(name);
  }

  /** DELETE `/images/<name>` reaches image removal with this name, unless the name begins with `containers`. */
  lemma ImageDeleteReachesHandler(name: string, body: string)
    requires UrlName(name)
    ensures Handle(CreateRequest("DELETE", ImageUrl(name), body))
            == if "containers" <= name then NotFound else RemoveImage(name)
  {
    var url := ImageUrl(name);
    assert forall c :: c in IMAGES ==> 'a' <= c <= 'z';
    assert Word(url) && Word("DELETE");
    PrintedRequestIsRouted("DELETE", url, body);
    ImageRouted(name);
  }
}
