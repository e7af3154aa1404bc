/** The requests that the client sends, and a few others: what they do to the daemon, and what the client reads. */
module ClientRequests {
  import opened CText
  import opened ContainerMetadata
  import opened Ids
  import opened KeyedLines
  import opened Lifecycle
  import opened HttpRequest
  import HttpResponse
  import opened Server

  /** What the client reads. */
  type Answer = Option<HttpResponse.Parsed>

  function Reading(code: int, body: string): Answer {
    Some(HttpResponse.Parsed(Some(code), body))
  }

  /** One exchange: the client prints a request, the daemon serves it, the client parses the response. */
  function Exchange(s: State, m: string, url: string, body: string, k: Outside): (State, Answer) {
    var (t, reply) := Served(s, CreateRequest(m, url, body), k);
    (t, HttpResponse.Parse(Wire(reply)))
  }

  lemma ReadReply(r: Reply)
    requires Sendable(r)
    ensures HttpResponse.Parse(Wire(r)) == Reading(r.code, r.body)
  {
    ReplyArrives(r);
  }

  lemma Unhandled(s: State, k: Outside)
    ensures Replied(s, NotFound, "", k) == (s, NO_ENDPOINT)
    ensures Replied(s, BadRequest, "", k) == (s, BAD_ID)
    ensures Sendable(NO_ENDPOINT) && Sendable(BAD_ID) && Sendable(NO_IMAGE) && Sendable(NO_API) && Sendable(INVALID)
  {
    FixedAreSendable();
  }

  /** A method and a URL that reach the daemon whole. */
  predicate Arrives(m: string, url: string) {
    Word(m) && Word(url) && |m| <= 15 && |url| <= 511
  }

  lemma NoHandler(s: State, m: string, url: string, body: string, k: Outside)
    requires Arrives(m, url) && Contains(url, "/containers") && ContainersApi(m, url) == NotFound
    ensures Exchange(s, m, url, body, k) == (s, Reading(404, NO_ENDPOINT.body))
  {
    ServedLine(s, m, url, body, k);
    Unhandled(s, k);
    ReadReply(NO_ENDPOINT);
  }

  lemma CreateHandler(s: State, m: string, url: string, body: string, k: Outside)
    requires Arrives(m, url) && Contains(url, "/containers") && ContainersApi(m, url) == CreateContainer
    ensures Exchange(s, m, url, body, k) == (s, Reading(400, NO_IMAGE.body))
  {
    ServedLine(s, m, url, body, k);
    EmptyCreateRefused(s, k);
    Unhandled(s, k);
    ReadReply(NO_IMAGE);
  }

  /**
   A request with any method but GET never changes a container: POST to create is
   refused for want of an image, everything else has no handler.
   */
  lemma OnlyGetActs(s: State, m: string, url: string, body: string, k: Outside)
    requires Arrives(m, url) && m != "GET" && Contains(url, "/containers")
    ensures Exchange(s, m, url, body, k)
            == (s, if m == "POST" && Contains(url, "/containers/create") then
                     Reading(400, "{\"error\": \"Image name required\"}")
                   else Reading(404, "{\"error\": \"Container API endpoint not found\"}"))
  {
    if m == "POST" && Contains(url, "/containers/create") {
      CreateHandler(s, m, url, body, k);
    } else {
      NoHandler(s, m, url, body, k);
    }
  }

  /** A request whose URL names neither containers nor images has no handler, whatever its method. */
  lemma OtherUrlsUnknown(s: State, m: string, url: string, body: string, k: Outside)
    requires Arrives(m, url) && !Contains(url, "/containers") && !Contains(url, "/images")
    ensures Exchange(s, m, url, body, k) == (s, Reading(404, "{\"error\": \"API endpoint not found\"}"))
    ensures Handle(CreateRequest(m, url, body)) == NotFound
  {
    PrintedLineParsed(m, url, body);
    Unhandled(s, k);
    ReadReply(NO_API);
  }

  lemma NoRequestLine(s: State, text: string, k: Outside)
    requires ParseLine(text).None?
    ensures Served(s, text, k).0 == s && HttpResponse.Parse(Wire(Served(s, text, k).1)) == Reading(400, INVALID.body)
  {
    Unhandled(s, k);
    ReadReply(INVALID);
  }

  /** A first line of two words is no request. */
  lemma TwoWordsAreNoRequest(s: State, m: string, url: string, rest: string, k: Outside)
    requires Word(m) && Word(url)
    ensures var (t, reply) := Served(s, m + " " + url + "\r" + rest, k);
            t == s && HttpResponse.Parse(Wire(reply)) == Reading(400, "Invalid HTTP request")
    ensures Handle(m + " " + url + "\r" + rest) == BadRequest
  {
    var line := m + " " + url;
    assert line == m + [' '] + url && line + "\r" + rest == line + ['\r'] + rest;
    assert forall c :: c in line ==> c !in "\r\n";
    TokenThen(line, '\r', rest, "\r\n");
    TokenThen(m, ' ', url, " ");
    TokenWhole(url, " ");
    NoRequestLine(s, line + "\r" + rest, k);
  }

  // ----- the text of a request -----

  /** The text that the client sends, where its buffer holds it: request line, headers, a blank line, the body. */
  lemma RequestSpelled(m: string, url: string, body: string)
    requires |m| + |url| + |Dec(|body|)| + |body| + 120 <= CLIENT_REQUEST_SIZE
    ensures CreateRequest(m, url, body)
            == m + " " + (url + " " + "HTTP/1.1") + "\r"
               + ("\nHost: localhost\r\nContent-Type: application/json\r\nContent-Length: " + Dec(|body|)
                  + "\r\nConnection: close\r\n\r\n" + body)
  {
    TailLength(body);
  }

  lemma TailLength(body: string)
    ensures |RequestTail(body)| < |Dec(|body|)| + |body| + 100
  {}

  /** Words behind the third are what the header loop is left with. */
  lemma FourWords(m: string, url: string, v: string, rest: string, more: string)
    requires Word(m) && Word(url) && Word(v) && '\r' !in rest && '\n' !in rest
    ensures ParseLine(m + " " + (url + " " + (v + " " + rest)) + "\r" + more) == Some((m, url, v, rest))
  {
    var line := m + " " + (url + " " + (v + " " + rest));
    assert forall c :: c in line ==> c !in "\r\n";
    assert line + "\r" + more == line + ['\r'] + more;
    TokenThen(line, '\r', more, "\r\n");
    assert line == m + [' '] + (url + " " + (v + " " + rest));
    TokenThen(m, ' ', url + " " + (v + " " + rest), " ");
    assert url + " " + (v + " " + rest) == url + [' '] + (v + " " + rest);
    TokenThen(url, ' ', v + " " + rest, " ");
    assert v + " " + rest == v + [' '] + rest;
    TokenThen(v, ' ', rest, " ");
  }

  /** They are taken for a header, and for a length if they look like one. */
  lemma LeftoverIsHeader(rest: string)
    requires rest != "" && '\r' !in rest && '\n' !in rest
    ensures HeaderText(rest) == rest + "\r\n"
    ensures LengthIn(rest, None) == if "Content-Length:" <= rest then ScanInt(rest[15..]) else None
  {
    OneHeader(rest);
    OneLength(rest, LENGTH_KEY);
  }

  lemma OneHeader(rest: string)
    requires rest != "" && '\r' !in rest && '\n' !in rest
    ensures HeaderText(rest) == rest + "\r\n" && forall b :: LengthIn(rest, b) == ScanLength(rest, b)
  {
    assert forall c :: c in rest ==> c !in "\r\n";
    TokenWhole(rest, "\r\n");
    assert HeaderText("") == "" && forall b :: LengthIn("", b) == b;
    assert rest + "\r\n" + "" == rest + "\r\n";
  }

  lemma OneLength(rest: string, key: string)
    requires key == LENGTH_KEY
    ensures ScanLength(rest, None) == if key <= rest then ScanInt(rest[|key|..]) else None
  {
    if key <= rest {
      assert rest[0..|key|] == key && At(rest, key, 0);
    }
  }

  // ----- the commands of the client -----

  lemma PostUrl(id: string, v: Verb)
    requires '/' !in id
    ensures Contains(ContainerUrl(id, v), "/containers/create") <==> "create" <= id
  {
    Literals();
    VerbWords(v);
    assert "/" + CONTAINERS + ("/" + "create") == "/containers/create";
    assert "create"[0] == 'c' && VerbText(v)[0] != 'c';
    ContainersTests(id, v, "create");
  }

  /** A verb sent with another method than GET: nothing happens, for every id. */
  lemma VerbRefused(s: State, m: string, id: string, v: Verb, body: string, k: Outside)
    requires UrlName(id) && Word(m) && |m| <= 15 && m != "GET"
    ensures Exchange(s, m, ContainerUrl(id, v), body, k)
            == (s, if m == "POST" && "create" <= id then Reading(400, "{\"error\": \"Image name required\"}")
                   else Reading(404, "{\"error\": \"Container API endpoint not found\"}"))
  {
    ContainerUrlIsWord(id, v);
    ContainerUrlTest(id, v);
    PostUrl(id, v);
    OnlyGetActs(s, m, ContainerUrl(id, v), body, k);
  }

  lemma VerbUrl(id: string)
    ensures ContainerUrl(id, Verb.Start) == "/containers/" + id + "/start"
    ensures ContainerUrl(id, Verb.Stop) == "/containers/" + id + "/stop"
    ensures ContainerUrl(id, Verb.Remove) == "/containers/" + id + "/remove"
  {
    assert "/" + CONTAINERS + "/" == "/containers/";
    forall v: Verb
      ensures ContainerUrl(id, v) == "/" + CONTAINERS + "/" + id + ("/" + VerbText(v))
    {}
  }

  /** The client's stop is sent as POST, which no handler takes: nothing is stopped. */
  lemma ClientStopIsRefused(s: State, id: string, k: Outside)
    requires UrlName(id) && !("create" <= id)
    ensures Exchange(s, "POST", "/containers/" + id + "/stop", "", k)
            == (s, Reading(404, "{\"error\": \"Container API endpoint not found\"}"))
  {
    VerbUrl(id);
    VerbRefused(s, "POST", id, Verb.Stop, "", k);
  }

  /** The client's remove is sent as DELETE, which no handler takes: nothing is removed. */
  lemma ClientRemoveIsRefused(s: State, id: string, k: Outside)
    requires UrlName(id)
    ensures Exchange(s, "DELETE", "/containers/" + id + "/remove", "", k)
            == (s, Reading(404, "{\"error\": \"Container API endpoint not found\"}"))
  {
    VerbUrl(id);
    VerbRefused(s, "DELETE", id, Verb.Remove, "", k);
  }

  lemma JsonUrl(url: string)
    requires url == "/containers" + "/json"
    ensures Arrives("GET", url) && Contains(url, "/containers") && Contains(url, "/containers/json")
  {
    assert url[0..11] == "/containers" && At(url, "/containers", 0);
    assert url[0..|url|] == url && At(url, url, 0);
  }

  /** The client's list of containers has no handler. */
  lemma ClientListIsRefused(s: State, k: Outside)
    ensures Exchange(s, "GET", "/containers/json", "", k)
            == (s, Reading(404, "{\"error\": \"Container API endpoint not found\"}"))
  {
    var url := "/containers/json";
    JsonUrl(url);
    NoHandler(s, "GET", url, "", k);
  }

  lemma OneSlash(url: string, p: string)
    requires 1 < |url| && url[0] == '/' && '/' !in url[1..] && 1 < |p| && p[0] == '/' && p[1] != url[1]
    ensures !Contains(url, p)
  {
    assert forall i :: 0 < i < |url| ==> url[i] == url[1..][i - 1] && url[i] != '/';
    if Contains(url, p) {
      var j := Strstr(url, p).value;
      AtChar(url, p, j, 0);
      AtChar(url, p, j, 1);
    }
  }

  lemma VersionUrl(url: string)
    requires url == "/version" || url == "/info"
    ensures Arrives("GET", url) && !Contains(url, "/containers") && !Contains(url, "/images")
  {
    if url == "/version" {
      OneSlash(url, "/containers");
      OneSlash(url, "/images");
    }
  }

  /** Neither have version and info. */
  lemma ClientVersionAndInfoAreRefused(s: State, url: string, k: Outside)
    requires url == "/version" || url == "/info"
    ensures Exchange(s, "GET", url, "", k) == (s, Reading(404, "{\"error\": \"API endpoint not found\"}"))
  {
    VersionUrl(url);
    OtherUrlsUnknown(s, "GET", url, "", k);
  }

  lemma HeadContained(head: string, rest: string, p: string)
    requires p <= head
    ensures Contains(head + rest, p)
  {
    assert (head + rest)[0..|p|] == p && At(head + rest, p, 0);
  }

  /**
   The client's build goes to `/build`, while the daemon looks for builds among
   image URLs: the build handler is reached if and only if name or path happen to
   mention `/images` and not `/containers`.
   */
  lemma ClientBuildReachesHandler(url: string, name: string, path: string, body: string)
    requires url == "/build?t=" + (name + "&dockerfile=" + path) && Arrives("POST", url)
    ensures Handle(CreateRequest("POST", url, body)) == BuildImage
            <==> Contains(url, "/images") && !Contains(url, "/containers")
  {
    PrintedRequestIsRouted("POST", url, body);
    HeadContained("/build?t=", name + "&dockerfile=" + path, "/build");
  }

  /** Otherwise it is refused like any unknown URL. */
  lemma ClientBuildIsRefused(s: State, url: string, name: string, path: string, k: Outside)
    requires url == "/build?t=" + (name + "&dockerfile=" + path) && Arrives("POST", url)
    requires !Contains(url, "/images") && !Contains(url, "/containers")
    ensures Exchange(s, "POST", url, "", k) == (s, Reading(404, "{\"error\": \"API endpoint not found\"}"))
  {
    OtherUrlsUnknown(s, "POST", url, "", k);
  }

  // ----- GET requests -----

  lemma VerbTests(id: string, v: Verb)
    requires '/' !in id
    ensures var url := ContainerUrl(id, v);
            && Contains(url, "/containers") && Contains(url, "/containers/")
            && (Contains(url, "/containers/json") <==> "json" <= id)
            && (Contains(url, "/start") <==> v == Verb.Start || "start" <= id)
            && (Contains(url, "/stop") <==> v == Verb.Stop || "stop" <= id)
            && (Contains(url, "/remove") <==> v == Verb.Remove || "remove" <= id)
  {
    Literals();
    VerbWords(v);
    ContainersTests(id, v, "");
    ContainersTests(id, v, "json");
    ContainerTests(id, v, "start");
    ContainerTests(id, v, "stop");
    ContainerTests(id, v, "remove");
  }

  /** The handler of a verb's URL, for every id: an id that begins with `start` is started even by stop and remove. */
  lemma VerbRoutedExactly(id: string, v: Verb, body: string)
    requires UrlName(id)
    ensures Handle(CreateRequest("GET", ContainerUrl(id, v), body))
            == if "json" <= id then NotFound
               else if v == Verb.Start || "start" <= id then StartContainer(id)
               else if v == Verb.Stop || "stop" <= id then StopContainer(id)
               else RemoveContainer(id)
  {
    ContainerUrlIsWord(id, v);
    PrintedRequestIsRouted("GET", ContainerUrl(id, v), body);
    VerbTests(id, v);
    IdExtracted(id, v);
  }

  /** The reply of a handler that succeeded or failed. */
  predicate Tells(r: Reply, what: string, ok: bool) {
    if ok then r.code == 204 && r.body == ""
    else r.code == 500 && r.body == "{\"error\": \"Failed to " + what + " container\"}"
  }

  lemma VerbTells(v: Verb, id: string, ok: bool)
    ensures var r := ReplyTo(Handler(v, id), "", ok); Tells(r, VerbText(v), ok) && Sendable(r)
  {
    FixedAreSendable();
    FailedIsSendable(VerbText(v));
  }

  lemma VerbAnswered(s: State, id: string, v: Verb, body: string, k: Outside, t: State, r: Reply)
    requires UrlName(id) && Reachable(id, v) && Replied(s, Handler(v, id), "", k) == (t, r) && Sendable(r)
    ensures Exchange(s, "GET", ContainerUrl(id, v), body, k) == (t, Reading(r.code, r.body))
  {
    ServedVerb(s, id, v, body, k);
    ReadReply(r);
  }

  /** What the client reads of a step's result. */
  function Told(what: string, ok: bool): Answer {
    if ok then Reading(204, "") else Reading(500, "{\"error\": \"Failed to " + what + " container\"}")
  }

  lemma VerbTaken(s: State, id: string, v: Verb, body: string, k: Outside, op: Op, t: State, ok: bool)
    requires UrlName(id) && Reachable(id, v) && StepOf(Handler(v, id), "", k) == Some(op) && Step(s, op).1 == ok
    requires StateAfter(s, op, k) == t
    ensures Exchange(s, "GET", ContainerUrl(id, v), body, k) == (t, Told(VerbText(v), ok))
  {
    VerbTells(v, id, ok);
    VerbAnswered(s, id, v, body, k, t, ReplyTo(Handler(v, id), "", ok));
  }

  lemma StopIsNoBegin(s: State, op: Op, k: Outside)
    requires op.Stop? || op.Remove?
    ensures StateAfter(s, op, k) == Step(s, op).0
  {}

  /** GET `/containers/<id>/stop` is the stop of that container. */
  lemma GetStop(s: State, id: string, body: string, k: Outside, t: State, ok: bool)
    requires UrlName(id) && !("json" <= id) && !("start" <= id)
    requires Step(s, Op.Stop(id, k.now, k.killOk, k.waitOk, k.status, k.writeOk)) == (t, ok)
    ensures Exchange(s, "GET", ContainerUrl(id, Verb.Stop), body, k) == (t, Told("stop", ok))
  {
    var op := Op.Stop(id, k.now, k.killOk, k.waitOk, k.status, k.writeOk);
    StopIsNoBegin(s, op, k);
    VerbTaken(s, id, Verb.Stop, body, k, op, t, ok);
  }

  /** GET `/containers/<id>/remove` is its remove. */
  lemma GetRemove(s: State, id: string, body: string, k: Outside, t: State, ok: bool)
    requires UrlName(id) && !("json" <= id) && !("start" <= id) && !("stop" <= id)
    requires Step(s, Op.Remove(id, k.now, k.dirOk, k.unlinkOk, k.logOk)) == (t, ok)
    ensures Exchange(s, "GET", ContainerUrl(id, Verb.Remove), body, k) == (t, Told("remove", ok))
  {
    var op := Op.Remove(id, k.now, k.dirOk, k.unlinkOk, k.logOk);
    StopIsNoBegin(s, op, k);
    VerbTaken(s, id, Verb.Remove, body, k, op, t, ok);
  }

  lemma BeginAndEnd(s: State, op: Op, k: Outside, t: State, ok: bool)
    requires op.Begin? && Step(s, op) == (t, ok)
    ensures StateAfter(s, op, k)
            == if ok && s.records[op.id].detach == 0 then
                 Step(t, End(k.ticket, k.later, k.waitOk, k.status, k.endWriteOk)).0
               else t
  {}

  /** GET `/containers/<id>/start` is its start, with the rest of it after the wait if it is not detached. */
  lemma GetStart(s: State, id: string, body: string, k: Outside, t: State, ok: bool)
    requires UrlName(id) && !("json" <= id)
    requires Step(s, Begin(id, k.ticket, k.now, k.clone, k.writeOk)) == (t, ok)
    ensures Exchange(s, "GET", ContainerUrl(id, Verb.Start), body, k)
            == (if ok && s.records[id].detach == 0 then
                  Step(t, End(k.ticket, k.later, k.waitOk, k.status, k.endWriteOk)).0
                else t,
                Told("start", ok))
  {
    var op := Begin(id, k.ticket, k.now, k.clone, k.writeOk);
    BeginAndEnd(s, op, k, t, ok);
    VerbTaken(s, id, Verb.Start, body, k, op, StateAfter(s, op, k), ok);
  }

  /** Too long for the buffer of the handler, but not for that of the URL. */
  predicate LongId(id: string) {
    '/' !in id && ' ' !in id && '\r' !in id && '\n' !in id && 256 <= |id| <= 480
  }

  lemma MiddleTooLong(a: string, b: string, c: string)
    requires '/' !in b && MAX_NAME <= |b|
    ensures Extract(ThreeSegments(a, b, c), "/" + a + "/").None?
  {
    var url, m, tail := ThreeSegments(a, b, c), "/" + a + "/", b + ['/'] + c;
    assert url == m + tail;
    assert url[0..|m|] == m && url[|m|..] == tail;
    assert At(url, m, 0);
    BeforeStop(b, '/', c);
  }

  lemma LongIdArrives(id: string, v: Verb)
    requires LongId(id)
    ensures Arrives("GET", ContainerUrl(id, v))
  {
    assert forall c :: c in CONTAINERS || c in VerbText(v) ==> 'a' <= c <= 'z';
  }

  lemma LongIdNotExtracted(id: string, v: Verb)
    requires LongId(id)
    ensures Extract(ContainerUrl(id, v), "/containers/").None?
  {
    MiddleTooLong(CONTAINERS, id, VerbText(v));
    assert "/" + CONTAINERS + "/" == "/containers/";
  }

  lemma NoNameNoHandler(url: string)
    requires Contains(url, "/containers/") && !Contains(url, "/containers/json") && Extract(url, "/containers/").None?
    requires Contains(url, "/start") || Contains(url, "/stop") || Contains(url, "/remove")
    ensures ContainersApi("GET", url) == BadRequest
  {}

  /** Such an id is refused by every verb's handler. */
  lemma LongIdIsRefused(s: State, id: string, v: Verb, body: string, k: Outside)
    requires LongId(id) && !("json" <= id)
    ensures Exchange(s, "GET", ContainerUrl(id, v), body, k)
            == (s, Reading(400, "{\"error\": \"Invalid container ID\"}"))
  {
    LongIdArrives(id, v);
    LongIdNotExtracted(id, v);
    VerbTests(id, v);
    NoNameNoHandler(ContainerUrl(id, v));
    BadName(s, ContainerUrl(id, v), body, k);
  }

  lemma BadName(s: State, url: string, body: string, k: Outside)
    requires Arrives("GET", url) && Contains(url, "/containers") && ContainersApi("GET", url) == BadRequest
    ensures Exchange(s, "GET", url, body, k) == (s, Reading(400, BAD_ID.body))
  {
    ServedLine(s, "GET", url, body, k);
    Unhandled(s, k);
    ReadReply(BAD_ID);
  }

  // ----- create, for a body that begins with an image -----

  /** The text behind the key at the head of the body, up to its quote. */
  lemma ScannedExactly(body: string, key: string, open: string, v: string, rest: string)
    requires '"' !in v && body == Quoted(key) + open + (v + "\"" + rest)
    ensures Scanned(body, key, open) == v
  {
    var head := Quoted(key) + open;
    assert body[0..|Quoted(key)|] == Quoted(key) && At(body, Quoted(key), 0);
    assert head <= body && body[|head|..] == v + ['"'] + rest;
    BeforeStop(v, '"', rest);
  }

  /** The arguments that reach `create_container`. */
  lemma ArgsOfImageBody(body: string, image: string, rest: string)
    requires body == "\"Image\":\"" + (image + "\"" + rest) && image != "" && '"' !in image
    ensures CreateArgsOf(body)
            == CreateArgs(Some(""), image, Some(""), Some(""), Some(""), Some(""), Some(""),
                          if Contains(body, "\"AttachStdin\"") then 1 else 0,
                          if Contains(body, "\"AttachStdout\"") then 1 else 0,
                          if Contains(body, "\"Detach\"") then 1 else 0)
  {
    assert Quoted("Image") + TEXT == "\"Image\":\"";
    ScannedExactly(body, "Image", TEXT, image, rest);
    ImageAlone(body);
    FlagKeys();
  }

  lemma FlagKeys()
    ensures Quoted("AttachStdin") == "\"AttachStdin\"" && Quoted("AttachStdout") == "\"AttachStdout\""
    ensures Quoted("Detach") == "\"Detach\""
  {}

  lemma CreateReplies(body: string, ok: bool)
    requires ImageOf(body) != ""
    ensures ReplyTo(CreateContainer, body, ok) == if ok then CREATED_REPLY else Failed("create")
  {}

  lemma CreateOf(body: string, k: Outside, step: Option<Op>)
    requires ImageOf(body) != "" && step == StepOf(CreateContainer, body, k)
    ensures step.Some? && step.value.Create? && step.value.args == CreateArgsOf(body)
    ensures step.value.idTime == k.idTime && step.value.now == k.now && step.value.ok == k.createOk
  {}

  lemma RepliedStep(s: State, action: Action, body: string, k: Outside, op: Op)
    requires StepOf(action, body, k) == Some(op) && op.Create?
    ensures Replied(s, action, body, k) == (Step(s, op).0, ReplyTo(action, body, op.ok))
  {}

  /** A body that begins with an image takes the create step; the reply is 201 exactly when it succeeds. */
  lemma CreateWithImage(s: State, body: string, image: string, rest: string, k: Outside)
    requires body == "\"Image\":\"" + (image + "\"" + rest) && image != "" && '"' !in image
    ensures var (t, reply) := Replied(s, CreateContainer, body, k);
            && t == Step(s, Create(CreateArgsOf(body), k.idTime, k.now, k.createOk)).0
            && HttpResponse.Parse(Wire(reply)) == Reading(if k.createOk then 201 else 500, reply.body)
  {
    ArgsOfImageBody(body, image, rest);
    CreateOf(body, k, StepOf(CreateContainer, body, k));
    RepliedStep(s, CreateContainer, body, k, Create(CreateArgsOf(body), k.idTime, k.now, k.createOk));
    CreateReplies(body, k.createOk);
    FixedAreSendable();
    FailedIsSendable("create");
    ReadReply(if k.createOk then CREATED_REPLY else Failed("create"));
  }

  // ----- image URLs -----

  lemma PairInTwo(a: string, b: string, v: string, w: string)
    requires '/' !in a && '/' !in b && '/' !in v && '/' !in w
    ensures Contains("/" + a + ("/" + b), "/" + v + ("/" + w)) <==> v == a && w <= b
  {
    var p := "/" + v + ("/" + w);
    assert "/" + b + "" == "/" + b;
    NextSegment(a, "/" + b, p);
    NextSegment(b, "", p);
    NothingInEmpty(p);
    PairAtHead(v, w, a, "/" + b);
    PairAtHead(v, w, b, "");
    WordInSegment(w, b, "");
  }

  lemma WordInTwo(a: string, b: string, w: string)
    requires '/' !in a && '/' !in b && '/' !in w
    ensures Contains("/" + a + ("/" + b), "/" + w) <==> w <= a || w <= b
  {
    assert "/" + b + "" == "/" + b;
    NextSegment(a, "/" + b, "/" + w);
    NextSegment(b, "", "/" + w);
    NothingInEmpty("/" + w);
    WordInSegment(w, a, "/" + b);
    WordInSegment(w, b, "");
  }

  lemma ImageUrlTests(name: string)
    requires '/' !in name
    ensures Contains(ImageUrl(name), "/containers") <==> "containers" <= name
    ensures Contains(ImageUrl(name), "/images") && Contains(ImageUrl(name), "/images/")
    ensures Contains(ImageUrl(name), "/images/json") <==> "json" <= name
    ensures Contains(ImageUrl(name), "/build") <==> "build" <= name
  {
    assert '/' !in IMAGES && IMAGES[0] == 'i' && "build"[0] == 'b' && '/' !in "json" && '/' !in "build";
    assert "/" + IMAGES + ("/" + "json") == "/images/json" && "/" + "build" == "/build";
    assert "/" + IMAGES == "/images" && "/" + IMAGES + ("/" + "") == "/images/";
    Literals();
    ImageTests(name);
    PairInTwo(IMAGES, name, IMAGES, "json");
    PairInTwo(IMAGES, name, IMAGES, "");
    WordInTwo(IMAGES, name, "build");
  }

  lemma ImageRoutes(m: string, url: string)
    requires Contains(url, "/images")
    ensures Route(m, url) == BuildImage <==> !Contains(url, "/containers") && m == "POST" && Contains(url, "/build")
    ensures Route(m, url) == ListImages
            <==> !Contains(url, "/containers") && m == "GET" && Contains(url, "/images/json")
  {}

  lemma ImageUrlArrives(name: string)
    requires UrlName(name)
    ensures Word(ImageUrl(name)) && |ImageUrl(name)| <= 511
    ensures "containers" <= name ==> !("json" <= name) && !("build" <= name)
  {
    assert forall c :: c in IMAGES ==> 'a' <= c <= 'z';
    assert "containers"[0] == 'c' && "json"[0] == 'j' && "build"[0] == 'b';
  }

  /** Which requests for `/images/<name>` are builds and which are listings, for every method and every name. */
  lemma ImageRequestsRouted(m: string, name: string, body: string)
    requires UrlName(name) && Word(m) && |m| <= 15
    ensures var action := Handle(CreateRequest(m, ImageUrl(name), body));
            && (action == BuildImage <==> m == "POST" && "build" <= name)
            && (action == ListImages <==> m == "GET" && "json" <= name)
  {
    ImageUrlArrives(name);
    PrintedRequestIsRouted(m, ImageUrl(name), body);
    ImageUrlTests(name);
    ImageRoutes(m, ImageUrl(name));
  }

  /** The client's list of images is one of them. */
  lemma ClientImagesReachesHandler(body: string)
    ensures Handle(CreateRequest("GET", "/images/json", body)) == ListImages
  {
    assert ImageUrl("json") == "/images/json";
    ImageRequestsRouted("GET", "json", body);
  }

  // ----- the body that the client prints -----

  lemma BodyHead(a: CreateArgs)
    ensures "\"Image\":\"" + a.image + "\",\"Cmd\":[\"" <= BodyFields(a)
  {}

  lemma SplitBehindQuote(body: string, head: string, v: string, more: string)
    requires head + v + "\"" + more <= body
    ensures body == head + (v + "\"" + body[|head| + |v| + 1..])
  {
    var p := head + v + "\"" + more;
    assert body == p + body[|p|..];
    assert body[|head| + |v| + 1..] == more + body[|p|..];
    assert p + body[|p|..] == head + (v + "\"" + (more + body[|p|..]));
  }

  /** Nothing but its opening brace keeps the daemon from finding the image in the client's body. */
  lemma OnlyTheBraceHidesTheImage(a: CreateArgs)
    requires a.image != "" && '"' !in a.image
    ensures ImageOf(BodyFields(a)) == a.image && ImageOf("{" + BodyFields(a)) == ""
  {
    var body, head := BodyFields(a), "\"Image\":\"";
    BodyHead(a);
    assert head + a.image + "\",\"Cmd\":[\"" == head + a.image + "\"" + ",\"Cmd\":[\"";
    SplitBehindQuote(body, head, a.image, ",\"Cmd\":[\"");
    ImageAtHead(body, a.image, body[|head| + |a.image| + 1..]);
    BraceHasNoImage("{" + body);
  }

  lemma ImageAtHead(body: string, image: string, rest: string)
    requires body == "\"Image\":\"" + (image + "\"" + rest) && '"' !in image
    ensures ImageOf(body) == image
  {
    assert Quoted("Image") + TEXT == "\"Image\":\"";
    ScannedExactly(body, "Image", TEXT, image, rest);
  }
}
