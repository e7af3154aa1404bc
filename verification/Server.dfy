/** A container request from its text to the daemon's state and the response on the wire. */
module Server {
  import opened CText
  import opened Ids
  import opened KeyedLines
  import opened Lifecycle
  import Daemon
  import HttpRequest
  import HttpResponse

  /** Status, message and body handed to `create_http_response`. */
  datatype Reply = Reply(code: int, message: string, body: string)

  const NO_CONTENT := Reply(204, "No Content", "")
  const CREATED_REPLY := Reply(201, "Created", "{\"Id\": \"container_created\", \"Warnings\": []}")
  const BAD_ID := Reply(400, "Bad Request", "{\"error\": \"Invalid container ID\"}")
  const NO_IMAGE := Reply(400, "Bad Request", "{\"error\": \"Image name required\"}")
  const NO_ENDPOINT := Reply(404, "Not Found", "{\"error\": \"Container API endpoint not found\"}")
  const NO_API := Reply(404, "Not Found", "{\"error\": \"API endpoint not found\"}")
  const INVALID := Reply(400, "Bad Request", "Invalid HTTP request")

  function Failed(what: string): Reply {
    Reply(500, "Internal Server Error", "{\"error\": \"Failed to " + what + " container\"}")
  }

  /** What the outside answers during one request. */
  datatype Outside = Outside(
    idTime: Time, createOk: bool, ticket: nat, now: Time, later: Time, clone: Option<Int32>, killOk: bool,
    waitOk: bool, status: Int32, writeOk: bool, endWriteOk: bool, dirOk: bool, unlinkOk: bool, logOk: bool)

  // ----- the body of a create request -----

  const TEXT := ":\""
  const LIST := ":[\""

  /** `strstr` for the quoted key, then a `sscanf` whose format is anchored at the head of the body. */
  function Scanned(body: string, key: string, open: string): string {
    var head := Quoted(key) + open;
    if Contains(body, Quoted(key)) && head <= body then Before(body[|head|..], '"') else ""
  }

  function Flag(body: string, key: string): Int32 {
    if Contains(body, Quoted(key)) then 1 else 0
  }

  function ImageOf(body: string): string {
    Scanned(body, "Image", TEXT)
  }

  /** The arguments of `handle_container_create`; the name buffer stays empty. */
  function CreateArgsOf(body: string): CreateArgs {
    CreateArgs(
      Some(""), ImageOf(body), Some(Scanned(body, "Cmd", LIST)), Some(Scanned(body, "WorkingDir", TEXT)),
      Some(Scanned(body, "Env", LIST)), Some(Scanned(body, "PortBindings", TEXT)), Some(Scanned(body, "Binds", LIST)),
      Flag(body, "AttachStdin"), Flag(body, "AttachStdout"), Flag(body, "Detach"))
  }

  /** A text is scanned exactly if the body begins with its key and the text is not empty. */
  lemma ScannedAtHead(body: string, key: string, open: string)
    ensures var head := Quoted(key) + open;
            Scanned(body, key, open) != "" <==> head < body && body[|head|] != '"'
  {
    var head := Quoted(key) + open;
    if head <= body {
      assert body[0..|Quoted(key)|] == Quoted(key) && At(body, Quoted(key), 0);
      assert head < body ==> body[|head|..][0] == body[|head|];
    }
  }

  lemma HeadKey(body: string, key: string, open: string)
    requires '"' !in key && Quoted(key) + open <= body
    ensures body != "" && Before(body[1..], '"') == key
  {
    var rest := body[|key| + 2..];
    assert body == "\"" + (key + ['"'] + rest);
    BeforeStop(key, '"', rest);
  }

  /** Only the first key of a body can be scanned, because every format is anchored there. */
  lemma OneKeyScanned(body: string, key: string, open: string, other: string, open2: string)
    requires '"' !in key && '"' !in other && key != other && Scanned(body, key, open) != ""
    ensures Scanned(body, other, open2) == ""
  {
    HeadKey(body, key, open);
    if Quoted(other) + open2 <= body {
      HeadKey(body, other, open2);
    }
  }

  lemma KeysDiffer()
    ensures '"' !in "Image" && '"' !in "Cmd" && '"' !in "WorkingDir" && '"' !in "Env" && '"' !in "PortBindings"
    ensures '"' !in "Binds" && forall k :: k in ["Cmd", "WorkingDir", "Env", "PortBindings", "Binds"] ==> "Image" != k
  {
    assert "Image"[0] == 'I' && "Cmd"[0] == 'C' && "WorkingDir"[0] == 'W' && "Env"[0] == 'E';
    assert "PortBindings"[0] == 'P' && "Binds"[0] == 'B';
  }

  /** A body with an image begins with it, and then command, directory, environment, ports and volumes are lost. */
  lemma ImageAlone(body: string)
    ensures ImageOf(body) != "" <==> Quoted("Image") + TEXT < body && body[|Quoted("Image") + TEXT|] != '"'
    ensures var a := CreateArgsOf(body);
            ImageOf(body) != "" ==> a == CreateArgs(Some(""), ImageOf(body), Some(""), Some(""), Some(""), Some(""),
                                                    Some(""), a.interactive, a.tty, a.detach)
  {
    ScannedAtHead(body, "Image", TEXT);
    KeysDiffer();
    if Scanned(body, "Image", TEXT) != "" {
      OneKeyScanned(body, "Image", TEXT, "Cmd", LIST);
      OneKeyScanned(body, "Image", TEXT, "WorkingDir", TEXT);
      OneKeyScanned(body, "Image", TEXT, "Env", LIST);
      OneKeyScanned(body, "Image", TEXT, "PortBindings", TEXT);
      OneKeyScanned(body, "Image", TEXT, "Binds", LIST);
    }
  }

  const CLIENT_BODY_SIZE: nat := 1024

  function TrueOrFalse(b: int): string {
    if b != 0 then "true" else "false"
  }

  /** The body that `docker_run` of the client prints, behind its opening brace. */
  function BodyFields(a: CreateArgs): string {
    "\"Image\":\"" + a.image + "\",\"Cmd\":[\"" + OrElse(a.command, "") + "\"],\"WorkingDir\":\""
    + OrElse(a.workingDir, "/") + "\",\"Env\":[\"" + OrElse(a.envVars, "") + "\"],\"PortBindings\":\""
    + OrElse(a.portMappings, "") + "\",\"Binds\":[\"" + OrElse(a.volumeMappings, "") + "\"],\"AttachStdin\":"
    + TrueOrFalse(a.interactive) + ",\"AttachStdout\":" + TrueOrFalse(a.tty) + ",\"Detach\":"
    + TrueOrFalse(a.detach) + "}"
  }

  function ClientBody(a: CreateArgs): string {
    Cut("{" + BodyFields(a), CLIENT_BODY_SIZE - 1)
  }

  /** A body that begins with a brace has no image, nor has an empty one. */
  lemma BraceHasNoImage(body: string)
    requires body == "" || body[0] == '{'
    ensures ImageOf(body) == ""
  {
    ImageAlone(body);
    assert (Quoted("Image") + TEXT)[0] == '"';
  }

  lemma CutHead(rest: string, n: nat)
    requires 0 < n
    ensures Cut("{" + rest, n) != "" && Cut("{" + rest, n)[0] == '{'
  {}

  /** Even if the daemon received the client's body, it would find no image in it. */
  lemma ClientBodyHasNoImage(a: CreateArgs)
    ensures ImageOf(ClientBody(a)) == ""
  {
    CutHead(BodyFields(a), CLIENT_BODY_SIZE - 1);
    BraceHasNoImage(ClientBody(a));
  }

  // ----- one request -----

  /** The lifecycle step a routed request takes first, if it takes one. */
  function StepOf(action: HttpRequest.Action, body: string, k: Outside): Option<Op> {
    match action
    case StartContainer(id) => Some(Begin(id, k.ticket, k.now, k.clone, k.writeOk))
    case StopContainer(id) => Some(Stop(id, k.now, k.killOk, k.waitOk, k.status, k.writeOk))
    case RemoveContainer(id) => Some(Remove(id, k.now, k.dirOk, k.unlinkOk, k.logOk))
    case CreateContainer =>
      if ImageOf(body) == "" then None else Some(Create(CreateArgsOf(body), k.idTime, k.now, k.createOk))
    case _ => None
  }

  function ReplyTo(action: HttpRequest.Action, body: string, ok: bool): Reply {
    match action
    case StartContainer(_) => if ok then NO_CONTENT else Failed("start")
    case StopContainer(_) => if ok then NO_CONTENT else Failed("stop")
    case RemoveContainer(_) => if ok then NO_CONTENT else Failed("remove")
    case CreateContainer =>
      if ImageOf(body) == "" then NO_IMAGE else if ok then CREATED_REPLY else Failed("create")
    case BadRequest => BAD_ID
    case _ => NO_ENDPOINT
  }

  /** The state after the step; a start that waits is finished before the reply is sent. */
  function StateAfter(s: State, op: Op, k: Outside): State {
    var (t, ok) := Step(s, op);
    if op.Begin? && ok && s.records[op.id].detach == 0 then
      Step(t, End(k.ticket, k.later, k.waitOk, k.status, k.endWriteOk)).0
    else t
  }

  /** What a container request does to the state, and its reply. */
  function Replied(s: State, action: HttpRequest.Action, body: string, k: Outside): (State, Reply) {
    match StepOf(action, body, k)
    case None => (s, ReplyTo(action, body, false))
    case Some(op) => (StateAfter(s, op, k), ReplyTo(action, body, Step(s, op).1))
  }

  /** Short enough for every buffer, and a message that ends no header. */
  predicate Sendable(r: Reply) {
    |r.message| < 63 && |r.body| < 1000 && IsInt32(r.code) && '\r' !in r.message
  }

  lemma FailedIsSendable(what: string)
    requires |what| < 10
    ensures Sendable(Failed(what)) && Failed(what).code == 500
  {}

  lemma FixedAreSendable()
    ensures Sendable(NO_CONTENT) && Sendable(CREATED_REPLY) && Sendable(BAD_ID)
    ensures Sendable(NO_IMAGE) && Sendable(NO_ENDPOINT)
  {}

  lemma ReplySendable(action: HttpRequest.Action, body: string, ok: bool)
    ensures Sendable(ReplyTo(action, body, ok))
  {
    FixedAreSendable();
    FailedIsSendable("start");
    FailedIsSendable("stop");
    FailedIsSendable("remove");
    FailedIsSendable("create");
  }

  /** The response struct formats to this reply. */
  ghost predicate Filled(response: HttpResponse.HttpResponse, r: Reply)
    reads response
  {
    && response.Formatted() == HttpResponse.Message(r.code, r.message, r.body)
    && response.statusCode == r.code
  }

  /** `handle_containers_api` and its handlers. */
  method HandleContainersApi(daemon: Daemon.Daemon, request: HttpRequest.Request, response: HttpResponse.HttpResponse,
                             k: Outside)
    modifies daemon, response
    ensures var action := HttpRequest.ContainersApi(request.method_, request.url);
            var (t, reply) := Replied(old(daemon.Snapshot()), action, request.body, k);
            daemon.Snapshot() == t && Filled(response, reply)
  {
    var action := HttpRequest.ContainersApi(request.method_, request.url);
    var ok := TakeStep(daemon, action, request.body, k);
    var reply := ReplyTo(action, request.body, ok);
    ReplySendable(action, request.body, ok);
    response.Create(reply.code, reply.message, Some(reply.body));
  }

  method TakeStep(daemon: Daemon.Daemon, action: HttpRequest.Action, body: string, k: Outside) returns (ok: bool)
    modifies daemon
    ensures match StepOf(action, body, k)
            case None => daemon.Snapshot() == old(daemon.Snapshot()) && !ok
            case Some(op) =>
              daemon.Snapshot() == StateAfter(old(daemon.Snapshot()), op, k) && ok == Step(old(daemon.Snapshot()), op).1
  {
    ok := false;
    match action {
      case StartContainer(id) =>
        ok := daemon.StartContainer(id, k.ticket, k.now, k.clone, k.writeOk, k.later, k.waitOk, k.status, k.endWriteOk);
      case StopContainer(id) =>
        ok := daemon.StopContainer(id, k.now, k.killOk, k.waitOk, k.status, k.writeOk);
      case RemoveContainer(id) =>
        ok := daemon.RemoveContainer(id, k.now, k.dirOk, k.unlinkOk, k.logOk);
      case CreateContainer =>
        if ImageOf(body) != "" {
          ok := daemon.CreateContainer(CreateArgsOf(body), k.idTime, k.now, k.createOk);
        }
      case _ =>
    }
  }

  predicate ForImages(text: string) {
    match HttpRequest.ParseLine(text)
    case None => false
    case Some((_, u, _, _)) => !Contains(Cut(u, 511), "/containers") && Contains(Cut(u, 511), "/images")
  }

  /** What a request text does to the state, and its reply. The parser never delivers a body. */
  function Served(s: State, text: string, k: Outside): (State, Reply) {
    match HttpRequest.ParseLine(text)
    case None => (s, INVALID)
    case Some((m, u, _, _)) =>
      if Contains(Cut(u, 511), "/containers") then Replied(s, HttpRequest.ContainersApi(Cut(m, 15), Cut(u, 511)), "", k)
      else (s, NO_API)
  }

  /** The text the client receives. */
  function Wire(r: Reply): string {
    Cut(HttpResponse.Message(r.code, r.message, r.body), HttpResponse.MAX_RESPONSE_SIZE - 1)
  }

  /** `handle_client` between receiving and sending: parse, route, handle, format. */
  method HandleClient(daemon: Daemon.Daemon, text: string, k: Outside) returns (wire: string)
    requires !ForImages(text)
    modifies daemon
    ensures var (t, reply) := Served(old(daemon.Snapshot()), text, k);
            daemon.Snapshot() == t && wire == Wire(reply)
  {
    var request := HttpRequest.ParseHttpRequest(text);
    var response := new HttpResponse.HttpResponse();
    if request.None? {
      response.Create(400, "Bad Request", Some("Invalid HTTP request"));
    } else if Contains(request.value.url, "/containers") {
      HandleContainersApi(daemon, request.value, response, k);
    } else {
      response.Create(404, "Not Found", Some("{\"error\": \"API endpoint not found\"}"));
    }
    wire := response.Send();
  }

  // ----- what the client reads -----

  /** The client reads the code and the body of every sendable reply. */
  lemma ReplyArrives(r: Reply)
    requires Sendable(r)
    ensures HttpResponse.Parse(Wire(r)) == Some(HttpResponse.Parsed(Some(r.code), r.body))
  {
    DecShort(r.code);
    DecShort(|r.body|);
    HttpResponse.MessageLength(r.code, r.message, r.body);
    HttpResponse.ResponseRoundTrip(r.code, r.message, r.body);
  }

  lemma VerbReply(id: string, v: HttpRequest.Verb, ok: bool)
    ensures ReplyTo(HttpRequest.Handler(v, id), "", ok) == if ok then NO_CONTENT else Failed(HttpRequest.VerbText(v))
  {}

  /** A printed container request is answered by its route, without its body. */
  lemma ServedLine(s: State, m: string, url: string, body: string, k: Outside)
    requires HttpRequest.Word(m) && HttpRequest.Word(url) && |m| <= 15 && |url| <= 511 && Contains(url, "/containers")
    ensures Served(s, HttpRequest.CreateRequest(m, url, body), k)
            == Replied(s, HttpRequest.ContainersApi(m, url), "", k)
  {
    HttpRequest.PrintedLineParsed(m, url, body);
  }

  lemma ServedVerb(s: State, id: string, v: HttpRequest.Verb, body: string, k: Outside)
    requires HttpRequest.UrlName(id) && HttpRequest.Reachable(id, v)
    ensures Served(s, HttpRequest.CreateRequest("GET", HttpRequest.ContainerUrl(id, v), body), k)
            == Replied(s, HttpRequest.Handler(v, id), "", k)
  {
    var url := HttpRequest.ContainerUrl(id, v);
    HttpRequest.ContainerUrlIsWord(id, v);
    HttpRequest.ContainerRouted(id, v);
    HttpRequest.ContainerUrlTest(id, v);
    ServedLine(s, "GET", url, body, k);
  }

  /** Through request line, routing, lifecycle and response: the client reads 204 exactly when the step succeeded. */
  lemma ClientSeesOutcome(s: State, id: string, v: HttpRequest.Verb, body: string, k: Outside)
    requires HttpRequest.UrlName(id) && HttpRequest.Reachable(id, v)
    ensures var (t, reply) := Served(s, HttpRequest.CreateRequest("GET", HttpRequest.ContainerUrl(id, v), body), k);
            var op := StepOf(HttpRequest.Handler(v, id), "", k);
            && op.Some? && t == StateAfter(s, op.value, k)
            && var seen := HttpResponse.Parse(Wire(reply));
               seen == Some(HttpResponse.Parsed(Some(if Step(s, op.value).1 then 204 else 500), reply.body))
  {
    var action := HttpRequest.Handler(v, id);
    var ok := Step(s, StepOf(action, "", k).value).1;
    ServedVerb(s, id, v, body, k);
    VerbReply(id, v, ok);
    ReplySendable(action, "", ok);
    ReplyArrives(ReplyTo(action, "", ok));
  }

  lemma EmptyCreateRefused(s: State, k: Outside)
    ensures Replied(s, HttpRequest.CreateContainer, "", k) == (s, NO_IMAGE)
  {
    BraceHasNoImage("");
  }

  lemma PostIsCreate(m: string, url: string)
    requires m == "POST" && Contains(url, "/containers/create")
    ensures HttpRequest.ContainersApi(m, url) == HttpRequest.CreateContainer
  {}

  lemma CreateWithoutBody(s: State, m: string, url: string, body: string, k: Outside)
    requires m == "POST" && Contains(url, "/containers") && Contains(url, "/containers/create")
    requires HttpRequest.Word(m) && HttpRequest.Word(url) && |url| < 100
    ensures Served(s, HttpRequest.CreateRequest(m, url, body), k) == (s, NO_IMAGE)
  {
    PostIsCreate(m, url);
    ServedLine(s, m, url, body, k);
    EmptyCreateRefused(s, k);
  }

  lemma CreateUrl(url: string)
    requires url == "/containers" + "/create"
    ensures HttpRequest.Word(url) && HttpRequest.Word("POST") && |url| < 100
    ensures Contains(url, "/containers") && Contains(url, "/containers/create")
  {
    assert url[0..11] == "/containers" && At(url, "/containers", 0);
    assert url[0..|url|] == url && At(url, url, 0);
  }

  /** The client's `run` is refused, whatever its arguments: the state stays and the client reads 400. */
  lemma CreateIsRefused(s: State, body: string, k: Outside)
    ensures var (t, reply) := Served(s, HttpRequest.CreateRequest("POST", "/containers/create", body), k);
            t == s && HttpResponse.Parse(Wire(reply)) == Some(HttpResponse.Parsed(Some(400), NO_IMAGE.body))
  {
    var url := "/containers/create";
    CreateUrl(url);
    CreateWithoutBody(s, "POST", url, body, k);
    FixedAreSendable();
    ReplyArrives(NO_IMAGE);
  }
}
