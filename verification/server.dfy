/** The process entry point (src/main.go): port selection, start-up, and
    the two routes. Routing, CORS and the listener are framework plumbing
    outside the model; each route is its handler's reply. */
module Server {
  import opened Wrappers
  import opened Models
  import opened UserStore
  import Mail
  import Json
  import Registration
  import Seqs

  const DefaultPort: string := "5000"

  /** The listening port: the `BACKEND_PORT` setting (empty when unset),
      or the default. */
  function Port(env: string): (p: string)
    ensures p != ""
    ensures env != "" ==> p == env
    ensures env == "" ==> p == DefaultPort
  {
    if env == "" then DefaultPort else env
  }

  /** Status, `Content-Type` and body of a reply. */
  datatype HttpReply = HttpReply(status: int, contentType: string, body: string)

  const JsonType: string := "application/json"
  const PlainTextType: string := "text/plain; charset=utf-8"

  /** `http.Error`: plain text, the message followed by a newline. */
  function HttpError(message: string, code: int): (r: HttpReply)
    ensures r.status == code && r.contentType == PlainTextType
    ensures |r.body| == |message| + 1 && r.body[..|message|] == message && r.body[|message|] == '\n'
  {
    HttpReply(code, PlainTextType, message + "\n")
  }

  const WelcomeText: string := "Welcome to LinuxDiary5.0"
  /** The greeting's bytes, `{"message": "Welcome to LinuxDiary5.0"}`. */
  const WelcomeBody: string := "{\"message\": " + "\"" + WelcomeText + "\"" + "}"

  /** `GET /`: always the same JSON greeting. */
  function Welcome(): (r: HttpReply)
    ensures r.status == 200 && r.contentType == JsonType
    ensures "{\"message\": \"" <= r.body
  {
    HttpReply(200, JsonType, WelcomeBody)
  }

  /** The greeting is a one-member JSON object whose `message` reads back
      as the welcome text. */
  lemma WelcomeReadsBack()
    ensures Json.Expect("{\"message\": ", Welcome().body).Some?
    ensures Json.ReadQuoted(Json.Expect("{\"message\": ", Welcome().body).value) == Some((WelcomeText, "}"))
  {
    var rest := "\"" + WelcomeText + "\"" + "}";
    assert WelcomeBody == "{\"message\": " + rest by {
      Seqs.Assoc("{\"message\": " + "\"" + WelcomeText, "\"", "}");
      Seqs.Assoc("{\"message\": " + "\"", WelcomeText, "\"" + "}");
      Seqs.Assoc("{\"message\": ", "\"", WelcomeText + ("\"" + "}"));
      Seqs.Assoc("\"", WelcomeText, "\"" + "}");
      Seqs.Assoc("\"" + WelcomeText, "\"", "}");
    }
    Json.ExpectOf("{\"message\": ", rest);
    assert rest[1..] == WelcomeText + "\"" + "}";
    ReadPlain(WelcomeText, "}");
  }

  /** A character a JSON string may hold unescaped. */
  predicate PlainChar(c: char) {
    c as int >= 0x20 && c != '"' && c != '\\'
  }

  /** Text of characters that need no escape is read up to the closing
      quote unchanged. */
  lemma {:induction false} ReadPlain(s: string, t: string)
    requires forall i :: 0 <= i < |s| ==> PlainChar(s[i])
    ensures Json.ReadString(s + "\"" + t) == Some((s, t))
    decreases |s|
  {
    var u := s + "\"" + t;
    if |s| == 0 {
      assert u == "\"" + t;
    } else {
      assert u[1..] == s[1..] + "\"" + t;
      assert Json.ReadChar(u) == Some((s[0], u[1..]));
      ReadPlain(s[1..], t);
      Seqs.HeadTail(s);
    }
  }

  /** The running server: its port, its store, and the start-up `err`
      that the registration handler captures. */
  datatype ServerState = ServerState(port: string, store: Store, startupErr: Option<string>)

  /** Start-up: a failed store connection panics (the `Failure`); otherwise
      the server runs with the connection's store and a nil `err`. */
  function Startup(portEnv: string, connect: Result<Store, string>): (r: Result<ServerState, string>)
    ensures r.Success? <==> connect.Success?
    ensures r.Failure? ==> r.error == connect.error
    ensures r.Success? ==> r.value.port == Port(portEnv) && r.value.store == connect.value
    ensures r.Success? ==> r.value.startupErr.None?
  {
    match connect
    case Failure(e) => Failure(e)
    case Success(st) => Success(ServerState(Port(portEnv), st, None))
  }

  /** The `/user/registration` handler's reply for a `CreateUser` envelope.
      The `error` returned by `CreateUser` is discarded; `err` is the
      captured start-up error. */
  function HandleRegistration(resp: Response, err: Option<string>): (r: HttpReply)
    ensures !resp.success ==> r == HttpReply(400, PlainTextType, Json.EncodeResponse(resp) + "\n")
    ensures resp.success && err.None? ==> r == HttpReply(200, JsonType, Json.EncodeResponse(resp))
    ensures r.status == 500 <==> resp.success && err.Some?
  {
    var jsonResponse := Json.EncodeResponse(resp);
    if !resp.success then HttpError(jsonResponse, 400)
    else if err.Some? then HttpError(err.value, 500)
    else HttpReply(200, JsonType, jsonResponse)
  }

  /** One POST to `/user/registration`: the reply, the server afterwards,
      and the mail handed to the background sender. */
  function ServeRegistration(srv: ServerState, parsed: Result<UserInput, string>, id: ObjectId, fault: Option<string>, cfg: Mail.MailConfig): (r: (HttpReply, ServerState, Option<Mail.MailRequest>))
    ensures r.1.port == srv.port && r.1.startupErr == srv.startupErr
    ensures r.0.status == 400 ==> r.1 == srv && r.2.None?
  {
    var o := Registration.CreateUser(srv.store, parsed, id, fault, cfg);
    RefusedOnlyIfFailed(o.response, srv.startupErr);
    (HandleRegistration(o.response, srv.startupErr), srv.(store := o.store), o.mail)
  }

  /** A 400 reply comes only from a failed envelope. */
  lemma RefusedOnlyIfFailed(resp: Response, err: Option<string>)
    ensures HandleRegistration(resp, err).status == 400 ==> !resp.success
  {
  }

  /** On a server that started, the 500 branch is dead: every registration
      reply is 200 or 400, 200 exactly when the mail was handed off, and
      the body (less the newline `http.Error` adds) reads back as the
      envelope `CreateUser` produced. */
  lemma RegistrationReplies(portEnv: string, connect: Result<Store, string>, parsed: Result<UserInput, string>, id: ObjectId, fault: Option<string>, cfg: Mail.MailConfig)
    requires Startup(portEnv, connect).Success?
    ensures var srv := Startup(portEnv, connect).value;
      var (reply, _, mail) := ServeRegistration(srv, parsed, id, fault, cfg);
      var resp := Registration.CreateUser(srv.store, parsed, id, fault, cfg).response;
      && (reply.status == 200 || reply.status == 400)
      && (reply.status == 200 <==> resp.success)
      && (reply.status == 200 <==> mail.Some?)
      && |reply.body| > 0
      && Json.DecodeResponse(if reply.status == 400 then reply.body[..|reply.body| - 1] else reply.body) == Some(resp)
  {
    var srv := Startup(portEnv, connect).value;
    var o := Registration.CreateUser(srv.store, parsed, id, fault, cfg);
    assert ServeRegistration(srv, parsed, id, fault, cfg) == (HandleRegistration(o.response, None), srv.(store := o.store), o.mail);
    ReplyWithoutStartupError(o.response);
  }

  /** With no start-up error, the reply is 200 or 400 as the envelope
      succeeded or not, and its body (less the newline `http.Error` adds)
      reads back as the envelope. */
  lemma ReplyWithoutStartupError(resp: Response)
    ensures var reply := HandleRegistration(resp, None);
      && (reply.status == 200 || reply.status == 400)
      && (reply.status == 200 <==> resp.success)
      && |reply.body| > 0
      && Json.DecodeResponse(if reply.status == 400 then reply.body[..|reply.body| - 1] else reply.body) == Some(resp)
  {
    var body := Json.EncodeResponse(resp);
    Json.DecodeEncodedResponse(resp);
    assert (body + "\n")[..|body|] == body;
  }

  /** The status a registration gets depends on the envelope's `success`
      flag alone. */
  lemma StatusFollowsSuccess(a: Response, b: Response)
    requires a.success == b.success
    ensures HandleRegistration(a, None).status == HandleRegistration(b, None).status
    ensures HandleRegistration(a, None).contentType == HandleRegistration(b, None).contentType
  {
  }
}
