/** One request to the relay: the token check, the Authentik payload schema,
    and the message forwarded to the room. Sending is not performed: the
    messages a request sends are part of its result. */
module Api {
  import opened Wrappers
  import opened Json
  import opened ConfigSchema
  import opened ConfigStore

  const UnauthorizedText: string := "No token provided"
  const InvalidDataText: string := "Cannot process invalid data"

  // Token lookup.

  /** `i` is the first position in `keys` whose key is `token`. */
  predicate IsFirstMatch(keys: seq<ApiKey>, token: string, i: int) {
    && 0 <= i < |keys|
    && keys[i].key == token
    && forall j | 0 <= j < i :: keys[j].key != token
  }

  /** The first API key record, in array order, whose key equals `token`. */
  function FindKey(keys: seq<ApiKey>, token: string): (r: Option<ApiKey>)
    ensures r.None? <==> forall i | 0 <= i < |keys| :: keys[i].key != token
    ensures r.Some? ==> exists i :: IsFirstMatch(keys, token, i) && keys[i] == r.value
    decreases |keys|
  {
    if |keys| == 0 then None
    else if keys[0].key == token then
      assert IsFirstMatch(keys, token, 0);
      Some(keys[0])
    else
      var r := FindKey(keys[1..], token);
      if r.Some? then
        var i :| IsFirstMatch(keys[1..], token, i) && keys[1..][i] == r.value;
        assert IsFirstMatch(keys, token, i + 1);
        r
      else
        assert forall i | 1 <= i < |keys| :: keys[i] == keys[1..][i - 1];
        r
  }

  /** Conversely, the record at the first matching position is the one found. */
  lemma FindKeyReturnsFirstMatch(keys: seq<ApiKey>, token: string, i: int)
    requires IsFirstMatch(keys, token, i)
    ensures FindKey(keys, token) == Some(keys[i])
  {
    var r := FindKey(keys, token);
    assert r.Some?;
    var j :| IsFirstMatch(keys, token, j) && keys[j] == r.value;
    assert j == i;
  }

  // The Authentik payload.

  datatype Severity = Notice | Warning | Alert

  function SeverityName(s: Severity): string {
    match s
    case Notice => "notice"
    case Warning => "warning"
    case Alert => "alert"
  }

  /** The payload schema: an object with a string `body`; `severity`, when
      present, one of the three level names; `user_email` and `user_username`,
      when present, strings; any other key allowed. */
  predicate ValidAuthentik(j: Json) {
    && j.JObject?
    && "body" in j.fields
    && j.fields["body"].JString?
    && ("severity" in j.fields ==>
          j.fields["severity"] in {JString("notice"), JString("warning"), JString("alert")})
    && ("user_email" in j.fields ==> j.fields["user_email"].JString?)
    && ("user_username" in j.fields ==> j.fields["user_username"].JString?)
  }

  datatype AuthentikMessage = AuthentikMessage(
    body: string,
    severity: Option<Severity>,
    userEmail: Option<string>,
    userUsername: Option<string>)

  function SeverityNamed(name: string): Option<Severity> {
    if name == "notice" then Some(Notice)
    else if name == "warning" then Some(Warning)
    else if name == "alert" then Some(Alert)
    else None
  }

  /** An optional property: `Some(None)` when absent, `None` when present
      but not accepted by `read`. */
  function OptionalField<T>(f: map<string, Json>, k: string, read: Json -> Option<T>): Option<Option<T>> {
    if k !in f then Some(None)
    else match read(f[k])
      case Some(x) => Some(Some(x))
      case None => None
  }

  function ReadString(v: Json): Option<string> {
    if v.JString? then Some(v.str) else None
  }

  function ReadSeverity(v: Json): Option<Severity> {
    if v.JString? then SeverityNamed(v.str) else None
  }

  /** Reads a payload as an Authentik message, or refuses it. */
  function DecodeAuthentik(j: Json): (r: Option<AuthentikMessage>)
    ensures r.Some? ==> j.JObject? && "body" in j.fields && j.fields["body"] == JString(r.value.body)
    ensures r.Some? ==> (r.value.severity.Some? <==> "severity" in j.fields)
    ensures r.Some? && r.value.severity.Some? ==>
      j.fields["severity"] == JString(SeverityName(r.value.severity.value))
  {
    if !j.JObject? || "body" !in j.fields || !j.fields["body"].JString? then None
    else
      var f := j.fields;
      match (OptionalField(f, "severity", ReadSeverity),
             OptionalField(f, "user_email", ReadString),
             OptionalField(f, "user_username", ReadString))
      case (Some(severity), Some(email), Some(username)) =>
        Some(AuthentikMessage(f["body"].str, severity, email, username))
      case _ => None
  }

  /** The payload schema accepts exactly the payloads that read as an
      Authentik message. */
  lemma AuthentikSchemaAgreesWithDecode(j: Json)
    ensures ValidAuthentik(j) <==> DecodeAuthentik(j).Some?
  {
  }

  // The forwarded message.

  /** The severity as the template literal renders it: the level name, or
      `undefined` when the payload has none. */
  function SeverityText(s: Option<Severity>): string {
    match s
    case Some(level) => SeverityName(level)
    case None => "undefined"
  }

  function MessagePrefix(name: string): string {
    "[webhook2matrix/" + name + "] ["
  }

  /** The text sent for a payload accepted under the key named `name`. */
  function MessageText(name: string, severity: Option<Severity>, body: string): string {
    MessagePrefix(name) + SeverityText(severity) + "]: " + body
  }

  /** The text starts with the key's name in its tag, its severity segment is
      one of four words, and it ends with the body verbatim. */
  lemma MessageTextShape(name: string, severity: Option<Severity>, body: string)
    ensures var t := MessageText(name, severity, body);
      && SeverityText(severity) in {"notice", "warning", "alert", "undefined"}
      && |t| == |MessagePrefix(name)| + |SeverityText(severity)| + 3 + |body|
      && t[..|MessagePrefix(name)|] == MessagePrefix(name)
      && t[|MessagePrefix(name)|..|MessagePrefix(name)| + |SeverityText(severity)|] == SeverityText(severity)
      && t[|t| - |body|..] == body
  {
  }

  /** Under one key name, the text determines the severity and the body:
      no two different payloads produce the same message. */
  lemma MessageTextInjective(name: string, s1: Option<Severity>, b1: string, s2: Option<Severity>, b2: string)
    requires MessageText(name, s1, b1) == MessageText(name, s2, b2)
    ensures s1 == s2 && b1 == b2
  {
    var p := |MessagePrefix(name)|;
    var t := MessageText(name, s1, b1);
    assert t[p] == SeverityText(s1)[0] == SeverityText(s2)[0];
    assert SeverityText(s1) == SeverityText(s2);
    var n := p + |SeverityText(s1)| + 3;
    assert b1 == t[n..] == b2;
  }

  // Handling one request.

  /** `POST /:token/authentik`, or any other route under `/:token`. */
  datatype Route = PostAuthentik | OtherRoute

  datatype Request = Request(token: string, route: Route, body: Json)

  datatype Message = Message(roomId: string, text: string)

  datatype ResponseBody =
    | TextBody(text: string)
    | JsonBody(value: Json)
    | DefaultPage   // the framework's own not-found or error page

  /** What a request does: the messages it sends, in order, and its response. */
  datatype Exchange = Exchange(sent: seq<Message>, status: nat, body: ResponseBody)

  const Unauthorized: Exchange := Exchange([], 401, TextBody(UnauthorizedText))
  const Acknowledged: ResponseBody := JsonBody(JObject(map["ok" := JBool(true)]))

  /** Handles one request against the configuration store. */
  function Handle(s: Store, req: Request): (x: Exchange)
    ensures |x.sent| <= 1
    ensures x.sent != [] <==> x.status == 200
    ensures x.status == 200 ==> x.body == Acknowledged
  {
    if req.token == "" then Unauthorized
    else
      match Get(s)
      case Failure(_) => Exchange([], 500, DefaultPage)
      case Success(config) =>
        match FindKey(config.apiKeys, req.token)
        case None => Unauthorized
        case Some(key) =>
          if req.route == OtherRoute then Exchange([], 404, DefaultPage)
          else
            match DecodeAuthentik(req.body)
            case None => Exchange([], 400, TextBody(InvalidDataText))
            case Some(m) =>
              var text := MessageText(key.name, m.severity, m.body);
              Exchange([Message(config.matrix.roomId, text)], 200, Acknowledged)
  }

  /** An empty token and a token no key matches are refused alike, with 401
      and the same text, and nothing is sent. */
  lemma UnauthenticatedIsRefused(s: Store, req: Request)
    requires req.token == "" || (Get(s).Success? && forall k | k in Get(s).value.apiKeys :: k.key != req.token)
    ensures Handle(s, req) == Exchange([], 401, TextBody("No token provided"))
  {
  }

  /** Before a configuration is loaded, a request with a token fails inside
      the token check with the framework's error page, and nothing is sent. */
  lemma RequestBeforeLoadFails(s: Store, req: Request)
    requires req.token != "" && !s.loaded
    ensures Handle(s, req) == Exchange([], 500, DefaultPage)
  {
  }

  /** The empty token is refused even when some key is the empty string. */
  lemma EmptyTokenNeverMatches(s: Store, route: Route, body: Json)
    ensures Handle(s, Request("", route, body)).status == 401
  {
  }

  /** Authentication comes first: a request that is validated (400), sent
      (200) or routed (404) carried a token equal to some configured key. */
  lemma AuthenticationPrecedesValidation(s: Store, req: Request)
    requires Handle(s, req).status in {200, 400, 404}
    ensures req.token != "" && Get(s).Success?
    ensures exists i :: IsFirstMatch(Get(s).value.apiKeys, req.token, i)
  {
  }

  /** An authenticated request whose payload fails the schema gets 400 and
      sends nothing. */
  lemma InvalidPayloadIsRefused(s: Store, req: Request, i: int)
    requires req.token != "" && s.loaded && s.config.Some? && IsFirstMatch(s.config.value.apiKeys, req.token, i)
    requires req.route == PostAuthentik && !ValidAuthentik(req.body)
    ensures Handle(s, req) == Exchange([], 400, TextBody("Cannot process invalid data"))
  {
    FindKeyReturnsFirstMatch(s.config.value.apiKeys, req.token, i);
    AuthentikSchemaAgreesWithDecode(req.body);
  }

  /** An authenticated request with a valid payload sends exactly one message,
      to the configured room, tagged with the matched key's name and the
      payload's severity (or `undefined`), ending in the payload's body; then
      it answers `{ok: true}`. */
  lemma ValidPayloadIsForwarded(s: Store, req: Request, i: int)
    requires req.token != "" && s.loaded && s.config.Some? && IsFirstMatch(s.config.value.apiKeys, req.token, i)
    requires req.route == PostAuthentik && ValidAuthentik(req.body)
    ensures var f := req.body.fields;
      var severity := if "severity" in f then f["severity"].str else "undefined";
      var config := s.config.value;
      Handle(s, req) == Exchange(
        [Message(config.matrix.roomId,
                 "[webhook2matrix/" + config.apiKeys[i].name + "] [" + severity + "]: " + f["body"].str)],
        200,
        JsonBody(JObject(map["ok" := JBool(true)])))
  {
    FindKeyReturnsFirstMatch(s.config.value.apiKeys, req.token, i);
    AuthentikSchemaAgreesWithDecode(req.body);
  }

  /** Example: key `ops`, payload `{body: "disk full", severity: "alert"}`. */
  lemma DiskFullExample(s: Store, i: int)
    requires s.loaded && s.config.Some? && IsFirstMatch(s.config.value.apiKeys, "t0k", i)
    requires s.config.value.apiKeys[i].name == "ops"
    ensures Handle(s, Request("t0k", PostAuthentik, DiskFullPayload)).sent ==
      [Message(s.config.value.matrix.roomId, "[webhook2matrix/ops] [alert]: disk full")]
  {
    FindKeyReturnsFirstMatch(s.config.value.apiKeys, "t0k", i);
    DiskFullPayloadReads();
    assert MessageText("ops", Some(Alert), "disk full") == "[webhook2matrix/ops] [alert]: disk full";
  }

  const DiskFullPayload: Json := JObject(map["body" := JString("disk full"), "severity" := JString("alert")])

  lemma DiskFullPayloadReads()
    ensures DecodeAuthentik(DiskFullPayload) == Some(AuthentikMessage("disk full", Some(Alert), None, None))
  {
    assert DecodeAuthentik(DiskFullPayload).Some?;
  }

  /** A payload without `body` is refused with 400 and sends nothing. */
  lemma MissingBodyExample(s: Store, token: string, i: int)
    requires s.loaded && s.config.Some? && token != ""
    requires IsFirstMatch(s.config.value.apiKeys, token, i)
    ensures Handle(s, Request(token, PostAuthentik, JObject(map["severity" := JString("notice")])))
      == Exchange([], 400, TextBody("Cannot process invalid data"))
  {
    FindKeyReturnsFirstMatch(s.config.value.apiKeys, token, i);
  }
}
