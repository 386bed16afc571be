/** The upstream client: meeting-signature claims, the ZAK token fetch, registrant
    creation and the current-user fetch. HMAC signing and the HTTP calls themselves
    are outside the model: the signature is the header and claim record that would be
    signed, and each upstream call is a function parameter. */
module ZoomService {
  import opened Outcomes
  import opened Js
  import Config
  import Upstream
  import TokenManager

  // ---------------------------------------------------------------------------
  // generateSignature

  /** The JOSE header of a meeting signature. */
  datatype JwtHeader = JwtHeader(alg: string, typ: string)

  /** The claim set: `iat` and `exp` are JWT claims (sections 4.1.6 and 4.1.4 of
      RFC 7519); `tokenExp` repeats `exp`; `role` is the value exactly as passed. */
  datatype Claims = Claims(appKey: string, mn: string, role: Value, iat: int, exp: int, tokenExp: int)

  /** What HS256 signs: header and claims. */
  datatype UnsignedToken = UnsignedToken(header: JwtHeader, payload: Claims)

  const Hs256Header := JwtHeader("HS256", "JWT")
  /** Seconds `iat` is backdated by. */
  const BackdateSeconds := 30

  const MeetingNumberMessage := "Meeting number is required and must be a string"
  const RoleMessage := "Role must be 0 or 1"

  /** `Math.round(ms / 1000)`: the nearest whole second, halves rounded up. */
  function RoundToSeconds(ms: nat): (r: int)
    ensures r * 1000 - 500 <= ms < r * 1000 + 500
  {
    (ms + 500) / 1000
  }

  /** `!meetingNumber || typeof meetingNumber !== 'string'` fails. */
  predicate IsMeetingNumber(v: Value)
  {
    v.Str? && v.s != ""
  }

  /** `generateSignature(meetingNumber, role)` at clock `nowMs`, with `config.zoom.clientId`
      as `clientId`. */
  function GenerateSignature(meetingNumber: Value, role: Value, clientId: string, nowMs: nat): (r: Result<UnsignedToken>)
    ensures !IsMeetingNumber(meetingNumber) ==> r == Err(MeetingNumberMessage)
    ensures IsMeetingNumber(meetingNumber) && !NumberIsZeroOrOne(role) ==> r == Err(RoleMessage)
    ensures r.Ok? <==> IsMeetingNumber(meetingNumber) && NumberIsZeroOrOne(role)
    ensures r.Ok? ==>
              var c := r.value.payload;
              && r.value.header == Hs256Header
              && c.appKey == clientId && c.mn == meetingNumber.s && c.role == role
              && c.exp - c.iat == Config.SignatureExpirationMinutes * 60
              && c.tokenExp == c.exp
              && c.iat * 1000 + 29500 <= nowMs < c.iat * 1000 + 30500
  {
    if !IsMeetingNumber(meetingNumber) then Err(MeetingNumberMessage)
    else if !NumberIsZeroOrOne(role) then Err(RoleMessage)
    else
      var iat := RoundToSeconds(nowMs) - BackdateSeconds;
      var exp := iat + Config.SignatureExpirationMinutes * 60;
      Ok(UnsignedToken(Hs256Header, Claims(clientId, meetingNumber.s, role, iat, exp, exp)))
  }

  /** A signature issued at `nowMs` is already valid at `nowMs` (`iat` lies strictly
      before it) and stays valid for more than 3569.5 seconds after it. */
  lemma SignatureWindowCoversNow(meetingNumber: Value, role: Value, clientId: string, nowMs: nat)
    requires GenerateSignature(meetingNumber, role, clientId, nowMs).Ok?
    ensures var c := GenerateSignature(meetingNumber, role, clientId, nowMs).value.payload;
            && c.iat * 1000 < nowMs
            && nowMs + 3569500 < c.exp * 1000
  {
  }

  // ---------------------------------------------------------------------------
  // getZAKToken

  const ZakPrefix := "ZAK token generation failed: "

  /** `getZAKToken()`: a cached or fresh access token, then one call to the ZAK endpoint
      (`zak`, given the bearer token it is sent) whose `token` field is returned. */
  function GetZakToken(s: TokenManager.TokenState, now: nat, exchange: TokenManager.Exchange,
                       zak: string -> Upstream.Reply<Value>): (r: TokenManager.Step<Value>)
    ensures var t := TokenManager.GetValidAccessToken(s, now, exchange);
            && r.state == t.state
            && (t.result.Err? ==> r.result == Err(ZakPrefix + t.result.message))
            && (t.result.Ok? && zak(t.result.value).Answered? ==> r.result == Ok(zak(t.result.value).data))
            && (t.result.Ok? && !zak(t.result.value).Answered? ==>
                  r.result == Err(ZakPrefix + Upstream.Reason("get ZAK token", zak(t.result.value))))
    ensures r.result.Err? ==> StartsWith(r.result.message, ZakPrefix)
  {
    var t := TokenManager.GetValidAccessToken(s, now, exchange);
    if t.result.Err? then TokenManager.Step(t.state, Err(ZakPrefix + t.result.message))
    else
      match zak(t.result.value)
      case Answered(token) => TokenManager.Step(t.state, Ok(token))
      case other => TokenManager.Step(t.state, Err(ZakPrefix + Upstream.Reason("get ZAK token", other)))
  }

  // ---------------------------------------------------------------------------
  // createRegistrant

  /** The `registrantData` argument. */
  datatype Registrant = Registrant(email: Value, firstName: Value, lastName: Value)

  /** A JSON object, as its keys and values in serialisation order. */
  type JsonObject = seq<(string, Value)>

  const MeetingIdMessage := "Meeting ID is required"
  const RegistrantFieldsMessage := "Email and first name are required for registration"
  const RegistrantPrefix := "Registrant creation failed: "

  /** The checks `createRegistrant` makes before its `try` block, and the request body
      it then sends. */
  function RegistrantBody(meetingId: Value, d: Registrant): (r: Result<JsonObject>)
    ensures !Truthy(meetingId) ==> r == Err(MeetingIdMessage)
    ensures Truthy(meetingId) && (!Truthy(d.email) || !Truthy(d.firstName)) ==> r == Err(RegistrantFieldsMessage)
    ensures r.Ok? <==> Truthy(meetingId) && Truthy(d.email) && Truthy(d.firstName)
    ensures r.Ok? ==>
              && |r.value| == 3
              && r.value[0] == ("email", d.email)
              && r.value[1] == ("first_name", d.firstName)
              && r.value[2].0 == "last_name"
              && (Truthy(d.lastName) ==> r.value[2].1 == d.lastName)
              && (!Truthy(d.lastName) ==> r.value[2].1 == Str(""))
  {
    if !Truthy(meetingId) then Err(MeetingIdMessage)
    else if !Truthy(d.email) || !Truthy(d.firstName) then Err(RegistrantFieldsMessage)
    else Ok([("email", d.email), ("first_name", d.firstName),
             ("last_name", if Truthy(d.lastName) then d.lastName else Str(""))])
  }

  /** What the registrants endpoint gives back: a reply as from every other call, or a
      2xx response whose body then fails to parse as JSON, with the parser's message. */
  datatype Registration = Replied(reply: Upstream.Reply<Value>) | CreatedUnparsable(error: string)

  /** The registrants endpoint: given the meeting id, the bearer token and the body. */
  type RegistrantsCall = (Value, string, JsonObject) -> Registration

  /** The steps inside the `try` block once the access token is known: the call, then
      either the parsed record or a failure to be prefixed. A parse failure of a 2xx body
      is left to the caller. */
  function RegistrantReply(state: TokenManager.TokenState, reply: Upstream.Reply<Value>): (r: TokenManager.Step<Value>)
    ensures r.state == state
    ensures reply.Answered? ==> r.result == Ok(reply.data)
    ensures !reply.Answered? ==> r.result == Err(RegistrantPrefix + Upstream.Reason("create registrant", reply))
  {
    match reply
    case Answered(record) => TokenManager.Step(state, Ok(record))
    case other => TokenManager.Step(state, Err(RegistrantPrefix + Upstream.Reason("create registrant", other)))
  }

  /** `createRegistrant(meetingId, registrantData)` with the evidently intended
      `return await response.json()`: validation errors are thrown as they are, before
      the cache is consulted; every failure inside the `try`, a 2xx body that does not
      parse included, is prefixed. */
  function CreateRegistrant(s: TokenManager.TokenState, now: nat, exchange: TokenManager.Exchange,
                            meetingId: Value, d: Registrant, registrants: RegistrantsCall): (r: TokenManager.Step<Value>)
    ensures RegistrantBody(meetingId, d).Err? ==> r == TokenManager.Step(s, RegistrantBody(meetingId, d).PropagateError())
    ensures RegistrantBody(meetingId, d).Ok? ==>
              var body := RegistrantBody(meetingId, d).value;
              var t := TokenManager.GetValidAccessToken(s, now, exchange);
              && r.state == t.state
              && (t.result.Err? ==> r.result == Err(RegistrantPrefix + t.result.message))
              && (t.result.Ok? ==>
                    var call := registrants(meetingId, t.result.value, body);
                    && (call.CreatedUnparsable? ==> r.result == Err(RegistrantPrefix + call.error))
                    && (call.Replied? && call.reply.Answered? ==> r.result == Ok(call.reply.data))
                    && (call.Replied? && !call.reply.Answered? ==>
                          r.result == Err(RegistrantPrefix + Upstream.Reason("create registrant", call.reply))))
    ensures r.result.Err? && RegistrantBody(meetingId, d).Ok? ==> StartsWith(r.result.message, RegistrantPrefix)
  {
    match RegistrantBody(meetingId, d)
    case Err(m) => TokenManager.Step(s, Err(m))
    case Ok(body) =>
      var t := TokenManager.GetValidAccessToken(s, now, exchange);
      if t.result.Err? then TokenManager.Step(t.state, Err(RegistrantPrefix + t.result.message))
      else
        match registrants(meetingId, t.result.value, body)
        case CreatedUnparsable(e) => TokenManager.Step(t.state, Err(RegistrantPrefix + e))
        case Replied(reply) => RegistrantReply(t.state, reply)
  }

  /** The registration reached a 2xx response whose body does not parse. */
  predicate ParseFailsAfterCreation(s: TokenManager.TokenState, now: nat, exchange: TokenManager.Exchange,
                                    meetingId: Value, d: Registrant, registrants: RegistrantsCall)
  {
    && RegistrantBody(meetingId, d).Ok?
    && TokenManager.GetValidAccessToken(s, now, exchange).result.Ok?
    && registrants(meetingId, TokenManager.GetValidAccessToken(s, now, exchange).result.value,
                   RegistrantBody(meetingId, d).value).CreatedUnparsable?
  }

  /** `createRegistrant` as written: `return response.json()` is not awaited, so a parse
      failure of a 2xx body rejects the returned promise after the `try` has been left and
      reaches the caller without the prefix. Every other outcome is the intended one. */
  function CreateRegistrantAsWritten(s: TokenManager.TokenState, now: nat, exchange: TokenManager.Exchange,
                                     meetingId: Value, d: Registrant, registrants: RegistrantsCall): (r: TokenManager.Step<Value>)
    ensures var c := CreateRegistrant(s, now, exchange, meetingId, d, registrants);
            && r.state == c.state
            && (!ParseFailsAfterCreation(s, now, exchange, meetingId, d, registrants) ==> r == c)
            && (ParseFailsAfterCreation(s, now, exchange, meetingId, d, registrants) ==>
                  && r.result == Err(registrants(meetingId, TokenManager.GetValidAccessToken(s, now, exchange).result.value,
                                                 RegistrantBody(meetingId, d).value).error)
                  && c.result == Err(RegistrantPrefix + r.result.message))
  {
    match RegistrantBody(meetingId, d)
    case Err(m) => TokenManager.Step(s, Err(m))
    case Ok(body) =>
      var t := TokenManager.GetValidAccessToken(s, now, exchange);
      if t.result.Err? then TokenManager.Step(t.state, Err(RegistrantPrefix + t.result.message))
      else
        match registrants(meetingId, t.result.value, body)
        case CreatedUnparsable(e) => TokenManager.Step(t.state, Err(e))
        case Replied(reply) => RegistrantReply(t.state, reply)
  }

  /** The discrepancy: a created registrant whose 2xx body does not parse is reported
      without the prefix as written, and with it once the parse is awaited. */
  lemma UnawaitedParseEscapesCatch(s: TokenManager.TokenState, now: nat)
    ensures var exchange := Upstream.Answered(TokenManager.Grant("tok", 3600));
            var d := Registrant(Str("a@b.co"), Str("A"), Undefined);
            var registrants := (_: Value, _: string, _: JsonObject) => CreatedUnparsable("invalid json response body");
            && CreateRegistrantAsWritten(s, now, exchange, Str("1"), d, registrants).result
                 == Err("invalid json response body")
            && CreateRegistrant(s, now, exchange, Str("1"), d, registrants).result
                 == Err(RegistrantPrefix + "invalid json response body")
  {
    var exchange := Upstream.Answered(TokenManager.Grant("tok", 3600));
    var d := Registrant(Str("a@b.co"), Str("A"), Undefined);
    assert RegistrantBody(Str("1"), d).Ok?;
    var t := TokenManager.GetValidAccessToken(s, now, exchange);
    assert t.result.Ok?;
  }

  // ---------------------------------------------------------------------------
  // getUser

  /** The current-user fetch: either it threw, or a response arrived with a
      `content-type` header (`None` when absent, as `headers.get` returns `null`) and a
      body outcome. */
  datatype UserFetch = NoResponse(error: string) | Response(contentType: Option<string>, body: Upstream.Reply<string>)

  const UserPrefix := "Get user failed: "
  const JsonMediaType := "application/json"
  const NonJsonMessage := "Received non-JSON response from Zoom API"
  /** What V8 throws for `null.includes(...)`. */
  const NullIncludesMessage := "Cannot read properties of null (reading 'includes')"

  /** The steps after the content-type guard: the `ok` check and the text body. */
  function UserBody(body: Upstream.Reply<string>): (r: Result<string>)
    ensures body.Answered? ==> r == Ok(body.data)
    ensures !body.Answered? ==> r == Err(UserPrefix + Upstream.Reason("get user", body))
  {
    match body
    case Answered(text) => Ok(text)
    case other => Err(UserPrefix + Upstream.Reason("get user", other))
  }

  /** `getUser(accessToken)` as written: the guard `contentType || !contentType.includes(...)`
      holds for every non-null content type and throws on a null one, so the call never
      returns normally. */
  function GetUserAsWritten(accessToken: Value, fetch: Value -> UserFetch): (r: Result<string>)
    ensures r.Err?
    ensures StartsWith(r.message, UserPrefix)
  {
    match fetch(accessToken)
    case NoResponse(e) => Err(UserPrefix + e)
    case Response(contentType, body) =>
      if contentType.None? then Err(UserPrefix + NullIncludesMessage)
      else if contentType.value != "" || !Includes(contentType.value, JsonMediaType) then Err(UserPrefix + NonJsonMessage)
      else UserBody(body)
  }

  /** `getUser(accessToken)` with the evidently intended guard
      `!contentType || !contentType.includes('application/json')`: a JSON 2xx response
      yields its text body. */
  function GetUser(accessToken: Value, fetch: Value -> UserFetch): (r: Result<string>)
    ensures r.Ok? <==>
              && fetch(accessToken).Response?
              && fetch(accessToken).contentType.Some?
              && Includes(fetch(accessToken).contentType.value, JsonMediaType)
              && fetch(accessToken).body.Answered?
    ensures r.Ok? ==> r.value == fetch(accessToken).body.data
    ensures r.Err? ==> StartsWith(r.message, UserPrefix)
  {
    match fetch(accessToken)
    case NoResponse(e) => Err(UserPrefix + e)
    case Response(contentType, body) =>
      if contentType.None? || !Includes(contentType.value, JsonMediaType) then Err(UserPrefix + NonJsonMessage)
      else UserBody(body)
  }

  /** The discrepancy: a 2xx JSON response is rejected as written and accepted by the
      intended guard. */
  lemma GetUserGuardRejectsJson(accessToken: Value)
    ensures var fetch := (_: Value) => Response(Some(JsonMediaType), Upstream.Answered("{}"));
            && GetUserAsWritten(accessToken, fetch) == Err(UserPrefix + NonJsonMessage)
            && GetUser(accessToken, fetch) == Ok("{}")
  {
    assert JsonMediaType <= JsonMediaType[0..];
  }
}
