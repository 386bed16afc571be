/** The route handlers: each calls one service operation and maps its outcome to a
    status code and a `{success, message, data | error}` envelope. */
module Controller {
  import opened Outcomes
  import opened Js
  import opened Http
  import Upstream
  import TokenManager
  import ZoomService

  /** A handler's answer and the token cache state it leaves behind. */
  datatype Handled = Handled(state: TokenManager.TokenState, response: Response)

  const SignatureGuardMessage := "Meeting number and role are required"

  /** `res.status(200).json({ success: true, message, data })` */
  function Success(message: string, data: Data): (r: Response)
    ensures r.status == 200 && r.body.success && r.body.data == data && r.body.error == None
  {
    Response(200, Envelope(true, message, data, None))
  }

  /** `res.status(status).json({ success: false, message, error })` */
  function Failure(status: int, message: string, error: string): (r: Response)
    ensures r.status == status && !r.body.success && r.body.data == NoData && r.body.error == Some(error)
  {
    Response(status, Envelope(false, message, NoData, Some(error)))
  }

  /** `error.message.includes('required') ? 400 : 500` */
  function FailureStatus(message: string): (status: int)
    ensures status == 400 <==> Includes(message, "required")
    ensures status == 400 || status == 500
  {
    if Includes(message, "required") then 400 else 500
  }

  /** `getAccessToken` */
  function GetAccessToken(s: TokenManager.TokenState, now: nat, exchange: TokenManager.Exchange): (r: Handled)
    ensures var t := TokenManager.GetValidAccessToken(s, now, exchange);
            && r.state == t.state
            && (r.response.status == 200 <==> t.result.Ok?)
            && (r.response.status == 500 <==> t.result.Err?)
            && (r.response.body.success <==> t.result.Ok?)
            && (t.result.Ok? ==> r.response.body.data == AccessTokenData(t.result.value))
            && (t.result.Err? ==> r.response.body.error == Some(t.result.message))
  {
    var t := TokenManager.GetValidAccessToken(s, now, exchange);
    match t.result
    case Ok(token) => Handled(t.state, Success("Access token generated successfully", AccessTokenData(token)))
    case Err(m) => Handled(t.state, Failure(500, "Failed to generate access token", m))
  }

  /** `getUser`, given the outcome of `zoomService.getUser(req.body.accessToken)`: the
      bearer token sent upstream is the body's `accessToken`, not the Authorization
      header. */
  function GetUser(user: Result<string>): (r: Response)
    ensures r.status == 200 <==> user.Ok?
    ensures r.status == 500 <==> user.Err?
    ensures r.body.success <==> user.Ok?
    ensures user.Ok? ==> r.body.data == UserData(user.value)
    ensures user.Err? ==> r.body.error == Some(user.message)
  {
    match user
    case Ok(text) => Success("User data retrieved successfully", UserData(text))
    case Err(m) => Failure(500, "Failed to retrieve user data", m)
  }

  /** With `getUser` as written, the handler answers 500 for every upstream outcome,
      and its error always carries the service's prefix. */
  lemma UserHandlerAsWrittenAlwaysFails(accessToken: Value, fetch: Value -> ZoomService.UserFetch)
    ensures var r := GetUser(ZoomService.GetUserAsWritten(accessToken, fetch));
            && r.status == 500 && !r.body.success
            && r.body.error.Some? && StartsWith(r.body.error.value, ZoomService.UserPrefix)
  {
  }

  /** `getSignature`: its own guard rejects a falsy `meetingNumber` or `role` (so role 0)
      before the signature is generated. */
  function GetSignature(f: SignatureForm, clientId: string, nowMs: nat): (r: Response)
    ensures !Truthy(f.meetingNumber) || !Truthy(f.role) ==> r == Rejection(400, SignatureGuardMessage)
    ensures Truthy(f.meetingNumber) && Truthy(f.role) ==>
              var g := ZoomService.GenerateSignature(f.meetingNumber, f.role, clientId, nowMs);
              && (r.body.success <==> g.Ok?)
              && (g.Ok? ==> r.status == 200 && r.body.data == SignatureData(g.value))
              && (g.Err? ==> r.status == FailureStatus(g.message) && r.body.error == Some(g.message))
  {
    if !Truthy(f.meetingNumber) || !Truthy(f.role) then Rejection(400, SignatureGuardMessage)
    else
      match ZoomService.GenerateSignature(f.meetingNumber, f.role, clientId, nowMs)
      case Ok(signature) => Success("Signature generated successfully", SignatureData(signature))
      case Err(m) => Failure(FailureStatus(m), "Failed to generate signature", m)
  }

  /** `m.includes('required')`, shown by the offset at which the word starts. */
  lemma RequiredAt(m: string, k: nat)
    requires k <= |m| && "required" <= m[k..]
    ensures Includes(m, "required")
  {
  }

  lemma MeetingNumberMessageIsRequired()
    ensures Includes(ZoomService.MeetingNumberMessage, "required")
  {
    RequiredAt(ZoomService.MeetingNumberMessage, |"Meeting number is "|);
  }

  lemma RoleMessageIsNotRequired()
    ensures !Includes(ZoomService.RoleMessage, "required")
  {
    var m := ZoomService.RoleMessage;
    forall i | 0 <= i <= |m|
      ensures !("required" <= m[i..])
    {
      if i + 8 <= |m| {
        assert m[i..][0] == m[i];
        assert m[i] != 'r';
      }
    }
  }

  /** The status `getSignature` answers for a request past its guard, by cause:
      200 for a string meeting number and a role of 0 or 1, 400 for a meeting number
      that is not a string, 500 for a bad role. */
  lemma SignatureStatusByCause(f: SignatureForm, clientId: string, nowMs: nat)
    requires Truthy(f.meetingNumber) && Truthy(f.role)
    ensures var r := GetSignature(f, clientId, nowMs);
            && (r.status == 200 <==> ZoomService.IsMeetingNumber(f.meetingNumber) && NumberIsZeroOrOne(f.role))
            && (r.status == 400 <==> !ZoomService.IsMeetingNumber(f.meetingNumber))
            && (r.status == 500 <==> ZoomService.IsMeetingNumber(f.meetingNumber) && !NumberIsZeroOrOne(f.role))
  {
    MeetingNumberMessageIsRequired();
    RoleMessageIsNotRequired();
  }

  /** `getZAKToken` */
  function GetZakToken(s: TokenManager.TokenState, now: nat, exchange: TokenManager.Exchange,
                       zak: string -> Upstream.Reply<Value>): (r: Handled)
    ensures var z := ZoomService.GetZakToken(s, now, exchange, zak);
            && r.state == z.state
            && (r.response.status == 200 <==> z.result.Ok?)
            && (r.response.status == 500 <==> z.result.Err?)
            && (r.response.body.success <==> z.result.Ok?)
            && (z.result.Ok? ==> r.response.body.data == TokenData(z.result.value))
            && (z.result.Err? ==> r.response.body.error == Some(z.result.message))
  {
    var z := ZoomService.GetZakToken(s, now, exchange, zak);
    match z.result
    case Ok(token) => Handled(z.state, Success("ZAK token generated successfully", TokenData(token)))
    case Err(m) => Handled(z.state, Failure(500, "Failed to generate ZAK token", m))
  }

  /** `getRegistrantToken`: the body fields are forwarded unchanged. */
  function GetRegistrantToken(f: RegistrantForm, s: TokenManager.TokenState, now: nat,
                              exchange: TokenManager.Exchange, registrants: ZoomService.RegistrantsCall): (r: Handled)
    ensures var c := ZoomService.CreateRegistrant(s, now, exchange, f.meetingId,
                                                  ZoomService.Registrant(f.email, f.firstName, f.lastName), registrants);
            && r.state == c.state
            && (r.response.body.success <==> c.result.Ok?)
            && (c.result.Ok? ==> r.response.status == 200 && r.response.body.data == RecordData(c.result.value))
            && (c.result.Err? ==> r.response.status == FailureStatus(c.result.message)
                                  && r.response.body.error == Some(c.result.message))
  {
    var c := ZoomService.CreateRegistrant(s, now, exchange, f.meetingId,
                                          ZoomService.Registrant(f.email, f.firstName, f.lastName), registrants);
    match c.result
    case Ok(record) => Handled(c.state, Success("Registrant created successfully", RecordData(record)))
    case Err(m) => Handled(c.state, Failure(FailureStatus(m), "Failed to create registrant", m))
  }

  /** A registrant request missing its meeting id, email or first name is answered 400
      without touching the token cache. */
  lemma RegistrantMissingFieldIs400(f: RegistrantForm, s: TokenManager.TokenState, now: nat,
                                    exchange: TokenManager.Exchange, registrants: ZoomService.RegistrantsCall)
    requires !Truthy(f.meetingId) || !Truthy(f.email) || !Truthy(f.firstName)
    ensures var r := GetRegistrantToken(f, s, now, exchange, registrants);
            r.state == s && r.response.status == 400 && !r.response.body.success
  {
    RequiredAt(ZoomService.MeetingIdMessage, |"Meeting ID is "|);
    RequiredAt(ZoomService.RegistrantFieldsMessage, |"Email and first name are "|);
  }
}
