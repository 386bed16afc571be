/** The request pipeline: the authentication gate applied to every request, then the
    router under `/api/zoom/`, where the signature and registrant routes run their
    validator before the handler. The clock, the upstream calls and the token decoder
    are the `World` the request meets. */
module Routes {
  import opened Outcomes
  import opened Js
  import opened Http
  import Upstream
  import TokenManager
  import ZoomService
  import ZoomValidation
  import Auth
  import Controller

  datatype Method = Get | Post

  /** The body fields any route reads; absent ones are `Undefined`. */
  datatype Body = Body(meetingNumber: Value, role: Value, meetingId: Value, email: Value,
                       firstName: Value, lastName: Value, accessToken: Value)

  datatype Request = Request(verb: Method, path: string, authorization: Option<string>, body: Body)

  /** Everything outside the process a request depends on. */
  datatype World = World(
    now: nat,
    exchange: TokenManager.Exchange,
    clientId: string,
    decode: string -> Auth.Decoding,
    zak: string -> Upstream.Reply<Value>,
    registrants: ZoomService.RegistrantsCall,
    userFetch: Value -> ZoomService.UserFetch)

  const HealthMessage := "Zoom SDK Backend API is running"

  function SignatureFormOf(b: Body): SignatureForm
  {
    SignatureForm(b.meetingNumber, b.role)
  }

  function RegistrantFormOf(b: Body): RegistrantForm
  {
    RegistrantForm(b.meetingId, b.email, b.firstName, b.lastName)
  }

  /** The routes of the router. */
  datatype Endpoint = Health | AccessToken | User | Signature | Zak | Registrant

  /** The endpoint a method and path reach; `None` when no modelled route matches. */
  function RouteOf(verb: Method, path: string): Option<Endpoint>
  {
    match (verb, path)
    case (Get, "/api/zoom") => Some(Health)
    case (Get, "/api/zoom/") => Some(Health)
    case (Post, "/api/zoom/access-token") => Some(AccessToken)
    case (Get, "/api/zoom/get-user") => Some(User)
    case (Post, "/api/zoom/signature") => Some(Signature)
    case (Post, "/api/zoom/zak") => Some(Zak)
    case (Post, "/api/zoom/registrant") => Some(Registrant)
    case _ => None
  }

  /** The handler chain of one endpoint: the signature and registrant routes run their
      validator first. */
  function Handle(e: Endpoint, s: TokenManager.TokenState, b: Body, w: World): Controller.Handled
  {
    match e
    case Health => Controller.Handled(s, Response(200, Envelope(true, HealthMessage, NoData, None)))
    case AccessToken => Controller.GetAccessToken(s, w.now, w.exchange)
    case User => Controller.Handled(s, Controller.GetUser(ZoomService.GetUser(b.accessToken, w.userFetch)))
    case Signature =>
      var gate := ZoomValidation.ValidateSignature(SignatureFormOf(b));
      if gate.Halt? then Controller.Handled(s, gate.response)
      else Controller.Handled(s, Controller.GetSignature(SignatureFormOf(b), w.clientId, w.now))
    case Zak => Controller.GetZakToken(s, w.now, w.exchange, w.zak)
    case Registrant =>
      var gate := ZoomValidation.ValidateRegistrant(RegistrantFormOf(b));
      if gate.Halt? then Controller.Handled(s, gate.response)
      else Controller.GetRegistrantToken(RegistrantFormOf(b), s, w.now, w.exchange, w.registrants)
  }

  function Dispatch(s: TokenManager.TokenState, req: Request, w: World): Option<Controller.Handled>
  {
    match RouteOf(req.verb, req.path)
    case None => None
    case Some(e) => Some(Handle(e, s, req.body, w))
  }

  /** One request through the gate and the router. */
  function Serve(s: TokenManager.TokenState, req: Request, w: World): (r: Option<Controller.Handled>)
    ensures Auth.Authenticate(req.path, req.authorization, w.decode).Halt? ==>
              r == Some(Controller.Handled(s, Auth.Authenticate(req.path, req.authorization, w.decode).response))
    ensures Auth.Authenticate(req.path, req.authorization, w.decode) == Next ==> r == Dispatch(s, req, w)
  {
    match Auth.Authenticate(req.path, req.authorization, w.decode)
    case Halt(resp) => Some(Controller.Handled(s, resp))
    case Next => Dispatch(s, req, w)
  }

  /** Over the modelled values, the signature route never answers 500: the validator has
      already excluded every role the signer would refuse, and its only other refusal
      mentions "required".
      It answers 200 exactly for a string meeting number with a truthy role whose
      numeric value is 0 or 1, so never for the attendee role 0 itself, nor for `""`. */
  lemma SignatureRouteOutcomes(s: TokenManager.TokenState, auth: Option<string>, b: Body, w: World)
    ensures var r := Serve(s, Request(Post, "/api/zoom/signature", auth, b), w);
            && r.Some? && r.value.state == s
            && (r.value.response.status == 200 || r.value.response.status == 400)
            && (r.value.response.status == 200 <==>
                  ZoomService.IsMeetingNumber(b.meetingNumber) && Truthy(b.role) && NumberIsZeroOrOne(b.role))
  {
    Controller.MeetingNumberMessageIsRequired();
  }

  /** A signature request with role 0 passes the validator and is refused by the
      handler's own guard with 400. */
  lemma AttendeeSignatureRefused(s: TokenManager.TokenState, b: Body, w: World)
    requires b.meetingNumber == Str("123456789") && b.role == Num(0)
    ensures ZoomValidation.ValidateSignature(SignatureFormOf(b)) == Next
    ensures Serve(s, Request(Post, "/api/zoom/signature", None, b), w) ==
              Some(Controller.Handled(s, Rejection(400, Controller.SignatureGuardMessage)))
  {
  }

  /** The user route without an Authorization header is refused with 401. */
  lemma UserRouteNeedsHeader(s: TokenManager.TokenState, b: Body, w: World)
    ensures Serve(s, Request(Get, "/api/zoom/get-user", None, b), w) ==
              Some(Controller.Handled(s, Rejection(401, Auth.RequiredMessage)))
  {
  }

  lemma BadEmailIsNotAnEmail()
    ensures !ZoomValidation.EmailFormatOk(Str("bad-email"))
  {
    var e := "bad-email";
    assert forall k :: 0 <= k < |e| ==> e[k] != '@';
  }

  lemma BearerHeaderPassesGate(path: string, w: World)
    requires path !in Auth.PublicPaths && w.decode("t") == Auth.Decoded
    ensures Auth.Authenticate(path, Some("Bearer t"), w.decode) == Next
  {
    Auth.SchemeNeverChecked("Bearer", "t");
  }

  lemma BadEmailValidator(b: Body)
    requires b.meetingId == Str("123") && b.email == Str("bad-email") && b.firstName == Str("A")
    ensures ZoomValidation.ValidateRegistrant(RegistrantFormOf(b)) == Halt(Rejection(400, ZoomValidation.EmailFormatMessage))
  {
    BadEmailIsNotAnEmail();
  }

  /** A registrant request with a malformed email is refused with 400 before any
      token is fetched. */
  lemma BadEmailRefused(s: TokenManager.TokenState, b: Body, w: World)
    requires b.meetingId == Str("123") && b.email == Str("bad-email") && b.firstName == Str("A")
    requires w.decode("t") == Auth.Decoded
    ensures Serve(s, Request(Post, "/api/zoom/registrant", Some("Bearer t"), b), w) ==
              Some(Controller.Handled(s, Rejection(400, ZoomValidation.EmailFormatMessage)))
  {
    var req := Request(Post, "/api/zoom/registrant", Some("Bearer t"), b);
    assert "/api/zoom/registrant" !in Auth.PublicPaths;
    BearerHeaderPassesGate(req.path, w);
    RegistrantRouteDispatch(s, req, w);
    BadEmailValidator(b);
    RegistrantValidatorHalts(s, b, w);
  }

  lemma RegistrantRouteDispatch(s: TokenManager.TokenState, req: Request, w: World)
    requires req.verb == Post && req.path == "/api/zoom/registrant"
    ensures Dispatch(s, req, w) == Some(Handle(Registrant, s, req.body, w))
  {
    assert RouteOf(req.verb, req.path) == Some(Registrant);
  }

  lemma RegistrantValidatorHalts(s: TokenManager.TokenState, b: Body, w: World)
    requires ZoomValidation.ValidateRegistrant(RegistrantFormOf(b)).Halt?
    ensures Handle(Registrant, s, b, w) ==
              Controller.Handled(s, ZoomValidation.ValidateRegistrant(RegistrantFormOf(b)).response)
  {
  }

  /** Past the registrant validator, the service's own field checks always pass, so
      their messages are never seen on this route. */
  lemma RegistrantValidatorSubsumesService(f: RegistrantForm)
    requires ZoomValidation.ValidateRegistrant(f) == Next
    ensures ZoomService.RegistrantBody(f.meetingId, ZoomService.Registrant(f.email, f.firstName, f.lastName)).Ok?
  {
  }
}
