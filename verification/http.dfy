/** Request bodies and the JSON response envelope shared by the middleware, the
    validators and the controller. */
module Http {
  import opened Outcomes
  import opened Js
  import ZoomService

  /** The fields the signature route reads from `req.body` (`Undefined` when absent). */
  datatype SignatureForm = SignatureForm(meetingNumber: Value, role: Value)

  /** The fields the registrant route reads from `req.body`. */
  datatype RegistrantForm = RegistrantForm(meetingId: Value, email: Value, firstName: Value, lastName: Value)

  /** The `data` member of a success envelope. */
  datatype Data =
    | NoData
    | AccessTokenData(accessToken: string)
    | SignatureData(signature: ZoomService.UnsignedToken)
    | TokenData(token: Value)
    | RecordData(record: Value)
    | UserData(user: string)

  /** `{success, message, data?, error?}` */
  datatype Envelope = Envelope(success: bool, message: string, data: Data, error: Option<string>)

  datatype Response = Response(status: int, body: Envelope)

  /** What a middleware does with a request: pass it on with `next()`, or answer it. */
  datatype Gate = Next | Halt(response: Response)

  /** `res.status(status).json({ success: false, message })` */
  function Rejection(status: int, message: string): (r: Response)
    ensures r.status == status && !r.body.success && r.body.message == message
    ensures r.body.data == NoData && r.body.error == None
  {
    Response(status, Envelope(false, message, NoData, None))
  }
}
