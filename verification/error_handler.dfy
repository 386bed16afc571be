/** The application error type and the last-resort error middleware, which picks the
    response from the `NODE_ENV` setting and the error object. */
module ErrorHandler {
  import opened Outcomes
  import opened Js

  /** An error object as the handler reads it. `statusCode` and `status` are whatever
      the thrower set (`Undefined` when absent); `stack` is the captured stack text. */
  datatype ErrorObject = ErrorObject(message: string, statusCode: Value, status: Value, isOperational: bool, stack: string)

  const DevelopmentEnv := "development"
  const GenericMessage := "Something went wrong!"

  /** `new AppError(message, statusCode)`; the stack trace is an input. */
  function NewAppError(message: string, statusCode: Value, stack: string): (e: ErrorObject)
    ensures e.message == message && e.statusCode == statusCode && e.stack == stack
    ensures e.isOperational
    ensures e.status == Str("fail") <==> StartsWith(ToText(statusCode), "4")
    ensures e.status == Str("fail") || e.status == Str("error")
  {
    ErrorObject(message, statusCode, Str(if StartsWith(ToText(statusCode), "4") then "fail" else "error"),
                true, stack)
  }

  /** For a three-digit status code, `AppError` reports `'fail'` exactly for 4xx codes. */
  lemma AppErrorFailsExactlyFor4xx(message: string, code: int, stack: string)
    requires 100 <= code <= 999
    ensures NewAppError(message, Num(code), stack).status == Str("fail") <==> 400 <= code < 500
  {
    var t := ToText(Num(code));
    assert t == NatText(code / 10) + [DigitChar(code % 10)];
    assert NatText(code / 10) == NatText(code / 100) + [DigitChar((code / 10) % 10)];
    assert NatText(code / 100) == [DigitChar(code / 100)];
    assert t[0] == DigitChar(code / 100);
    assert StartsWith(t, "4") <==> t[0] == '4';
  }

  /** The body the handler sends; `error` and `stack` appear only in development. */
  datatype ErrorBody = ErrorBody(success: bool, status: Value, message: string,
                                 error: Option<ErrorObject>, stack: Option<string>)

  datatype ErrorResponse = ErrorResponse(statusCode: Value, body: ErrorBody)

  /** `errorHandler(err, ...)` with `process.env.NODE_ENV` as `nodeEnv`: the status code
      defaults to 500 and the status to `'error'` when falsy. */
  function HandleError(nodeEnv: Option<string>, err: ErrorObject): (r: ErrorResponse)
    ensures !r.body.success
    ensures var code := if Truthy(err.statusCode) then err.statusCode else Num(500);
            var status := if Truthy(err.status) then err.status else Str("error");
            && (nodeEnv == Some(DevelopmentEnv) ==>
                  && r.statusCode == code && r.body.status == status && r.body.message == err.message
                  && r.body.stack == Some(err.stack)
                  && r.body.error == Some(err.(statusCode := code, status := status)))
            && (nodeEnv != Some(DevelopmentEnv) && err.isOperational ==>
                  r == ErrorResponse(code, ErrorBody(false, status, err.message, None, None)))
            && (nodeEnv != Some(DevelopmentEnv) && !err.isOperational ==>
                  r == ErrorResponse(Num(500), ErrorBody(false, Str("error"), GenericMessage, None, None)))
    ensures nodeEnv != Some(DevelopmentEnv) ==> r.body.stack == None && r.body.error == None
  {
    var code := if Truthy(err.statusCode) then err.statusCode else Num(500);
    var status := if Truthy(err.status) then err.status else Str("error");
    var normalised := err.(statusCode := code, status := status);
    if nodeEnv == Some(DevelopmentEnv) then
      ErrorResponse(code, ErrorBody(false, status, err.message, Some(normalised), Some(err.stack)))
    else if err.isOperational then
      ErrorResponse(code, ErrorBody(false, status, err.message, None, None))
    else
      ErrorResponse(Num(500), ErrorBody(false, Str("error"), GenericMessage, None, None))
  }

  /** In production, nothing about a non-operational error reaches the client: any two
      such errors get the same response. */
  lemma NonOperationalErrorsLookAlike(nodeEnv: Option<string>, e1: ErrorObject, e2: ErrorObject)
    requires nodeEnv != Some(DevelopmentEnv) && !e1.isOperational && !e2.isOperational
    ensures HandleError(nodeEnv, e1) == HandleError(nodeEnv, e2)
  {
  }

  /** In production an `AppError` with a 4xx code is answered with that code, `'fail'`
      and its message; with `NODE_ENV` unset the handler is in production mode. */
  lemma AppErrorInProduction(nodeEnv: Option<string>, message: string, code: int, stack: string)
    requires nodeEnv != Some(DevelopmentEnv) && 400 <= code < 500
    ensures HandleError(nodeEnv, NewAppError(message, Num(code), stack)) ==
              ErrorResponse(Num(code), ErrorBody(false, Str("fail"), message, None, None))
  {
    AppErrorFailsExactlyFor4xx(message, code, stack);
  }
}
