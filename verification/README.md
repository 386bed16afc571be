# Zoom SDK backend gateway — a Dafny model

This project models the decision logic of a small Express gateway in front of the Zoom API.
The gateway exchanges account credentials for a cached access token. It builds the claim set
of per-meeting SDK signatures. It forwards the ZAK-token, registrant and current-user calls.
In front of all this sit an authentication gate, two request validators and an error
handler. Each piece is a pure function of its inputs:

- the token cache is a two-field record `{accessToken, expiresAt}`, threaded through
  `GetValidAccessToken`, `RefreshAccessToken` and `ClearToken`;
- the clock is a natural number of milliseconds;
- the credential exchange is an input of type `Upstream.Reply<Grant>`;
- the ZAK, registrant and user endpoints, and `jwt.decode`, are function parameters;
- JavaScript values read from request bodies are `Js.Value`, with truthiness, `Number(...)`,
  `String(...)`, `includes` and `split` spelled out in module `Js`.

Modules follow the source files:

| module | source |
|---|---|
| `Config` | src/config/config.js |
| `TokenManager` | src/services/tokenManager.js |
| `ZoomService` | src/services/zoomService.js |
| `ZoomValidation` | src/middleware/validation/zoomValidation.js |
| `Auth` | src/Middlerware/middleware.js |
| `Controller` | src/Controller/controller.js |
| `ErrorHandler` | src/middleware/errorHandler.js |
| `Routes` | src/Router/router.js with the middleware order of app.js |

`Outcomes`, `Js`, `Upstream` and `Http` hold the shared types.

## Behaviour of the code worth knowing

- Token refreshes are not coalesced. The cache keeps no in-flight marker, so two requests
  that find it stale each run their own exchange.
- A failed exchange keeps the previous state. The token and expiry are assigned only after
  a 2xx reply has been read (`TokenManager.RefreshAccessToken`).
- `POST /signature` with role 0 passes the validator, whose `Number(role)` check accepts
  0, and is then refused with 400 by the handler's `!role` guard
  (`Routes.AttendeeSignatureRefused`).
- `getUser` fails on every response, not only on non-JSON ones (see Findings).

## Model

| member | source | states |
|---|---|---|
| `Config.FirstMissing` | src/config/config.js:18-22 | the first required variable in list order that is unset or empty, or none exactly when all are set |
| `Config.Load` | src/config/config.js:8-43 | loading fails exactly when a required variable is missing, naming the first one; otherwise the zoom fields are the environment values verbatim, the origins split on ',' join back to `ALLOWED_ORIGINS`, port defaults to 5000 and env to 'development', and the constants are 60 minutes, 900000 ms and 100 |
| `Js.JoinSplit` | src/config/config.js:31 | splitting on a separator loses nothing: the fields join back to the original text and none contains the separator |
| `Js.SplitJoin` | src/config/config.js:31 | splitting undoes joining for any non-empty list of separator-free fields |
| `Js.RoleTextAccepted` | src/middleware/validation/zoomValidation.js:16 | `[0,1].includes(Number(s))` holds for a string exactly when its trimmed text is empty, all zeros, or zeros followed by one '1' |
| `Js.SingletonArrayText` | src/middleware/validation/zoomValidation.js:54 | `String([])` is empty and a one-element array reads as its element, as the comma-join of `String(array)` gives |
| `Js.ArrayRoleTextAccepted` | src/middleware/validation/zoomValidation.js:16 | `[0,1].includes(Number(a))` holds for an array exactly when its comma-joined text is a string that check accepts |
| `Js.NumberOfText` | src/middleware/errorHandler.js:5 | reading back the decimal text of a non-negative integer gives the integer |
| `TokenManager.GetValidAccessToken` | src/services/tokenManager.js:10-15 | a servable cache is returned unchanged with its token; otherwise the result is a refresh; a returned token is always the one left cached |
| `TokenManager.CachedExactlyWhenServable` | src/services/tokenManager.js:11-14 | the outcome ignores the exchange (no exchange needed) exactly when the token and expiry are truthy and now < expiresAt |
| `TokenManager.RefreshAccessToken` | src/services/tokenManager.js:17-47 | success exactly for a 2xx reply, storing the token with expiry now + (expires_in − 300)·1000 and returning it; any failure leaves the state unchanged and throws 'Token refresh failed: ' + the inner message |
| `TokenManager.GrantServedUntilMargin` | src/services/tokenManager.js:39-41 | a non-empty token granted for more than 300 s is servable at a later instant exactly while it is before now + (expires_in − 300)·1000 |
| `TokenManager.ShortGrantRefreshesAgain` | src/services/tokenManager.js:41 | a grant with expires_in ≤ 300 is stored already stale, whatever was cached before, so every later call refreshes again |
| `TokenManager.ClearToken` | src/services/tokenManager.js:49-52 | both fields become null and the cleared cache is servable at no instant |
| `TokenManager.NoTokenIsInvented` | src/services/tokenManager.js:5-8 | from a new instance, every token any sequence of calls and clears returns was granted by one of its exchanges |
| `TokenManager.RunTokensComeFromGrants` | src/services/tokenManager.js:10-52 | along any run, the cached and returned tokens are the initially cached one or granted by the run's exchanges |
| `ZoomService.RoundToSeconds` | src/services/zoomService.js:16 | `Math.round(ms/1000)` is the whole second within half a second of ms, halves rounded up |
| `ZoomService.GenerateSignature` | src/services/zoomService.js:7-33 | a falsy or non-string meeting number is refused first, then a role whose Number is not 0 or 1; valid input gives header HS256/JWT, appKey = client id, mn = meeting number, role as passed, exp − iat = 3600, tokenExp = exp, and iat·1000 + 29500 ≤ now < iat·1000 + 30500 |
| `ZoomService.SignatureWindowCoversNow` | src/services/zoomService.js:16-17 | an issued signature has iat strictly before now and expires more than 3569.5 s after now |
| `ZoomService.GetZakToken` | src/services/zoomService.js:35-57 | the cache step's state is kept; the token field is returned for a 2xx reply; a refresh or upstream failure is thrown with the 'ZAK token generation failed: ' prefix and 'Failed to get ZAK token: ' + message or 'Unknown error' |
| `ZoomService.RegistrantBody` | src/services/zoomService.js:59-81 | 'Meeting ID is required' for a falsy meeting id, then 'Email and first name are required for registration'; otherwise the body is email, first_name and last_name (the last name when truthy, else '') |
| `ZoomService.CreateRegistrant` | src/services/zoomService.js:59-93 | with the parse of the 2xx body awaited: a validation error is thrown unwrapped with the cache untouched; otherwise the body goes out with the cached token, the reply JSON is returned, and every failure inside the `try`, an unparsable 2xx body included, gets the 'Registrant creation failed: ' prefix |
| `ZoomService.CreateRegistrantAsWritten` | src/services/zoomService.js:84-92 | as written, an unparsable 2xx body is thrown with the parser's own message and no prefix; every other outcome, and the cache state, agree with `ZoomService.CreateRegistrant` |
| `ZoomService.UnawaitedParseEscapesCatch` | src/services/zoomService.js:89 | a created registrant whose 2xx body does not parse is reported as 'invalid json response body' as written and with the prefix once awaited |
| `ZoomService.UserBody` | src/services/zoomService.js:120-128 | a 2xx reply yields its text; a non-2xx reply throws 'Get user failed: Failed to get user: ' + message or 'Unknown error' |
| `ZoomService.GetUserAsWritten` | src/services/zoomService.js:95-133 | as written, getUser never returns normally, and its message always starts with 'Get user failed: ' |
| `ZoomService.GetUser` | src/services/zoomService.js:113-118 | with the intended guard, getUser succeeds exactly for a 2xx reply whose content type includes application/json, returning its text |
| `ZoomService.GetUserGuardRejectsJson` | src/services/zoomService.js:114 | a 2xx application/json reply is refused as non-JSON as written and accepted with the intended guard |
| `ZoomValidation.ValidateSignature` | src/middleware/validation/zoomValidation.js:1-26 | passes exactly when the meeting number is truthy and Number(role) is 0 or 1; a falsy meeting number is reported first; every refusal is 400 with success false |
| `ZoomValidation.RolesAccepted` | src/middleware/validation/zoomValidation.js:16-22 | roles accepted by kind: numbers exactly 0 and 1, null and both booleans always, undefined and plain objects never, strings as `Js.RoleTextAccepted`, arrays as `Js.RoleTextAccepted` of their text |
| `ZoomValidation.EmailPatternIff` | src/middleware/validation/zoomValidation.js:53-54 | the email regex matches exactly the strings with no whitespace, one '@' with a non-empty part before it, and a '.' inside the part after it |
| `ZoomValidation.EmailShapeFromPattern` | src/middleware/validation/zoomValidation.js:53 | a regex match has no whitespace, its first '@' is its only one, and a dot lies strictly inside the domain |
| `ZoomValidation.EmailPatternFromShape` | src/middleware/validation/zoomValidation.js:53 | a string of that shape matches the regex |
| `ZoomValidation.OnlyStringsAndArraysPassEmailFormat` | src/middleware/validation/zoomValidation.js:54 | an email passing the format test after coercion to text is a string or an array |
| `ZoomValidation.ArrayEmailReadsAsItsElement` | src/middleware/validation/zoomValidation.js:54 | an array holding one string passes the format test exactly when the string does |
| `ZoomValidation.ValidateRegistrant` | src/middleware/validation/zoomValidation.js:28-62 | checks meeting id, email, first name, then email format, in that order; the first failure alone picks the 400 message; passes exactly when all hold; last name is not read |
| `Auth.BearerToken` | src/Middlerware/middleware.js:26 | field 1 of split(" ") exists exactly when the header contains a space |
| `Auth.HasTokenIff` | src/Middlerware/middleware.js:26-31 | the token check passes exactly when the first space is followed by a character other than a space |
| `Auth.SchemeNeverChecked` | src/Middlerware/middleware.js:26-36 | for any space-free scheme and token, '<scheme> <token>' yields that token |
| `Auth.Authenticate` | src/Middlerware/middleware.js:11-45 | an exact public path passes; otherwise a missing or empty header is 401 'Access token is required', a missing token 401 'Access token is missing', a throwing decode 401 'Invalid or expired access token' with its message, else next() |
| `Auth.PublicMatchIsExact` | src/Middlerware/middleware.js:3-15 | the public path with a trailing slash, "/api/zoom/signature/", and the user route "/api/zoom/get-user" are not exempt and are refused without a header |
| `Controller.FailureStatus` | src/Controller/controller.js:61 | 400 exactly when the message contains 'required', otherwise 500 |
| `Controller.GetAccessToken` | src/Controller/controller.js:4-20 | 200 with success and the token exactly when the cache call succeeds, otherwise 500 with its message |
| `Controller.GetUser` | src/Controller/controller.js:22-39 | 200 with the user text exactly when the service succeeds, otherwise 500 with its message |
| `Controller.UserHandlerAsWrittenAlwaysFails` | src/Controller/controller.js:31-37 | with `getUser` as written, the handler answers 500 for every upstream outcome, with the 'Get user failed: ' prefix |
| `Controller.GetSignature` | src/Controller/controller.js:41-67 | a falsy meeting number or role (so role 0) is 400 'Meeting number and role are required'; otherwise 200 with the claim record, or the 'required' status rule with the error |
| `Controller.SignatureStatusByCause` | src/Controller/controller.js:59-66 | past the guard: 200 exactly for a string meeting number and a 0/1 role, 400 exactly for a non-string meeting number, 500 exactly for a bad role |
| `Controller.GetZakToken` | src/Controller/controller.js:70-86 | 200 with the token exactly when the service succeeds, otherwise 500 with its message |
| `Controller.GetRegistrantToken` | src/Controller/controller.js:88-113 | the four body fields are forwarded unchanged; 200 with the record on success, otherwise the 'required' status rule |
| `Controller.RegistrantMissingFieldIs400` | src/Controller/controller.js:105-112 | a missing meeting id, email or first name gives 400 with the token cache untouched |
| `ErrorHandler.NewAppError` | src/middleware/errorHandler.js:1-10 | an AppError keeps message and code, is operational, and its status is 'fail' exactly when the code's text starts with '4', else 'error' |
| `ErrorHandler.AppErrorFailsExactlyFor4xx` | src/middleware/errorHandler.js:5 | for a three-digit code the status is 'fail' exactly for 400–499 |
| `ErrorHandler.HandleError` | src/middleware/errorHandler.js:12-42 | code defaults to 500 and status to 'error'; development sends both with message, error and stack; production sends code, status and message of an operational error, and 500 'error' 'Something went wrong!' otherwise; production never sends a stack |
| `ErrorHandler.NonOperationalErrorsLookAlike` | src/middleware/errorHandler.js:32-39 | in production any two non-operational errors get the same response |
| `ErrorHandler.AppErrorInProduction` | src/middleware/errorHandler.js:26-31 | in production (including NODE_ENV unset) a 4xx AppError is answered with its code, 'fail' and its message |
| `Routes.Serve` | app.js:47-56 | a request the gate halts gets the gate's answer; otherwise it goes to the router |
| `Routes.SignatureRouteOutcomes` | src/Router/router.js:18 | the signature route answers only 200 or 400, and 200 exactly for a string meeting number with a truthy role whose Number is 0 or 1 |
| `Routes.AttendeeSignatureRefused` | src/Controller/controller.js:45-50 | meeting '123456789' with role 0 passes the validator and is refused 400 by the handler guard |
| `Routes.UserRouteNeedsHeader` | src/Middlerware/middleware.js:18-24 | the user route without an Authorization header is 401 'Access token is required' |
| `Routes.BadEmailRefused` | src/middleware/validation/zoomValidation.js:52-59 | a registrant request with email 'bad-email' is 400 'Invalid email format' with the cache untouched |
| `Routes.RegistrantValidatorSubsumesService` | src/Router/router.js:20 | past the registrant validator the service's own field checks always pass |

## Findings

| source | as written | input that shows it | evidently intended | confidence | as-written member | corrected member |
|---|---|---|---|---|---|---|
| src/services/zoomService.js:114 | `if (contentType \|\| !contentType.includes('application/json'))` throws for every non-null content type and throws a TypeError on a null one, so `getUser` never returns normally | a 2xx reply with content type `application/json` | `!contentType \|\| !contentType.includes('application/json')`: refuse only a missing or non-JSON content type | high; not executed | `ZoomService.GetUserAsWritten` (with `ZoomService.GetUserGuardRejectsJson`) | `ZoomService.GetUser`, used by `Routes.Handle` for the user route |
| src/services/zoomService.js:89 | `return response.json();` inside the `try` is not awaited, so a 2xx body that does not parse rejects after the `try` is left and skips the `catch` at lines 90-92 | a 2xx reply from the registrants endpoint with an empty body | `return await response.json();`: the parse failure gets the 'Registrant creation failed: ' prefix like every other failure | high; not executed | `ZoomService.CreateRegistrantAsWritten` (with `ZoomService.UnawaitedParseEscapesCatch`) | `ZoomService.CreateRegistrant`, used by `Controller.GetRegistrantToken` |

## Left out

- Network I/O: the fetch calls, URL and query building, headers and JSON parsing. Each
  upstream outcome is an input: a `Reply` value, or a function of what is sent.
- HMAC-SHA256 signing and JWS compact serialisation (section 7.1 of RFC 7515, HS256 per
  section 3.2 of RFC 7518). These are foreign calls. The model stops at the header and
  claim record.
- The Base64 Basic credential built from client id and secret. The exchange outcome is an
  input instead.
- `jwt.decode`: a foreign call, modelled as a parameter that returns or throws. Its value
  (`req.user`) is opaque and not kept.
- Concurrency: interleaved requests can each refresh the token. No at-most-one-refresh
  property is claimed.
- Console logging throughout.
- app.js library configuration: helmet, CORS, the rate limiter (only its constants are in
  `Config`), the JSON body limit, the `/` and `/ip` routes, and `listen`. Express's own
  route matching (case-insensitive, trailing slash, 404 page) is also left out;
  `Routes.Dispatch` matches the canonical paths only.
- The client and test scripts call a live server and make no assertions.
- Js.ToNumber: strings, and arrays through their text, are read as empty or decimal digits
  after trimming. Signs, decimal points, exponents, `0x`/`0o`/`0b` prefixes and `Infinity`
  are NaN here. So, for example, role "1.0" or `["+1"]` is refused in the model but
  accepted by JavaScript.
- Js.Value: numbers are integers only; fractional numbers and NaN as input values are not
  modelled. Every non-array object is `Obj`, read as "[object Object]" by `String(...)` and
  as NaN by `Number(...)`. A JSON object whose own `toString` property is not a function,
  such as `{"toString":1}`, makes both coercions throw a TypeError. That object, alone or
  inside an array, is not modelled. The lines below name where the throw would surface.
- ZoomValidation.ValidateSignature: a role of that shape makes
  `Number(role)` at zoomValidation.js:16 throw. Express hands the error to the error
  handler, which answers 500, whereas the model answers 400 'Role must be 0 or 1'.
- ZoomValidation.ValidateRegistrant: an email of that shape makes `emailRegex.test(email)`
  at zoomValidation.js:54 throw. The request then ends in the error handler with 500,
  whereas the model answers 400 'Invalid email format'.
- Routes.SignatureRouteOutcomes: "only 200 or 400" holds over the modelled values. The
  throwing role above gives a 500 from the error handler.
- Upstream.Detail: an upstream `message` of that shape makes the template literal throw
  inside the `try`. The caller's `catch` then prefixes the TypeError text instead of the
  detail. This is not modelled.
- TokenManager.RefreshAccessToken: one instant `now` stands for both clock reads, the
  freshness check of tokenManager.js:11 and the expiry computed at tokenManager.js:41. In
  the code the second is read after the awaited exchange, so the stored expiry is later by
  the exchange's latency.
- TokenManager.RefreshAccessToken: a 2xx body without `access_token` or `expires_in`
  (stored as `undefined` / NaN by the code) is not modelled. A successful exchange always
  carries a string token and an integer lifetime.
- Controller.GetUser: the user route composes it with the corrected `ZoomService.GetUser`,
  so it answers 200 for a 2xx JSON reply. With the code as written the route answers 500
  for every reply (`Controller.UserHandlerAsWrittenAlwaysFails`).
- Controller.GetRegistrantToken: composed with the corrected `ZoomService.CreateRegistrant`.
  As written, an unparsable 2xx body reaches the handler without the 'Registrant creation
  failed: ' prefix (`ZoomService.CreateRegistrantAsWritten`); the status is chosen by the same
  'required' rule from that message.
- ZoomService.GetUserAsWritten: the TypeError text for a null content type is V8's wording,
  taken as a constant.
- ErrorHandler.HandleError: `res.status` with a code Express refuses, and the JSON
  serialisation of the error object in development mode, are not modelled.
