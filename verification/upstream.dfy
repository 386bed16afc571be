/** Replies from the upstream video-conferencing API, as seen by the code that
    issued the request, and the error text that code builds from a failed reply. */
module Upstream {
  import Js

  /** The outcome of one upstream call:
      - `Answered(data)`: a 2xx response whose body was read;
      - `Refused(message)`: a non-2xx response whose JSON body carried `message`
        (`Js.Undefined` when the body had no such field);
      - `Broken(error)`: the call itself threw, or a body awaited inside the caller's
        `try` did not parse, with the thrown message. */
  datatype Reply<+T> = Answered(data: T) | Refused(message: Js.Value) | Broken(error: string)

  /** `error.message || 'Unknown error'` inside a template string. */
  function Detail(message: Js.Value): (d: string)
    ensures Js.Truthy(message) ==> d == Js.ToText(message)
    ensures !Js.Truthy(message) ==> d == "Unknown error"
  {
    if Js.Truthy(message) then Js.ToText(message) else "Unknown error"
  }

  /** The message thrown inside a `try` block for a failed reply: a non-2xx reply
      becomes `Failed to <action>: <detail>`, a thrown error keeps its own message. */
  function Reason<T>(action: string, reply: Reply<T>): (m: string)
    requires !reply.Answered?
    ensures reply.Refused? ==> m == "Failed to " + action + ": " + Detail(reply.message)
    ensures reply.Broken? ==> m == reply.error
  {
    match reply
    case Refused(message) => "Failed to " + action + ": " + Detail(message)
    case Broken(error) => error
  }
}
