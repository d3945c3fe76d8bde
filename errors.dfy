/** error.ts: the protocol error type, its default messages, and the values handlers throw. */
module Errors {
  import opened Basics

  /** The `errorMessages` table: default message (or meta) per status code. */
  const ErrorMessages: map<int, string> := map[
    10 := "Input: ",
    11 := "Sensitive Input: ",
    20 := "text/plain; lang=en",
    30 := "Temporary redirection",
    31 := "Permanent redirection",
    40 := "Server Error",
    41 := "Server unavailable",
    42 := "CGI error",
    43 := "Proxy error",
    44 := "Slow down",
    50 := "Permanent Failure",
    51 := "Not found",
    52 := "Gone",
    53 := "Proxy request refused",
    59 := "Bad request",
    60 := "Certificate required",
    61 := "Certificate not authorized",
    62 := "Certificate not valid"
  ]

  /** `getMessageForStatus`: the entry for the status, else the entry for `Math.floor(status / 10)`,
      else the empty string. It is total, and what it returns is always a table entry or `""`.
      (Dafny's `/` by a positive divisor rounds down, as `Math.floor` does.) */
  function GetMessageForStatus(status: int): (m: string)
    ensures m == "" || m in ErrorMessages.Values
  {
    if status in ErrorMessages then ErrorMessages[status]
    else if status / 10 in ErrorMessages then ErrorMessages[status / 10]
    else ""
  }

  /** Inside the protocol range 10..69 the family fallback never applies: the tens digit 1..6 is not a key,
      so a status missing from the table has the empty message. */
  lemma ProtocolStatusMessage(status: int)
    requires 10 <= status <= 69
    ensures GetMessageForStatus(status) == if status in ErrorMessages then ErrorMessages[status] else ""
  {
  }

  /** A `GemError`: a status, the message and whether the message may reach the client. */
  datatype GemError = GemError(status: int, message: string, expose: bool) {
    /** Every GemError carries the name 'GemError'. */
    const name: string := "GemError"
  }

  /** `new GemError(status, message?, expose = true)`: a missing message (`undefined`) is replaced by
      the status's default message; any given message, the empty string included, is kept as it is,
      because `??` only replaces null and undefined. */
  function NewGemError(status: int, message: Option<string> := None, expose: bool := true): (e: GemError)
    ensures e.status == status && e.expose == expose && e.name == "GemError"
    ensures message.Some? ==> e.message == message.value
    ensures message.None? ==> e.message == GetMessageForStatus(status)
  {
    GemError(status, if message.Some? then message.value else GetMessageForStatus(status), expose)
  }

  /** A value thrown by handler code or by the engine. */
  datatype Thrown =
    | GemErr(gem: GemError)                    // an instance of GemError
    | JsError(name: string, message: string)   // any other Error: Error, TypeError, Deno.errors.NotFound, ...
    | NonError                                 // a thrown value that is not an Error (a string, a number, ...)

  /** `e instanceof Error ? e.message : "Application Error"`, the text the server logs for a failure. */
  function LoggedMessage(e: Thrown): string {
    match e
    case GemErr(g) => g.message
    case JsError(_, msg) => msg
    case NonError => "Application Error"
  }

  lemma ExampleMessages()
    ensures GetMessageForStatus(51) == "Not found"
    ensures GetMessageForStatus(40) == "Server Error"
    ensures GetMessageForStatus(59) == "Bad request"
    ensures GetMessageForStatus(45) == ""
    ensures GetMessageForStatus(510) == "Not found"
    ensures NewGemError(51, Some("")).message == ""
  {
  }
}
