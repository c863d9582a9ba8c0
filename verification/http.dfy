/**
 The network boundary. A `fetch` call is replaced by the outcome it settles
 with: either a response (status code and body) or a transport failure, which
 `fetch` reports by rejecting with a `TypeError`. What a promise rejects with
 is a thrown JavaScript value.
 */
module Http {

  /** The `Error` subclasses that reach the search handler. */
  datatype ErrorKind =
    | PlainError        // `new Error(...)` thrown by the service itself
    | NetworkTypeError  // the `TypeError` a failed `fetch` rejects with
    | JsonSyntaxError   // the `SyntaxError` `response.json()` rejects with

  /** A thrown value: an `Error` instance with its message, or anything else. */
  datatype Thrown = ErrorObject(kind: ErrorKind, message: string) | NonErrorValue

  /** A settled promise. */
  datatype Settled<+T> = Resolved(value: T) | Rejected(reason: Thrown)

  /** A response body as `response.json()` would read it. */
  datatype Body<+T> = Parsed(value: T) | Unparsable(message: string)

  datatype Response<+T> = Response(status: int, body: Body<T>)

  /** What one `fetch` settles with. */
  datatype FetchOutcome<+T> = Responded(response: Response<T>) | TransportFailure(message: string)

  /** `response.ok`: the status is in the range 200 to 299. */
  predicate IsOk(status: int) {
    200 <= status <= 299
  }

  /** `response.json()`. */
  function ReadJson<T>(body: Body<T>): (r: Settled<T>)
    ensures r.Resolved? <==> body.Parsed?
    ensures body.Parsed? ==> r.value == body.value
    ensures body.Unparsable? ==> r.reason == ErrorObject(JsonSyntaxError, body.message)
  {
    match body
    case Parsed(v) => Resolved(v)
    case Unparsable(m) => Rejected(ErrorObject(JsonSyntaxError, m))
  }
}
