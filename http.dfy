/** What the launcher sees of an HTTP exchange. The client library, the
    network and the server are outside the model: each request's outcome
    is an input. */
module Http {
  import opened Ints
  import opened Wrappers

  /** The outcome of sending one request: a response, or a failure of the
      transport (connection refused, timeout, ...). */
  datatype Reply<T> = Delivered(response: T) | TransportError

  /** A response read as bytes: status code, the `Content-Length` header if
      present, and the body. */
  datatype Response = Response(status: nat, contentLength: Option<U64>, body: seq<byte>)

  /** A response read as text; `text` is `None` when reading the body as a
      string failed. */
  datatype TextResponse = TextResponse(status: nat, text: Option<string>)

  /** `StatusCode::is_success`: the 2xx class. */
  predicate IsSuccess(status: nat) {
    200 <= status <= 299
  }

  /** `StatusCode::is_client_error`: the 4xx class. */
  predicate IsClientError(status: nat) {
    400 <= status <= 499
  }

  /** The bytes `std::io::copy` moves from a delivered response into a file. */
  function BodyOf(r: Reply<Response>): seq<byte> {
    match r
    case Delivered(resp) => resp.body
    case TransportError => []
  }
}
