/**
 * The response classification of the REST client (`apiFetch`) and the
 * error it throws (`ApiError`). The network, `response.text()` and
 * `JSON.parse` are not modelled: what they produce is an input.
 */
module ApiClient {
  import opened Wrappers

  /** A machine-readable error code: the server sends a string or a number. */
  datatype Code = TextCode(text: string) | NumberCode(number: int)

  /**
   * The error-envelope view of a decoded body: `{ code, message, errors? }`.
   * A field is `None` when the body lacks it (or is not an object at all).
   */
  datatype Envelope = Envelope(message: Option<string>, code: Option<Code>, errors: Option<map<string, string>>)

  /** What `response.text()` followed by `JSON.parse` yields. */
  datatype Body<T> =
    | Empty                                // the text was empty: the data is `null`
    | Malformed(syntaxMessage: string)     // `JSON.parse` threw a SyntaxError with this message
    | Parsed(value: T, envelope: Envelope) // the decoded value, read as `T` and as an error envelope

  datatype HttpResponse<T> = HttpResponse(ok: bool, status: int, statusText: string, body: Body<T>)

  /** What `fetch` does: it rejects (a TypeError) or answers. */
  datatype Transport<T> = NetworkFailure(message: string) | Answered(response: HttpResponse<T>)

  /** The error raised by the client for a non-ok response. Its fields never change after construction. */
  class ApiError {
    const status: int
    const message: string
    const code: Option<Code>
    const errors: Option<map<string, string>>

    constructor (status: int, message: string, code: Option<Code>, errors: Option<map<string, string>>)
      ensures this.status == status && this.message == message
      ensures this.code == code && this.errors == errors
    {
      this.status := status;
      this.message := message;
      this.code := code;
      this.errors := errors;
    }
  }

  /** What a page's `catch` can receive: an ApiError, any other Error (it has a message), or a non-Error value. */
  datatype Thrown = ApiFailure(error: ApiError) | PlainError(message: string) | NonErrorValue

  /** How an awaited call settles, from the point of view of the page that awaits it. */
  datatype Reply<T> = Resolved(value: T) | Rejected(thrown: Thrown)

  /** How `apiFetch` settles: it returns the data (`null` for an empty body) or throws. */
  datatype FetchResult<T> = Returned(data: Option<T>) | Threw(thrown: Thrown)

  const MissingBaseUrl := "VITE_API_BASE_URL is not set"

  /** `!baseUrl`: the base URL is undefined or the empty string. */
  predicate BaseUrlMissing(baseUrl: Option<string>) {
    baseUrl.None? || baseUrl.value == ""
  }

  /**
   * `apiFetch(path)`: `url` is the address requested (None when nothing was
   * requested) and `result` how the call settles, given the environment's
   * base URL and what the transport produced.
   */
  method ApiFetch<T>(baseUrl: Option<string>, path: string, transport: Transport<T>)
    returns (url: Option<string>, result: FetchResult<T>)
    // a missing base URL throws before any request is made
    ensures BaseUrlMissing(baseUrl) <==> url.None?
    ensures BaseUrlMissing(baseUrl) ==> result == Threw(PlainError(MissingBaseUrl))
    ensures !BaseUrlMissing(baseUrl) ==> url == Some(baseUrl.value + path)
    // the transport's and the parser's own errors propagate unchanged
    ensures !BaseUrlMissing(baseUrl) && transport.NetworkFailure? ==>
              result == Threw(PlainError(transport.message))
    ensures !BaseUrlMissing(baseUrl) && transport.Answered? && transport.response.body.Malformed? ==>
              result == Threw(PlainError(transport.response.body.syntaxMessage))
    // a non-ok response throws an ApiError carrying the status and the envelope's fields
    ensures !BaseUrlMissing(baseUrl) && transport.Answered? && !transport.response.body.Malformed?
              && !transport.response.ok ==>
              var response := transport.response;
              var envelope := if response.body.Parsed? then response.body.envelope else Envelope(None, None, None);
              && result.Threw? && result.thrown.ApiFailure?
              && result.thrown.error.status == response.status
              && result.thrown.error.message == envelope.message.GetOr(response.statusText)
              && result.thrown.error.code == envelope.code
              && result.thrown.error.errors == envelope.errors
    // an ok response returns the payload unchanged, or null for an empty body
    ensures !BaseUrlMissing(baseUrl) && transport.Answered? && transport.response.ok ==>
              match transport.response.body
              case Empty => result == Returned(None)
              case Malformed(_) => result.Threw?
              case Parsed(value, _) => result == Returned(Some(value))
  {
    if BaseUrlMissing(baseUrl) {
      return None, Threw(PlainError(MissingBaseUrl));
    }
    url := Some(baseUrl.value + path);
    match transport {
      case NetworkFailure(message) =>
        return url, Threw(PlainError(message));
      case Answered(response) =>
        var data: Option<T>;
        var payload: Envelope;
        match response.body {
          case Malformed(syntaxMessage) =>
            return url, Threw(PlainError(syntaxMessage));
          case Empty =>
            data, payload := None, Envelope(None, None, None);
          case Parsed(value, envelope) =>
            data, payload := Some(value), envelope;
        }
        if !response.ok {
          var error := new ApiError(response.status, payload.message.GetOr(response.statusText), payload.code, payload.errors);
          return url, Threw(ApiFailure(error));
        }
        return url, Returned(data);
    }
  }
}
