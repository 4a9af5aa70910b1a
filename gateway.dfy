/**
 * The request side of src/main.rs: how a client error is classified into an
 * `AppError`, how an `AppError` becomes an HTTP response, and what the `/`
 * handler `root` hands to the page template. The network exchange itself is
 * a parameter: the model sees only the request it is given and its outcome.
 */
module Gateway {
  import opened Wrappers
  import opened Json
  import opened Devices

  /**
   * An error of the HTTP client, reduced to what the code inspects: whether
   * the client flags it as a decoding failure, and its display text.
   */
  datatype HttpError = HttpError(isDecode: bool, text: string)

  /** The handler's error type; both variants keep the client error they wrap. */
  datatype AppError = RequestError(inner: HttpError) | ApiResponseError(inner: HttpError)

  datatype Response = Response(status: nat, body: string)

  const INTERNAL_SERVER_ERROR: nat := 500

  /** Decoding failures are routed to `ApiResponseError`, every other failure to `RequestError`. */
  function FromHttpError(inner: HttpError): (r: AppError)
    ensures r.inner == inner
    ensures r.ApiResponseError? <==> inner.isDecode
  {
    if inner.isDecode then ApiResponseError(inner) else RequestError(inner)
  }

  /** Every `AppError` is answered with status 500 and the client error's text as the body. */
  function IntoResponse(e: AppError): (r: Response)
    ensures r.status == INTERNAL_SERVER_ERROR
    ensures r.body == e.inner.text
  {
    match e
    case RequestError(inner) => Response(INTERNAL_SERVER_ERROR, inner.text)
    case ApiResponseError(inner) => Response(INTERNAL_SERVER_ERROR, inner.text)
  }

  // ---------------------------------------------------------------------------
  // The handler

  /** Shared, read-only configuration: the bearer token (the client object holds no modelled state). */
  datatype AppState = AppState(teamviewerToken: string)

  const DEVICES_URL: string := "https://webapi.teamviewer.com/api/v1/devices"

  /** The one outgoing request `root` builds. */
  datatype Request = Request(verb: string, url: string, authorization: string)

  /** What the exchange with the directory yields. */
  datatype Upstream =
    | SendFailed(error: HttpError)                 // `send()` failed
    | Received(body: Result<Json, HttpError>)      // the body as parsed JSON, or why reading or parsing it failed

  /** The data handed to the `index.html` template. */
  datatype IndexTemplate = IndexTemplate(now: string, devices: seq<GetDeviceResponse>)

  /** Which `unwrap` in `root` panicked. */
  datatype UnwrapSite = AtSend | AtJson

  datatype RootOutcome = Rendered(page: IndexTemplate) | Panicked(site: UnwrapSite)

  /** GET of the devices endpoint with the token as bearer credential. */
  function UpstreamRequest(state: AppState): Request {
    Request("GET", DEVICES_URL, "Bearer " + state.teamviewerToken)
  }

  /**
   * `root`: one exchange, no retry; both `unwrap`s abort on failure, so an
   * `AppError` is never produced here. On success the decoded list goes to the
   * template unchanged together with the clock reading `now`.
   */
  function Root(state: AppState, exchange: Request -> Upstream, now: string, parseTime: string -> Option<Timestamp>):
    (r: RootOutcome)
    ensures r.Rendered? <==>
              exchange(UpstreamRequest(state)).Received?
              && exchange(UpstreamRequest(state)).body.Ok?
              && DecodeAllDevices(exchange(UpstreamRequest(state)).body.value, parseTime).Ok?
    ensures r.Rendered? ==>
              r.page.now == now
              && r.page.devices == DecodeAllDevices(exchange(UpstreamRequest(state)).body.value, parseTime).value.devices
    ensures exchange(UpstreamRequest(state)).SendFailed? ==> r == Panicked(AtSend)
  {
    match exchange(UpstreamRequest(state))
    case SendFailed(_) => Panicked(AtSend)
    case Received(body) =>
      match body
      case Err(_) => Panicked(AtJson)
      case Ok(json) =>
        match DecodeAllDevices(json, parseTime)
        case Err(_) => Panicked(AtJson)
        case Ok(content) => Rendered(IndexTemplate(now, content.devices))
  }
}
