/** What the SDK sees of Laravel's HTTP client: a response's status and decoded
    body, the requests it sends, and the exchanges a transport answers. */
module Http {
  import opened Json

  /** The four verbs `EfihubClient::request` forwards to `Http`. */
  datatype Verb = Get | Post | Put | Delete

  /** A response: its status and its body decoded with `json_decode(..., true)`
      (a body that is not JSON decodes to `JNull`). */
  datatype Response = Response(status: int, body: JValue)

  /** `Response::successful()`: a 2xx status. */
  predicate Successful(r: Response) {
    200 <= r.status < 300
  }

  /** `Response::failed()`: a client (4xx) or server (5xx) error. */
  predicate Failed(r: Response) {
    r.status >= 400
  }

  /** The file specification the caller hands to `postMultipart`, carried as is. */
  type FileSpec = JValue

  /** Every request the SDK sends. */
  datatype Outgoing =
    | TokenRequest(url: string, form: map<string, string>)
    | ApiRequest(verb: Verb, url: string, options: map<string, JValue>, token: JValue)
    | MultipartRequest(endpoint: string, fields: map<string, JValue>, files: map<string, FileSpec>)

  /** A request together with the response it received. */
  datatype Exchange = Exchange(request: Outgoing, response: Response)

  /** The rule shared by `Storage::delete` and the module `dispatch`: false on
      a non-2xx status, otherwise the body's `success` when it is a boolean
      and true when it is anything else. (`Step(body, k)` is `json(k)` for a
      key without a dot, `JsonAtKey`.) */
  function SuccessFlag(r: Response): (ok: bool)
    ensures !ok <==> !Successful(r) || Step(r.body, "success") == JBool(false)
  {
    if !Successful(r) then false
    else match Step(r.body, "success")
      case JBool(b) => b
      case _ => true
  }
}
