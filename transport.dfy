/**
 * The HTTP transport as the services see it: each call sends one request and gets back either a
 * response or the error the HTTP client raised (a network failure or a non-2xx status). The
 * transport itself is not modelled; its reply is a parameter of the call that sends.
 */
module Transport {
  import opened Wrappers
  import opened Values

  datatype Method = Get | Patch | Post

  /** `req.method.toUpperCase()`. */
  function MethodName(m: Method): string
  {
    match m
    case Get => "GET"
    case Patch => "PATCH"
    case Post => "POST"
  }

  /** One request: method, URL, the `Authorization` header and the JSON body, if any. */
  datatype Request = Request(httpMethod: Method, url: string, authorization: string, body: Option<Value>)

  /** A 2xx status: the HTTP client raises an error for every other status, so only these come back as responses. */
  type SuccessStatus = s: nat | 200 <= s < 300 witness 200

  /** A response: its status code and its parsed body (`undefined` when there is none). */
  datatype Response = Response(statusCode: SuccessStatus, body: Option<Value>)

  datatype Reply = Responded(response: Response) | Failed(error: JsError)
}
