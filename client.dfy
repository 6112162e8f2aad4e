/**
 * `BackendClient`: the thinner client. `getTask` hands back the raw reply; `sendReport` posts a
 * caller-built body and, when `DEBUG` is set, first logs the request it is about to send.
 * As in the task service, the reply and the `DEBUG` variable are parameters of the call.
 */
module Client {
  import opened Wrappers
  import opened Values
  import opened Text
  import opened Transport
  import opened Logger
  import Api

  /** The debug request log plugin: one line with method, URL and JSON body, only when `DEBUG` is truthy. */
  function DebugLines(debug: Option<string>, request: Request): (lines: seq<LogLine>)
    ensures |lines| <= 1
    ensures lines != [] <==> IsSet(debug)
    ensures lines != [] ==> lines[0].level == Debug
  {
    if IsSet(debug) then
      [LogLine(Debug, "Request " + MethodName(request.httpMethod) + " to " + request.url
                      + " send " + Json(if request.body.Some? then request.body.value else Null))]
    else []
  }

  /** The error a failed `sendReport` is re-thrown as: the caught error's message, not its full text. */
  function SendFailure(reason: string, cause: JsError): JsError
  {
    PlainError("Report worker task " + reason + " failed, " + cause.message)
  }

  /** What `sendReport` returns for a given reply: the response itself, or the annotated error. */
  function SendOutcome(reason: string, reply: Reply): (r: Result<Response, JsError>)
    ensures r.Success? <==> reply.Responded?
    ensures r.Success? ==> r.value == reply.response
    ensures r.Failure? ==> r.error == SendFailure(reason, reply.error)
  {
    match reply
    case Responded(response) => Success(response)
    case Failed(e) => Failure(SendFailure(reason, e))
  }

  /** The failure message ends with the cause's message and drops its name. */
  lemma SendFailureKeepsMessageOnly(reason: string, cause: JsError)
    ensures var m := SendFailure(reason, cause).message;
      && |cause.message| <= |m|
      && m[|m| - |cause.message|..] == cause.message
      && m == SendFailure(reason, JsError("", cause.message)).message
  {
  }

  /** The debug line names the upper-cased method, the URL and the body exactly as sent. */
  lemma DebugLineDescribesRequest(debug: Option<string>, url: string, authorization: string, data: Value)
    requires IsSet(debug)
    ensures DebugLines(debug, Request(Post, url, authorization, Some(data)))
         == [LogLine(Debug, "Request POST to " + url + " send " + Json(data))]
  {
    assert "Request " + MethodName(Post) + " to " == "Request POST to ";
  }

  class BackendClient {
    const api: Api.BackendApi
    /** The requests sent, in order. */
    var sent: seq<Request>
    /** The lines logged, in order. */
    var logs: seq<LogLine>

    constructor(options: Api.BackendApiOptions)
      requires Api.IsCoveredOptions(options)
      ensures api == Api.New(options) && sent == [] && logs == []
    {
      api := Api.New(options);
      sent := [];
      logs := [];
    }

    /** `getTask`: one GET of the task endpoint; the reply comes back unchecked and unwrapped. */
    method GetTask(reply: Reply) returns (r: Reply)
      modifies this
      ensures r == reply
      ensures sent == old(sent) + [Request(Get, api.getUrl, api.authorization, None)]
      ensures logs == old(logs)
    {
      sent := sent + [Request(Get, api.getUrl, api.authorization, None)];
      r := reply;
    }

    /**
     * `sendReport(data, reason)`: one POST of `data`, unchanged, to the report endpoint. The debug
     * line comes first when `DEBUG` is set; the status line follows a response.
     */
    method SendReport(data: Value, reason: string, debug: Option<string>, reply: Reply) returns (r: Result<Response, JsError>)
      modifies this
      ensures sent == old(sent) + [Request(Post, api.reportUrl, api.authorization, Some(data))]
      ensures logs == old(logs) + DebugLines(debug, Request(Post, api.reportUrl, api.authorization, Some(data)))
                      + (if reply.Responded?
                         then [LogLine(Info, "Report worker task " + reason + " to backend " + NatText(reply.response.statusCode))]
                         else [])
      ensures r == SendOutcome(reason, reply)
    {
      var request := Request(Post, api.reportUrl, api.authorization, Some(data));
      logs := logs + DebugLines(debug, request);
      sent := sent + [request];
      match reply {
        case Responded(response) =>
          logs := logs + [LogLine(Info, "Report worker task " + reason + " to backend " + NatText(response.statusCode))];
          r := Success(response);
        case Failed(e) =>
          r := Failure(SendFailure(reason, e));
      }
    }
  }
}
