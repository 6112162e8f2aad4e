/**
 * `BackendTaskService`: fetches the worker's task configuration and reports the task's progress,
 * one request per call. The service holds the endpoints, the header and the task id, all fixed at
 * construction; what it changes is the list of requests it has sent and the lines it has logged.
 * The HTTP reply to each request and the clock are parameters of the call.
 */
module Backend {
  import opened Wrappers
  import opened Values
  import opened Text
  import opened Transport
  import opened Reports
  import opened Logger
  import Api

  /** `_res?.body?.data`: `undefined` when there is no body or the body is not an object. */
  function PayloadData(response: Response): Option<Value>
  {
    if response.body.None? then None else Lookup(response.body.value, ["data"])
  }

  /** The prefix of every failed fetch's message. */
  const FetchFailed := "Get task config from backend failed, "

  /** The error a failed fetch is re-thrown as: the prefix, then the text of what was caught. */
  function FetchFailure(cause: JsError): JsError
  {
    PlainError(FetchFailed + ErrorText(cause))
  }

  const NoPayloadMessage := "Can not get task config from backend"

  /** The error thrown inside the `try` when the payload is missing, and caught again by its own `catch`. */
  const NoPayload: JsError := PlainError(NoPayloadMessage)

  /** The outcome of `getWorkerTaskFromBackend` for a given reply. */
  function FetchOutcome(reply: Reply): (r: Result<Value, JsError>)
    ensures r.Success? <==> reply.Responded? && TruthyOpt(PayloadData(reply.response))
    ensures r.Success? ==> PayloadData(reply.response) == Some(r.value) && Truthy(r.value)
    ensures r.Failure? ==> r.error == FetchFailure(if reply.Failed? then reply.error else NoPayload)
  {
    match reply
    case Failed(e) => Failure(FetchFailure(e))
    case Responded(response) =>
      var data := PayloadData(response);
      if !TruthyOpt(data) then Failure(FetchFailure(NoPayload)) else Success(data.value)
  }

  /** A missing or falsy payload is reported with the inner error's full text, wrapped once. */
  lemma MissingPayloadMessage(response: Response)
    requires !TruthyOpt(PayloadData(response))
    ensures FetchOutcome(Responded(response)).Failure?
    ensures FetchOutcome(Responded(response)).error.message
         == FetchFailed + "Error: " + NoPayloadMessage
  {
    assert |NoPayloadMessage| > 0;
  }

  /** The segment of a report's messages that names it. */
  function ReportLabel(reason: TaskReportReason): string
  {
    match reason
    case Started => "started"
    case Finished => "finished"
    case Errored => "errored"
    case HealthCheck => "health status"
  }

  /** The error a failed report is re-thrown as. */
  function ReportFailure(reason: TaskReportReason, cause: JsError): JsError
  {
    PlainError("Report worker task " + ReportLabel(reason) + " failed, " + ErrorText(cause))
  }

  /** The outcome of a report: it succeeds exactly when a response came back. */
  function ReportOutcome(reason: TaskReportReason, reply: Reply): (r: Outcome<JsError>)
    ensures r.Pass? <==> reply.Responded?
    ensures r.Fail? ==> r.error == ReportFailure(reason, reply.error)
  {
    match reply
    case Responded(_) => Pass
    case Failed(e) => Fail(ReportFailure(reason, e))
  }

  /** The prefix of the line logged after a successful report. */
  function ReportedPrefix(reason: TaskReportReason): string
  {
    "Report worker task " + ReportLabel(reason) + " to backend "
  }

  /** The lines a report logs: the announcement, then the status line when a response came back. */
  function ReportLines(reason: TaskReportReason, reply: Reply): seq<LogLine>
  {
    [LogLine(Verbose, "Reporting worker task " + ReportLabel(reason) + " to backend")]
    + match reply
      case Responded(response) => [LogLine(Info, ReportedPrefix(reason) + NatText(response.statusCode))]
      case Failed(_) => []
  }

  /** The failures of different reports are told apart by their messages, whatever their causes. */
  lemma ReportFailuresDistinct(a: TaskReportReason, b: TaskReportReason, causeA: JsError, causeB: JsError)
    requires a != b
    ensures ReportFailure(a, causeA).message != ReportFailure(b, causeB).message
  {
    var ma, mb := ReportFailure(a, causeA).message, ReportFailure(b, causeB).message;
    assert ma[19] == ReportLabel(a)[0];
    assert mb[19] == ReportLabel(b)[0];
  }

  /** The status code can be read back from the line a successful report logs. */
  lemma ReportedStatusReadable(reason: TaskReportReason, response: Response)
    ensures var line := ReportLines(reason, Responded(response))[1].message;
      && |ReportedPrefix(reason)| <= |line|
      && line[..|ReportedPrefix(reason)|] == ReportedPrefix(reason)
      && IsCanonicalNumeral(line[|ReportedPrefix(reason)|..])
      && DigitsValue(line[|ReportedPrefix(reason)|..]) == response.statusCode
  {
    var line := ReportLines(reason, Responded(response))[1].message;
    assert line[|ReportedPrefix(reason)|..] == NatText(response.statusCode);
    NatTextValue(response.statusCode);
  }

  class BackendTaskService {
    const api: Api.BackendApi
    const taskId: string
    /** The requests sent, in order. */
    var sent: seq<Request>
    /** The lines logged, in order. */
    var logs: seq<LogLine>

    constructor(options: Api.BackendApiOptions)
      requires Api.IsCoveredOptions(options)
      ensures api == Api.New(options) && taskId == options.taskId
      ensures sent == [] && logs == []
    {
      api := Api.New(options);
      taskId := options.taskId;
      sent := [];
      logs := [];
    }

    /**
     * `getWorkerTaskFromBackend`: one GET of the task endpoint; a truthy `data` in the body is the
     * result, anything else fails with the fetch prefix.
     */
    method GetWorkerTaskFromBackend(reply: Reply) returns (r: Result<Value, JsError>)
      modifies this
      ensures logs == old(logs) + [LogLine(Info, "Getting new task config from backend")]
      ensures sent == old(sent) + [Request(Get, api.getUrl, api.authorization, None)]
      ensures r == FetchOutcome(reply)
    {
      logs := logs + [LogLine(Info, "Getting new task config from backend")];
      sent := sent + [Request(Get, api.getUrl, api.authorization, None)];
      if reply.Failed? {
        return Failure(FetchFailure(reply.error));
      }
      var data := PayloadData(reply.response);
      if !TruthyOpt(data) {
        return Failure(FetchFailure(NoPayload));
      }
      r := Success(data.value);
    }

    /** The shared body of the four report methods: announce, send the report once, log the status. */
    method Report(report: TaskReport, reply: Reply) returns (r: Outcome<JsError>)
      modifies this
      ensures logs == old(logs) + ReportLines(report.reason, reply)
      ensures sent == old(sent) + [ReportRequest(api, report)]
      ensures r == ReportOutcome(report.reason, reply)
    {
      logs := logs + [LogLine(Verbose, "Reporting worker task " + ReportLabel(report.reason) + " to backend")];
      sent := sent + [ReportRequest(api, report)];
      match reply {
        case Responded(response) =>
          logs := logs + [LogLine(Info, ReportedPrefix(report.reason) + NatText(response.statusCode))];
          r := Pass;
        case Failed(e) =>
          r := Fail(ReportFailure(report.reason, e));
      }
    }

    /** `reportWorkerTaskStartedToBackend`, at time `now`. */
    method ReportWorkerTaskStarted(now: nat, reply: Reply) returns (r: Outcome<JsError>)
      modifies this
      ensures logs == old(logs) + ReportLines(Started, reply)
      ensures sent == old(sent) + [ReportRequest(api, TaskReport(taskId, Started, now, None))]
      ensures r == ReportOutcome(Started, reply)
    {
      r := Report(TaskReport(taskId, Started, now, None), reply);
    }

    /** `reportWorkerTaskFinishedToBackend`, at time `now`. */
    method ReportWorkerTaskFinished(now: nat, reply: Reply) returns (r: Outcome<JsError>)
      modifies this
      ensures logs == old(logs) + ReportLines(Finished, reply)
      ensures sent == old(sent) + [ReportRequest(api, TaskReport(taskId, Finished, now, None))]
      ensures r == ReportOutcome(Finished, reply)
    {
      r := Report(TaskReport(taskId, Finished, now, None), reply);
    }

    /** `reportWorkerTaskErroredToBackend(data)`, at time `now`: the only report that carries data. */
    method ReportWorkerTaskErrored(data: Option<Value>, now: nat, reply: Reply) returns (r: Outcome<JsError>)
      modifies this
      ensures logs == old(logs) + ReportLines(Errored, reply)
      ensures sent == old(sent) + [ReportRequest(api, TaskReport(taskId, Errored, now, data))]
      ensures r == ReportOutcome(Errored, reply)
    {
      r := Report(TaskReport(taskId, Errored, now, data), reply);
    }

    /** `reportWorkerTaskHealthStatusToBackend`, at time `now`. */
    method ReportWorkerTaskHealthStatus(now: nat, reply: Reply) returns (r: Outcome<JsError>)
      modifies this
      ensures logs == old(logs) + ReportLines(HealthCheck, reply)
      ensures sent == old(sent) + [ReportRequest(api, TaskReport(taskId, HealthCheck, now, None))]
      ensures r == ReportOutcome(HealthCheck, reply)
    {
      r := Report(TaskReport(taskId, HealthCheck, now, None), reply);
    }
  }

  /**
   * The crash handler and `reportWorkerTaskErroredToBackend` build their requests separately; given
   * the error as data, they send the same request: method, endpoint, header, keys in the same order
   * and the same reason text.
   */
  lemma CrashReportIsErroredReport(api: Api.BackendApi, taskId: string, err: JsError, now: nat)
    ensures CrashReport(api, taskId, err, now) == ReportRequest(api, TaskReport(taskId, Errored, now, Some(Err(err))))
  {
    CrashBodyIsErroredReport(taskId, err, now);
  }
}
