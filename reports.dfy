/**
 * Task reports: the record a worker sends to the backend at each stage of a task, and the JSON
 * object it is sent as (`{taskId, reason, timestamp, data}`, in that key order).
 */
module Reports {
  import opened Wrappers
  import opened Values
  import opened Transport
  import Api

  datatype TaskReportReason = Started | Finished | Errored | HealthCheck

  /** The string value of each `TaskReportReason` member. */
  function ReasonName(r: TaskReportReason): string
  {
    match r
    case Started => "STARTED"
    case Finished => "FINISHED"
    case Errored => "ERRORED"
    case HealthCheck => "HEALTH_CHECK"
  }

  /** A report: `data` is present only on the errored report (and `undefined` there when the caller gave nothing). */
  datatype TaskReport = TaskReport(taskId: string, reason: TaskReportReason, timestamp: nat, data: Option<Value>)

  /** The object literal that is sent; a `data` that is `undefined` is left out, as `JSON.stringify` leaves it out. */
  function ReportValue(r: TaskReport): Value
  {
    Obj([Field("taskId", Str(r.taskId)), Field("reason", Str(ReasonName(r.reason))), Field("timestamp", Num(r.timestamp))]
        + (if r.data.Some? then [Field("data", r.data.value)] else []))
  }

  /** The three fields every report has, in order. */
  lemma ReportValueHead(r: TaskReport)
    ensures var f := ReportValue(r).fields;
      && |f| >= 3
      && f[0] == Field("taskId", Str(r.taskId))
      && f[1] == Field("reason", Str(ReasonName(r.reason)))
      && f[2] == Field("timestamp", Num(r.timestamp))
      && |f| == (if r.data.Some? then 4 else 3)
  {
  }

  lemma ReportTaskIdField(r: TaskReport)
    ensures FindField(ReportValue(r).fields, "taskId") == Some(Str(r.taskId))
  {
    ReportValueHead(r);
    FindFieldAt(ReportValue(r).fields, 0, "taskId");
  }

  lemma ReportReasonField(r: TaskReport)
    ensures FindField(ReportValue(r).fields, "reason") == Some(Str(ReasonName(r.reason)))
  {
    var f := ReportValue(r).fields;
    ReportValueHead(r);
    assert f[0].key != "reason";
    FindFieldAt(f, 1, "reason");
  }

  lemma ReportTimestampField(r: TaskReport)
    ensures FindField(ReportValue(r).fields, "timestamp") == Some(Num(r.timestamp))
  {
    var f := ReportValue(r).fields;
    ReportValueHead(r);
    assert f[0].key != "timestamp" && f[1].key != "timestamp";
    FindFieldAt(f, 2, "timestamp");
  }

  lemma ReportDataField(r: TaskReport)
    ensures FindField(ReportValue(r).fields, "data") == r.data
  {
    var f := ReportValue(r).fields;
    ReportValueHead(r);
    assert f[0].key != "data" && f[1].key != "data" && f[2].key != "data";
    if r.data.Some? {
      assert f[3] == Field("data", r.data.value);
      FindFieldAt(f, 3, "data");
    }
  }

  /** Every field of a report can be read back from the object sent. */
  lemma ReportValueFields(r: TaskReport)
    ensures Lookup(ReportValue(r), ["taskId"]) == Some(Str(r.taskId))
    ensures Lookup(ReportValue(r), ["reason"]) == Some(Str(ReasonName(r.reason)))
    ensures Lookup(ReportValue(r), ["timestamp"]) == Some(Num(r.timestamp))
    ensures Lookup(ReportValue(r), ["data"]) == r.data
  {
    var f := ReportValue(r).fields;
    ReportTaskIdField(r);
    ReportReasonField(r);
    ReportTimestampField(r);
    ReportDataField(r);
    LookupOne(f, "taskId");
    LookupOne(f, "reason");
    LookupOne(f, "timestamp");
    LookupOne(f, "data");
  }

  /** The request that sends a report: a PATCH of the report object to the report endpoint, with the header. */
  function ReportRequest(api: Api.BackendApi, r: TaskReport): (req: Request)
    ensures req.httpMethod == Patch && req.url == api.reportUrl && req.authorization == api.authorization
    ensures req.body.Some? && Lookup(req.body.value, ["reason"]) == Some(Str(ReasonName(r.reason)))
    ensures Lookup(req.body.value, ["data"]) == r.data
  {
    ReportValueFields(r);
    Request(Patch, api.reportUrl, api.authorization, Some(ReportValue(r)))
  }
}
