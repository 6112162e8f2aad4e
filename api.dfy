/**
 * `BackendApi`: the HTTP Basic authorization header and the two worker-task endpoints, computed
 * once from the worker's options and read-only afterwards (so modelled as a value).
 */
module Api {
  import opened Wrappers
  import Utf8
  import Base64
  import opened Urls

  datatype BackendApiOptions = BackendApiOptions(workerName: string, secret: string, backendUrl: string, taskId: string)

  datatype BackendApi = BackendApi(authorization: string, getUrl: string, reportUrl: string)

  /** Options the model covers: a covered backend URL and a task id that is one plain path segment. */
  predicate IsCoveredOptions(o: BackendApiOptions)
  {
    IsBaseUrl(o.backendUrl) && IsPlainSegment(o.taskId)
  }

  /** The user-pass of section 2 of RFC 7617: `workerName:secret`. */
  function Credentials(workerName: string, secret: string): string
  {
    workerName + ":" + secret
  }

  /** The credentials encoded as UTF-8, then as Base64, after the `Basic ` scheme name. */
  function Authorization(workerName: string, secret: string): string
  {
    "Basic " + Base64.Encode(Utf8.Encode(Credentials(workerName, secret)))
  }

  /** `/v1/pipelines/worker-tasks/{taskId}`, as segments. */
  function TaskPath(taskId: string): seq<string>
  {
    ["v1", "pipelines", "worker-tasks", taskId]
  }

  /** `/v1/pipelines/worker-tasks/{taskId}/reports`, as segments. */
  function ReportPath(taskId: string): seq<string>
  {
    TaskPath(taskId) + ["reports"]
  }

  lemma FixedSegmentsArePlain()
    ensures IsPlainSegment("v1") && IsPlainSegment("pipelines") && IsPlainSegment("worker-tasks")
    ensures IsPlainSegment("reports")
  {
  }

  /** Both endpoint paths are absolute-path references with no dot segment. */
  lemma TaskPathIsReference(taskId: string)
    requires IsPlainSegment(taskId)
    ensures IsAbsolutePathReference(TaskPath(taskId)) && IsAbsolutePathReference(ReportPath(taskId))
  {
    FixedSegmentsArePlain();
    var segs := TaskPath(taskId);
    assert forall i :: 0 <= i < |segs| ==> IsPlainSegment(segs[i]);
    var all := ReportPath(taskId);
    assert forall i :: 0 <= i < |all| ==> IsPlainSegment(all[i]) by {
      forall i | 0 <= i < |all| ensures IsPlainSegment(all[i]) {
        if i < |segs| {
          assert all[i] == segs[i];
        }
      }
    }
  }

  /** The fixed part of the endpoint paths as text. */
  lemma FixedPathText()
    ensures PathOf(["v1", "pipelines", "worker-tasks"]) == "/v1/pipelines/worker-tasks"
  {
    var fixed := ["v1", "pipelines", "worker-tasks"];
    assert fixed[1..] == ["pipelines", "worker-tasks"];
    assert fixed[1..][1..] == ["worker-tasks"];
    assert fixed[1..][1..][1..] == [];
  }

  /** The endpoint paths as text. */
  lemma TaskPathText(taskId: string)
    ensures PathOf(TaskPath(taskId)) == "/v1/pipelines/worker-tasks/" + taskId
    ensures PathOf(ReportPath(taskId)) == "/v1/pipelines/worker-tasks/" + taskId + "/reports"
  {
    var fixed := ["v1", "pipelines", "worker-tasks"];
    assert TaskPath(taskId) == fixed + [taskId];
    FixedPathText();
    PathOfAppend(fixed, taskId);
    PathOfAppend(TaskPath(taskId), "reports");
    assert "/v1/pipelines/worker-tasks" + "/" == "/v1/pipelines/worker-tasks/";
  }

  /** The base URL after the trailing-slash-and-collapse normalisation, as a URL record. */
  function BaseRecord(backendUrl: string): UrlRecord
    requires IsBaseUrl(backendUrl)
  {
    NormaliseKeepsOrigin(backendUrl);
    ParseBase(Normalise(backendUrl)).value
  }

  /** Against any base, the report endpoint is the task endpoint followed by `/reports`. */
  lemma ReportUrlExtendsGetUrl(base: UrlRecord, taskId: string)
    requires IsAbsolutePathReference(TaskPath(taskId)) && IsAbsolutePathReference(ReportPath(taskId))
    ensures Serialize(Resolve(base, ReportPath(taskId))) == Serialize(Resolve(base, TaskPath(taskId))) + "/reports"
  {
    TaskPathText(taskId);
    var t := "/v1/pipelines/worker-tasks/" + taskId;
    assert PathOf(ReportPath(taskId)) == t + "/reports";
    assert base.scheme + "://" + base.authority + (t + "/reports") == base.scheme + "://" + base.authority + t + "/reports";
  }

  /** The constructor: the header, then both endpoints resolved against the normalised base. */
  function New(o: BackendApiOptions): (api: BackendApi)
    requires IsCoveredOptions(o)
    ensures api.reportUrl == api.getUrl + "/reports"
  {
    var base := BaseRecord(o.backendUrl);
    TaskPathIsReference(o.taskId);
    ReportUrlExtendsGetUrl(base, o.taskId);
    BackendApi(
      Authorization(o.workerName, o.secret),
      Serialize(Resolve(base, TaskPath(o.taskId))),
      Serialize(Resolve(base, ReportPath(o.taskId))))
  }

  /** The header carries the scheme name and decodes (Base64, then UTF-8) back to the credentials. */
  lemma AuthorizationDecodes(workerName: string, secret: string)
    ensures var h := Authorization(workerName, secret);
      && |h| >= 6 && h[..6] == "Basic "
      && Base64.Decode(h[6..]).Some?
      && Utf8.Decode(Base64.Decode(h[6..]).value) == Some(Credentials(workerName, secret))
  {
    var c := Credentials(workerName, secret);
    var h := Authorization(workerName, secret);
    assert h[6..] == Base64.Encode(Utf8.Encode(c));
    Base64.DecodeEncode(Utf8.Encode(c));
    Utf8.DecodeEncode(c);
  }

  /** A server's reading of decoded credentials: the user-id ends at the first colon. */
  function SplitCredentials(c: string): Option<(string, string)>
  {
    var i := IndexOf(c, ':');
    if i == |c| then None else Some((c[..i], c[i + 1..]))
  }

  /** When the worker name holds no colon, the server recovers exactly the name and the secret. */
  lemma CredentialsSplit(workerName: string, secret: string)
    requires forall j :: 0 <= j < |workerName| ==> workerName[j] != ':'
    ensures SplitCredentials(Credentials(workerName, secret)) == Some((workerName, secret))
  {
    var c := Credentials(workerName, secret);
    IndexOfAfter(workerName, ':', secret);
    assert c == workerName + [':'] + secret;
    assert c[..|workerName|] == workerName && c[|workerName| + 1..] == secret;
  }

  /**
   * The task endpoint is the base's scheme and authority followed by the task path: any path in
   * the backend URL is dropped, and the endpoint parses back to that record.
   */
  lemma GetUrlShape(o: BackendApiOptions)
    requires IsCoveredOptions(o)
    ensures var rec := ParseBase(o.backendUrl).value;
      && New(o).getUrl == rec.scheme + "://" + rec.authority + "/v1/pipelines/worker-tasks/" + o.taskId
      && ParseBase(New(o).getUrl) == Some(UrlRecord(rec.scheme, rec.authority, "/v1/pipelines/worker-tasks/" + o.taskId))
  {
    var rec := ParseBase(o.backendUrl).value;
    NormaliseKeepsOrigin(o.backendUrl);
    TaskPathIsReference(o.taskId);
    TaskPathText(o.taskId);
    var target := UrlRecord(rec.scheme, rec.authority, "/v1/pipelines/worker-tasks/" + o.taskId);
    assert New(o).getUrl == Serialize(target);
    ParseSerialize(target);
  }

  /** The report endpoint is the task endpoint followed by `/reports`, with the same origin. */
  lemma ReportUrlShape(o: BackendApiOptions)
    requires IsCoveredOptions(o)
    ensures var rec := ParseBase(o.backendUrl).value;
      ParseBase(New(o).reportUrl) == Some(UrlRecord(rec.scheme, rec.authority, "/v1/pipelines/worker-tasks/" + o.taskId + "/reports"))
  {
    var rec := ParseBase(o.backendUrl).value;
    NormaliseKeepsOrigin(o.backendUrl);
    TaskPathIsReference(o.taskId);
    TaskPathText(o.taskId);
    var target := UrlRecord(rec.scheme, rec.authority, "/v1/pipelines/worker-tasks/" + o.taskId + "/reports");
    assert New(o).reportUrl == Serialize(target);
    ParseSerialize(target);
  }
}
