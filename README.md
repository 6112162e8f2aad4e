# worker-common control-plane client, modelled in Dafny

This project models the client side of the Meta Network worker's control plane, from the
`worker-common` package. It covers:

- **`BackendApi`**. It derives three strings from the worker's options:
  - the HTTP Basic `Authorization` header, built from UTF-8 and then Base64 (RFC 4648, section 4);
  - the task endpoint;
  - the report endpoint.

  The endpoints come from a base URL normalised by the regular expression `/([^:]\/)\/+/g`. An
  absolute-path reference is then resolved against that base, as in section 5.2.2 of RFC 3986.
- **`ConfigService`**. It looks up a configuration value in three places, in order: the process
  environment, the internal configuration, then a default. Environment values are cached, and
  the cache is read only while a private flag is on.
- **The task utilities**:
  - the control-character filter;
  - `isUndefined`;
  - the three task-configuration classifiers;
  - the allowed-method check.
- **`BackendTaskService` and `BackendClient`**. Each call:
  - makes exactly one request;
  - builds the task-report record;
  - checks the payload of a fetched task;
  - wraps errors once with a fixed message.
- **Three parts of `LoggerService`**: the choice of log level, the crash report, and the exit
  sequence of `final`.

Module layout:

| module | contents |
|---|---|
| `Wrappers` | Option, Result and Outcome types. |
| `Values` | JavaScript values; objects are ordered field lists. Also `Error` text, truthiness, and lodash `get`/`set`/`has`. |
| `Text` | Decimal numerals and `JSON.stringify`. |
| `Utf8`, `Base64` | The two encodings behind the header. |
| `Urls` | The normalising regex, base-URL records, and reference resolution. |
| `Api` | `BackendApi`. |
| `Config` | `ConfigService`, a class whose cache is a field. |
| `Utils` | The utility functions. |
| `Transport` | Requests and replies; a response always has a 2xx status. |
| `Reports` | Report records and the JSON object sent for each. |
| `Logger` | The logger pieces. |
| `Backend` | `BackendTaskService`, a class. |
| `Client` | `BackendClient`, a class. |

Each service class records the requests it sent and the lines it logged as sequences. Each method
call appends to them. Outside inputs are parameters:

- the HTTP reply to a request;
- the clock (`Date.now()`);
- the environment (`process.env`, `DEBUG`, `LOG_LEVEL`);
- the directory `mkdtemp` creates.

## Model

| member | source | states |
|---|---|---|
| Values.PlainError | packages/worker-common/src/service/backend.ts:33 | `throw Error(m)` gives an error whose message is `m` and whose text is `Error: m`, or `Error` when `m` is empty. |
| Values.FindField | packages/worker-common/src/config/index.ts:122 | A read of an own property is defined exactly when some field has that key, and then it returns that field's value. |
| Values.PutThenFind | packages/worker-common/src/config/index.ts:130 | After `object[key] = value`, reading `key` gives `value`. |
| Values.PutKeepsOthers | packages/worker-common/src/config/index.ts:130 | Assigning one key leaves every other key's value unchanged. |
| Values.PutFieldSize | packages/worker-common/src/config/index.ts:130 | Assigning an existing key keeps the number of keys; a new key adds one. The existing keys keep their order. |
| Values.SetThenLookup | packages/worker-common/src/config/index.ts:126-131 | After lodash `set(obj, path, v)`, `get(obj, path)` is `v`. |
| Values.SetKeepsOtherBranches | packages/worker-common/src/config/index.ts:126-131 | `set` under one top-level key leaves `get` unchanged at every path under a different top-level key. |
| Values.SetKeepsStringTree | packages/worker-common/src/config/index.ts:113-114 | Setting a string anywhere in a tree of strings keeps it a tree of strings. |
| Values.LookupInStringTree | packages/worker-common/src/config/index.ts:96 | Whatever `get` finds in a tree of strings is a string or a tree of strings. |
| Text.NatText | packages/worker-common/src/service/backend.ts:57 | The decimal text of a status code is a canonical numeral, with no leading zero. |
| Text.NatTextValue | packages/worker-common/src/service/backend.ts:57 | Reading the decimal text back gives the number. |
| Text.ValueNatText | packages/worker-common/src/service/backend.ts:57 | Every canonical numeral is the text of its own value, so the text is unique. |
| Utf8.DecodeEncode | packages/worker-common/src/service/api.ts:8-10 | Decoding the UTF-8 encoding of any string gives back the string. |
| Utf8.EncodeDecode | packages/worker-common/src/service/api.ts:8-10 | Every byte sequence that decodes is the encoding of what it decodes to, so the encoding is one-to-one onto valid UTF-8. |
| Base64.EncodeShape | packages/worker-common/src/service/api.ts:8-10 | The encoding has 4·⌈n/3⌉ characters, all from the alphabet or the `=` pad. |
| Base64.DecodeEncode | packages/worker-common/src/service/api.ts:8-10 | Decoding the Base64 encoding of any bytes gives the bytes back. |
| Base64.EncodeDecode | packages/worker-common/src/service/api.ts:8-10 | Every text that decodes is the canonical encoding of its bytes. |
| Urls.DropSlashes | packages/worker-common/src/service/api.ts:11 | Dropping a run of slashes leaves a suffix of the input that does not start with `/`. |
| Urls.CollapseIsCollapsed | packages/worker-common/src/service/api.ts:11 | After the replacement, no non-`:` character is followed by two slashes. |
| Urls.CollapseIdempotent | packages/worker-common/src/service/api.ts:11 | Applying the normalising replacement twice is the same as applying it once. |
| Urls.CollapseRemovesOnlySlashes | packages/worker-common/src/service/api.ts:11 | The replacement removes slashes and nothing else: the other characters survive in order. |
| Urls.CollapseShrinks | packages/worker-common/src/service/api.ts:11 | The replacement never lengthens the text. |
| Urls.CollapseAfterPrefix | packages/worker-common/src/service/api.ts:11 | A prefix with no match passes through unchanged, and the rest is replaced on its own. |
| Urls.NormaliseKeepsOrigin | packages/worker-common/src/service/api.ts:11 | Appending `/` and collapsing keeps the scheme's `://` and the authority, and leaves a path starting with `/`. |
| Urls.ParseSerialize | packages/worker-common/src/service/api.ts:13-16 | Parsing a serialised base-URL record gives the record back. |
| Urls.SerializeParse | packages/worker-common/src/service/api.ts:13-16 | Serialising a parsed base URL gives the text back. |
| Urls.PathOfAppend | packages/worker-common/src/service/api.ts:18-21 | Adding one segment to a path appends `/` and that segment. |
| Api.TaskPathIsReference | packages/worker-common/src/service/api.ts:12-21 | Both endpoint paths are absolute-path references with no dot segments. |
| Api.TaskPathText | packages/worker-common/src/service/api.ts:12-21 | The paths are `/v1/pipelines/worker-tasks/{taskId}` and the same followed by `/reports`. |
| Api.New | packages/worker-common/src/service/api.ts:6-22 | The report endpoint is exactly the task endpoint followed by `/reports`. |
| Api.AuthorizationDecodes | packages/worker-common/src/service/api.ts:8-10 | The header starts with `Basic `, and the rest decodes (Base64, then UTF-8) to `workerName:secret`. |
| Api.CredentialsSplit | packages/worker-common/src/service/api.ts:8-10 | When the worker name has no colon, splitting the credentials at the first colon recovers the name and the secret. |
| Api.GetUrlShape | packages/worker-common/src/service/api.ts:11-16 | The task endpoint is the base's scheme and authority plus `/v1/pipelines/worker-tasks/{taskId}`. Any path in the backend URL is dropped, and the endpoint parses back to that record. |
| Api.ReportUrlShape | packages/worker-common/src/service/api.ts:11-21 | The report endpoint parses to the base's scheme and authority with the path `/v1/pipelines/worker-tasks/{taskId}/reports`. |
| Api.ReportUrlExtendsGetUrl | packages/worker-common/src/service/api.ts:13-21 | Whatever the base, the resolved report endpoint is the resolved task endpoint followed by `/reports`. |
| Config.ConfigService.constructor | packages/worker-common/src/config/index.ts:9-20 | The cache starts empty and the flag starts off. |
| Config.ConfigService.SetCacheEnabled | packages/worker-common/src/config/index.ts:11-13 | Sets the flag and nothing else. |
| Config.ConfigService.SetInCacheIfDefined | packages/worker-common/src/config/index.ts:126-131 | A defined value is `set` into the cache at the path; `undefined` leaves the cache as it was. |
| Config.ConfigService.GetFromProcessEnv | packages/worker-common/src/config/index.ts:102-117 | With the flag on and the path in the cache, the cached value or the default is returned and nothing is stored. Otherwise the environment value is returned, and stored when it is defined. |
| Config.ConfigService.Get | packages/worker-common/src/config/index.ts:66-90 | The result is the precedence chain over the state before the call. The cache keeps holding strings only, and with the flag on a cache hit answers with a string or a tree of strings. An undefined environment value leaves the cache unchanged. A freshly read environment value is afterwards found in the cache at the path. |
| Config.CacheAfterKeepsStrings | packages/worker-common/src/config/index.ts:113-114 | Whatever a lookup stores keeps the cache a tree of strings. |
| Config.EnvironmentFirst | packages/worker-common/src/config/index.ts:76-82 | A defined environment value wins, even the empty string. |
| Config.InternalSecond | packages/worker-common/src/config/index.ts:84-87 | With no environment value, a defined internal value wins over the default. |
| Config.DefaultLast | packages/worker-common/src/config/index.ts:71-74 | With neither, the effective default is returned. |
| Config.OptionsObjectIsNotDefault | packages/worker-common/src/config/index.ts:133-137 | A lone `{infer: truthy}` second argument is an options object and not a default, unless a third argument is given. An object with a second key is a default. |
| Config.CacheUnreadWhileDisabled | packages/worker-common/src/config/index.ts:106-112 | While the flag is off, the cache's contents never change a result. |
| Config.CachedValueSkipsEnvironment | packages/worker-common/src/config/index.ts:92-112 | With the flag on and the path cached, the cached value is returned whatever the environment holds. |
| Config.CachedAnswerIsString | packages/worker-common/src/config/index.ts:92-112 | With the flag on and a cache of strings, a hit answers with a string or a tree of strings, never a number, boolean or `null`. |
| Utils.RemoveControlCharactersIsOneFilter | packages/worker-common/src/utils/index.ts:4-8 | The two replacements together keep exactly the printable ASCII characters. |
| Utils.KeepPrintableOnlyPrintable | packages/worker-common/src/utils/index.ts:7 | Every character of the result is printable ASCII. |
| Utils.KeepPrintableCounts | packages/worker-common/src/utils/index.ts:4-8 | Each printable character occurs as often as in the input, and no other character occurs. |
| Utils.KeepPrintableSubsequence | packages/worker-common/src/utils/index.ts:4-8 | The result is a subsequence of the input, so order is kept. |
| Utils.PrintableUnchanged | packages/worker-common/src/utils/index.ts:4-8 | Text that is already printable ASCII is returned unchanged. |
| Utils.RemoveControlCharactersIdempotent | packages/worker-common/src/utils/index.ts:4-8 | Filtering twice is the same as filtering once. |
| Utils.UndefinedIsOnlyMissing | packages/worker-common/src/utils/index.ts:10-11 | Every undefined value is falsy. The `typeof` test and truthiness disagree exactly on the defined falsy values, which are `null`, `false`, `0` and `""`. |
| Utils.DeployExcludesPublish | packages/worker-common/src/utils/index.ts:17-42 | No configuration is both a deploy task and a publish task. |
| Utils.PublishExcludesPost | packages/worker-common/src/utils/index.ts:30-49 | No configuration is both a publish task and a post task. |
| Utils.PostShapedIsDeploy | packages/worker-common/src/utils/index.ts:17-28 | As written, a post-task configuration with the deploy fields is classified as a deploy task too. |
| Utils.ClassesExclusive | packages/worker-common/test/utils/index.ts:105-108 | With the corrected deploy classifier, the three classes are pairwise exclusive. |
| Utils.DeployShapedClassified | packages/worker-common/src/utils/index.ts:17-49 | A deploy-shaped configuration is a deploy task only. |
| Utils.PublishShapedClassified | packages/worker-common/src/utils/index.ts:30-49 | A publish-shaped configuration is a publish task only. |
| Utils.PostShapedClassified | packages/worker-common/test/utils/index.ts:105-108 | With the corrected classifier, a post-shaped configuration is a post task only, as the test expects. |
| Utils.CheckAllowedTasksFails | packages/worker-common/src/utils/index.ts:51-58 | The check fails exactly when the method is absent from the list. It then fails with `Task method {m} is not allowed or supported.` |
| Reports.ReportValueFields | packages/worker-common/src/service/backend.ts:45-49 | The object sent gives back the report's task id, reason name and timestamp. Its `data` is present exactly when the report has data. |
| Reports.ReportRequest | packages/worker-common/src/service/backend.ts:52-55 | A report is a PATCH to the report endpoint with the header, whose body carries the reason and the data. |
| Logger.ParseLevel | packages/worker-common/src/logger/index.ts:175-184 | A text denotes a level exactly when it is one of the seven names, and the level's name is that text. |
| Logger.ParseLevelName | packages/worker-common/src/logger/index.ts:175-183 | Each level's name parses back to that level. |
| Logger.MkLevel | packages/worker-common/src/logger/index.ts:173-189 | The result is always one of the seven levels. A valid `LOG_LEVEL` is kept. Otherwise the result is `debug` when `DEBUG` is truthy and `info` when not. |
| Logger.MkLevelIdempotent | packages/worker-common/src/logger/index.ts:173-189 | Choosing again from the chosen level gives the same level, whatever `DEBUG` is then. |
| Logger.EmptyDebugIsUnset | packages/worker-common/src/logger/index.ts:187 | An empty `DEBUG` chooses as an unset one does. |
| Logger.ExitCode | packages/worker-common/src/logger/index.ts:155-160 | The exit code is 1 exactly for an `Error` cause, and 0 exactly for a string. |
| Logger.FinalEndsBeforeExit | packages/worker-common/src/logger/index.ts:152-164 | `final` logs the cause first, as an error exactly when the code is 1, then the log directory. It then ends the logger and exits once, as its last step. |
| Logger.CrashReport | packages/worker-common/src/logger/index.ts:27-30 | The crash report, built from the handler's own object literal, is a PATCH to the report endpoint with the header. Its body reads back the task id, `ERRORED`, the crash time and the error as data. |
| Logger.CrashBodyIsErroredReport | packages/worker-common/src/logger/index.ts:29 | The handler's literal has the same keys, in the same order, with the same values as the body of the errored report carrying the error. The literal `'ERRORED'` is the enum's reason text. |
| Logger.LoggerService.constructor | packages/worker-common/src/logger/index.ts:16-21 | Chooses the level with `mkLevel` and logs where the files are saved. |
| Logger.LoggerService.ReportAppErrorStatus | packages/worker-common/src/logger/index.ts:24-36 | Always answers `true`, having sent the crash report once. Nothing else changes. |
| Logger.LoggerService.Final | packages/worker-common/src/logger/index.ts:152-164 | Sets the exit code for the cause and appends the exit events. |
| Backend.FetchOutcome | packages/worker-common/src/service/backend.ts:28-37 | A fetch succeeds exactly when a response came back with a truthy `data`, and then returns that `data`. A failure is the caught error wrapped with the fetch prefix. |
| Backend.MissingPayloadMessage | packages/worker-common/src/service/backend.ts:33-36 | A missing payload fails with `Get task config from backend failed, Error: Can not get task config from backend`. |
| Backend.ReportOutcome | packages/worker-common/src/service/backend.ts:51-64 | A report succeeds exactly when a response came back. Otherwise it fails with its own prefix and the caught error's text. |
| Backend.ReportFailuresDistinct | packages/worker-common/src/service/backend.ts:63-143 | The four reports' failure messages differ whatever their causes. |
| Backend.ReportedStatusReadable | packages/worker-common/src/service/backend.ts:56-61 | The status code can be read back exactly from the line a successful report logs. |
| Backend.CrashReportIsErroredReport | packages/worker-common/src/service/backend.ts:99-110 | The crash handler and `reportWorkerTaskErroredToBackend` build their requests separately. Given the error as data and the same time, they send the same request: same method, endpoint, header and body. |
| Backend.BackendTaskService.constructor | packages/worker-common/src/service/backend.ts:9-17 | Holds the derived endpoints, the header and the task id; nothing has been sent. |
| Backend.BackendTaskService.GetWorkerTaskFromBackend | packages/worker-common/src/service/backend.ts:23-38 | Logs once, sends one GET of the task endpoint with the header, and returns the fetch outcome. |
| Backend.BackendTaskService.Report | packages/worker-common/src/service/backend.ts:51-64 | Logs the announcement, sends the report once, and logs the status line only after a response. |
| Backend.BackendTaskService.ReportWorkerTaskStarted | packages/worker-common/src/service/backend.ts:40-65 | Sends one `STARTED` report without data, stamped with the given time. |
| Backend.BackendTaskService.ReportWorkerTaskFinished | packages/worker-common/src/service/backend.ts:67-92 | Sends one `FINISHED` report without data. |
| Backend.BackendTaskService.ReportWorkerTaskErrored | packages/worker-common/src/service/backend.ts:94-120 | Sends one `ERRORED` report carrying the given data. |
| Backend.BackendTaskService.ReportWorkerTaskHealthStatus | packages/worker-common/src/service/backend.ts:122-145 | Sends one `HEALTH_CHECK` report without data. |
| Client.DebugLines | packages/worker-common/src/service/client.ts:25-36 | At most one debug line, present exactly when `DEBUG` is truthy. |
| Client.DebugLineDescribesRequest | packages/worker-common/src/service/client.ts:27-33 | The debug line names `POST`, the URL and the JSON of the body. |
| Client.SendOutcome | packages/worker-common/src/service/client.ts:45-60 | `sendReport` returns the response itself exactly when one came back, and otherwise the annotated error. |
| Client.SendFailureKeepsMessageOnly | packages/worker-common/src/service/client.ts:57-58 | The failure message ends with the cause's message and does not depend on the cause's name. |
| Client.BackendClient.constructor | packages/worker-common/src/service/client.ts:13-19 | Holds the derived endpoints; nothing has been sent. |
| Client.BackendClient.GetTask | packages/worker-common/src/service/client.ts:38-43 | One GET of the task endpoint with the header; the reply is returned unchanged and nothing is logged. |
| Client.BackendClient.SendReport | packages/worker-common/src/service/client.ts:45-60 | One POST of the body, unchanged, to the report endpoint with the header. The debug line comes first when `DEBUG` is set, and the status line follows a response. |

## Left out

- **HTTP, async and time.** superagent, `await`, promise scheduling and `Date.now()` are not
  modelled. Each request is recorded in a list, and its reply and the time are call parameters.
  superagent rejects every non-2xx status, so such a status reaches the services as a failed reply.
  The status of a `Transport.Response` has the type `Transport.SuccessStatus` (200 to 299), so no
  reply in the model responds with any other status.
- **Winston.** The winston transports, the Loki sink, the log files, the console formats, colours,
  `NO_COLOR` and the `ENABLE_FORMAT_INFO` console output are left out. So are the metadata objects
  passed with log lines and `isProd`. A log is the sequence of lines handed to the logger.
- **`mkdtemp`.** The directory it creates is a parameter of the constructor.
- **Process control.** `process.exit` and `process.exitCode` are not modelled. The exit code and
  an `Exited` event are recorded instead.
- **`final` with no argument or `null`.** `final()` and `final(null)` spread `undefined`/`null` and throw. Neither is modelled, and
  a string cause is kept whole rather than spread into characters.
- **Crash-report delivery.** The crash report's `.then()` has no rejection handler, so a failed
  crash report becomes an unhandled rejection. Only the sending is modelled.
- **Numbers.** Numbers are integers; floating point is not modelled. Status codes and timestamps
  are natural numbers.
- **Lone surrogates.** JavaScript strings may hold lone surrogates, which `Buffer.from` encodes as
  U+FFFD. Dafny characters are Unicode scalar values, so the model has none.
- **URL parsing.** Full WHATWG URL parsing is not modelled: percent-encoding, host lowercasing,
  IPv4/IPv6 hosts, IDNA, default-port removal, and userinfo, query and fragment in the base. Api.New,
  Api.GetUrlShape and Api.ReportUrlShape therefore require the covered options:
  - an `http`/`https` base of the form `scheme://host[:port][/path]`, with a lowercase host
    of letters, digits, `-` and `.`;
  - a task id made of unreserved characters that is not `.` or `..`.
- **lodash paths.** Paths are given as segment lists. Not modelled: dotted or bracketed path
  strings, the whole-string-is-a-key shortcut, arrays, and string properties such as `length`.
  The environment is a flat map of strings, so only one-segment paths find a value in it.
- Values.FindField, Values.Lookup, Config.EnvLookup: only own fields are read. Properties inherited
  from `Object.prototype`, such as `constructor`, `toString` and `__proto__`, are not modelled. For
  such a key, lodash `get` on `process.env` or on the internal config returns a function, which
  counts as defined. The model returns `undefined` and falls through to the next source.
- Text.Json, Text.JsonFields: members are written in field (insertion) order. `JSON.stringify`
  writes integer-like keys such as `"1"` first, in ascending numeric order, and then the other keys
  in insertion order. That reordering is not modelled, so the debug line of `Client.DebugLines`
  can differ for a body with such keys.
- Config.ConfigService.Get: the cache flag is never turned on by the service itself. Its setter is
  modelled as `SetCacheEnabled`, but nothing in the package calls it.
- **Objects with no properties.** An `Error` value has no readable properties in the model, so
  `get` through one gives `undefined`. Its `JSON.stringify` is `{}`.
- Utils.IsDeployTask, Utils.IsPublishTask, Utils.IsPostTask: the source reads properties of `null` or `undefined` and throws. The model
  requires a defined, non-null configuration, and a missing configuration is not modelled.
- **Task-config types.** `packages/worker-common/src/types/index.ts` (compile-time typing) is not part of this model.
  Neither is `packages/worker-model` beyond the four report reasons.

## Findings

| source | as written | input that shows it | evidently intended | confidence | as-written member | corrected member |
|---|---|---|---|---|---|---|
| packages/worker-common/src/utils/index.ts:17-28 | `isDeployTask` checks `user`, `site`, `git` and `git.storage`, and never looks at `post`. | A post-task configuration (`task`, `user`, `site`, `git.storage`, `post`) is a deploy task, while the test at packages/worker-common/test/utils/index.ts:105-108 expects `false`. | A post configuration is not a deploy configuration. The deploy check (`IsDeployOnlyTask`) also requires `post` to be absent or falsy, which makes the three classes exclusive (`ClassesExclusive`). | not executed | Utils.PostShapedIsDeploy | Utils.PostShapedClassified |
