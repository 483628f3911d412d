# server-cruncher core, modelled in Dafny

server-cruncher is a desktop dashboard for a cloud provider. It fetches the
server list and the image list in the background and reconciles them into
*Applications*: each server together with the snapshots made from it. The
fetched result, or an error, reaches the UI thread on a channel. An encrypted
API token is kept between runs. This project models the sequential logic
around that fetch loop as immutable datatypes and pure functions:

- **Reconciliation** (`Application`, src/utils/application.rs). The
  Application builders and `generate_application_list` are modelled. The
  process-wide id counter is threaded through explicitly: a counter goes in
  and the bumped counter comes out. Besides the function itself there is a
  reference description of the whole output. It lists the server
  Applications in order, each holding every snapshot made from a server of
  its name. After them come the Applications that unclaimed snapshots
  seed, each built at once with the later snapshots that join it
  (`NewApps`, `Matching`). `GenerateApplicationListSpec` proves that the
  loop produces exactly this output.
- **Relative-age labels**. The whole-second label is in `Timestamp`
  (src/utils/timestamp.rs). The older millisecond envelope is in
  `LegacyRemoteData` (src/utils.rs). Rust's truncating `/` and `%` are
  modelled in `Trunc`. Decimal rendering, the shared four-way label choice
  and a recogniser for the label shape `^(((\d+h )?\d+m )?\d+s ago|Just now)$`
  are in `Format`. Each label is proved equal to a reference reading by
  ranges of elapsed time, negative elapsed time included.
- **Credential at rest** (`Secrets`, src/utils/secret.rs). `encrypt` and
  `decrypt` are modelled over an abstract cipher. A decryption failure is an
  error result where the source panics.
- **Application state** (`AppState`, src/app/mod.rs). It covers the
  loading set, the append-only error log, envelope handling, the channel as
  a FIFO queue drained by one envelope per `update`, encryption on save and
  decryption on load. The envelope and error-log types are in `Remote`
  (src/utils/mod.rs). The envelope carries the `origin` field that
  src/app/mod.rs reads.
- **Request paths**. The endpoint dispatch and the unconfigured endpoint
  are in `Endpoints` (src/app/api/mod.rs). The older credential gate and
  result combination are in `LegacyApi` (src/app/api.rs).
- **API-preferences form**. The form on the app state is in `ApiPrefs`
  (src/app/components/api_prefs_window.rs). The older stand-alone
  component is in `LegacyApiPrefs` (src/components/api_prefs_window.rs).

The repository mixes versions that cannot be built together (src/app.rs and
src/app/mod.rs, src/utils.rs and src/utils/mod.rs, src/app/api.rs and
src/app/api/mod.rs). Each file is modelled on its own terms, and the older
versions live in the `Legacy*` modules.

Three facts about the code shape the reconciliation model:

- A snapshot is added to **every** Application whose name equals the name
  of the server it was created from. The inner loop at
  src/utils/application.rs:107-112 uses `continue`, so the scan never
  stops, although the comment at src/utils/application.rs:113 says
  "Break". `SnapshotJoinsEveryNamesake` shows two same-named servers both
  receiving the snapshot.
- Names and statuses are only guaranteed to be `Some`: a server name may
  be the empty string. `IdsAndFields` therefore proves `Some`, not
  non-emptiness.
- Placeholder names `"unnamed {id}"` embed the id. Ids come from the
  counter in output order, so two placeholder names produced by one call
  never coincide. A server or image may still be named `"unnamed 3"` by
  its owner.

## Model

| member | source | states |
|---|---|---|
| Application.GetId | src/utils/application.rs:83-87 | the id is the current counter value and the counter is bumped by one |
| Application.TwoGetIdsLoadsFirst | src/utils/application.rs:75-87 | as written, `get_id` loads and bumps in two steps, so two tasks that both load before either bumps draw the same id while the counter advances by two |
| Application.TwoGetIdsAtomic | src/utils/application.rs:83-86 | with the read and the bump as one atomic step, two callers get the two distinct ids counter and counter+1 in either order, and the counter advances by two |
| Application.New | src/utils/application.rs:15-23 | a new Application takes its id from the counter and has no name, status, images or servers; the counter advances by one |
| Application.WithServer | src/utils/application.rs:25-31 | the Application is named after the server, its status is the server status's debug text, and the server is its only server; id and images are kept |
| Application.WithImage | src/utils/application.rs:33-46 | the Application is named after the image, or `"unnamed {id}"` if the image has no name; its status is the image status's debug text and the image is its only image |
| Application.AddImage | src/utils/application.rs:62-72 | the image is appended after the images already held, which stay; the images field is then present and nothing else changes |
| Application.IsImageRelated | src/utils/application.rs:48-60 | true exactly when the image was created from a server whose name equals the Application's name; then the image is added, otherwise the Application is unchanged |
| Application.AttachAll | src/utils/application.rs:106-112 | the scan adds the image to every Application of the matching name, leaves the others unchanged, keeps the length, and reports whether any matched |
| Application.Step | src/utils/application.rs:100-120 | a non-snapshot changes nothing; a snapshot claimed by an existing name joins every such Application and creates none; any other snapshot appends one new Application with the next id |
| Application.SeedServers | src/utils/application.rs:93-98 | one Application per server, in server order, with consecutive ids from the counter; the counter advances by the number of servers |
| Application.ProcessImagesSpec | src/utils/application.rs:100-122 | after the image loop, each earlier Application holds exactly the matching snapshots in order; after them come the Applications of the unclaimed snapshots, as the reference describes, and the counter advances by their number |
| Application.GenerateApplicationListSpec | src/utils/application.rs:89-123 | the output is the server Applications with their matching snapshots, then the unclaimed snapshots' Applications; its length is the number of servers plus the number of snapshots no earlier name claimed |
| Application.IdsAndFields | src/utils/application.rs:15-22 | ids are the counter, counter+1, … in output order, so they strictly increase; the counter advances by the output length; every Application has a name and a status |
| Application.ServerAppsFirst | src/utils/application.rs:95-98 | the first |servers| outputs are the servers in order, each named after and holding its server; images are absent unless some snapshot was made from that name, and then they are all such snapshots in order |
| Application.NonSnapshotsIgnored | src/utils/application.rs:100-104 | removing every non-snapshot image from the input leaves the output and the counter unchanged |
| Application.UnnamedNamesDistinct | src/utils/application.rs:36-37 | no two Applications of one call get the same placeholder name |
| Application.SnapshotJoinsEveryNamesake | src/utils/application.rs:106-116 | with two servers of one name and a snapshot made from that name, both Applications receive the snapshot and no third is created |
| Application.UnnamedSnapshotSeedsOne | src/utils/application.rs:114-119 | a snapshot with neither a name nor a source seeds exactly one Application, named `"unnamed {counter}"`, holding it and no server |
| Application.ThreeServersThreeImages | src/utils/application.rs:89-123 | three servers, a snapshot of the first, an unrelated named snapshot and a system image give four Applications: the first holds its snapshot and the last is the unrelated snapshot's |
| Format.IntToStringReadsBack | src/utils/timestamp.rs:21-23 | the `{}` rendering of an i64 reads back: digits denoting a non-negative number, or a minus sign then digits denoting the magnitude of a negative one |
| Format.NatToStringInjective | src/utils/application.rs:37 | distinct counter values render to distinct decimal strings |
| Format.AgeLabelShape | src/utils/timestamp.rs:84-89 | when hours, minutes and seconds share one sign, the label is "Just now" or matches `((\d+h )?\d+m )?\d+s ago` |
| Trunc.Quot | src/utils/timestamp.rs:15-16 | Rust's `/` by a positive divisor rounds toward zero: for a non-negative dividend the quotient is the largest q with b·q ≤ a, for a negative one the smallest q with a ≤ b·q, and its sign follows the dividend |
| Trunc.Rem | src/utils/timestamp.rs:14-15 | Rust's `%` by a positive divisor: dividend = divisor·quotient + remainder, and the remainder lies in 0..b-1 for a non-negative dividend and in -(b-1)..0 for a negative one |
| Timestamp.GetSmh | src/utils/timestamp.rs:12-18 | hours·3600 + minutes·60 + seconds is the elapsed time; for non-negative elapsed time seconds and minutes lie in 0..59; for negative elapsed time all three are at most zero |
| Timestamp.ToStringWithDtIsReference | src/utils/timestamp.rs:19-26 | the label is "Just now" up to 5 s, then "{s}s ago" below a minute, then "{m}m {s}s ago" below an hour, then "{h}h {m}m {s}s ago" |
| Timestamp.NegativeIsJustNow | src/utils/timestamp.rs:13-24 | a stamp later than the reading time gives "Just now" |
| Timestamp.ToStringWithDtShape | src/utils/timestamp.rs:85-89 | every label matches `^(((\d+h )?\d+m )?\d+s ago|Just now)$` |
| Timestamp.GetSmhExample | src/utils/timestamp.rs:41-55 | 1 h 2 min 3 s elapsed splits into (3, 2, 1) |
| Timestamp.JustNowExample | src/utils/timestamp.rs:57-60 | zero elapsed time gives "Just now" |
| Timestamp.SecondsExample | src/utils/timestamp.rs:62-66 | 7 s gives "7s ago" |
| Timestamp.MinutesExample | src/utils/timestamp.rs:68-72 | 5 min gives "5m 0s ago" |
| Timestamp.HoursExample | src/utils/timestamp.rs:74-81 | 3 h 4 min 1 s gives "3h 4m 1s ago" |
| LegacyRemoteData.New | src/utils.rs:24-33 | a new envelope keeps its data, is stamped now, has no components and is labelled "Just now" |
| LegacyRemoteData.UpdateInnerTiming | src/utils.rs:35-47 | all three components become present; for non-negative elapsed ms, h·3600000 + m·60000 + s·1000 ≤ d < that + 1000 with m and s in 0..59; for negative elapsed time all are at most zero; data, stamp and label are kept |
| LegacyRemoteData.GenerateUpdateLabel | src/utils.rs:49-75 | after labelling all three components are present and neither data nor stamp changes |
| LegacyRemoteData.GenerateUpdateLabelIsReference | src/utils.rs:52-71 | the label is "Just now" below 6 s, then seconds below a minute, then minutes and seconds below an hour, then hours, minutes and seconds |
| LegacyRemoteData.GenerateUpdateLabelCases | src/utils.rs:52-72 | hours > 0 gives the h/m/s label; hours 0 and minutes > 0 the m/s label; both 0 and seconds > 5 the s label; otherwise "Just now" |
| LegacyRemoteData.NegativeIsJustNow | src/utils.rs:36-71 | a stamp later than the reading time gives "Just now" |
| LegacyRemoteData.GenerateUpdateLabelShape | src/utils.rs:58-71 | the stored label is "Just now" or matches `((\d+h )?\d+m )?\d+s ago` |
| Secrets.Encrypt | src/utils/secret.rs:19-27 | a cleartext becomes the ciphertext of its token; a ciphertext is returned unchanged; the result is always a ciphertext |
| Secrets.Decrypt | src/utils/secret.rs:29-35 | a cleartext is returned unchanged; a ciphertext becomes the cleartext of the token its bytes decrypt to under the key, or fails exactly when the bytes do not decrypt |
| Secrets.EncryptIdempotent | src/utils/secret.rs:25 | encrypting twice gives the same as encrypting once |
| Secrets.DecryptIdempotent | src/utils/secret.rs:33 | decrypting a successful decryption again changes nothing |
| Secrets.RoundTrip | src/utils/secret.rs:66-78 | with a cipher that round-trips and the same key, decrypting an encrypted token gives back that token |
| Remote.NewRemoteData | src/utils/mod.rs:15-21 | the envelope keeps its data and origin and is stamped with the current time |
| Remote.NewError | src/app/api/mod.rs:25 | an error-log entry carries the given message and the time passed in |
| AppState.Default | src/app/mod.rs:44-61 | nothing is loading or logged, there is no list and no credential, the endpoint is Unconfigured, the error log is hidden and the form is closed and empty |
| AppState.Send | src/app/api.rs:22-34 | a sent envelope joins the back of the channel after the ones already pending; nothing else changes |
| AppState.SetLoading | src/app/mod.rs:139-141 | the origin becomes loading; no other origin and no other field changes |
| AppState.UnsetLoading | src/app/mod.rs:142-144 | the origin stops loading; no other origin and no other field changes |
| AppState.HandleIncomingRemote | src/app/mod.rs:145-160 | a list replaces the last list and leaves the log alone; an error appends one entry with its message and time and shows the log, leaving the list alone; the origin is cleared either way |
| AppState.Update | src/app/mod.rs:120-122 | with nothing pending, nothing changes; otherwise only the oldest pending envelope is taken off and handled, and the rest stay queued in order |
| AppState.DrainInOrder | src/app/mod.rs:120-122 | draining the channel one envelope per update leaves nothing pending and appends the error entries in sending order |
| AppState.FetchCycleEndsIdle | src/app/mod.rs:139-160 | an origin marked loading is no longer loading once its envelope has been received and handled |
| AppState.Save | src/app/mod.rs:89-95 | the credential handed to storage is absent or ciphertext, never cleartext: it is the app's credential encrypted under the app's key, so a cleartext is sealed and a ciphertext kept as it is; the in-memory credential becomes the same ciphertext and nothing else changes |
| AppState.SaveIdempotent | src/app/mod.rs:89-94 | saving twice stores the same as saving once |
| AppState.Restore | src/app/mod.rs:17-42 | the persisted fields (key, endpoint, credential, list) come back as stored; the serde-skipped ones (loading set, error log, log flag, form, channel) are at their defaults |
| AppState.New | src/app/mod.rs:65-84 | without storage or stored state, the default state is used; with a stored credential the result fails exactly when the stored ciphertext fails to decrypt under the stored key, with that error, and otherwise is the restored state holding the decrypted credential with the endpoint set to Hcloud; without a credential the restored state with its stored endpoint |
| AppState.SaveThenNew | src/app/mod.rs:71-94 | loading what was saved gives back the cleartext credential, key and list; the endpoint is Hcloud if there is a credential and the saved endpoint if not |
| Endpoints.RequestUnconfigured | src/app/api/mod.rs:23-28 | exactly one entry "No API endpoint configured", stamped now, is appended after the earlier ones; the origin stops loading, other origins stay, and the list, credential and log flag are unchanged |
| Endpoints.ReqApplicationList | src/app/api/mod.rs:30-35 | the request goes to the endpoint the state has configured |
| Endpoints.DefaultRequestLogsNoEndpoint | src/app/api/mod.rs:43-50 | a request from the default state logs "No API endpoint configured" as the first entry |
| LegacyApi.ReqApplicationList | src/app/api.rs:8-37 | only a cleartext credential starts a task, which uses that token; it sends the server error if the server fetch failed, else the image error if the image fetch failed, else the reconciled list; otherwise "No valid Api configuration" is sent; exactly one payload every time |
| LegacyApi.SuccessListsEveryServer | src/app/api.rs:25-27 | when both fetches succeed, the payload starts with one Application per server, named after it |
| ApiPrefs.OpenApiPerfsWindow | src/app/components/api_prefs_window.rs:34-42 | an open window is unchanged; a closed one opens with the cleartext token in the buffer, or an empty buffer when the credential is absent or encrypted; nothing outside the form changes |
| ApiPrefs.EnableSubmit | src/app/components/api_prefs_window.rs:44-46 | submit is enabled exactly when the buffer is non-empty |
| ApiPrefs.Submit | src/app/components/api_prefs_window.rs:48-51 | the credential becomes the buffer as cleartext and the window closes; the buffer and everything else are unchanged |
| ApiPrefs.SubmitThenOpen | src/app/components/api_prefs_window.rs:34-51 | reopening after a submit shows the submitted token |
| ApiPrefs.SaveThenOpenShowsEmpty | src/app/components/api_prefs_window.rs:36-39 | after a save the credential is ciphertext, so reopening the closed form shows an empty buffer |
| LegacyApiPrefs.Open | src/components/api_prefs_window.rs:34-42 | an open component is unchanged; a closed one opens with the cleartext token, or an empty buffer when the credential is absent or encrypted |
| LegacyApiPrefs.EnableSubmit | src/components/api_prefs_window.rs:44-46 | submit is enabled exactly when the buffer is non-empty |
| LegacyApiPrefs.Submit | src/components/api_prefs_window.rs:20-23 | the credential is replaced by the buffer as cleartext, and the component closes keeping its buffer |
| LegacyApiPrefs.SubmitThenOpen | src/components/api_prefs_window.rs:20-41 | reopening after a submit shows the submitted token |

## Left out

- Drawing: panels, menus, windows and status bars, including `draw_api_perfs_window`, the other window components and the rest of `update`. These are UI layout code.
- Concurrency: `tokio::spawn`, the mpsc channel's threads and `request_repaint` are not modelled. Only the channel's FIFO single-consumer view is kept, as `AppState.pending`. `LegacyApi` reports whether a task starts and what it sends, not when it runs.
- The HTTP fetches and the Hetzner endpoint (src/app/api/hetzner.rs) are foreign calls. `LegacyApi` takes the fetch results as inputs, and `Endpoints.ReqApplicationList` takes the Hcloud endpoint as a function. The API client's models are reduced to the fields reconciliation reads.
- The cipher (serde_encrypt with bincode) and key generation are not modelled. The cipher is a pair of functions, and its round trip is the stated hypothesis `Secrets.RoundTrips`. The generated key is a parameter.
- Secrets.Encrypt: encryption is total. The source unwraps a possible encryption error and would panic, which the model does not represent.
- Remote.NewError: `Error::new` is called at src/app/api/mod.rs:25 but its definition is not part of this model. That it stamps the entry with the current time is an assumption, taken from `RemoteData::new` (src/utils/mod.rs:15-21).
- Application.GetId / Application.IdsAndFields: the counter is threaded through one `generate_application_list` call at a time. The source's `get_id` is not atomic (a `load`, then a separate `fetch_add`, src/utils/application.rs:83-86), and each request spawns its own task (src/app/api.rs:13). Two calls in flight together can therefore draw the same id, and a call can skip ids another call took. "Ids are counter, counter+1, …", "the counter advances by the output length" and uniqueness of ids across calls hold only for a call that runs alone. See "## Findings".
- Reading the clock: `Utc::now()` is replaced by a `now` parameter.
- Persistence: eframe's `get_value`/`set_value` are not modelled. Only the transformation of the credential and the persisted fields (`AppState.Stored`) are kept. Serde's per-field defaults for missing fields are not modelled.
- Integer widths: the usize counter and the i64 timestamps are unbounded integers, so wrap-around at 2^64 and i64 overflow of extreme timestamps are not represented.
- Old scaffold: src/app.rs and src/api.rs are superseded. Their logic is the environment-variable token, floating-point UI state and I/O.
- The status bar's button (src/app/components/status_bar.rs) treats the loading set as a boolean and does not type-check, so it is not modelled.

## Findings

| source | as written | input that shows it | evidently intended | confidence | as-written member | corrected member |
|---|---|---|---|---|---|---|
| src/utils/application.rs:83-86 | `get_id` reads the counter with `load` and bumps it with a separate `fetch_add` | two fetch tasks (src/app/api.rs:13) reconcile at once, and both load the counter, say 5, before either bumps it: both Applications get id 5 | one `COUNTER.fetch_add(1, SeqCst)` whose returned previous value is the id, so ids never repeat | medium; not executed | Application.TwoGetIdsLoadsFirst | Application.TwoGetIdsAtomic |
