/**
 Dispatch of an Application-list request to the configured endpoint
 (src/app/api/mod.rs), and the endpoint that answers when none is
 configured. The Hetzner endpoint's implementation is not part of this
 model; the dispatcher takes it as a function of the state and the origin.
 */
module Endpoints {
  import opened AppState
  import Remote

  const NO_API_ENDPOINT: string := "No API endpoint configured"

  /**
   `Unconfigured::req_application_list`: exactly one error entry with the
   fixed message is appended after the earlier ones, the requesting origin
   stops loading while other origins stay, and nothing else changes — the
   list, the credential and the error-log flag included.
   */
  function RequestUnconfigured(app: App, origin: string, now: int): (r: App)
    ensures |r.errorLog| == |app.errorLog| + 1
    ensures r.errorLog[..|app.errorLog|] == app.errorLog
    ensures r.errorLog[|app.errorLog|] == Remote.Error(NO_API_ENDPOINT, r.errorLog[|app.errorLog|].ts)
    ensures r.errorLog[|app.errorLog|].ts.utc == now
    ensures origin !in r.remoteLoading
    ensures forall o :: o != origin ==> (o in r.remoteLoading <==> o in app.remoteLoading)
    ensures r.applicationList == app.applicationList && r.secret == app.secret
    ensures r.showErrorLog == app.showErrorLog
    ensures r.(errorLog := app.errorLog, remoteLoading := app.remoteLoading) == app
  {
    var logged := app.(errorLog := app.errorLog + [Remote.NewError(NO_API_ENDPOINT, now)]);
    UnsetLoading(logged, origin)
  }

  /** `App::req_application_list`: the request goes to whichever endpoint is configured. */
  function ReqApplicationList(app: App, origin: string, now: int, hcloud: (App, string) -> App): (r: App)
    ensures app.endpoint == Unconfigured ==> r == RequestUnconfigured(app, origin, now)
    ensures app.endpoint == Hcloud ==> r == hcloud(app, origin)
  {
    match app.endpoint
    case Unconfigured => RequestUnconfigured(app, origin, now)
    case Hcloud => hcloud(app, origin)
  }

  /** The default state has no endpoint, so its first request only logs the fixed message. */
  lemma DefaultRequestLogsNoEndpoint(key: Secrets.SharedKey, origin: string, now: int, hcloud: (App, string) -> App)
    ensures ReqApplicationList(Default(key), origin, now, hcloud).errorLog[0].error == NO_API_ENDPOINT
  {
  }
}
