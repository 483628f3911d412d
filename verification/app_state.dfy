/**
 The UI-owned application state and its transitions (src/app/mod.rs): the
 set of origins with a fetch in flight, the append-only error log, the
 last Application list, the credential, and the channel the fetch tasks
 send envelopes on, seen from its single consumer as a FIFO queue.
 */
module AppState {
  import opened Wrappers
  import opened Secrets
  import opened Remote

  /** Which API implementation requests go to (src/app/api/mod.rs). */
  datatype Endpoints = Unconfigured | Hcloud

  /** The API-preferences form: the edited token and whether the window is open. */
  datatype ApiPerfsData = ApiPerfsData(buf: string, open: bool)

  datatype App = App(
    localKey: SharedKey,
    endpoint: Endpoints,
    secret: Option<Secret>,
    applicationList: Option<RemoteData>,
    remoteLoading: set<string>,
    errorLog: seq<Error>,
    showErrorLog: bool,
    apiPerfs: ApiPerfsData,
    pending: seq<RemoteData>)

  /** The fields the app persists between runs; the others are skipped by serde. */
  datatype Stored = Stored(
    localKey: SharedKey,
    endpoint: Endpoints,
    secret: Option<Secret>,
    applicationList: Option<RemoteData>)

  /**
   `Default`: nothing loading, nothing logged, no list, no credential, no
   endpoint, the error log hidden and the form closed and empty. The key
   the source generates here is a parameter.
   */
  function Default(generatedKey: SharedKey): (r: App)
    ensures r.localKey == generatedKey
    ensures r.remoteLoading == {} && r.errorLog == [] && r.pending == []
    ensures r.applicationList.None? && r.secret.None?
    ensures r.endpoint == Unconfigured && !r.showErrorLog
    ensures r.apiPerfs == ApiPerfsData("", false)
  {
    App(generatedKey, Unconfigured, None, None, {}, [], false, ApiPerfsData("", false), [])
  }

  /** `set_loading`: the origin is now loading; no other origin changes; nothing else changes. */
  function SetLoading(app: App, origin: string): (r: App)
    ensures origin in r.remoteLoading
    ensures forall o :: o != origin ==> (o in r.remoteLoading <==> o in app.remoteLoading)
    ensures r.(remoteLoading := app.remoteLoading) == app
  {
    app.(remoteLoading := app.remoteLoading + {origin})
  }

  /** `unset_loading`: the origin is no longer loading; no other origin changes; nothing else changes. */
  function UnsetLoading(app: App, origin: string): (r: App)
    ensures origin !in r.remoteLoading
    ensures forall o :: o != origin ==> (o in r.remoteLoading <==> o in app.remoteLoading)
    ensures r.(remoteLoading := app.remoteLoading) == app
  {
    app.(remoteLoading := app.remoteLoading - {origin})
  }

  /**
   `handle_incoming_remote`. An Application list replaces the last one and
   clears its origin. An error appends exactly one entry, with the
   envelope's message and time, at the end of the log, clears its origin
   and shows the log. Either way the origin is cleared and the credential,
   endpoint, form and channel stay as they are.
   */
  function HandleIncomingRemote(app: App, remote: RemoteData): (r: App)
    ensures remote.origin !in r.remoteLoading
    ensures forall o :: o != remote.origin ==> (o in r.remoteLoading <==> o in app.remoteLoading)
    ensures remote.data.Applications? ==>
      && r.applicationList == Some(remote)
      && r.errorLog == app.errorLog
      && r.showErrorLog == app.showErrorLog
    ensures remote.data.ErrorMessage? ==>
      && r.errorLog == app.errorLog + [Error(remote.data.message, remote.updatedAt)]
      && r.showErrorLog
      && r.applicationList == app.applicationList
    ensures r.(remoteLoading := app.remoteLoading, applicationList := app.applicationList,
               errorLog := app.errorLog, showErrorLog := app.showErrorLog) == app
  {
    match remote.data
    case Applications(_) =>
      var unset := UnsetLoading(app, remote.origin);
      unset.(applicationList := Some(remote))
    case ErrorMessage(e) =>
      var logged := app.(errorLog := app.errorLog + [Error(e, remote.updatedAt)]);
      var unset := UnsetLoading(logged, remote.origin);
      unset.(showErrorLog := true)
  }

  /** `Sender::send`: the envelope joins the back of the channel. */
  function Send(app: App, remote: RemoteData): (r: App)
    ensures r.pending == app.pending + [remote]
    ensures r.(pending := app.pending) == app
  {
    app.(pending := app.pending + [remote])
  }

  /**
   The one `try_recv` of `update`: with nothing pending the state is
   unchanged; otherwise exactly the oldest envelope is taken off the
   channel and handled, and the rest stay queued in order.
   */
  function Update(app: App): (r: App)
    ensures app.pending == [] ==> r == app
    ensures app.pending != [] ==>
      && r.pending == app.pending[1..]
      && r == HandleIncomingRemote(app.(pending := app.pending[1..]), app.pending[0])
  {
    if app.pending == [] then app
    else HandleIncomingRemote(app.(pending := app.pending[1..]), app.pending[0])
  }

  /** `update` called `n` times in a row, UI drawing aside. */
  function UpdateTimes(app: App, n: nat): App
    decreases n
  {
    if n == 0 then app else UpdateTimes(Update(app), n - 1)
  }

  /** The error-log entries the error envelopes among `queue` produce, in queue order. */
  function ErrorEntries(queue: seq<RemoteData>): seq<Error>
    decreases |queue|
  {
    if queue == [] then []
    else
      (match queue[0].data
       case ErrorMessage(e) => [Error(e, queue[0].updatedAt)]
       case Applications(_) => [])
        + ErrorEntries(queue[1..])
  }

  /**
   Draining the channel, one envelope per `update`, handles the envelopes
   in the order they were sent: the log gains one entry per error envelope,
   in that order, and nothing is left pending.
   */
  lemma {:induction false} DrainInOrder(app: App)
    ensures UpdateTimes(app, |app.pending|).pending == []
    ensures UpdateTimes(app, |app.pending|).errorLog == app.errorLog + ErrorEntries(app.pending)
    decreases |app.pending|
  {
    if app.pending != [] {
      var next := Update(app);
      DrainInOrder(next);
      assert next.pending == app.pending[1..];
    }
  }

  /** A fetch cycle for one origin: marked loading, then its envelope arrives; the origin ends idle. */
  lemma FetchCycleEndsIdle(app: App, remote: RemoteData)
    requires app.pending == []
    ensures var busy := SetLoading(app, remote.origin);
      remote.origin in busy.remoteLoading
      && remote.origin !in Update(Send(busy, remote)).remoteLoading
      && Update(Send(busy, remote)).pending == []
  {
    var busy := SetLoading(app, remote.origin);
    assert Send(busy, remote).pending == [remote];
  }

  /**
   `save`: the credential is encrypted before the state is handed to
   storage, so the stored credential is absent or ciphertext, never
   cleartext. The in-memory credential is replaced by the same ciphertext.
   */
  function Save(app: App, c: Cipher): (r: (App, Stored))
    ensures r.1.secret.None? || r.1.secret.value.Encrypted?
    ensures r.1.secret.None? <==> app.secret.None?
    ensures r.0.secret == r.1.secret
    ensures app.secret.Some? ==> r.1.secret == Some(Encrypt(app.secret.value, app.localKey, c))
    ensures r.0.(secret := app.secret) == app
    ensures r.1 == Stored(app.localKey, app.endpoint, r.1.secret, app.applicationList)
  {
    var app' := match app.secret
      case Some(secret) => app.(secret := Some(Encrypt(secret, app.localKey, c)))
      case None => app;
    (app', Stored(app'.localKey, app'.endpoint, app'.secret, app'.applicationList))
  }

  /** The state read back from storage: persisted fields restored, skipped ones at their defaults. */
  function Restore(st: Stored, generatedKey: SharedKey): (r: App)
    ensures Stored(r.localKey, r.endpoint, r.secret, r.applicationList) == st
    ensures r.remoteLoading == {} && r.errorLog == [] && r.pending == []
    ensures !r.showErrorLog && r.apiPerfs == ApiPerfsData("", false)
  {
    Default(generatedKey).(localKey := st.localKey, endpoint := st.endpoint, secret := st.secret,
                           applicationList := st.applicationList)
  }

  /**
   `new`: without storage, or with nothing stored, the default state.
   Otherwise the stored state, and when it holds a credential that
   credential is decrypted with the stored key and the endpoint becomes
   `Hcloud`; a ciphertext that fails to decrypt is an error where the
   source panics.
   */
  function New(storage: Option<Option<Stored>>, generatedKey: SharedKey, c: Cipher): (r: Result<App, CryptoError>)
    ensures (storage.None? || storage.value.None?) ==> r == Success(Default(generatedKey))
    ensures storage.Some? && storage.value.Some? && storage.value.value.secret.None? ==>
      r == Success(Restore(storage.value.value, generatedKey))
    ensures storage.Some? && storage.value.Some? && storage.value.value.secret.Some? ==>
      var st := storage.value.value;
      var clear := Decrypt(st.secret.value, st.localKey, c);
      && (r.Failure? <==> clear.Failure?)
      && (r.Failure? ==> r.error == clear.error)
      && (r.Success? ==> r.value == Restore(st, generatedKey).(secret := Some(clear.value), endpoint := Hcloud))
    ensures r.Success? && r.value.secret.Some? ==> r.value.secret.value.Unencrypted? && r.value.endpoint == Hcloud
  {
    match storage
    case None => Success(Default(generatedKey))
    case Some(stored) =>
      var loaded := match stored
        case None => Default(generatedKey)
        case Some(st) => Restore(st, generatedKey);
      match loaded.secret
      case None => Success(loaded)
      case Some(secret) =>
        match Decrypt(secret, loaded.localKey, c)
        case Failure(e) => Failure(e)
        case Success(clear) => Success(loaded.(secret := Some(clear), endpoint := Hcloud))
  }

  /**
   Saving and loading again with a cipher that round-trips gives back the
   cleartext credential and the stored key and list; a credential makes
   the endpoint `Hcloud`, and without one the endpoint is the saved one.
   */
  lemma SaveThenNew(app: App, generatedKey: SharedKey, c: Cipher)
    requires RoundTrips(c)
    requires app.secret.None? || app.secret.value.Unencrypted?
    ensures var loaded := New(Some(Some(Save(app, c).1)), generatedKey, c);
      && loaded.Success?
      && loaded.value.secret == app.secret
      && loaded.value.localKey == app.localKey
      && loaded.value.applicationList == app.applicationList
      && loaded.value.endpoint == (if app.secret.Some? then Hcloud else app.endpoint)
  {
    if app.secret.Some? {
      RoundTrip(app.secret.value.key, app.localKey, c);
    }
  }

  /** Saving twice stores what saving once stores. */
  lemma SaveIdempotent(app: App, c: Cipher)
    ensures Save(Save(app, c).0, c) == Save(app, c)
  {
  }
}
