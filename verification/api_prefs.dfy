/**
 The API-preferences form on the application state
 (src/app/components/api_prefs_window.rs): opening it fills the buffer
 from a cleartext credential, and submitting stores the buffer as the
 cleartext credential. Drawing the window is not modelled.
 */
module ApiPrefs {
  import opened Wrappers
  import opened Secrets
  import opened AppState

  /**
   `open_api_perfs_window`. An open window is left as it is. A closed one
   opens with the cleartext token in the buffer, or with an empty buffer
   when the credential is absent or encrypted, so ciphertext never reaches
   the buffer. Nothing outside the form changes.
   */
  function OpenApiPerfsWindow(app: App): (r: App)
    ensures app.apiPerfs.open ==> r == app
    ensures !app.apiPerfs.open ==> r.apiPerfs.open
    ensures !app.apiPerfs.open && app.secret.Some? && app.secret.value.Unencrypted? ==>
      r.apiPerfs.buf == app.secret.value.key.token
    ensures !app.apiPerfs.open && (app.secret.None? || app.secret.value.Encrypted?) ==>
      r.apiPerfs.buf == ""
    ensures r.(apiPerfs := app.apiPerfs) == app
  {
    if !app.apiPerfs.open then
      var buf := match app.secret
        case Some(Unencrypted(Key(token))) => token
        case _ => "";
      app.(apiPerfs := ApiPerfsData(buf, true))
    else app
  }

  /** `enable_submit`: the Submit button is enabled exactly when the buffer is non-empty. */
  function EnableSubmit(app: App): (r: bool)
    ensures r <==> |app.apiPerfs.buf| > 0
  {
    app.apiPerfs.buf != ""
  }

  /**
   `submit`: the buffer becomes the cleartext credential and the window
   closes; the buffer itself and everything else stay.
   */
  function Submit(app: App): (r: App)
    ensures r.secret == Some(Unencrypted(Key(app.apiPerfs.buf)))
    ensures !r.apiPerfs.open && r.apiPerfs.buf == app.apiPerfs.buf
    ensures r.(secret := app.secret, apiPerfs := app.apiPerfs) == app
  {
    app.(secret := Some(Unencrypted(Key(app.apiPerfs.buf))), apiPerfs := app.apiPerfs.(open := false))
  }

  /** Reopening the form after a submit shows the token just submitted. */
  lemma SubmitThenOpen(app: App)
    ensures OpenApiPerfsWindow(Submit(app)).apiPerfs == ApiPerfsData(app.apiPerfs.buf, true)
    ensures OpenApiPerfsWindow(Submit(app)).secret == Some(Unencrypted(Key(app.apiPerfs.buf)))
  {
  }

  /**
   After a save the in-memory credential is ciphertext, so reopening the
   form shows an empty buffer rather than the token.
   */
  lemma SaveThenOpenShowsEmpty(app: App, c: Cipher)
    requires !app.apiPerfs.open
    ensures OpenApiPerfsWindow(Save(app, c).0).apiPerfs == ApiPerfsData("", true)
  {
  }
}
