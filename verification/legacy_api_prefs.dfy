/**
 The older API-preferences component (src/components/api_prefs_window.rs),
 which keeps its own buffer and writes the credential it is handed.
 Drawing the window is not modelled; the branch taken when Submit is
 clicked is.
 */
module LegacyApiPrefs {
  import opened Wrappers
  import opened Secrets

  datatype ApiPerfsComponent = ApiPerfsComponent(buf: string, open: bool)

  /**
   `open`. An open component is left as it is. A closed one opens with the
   cleartext token in its buffer, or with an empty buffer when the
   credential is absent or encrypted.
   */
  function Open(c: ApiPerfsComponent, apiKey: Option<Secret>): (r: ApiPerfsComponent)
    ensures c.open ==> r == c
    ensures !c.open ==> r.open
    ensures !c.open && apiKey.Some? && apiKey.value.Unencrypted? ==> r.buf == apiKey.value.key.token
    ensures !c.open && (apiKey.None? || apiKey.value.Encrypted?) ==> r.buf == ""
  {
    if !c.open then
      var buf := match apiKey
        case Some(Unencrypted(Key(token))) => token
        case _ => "";
      c.(buf := buf, open := true)
    else c
  }

  /** `enable_submit`: exactly when the buffer is non-empty. */
  function EnableSubmit(c: ApiPerfsComponent): (r: bool)
    ensures r <==> |c.buf| > 0
  {
    c.buf != ""
  }

  /**
   The Submit branch: whatever credential was there is replaced by the
   buffer as cleartext, and the component closes keeping its buffer.
   */
  function Submit(c: ApiPerfsComponent, apiData: Option<Secret>): (r: (ApiPerfsComponent, Option<Secret>))
    ensures r.1 == Some(Unencrypted(Key(c.buf)))
    ensures r.0 == ApiPerfsComponent(c.buf, false)
  {
    (c.(open := false), Some(Unencrypted(Key(c.buf))))
  }

  /** Reopening after a submit shows the token just submitted. */
  lemma SubmitThenOpen(c: ApiPerfsComponent, apiData: Option<Secret>)
    ensures var (c', data') := Submit(c, apiData);
      Open(c', data') == ApiPerfsComponent(c.buf, true)
  {
  }
}
