/**
 The older request path (src/app/api.rs): a credential gate, then a
 background task that fetches servers and images and sends exactly one
 envelope. The two fetches are not modelled; their results are inputs,
 with a failure carried as its rendered message. The spawned task, the channel
 and the repaint request are reduced to whether a task is started, the
 token it is given and the payloads it sends.
 */
module LegacyApi {
  import opened Wrappers
  import opened Secrets
  import Application
  import Remote

  const NO_VALID_CONFIGURATION: string := "No valid Api configuration"

  /**
   What a request does: whether it starts a fetch task, the bearer token
   the spawned task uses, the payloads sent on the channel in order, and the id
   counter afterwards.
   */
  datatype Outcome = Outcome(spawned: bool, bearer: Option<string>, sent: seq<Remote.Data>, counter: nat)

  /**
   `req_application_list`. Only a cleartext credential starts a task; the
   task reports the server failure if the server fetch failed, else the
   image failure if the image fetch failed, else the reconciled list.
   Without a cleartext credential one error payload is sent and nothing
   is started. Every path sends exactly one payload.
   */
  function ReqApplicationList(
    secret: Option<Secret>,
    servers: Result<seq<Application.Server>, string>,
    images: Result<seq<Application.Image>, string>,
    counter: nat): (r: Outcome)
    ensures |r.sent| == 1
    ensures r.spawned <==> secret.Some? && secret.value.Unencrypted?
    ensures !r.spawned ==>
      r.sent == [Remote.ErrorMessage(NO_VALID_CONFIGURATION)] && r.bearer.None? && r.counter == counter
    ensures r.spawned ==> r.bearer == Some(secret.value.key.token)
    ensures r.spawned && servers.Failure? ==>
      r.sent == [Remote.ErrorMessage(servers.error)] && r.counter == counter
    ensures r.spawned && servers.Success? && images.Failure? ==>
      r.sent == [Remote.ErrorMessage(images.error)] && r.counter == counter
    ensures r.spawned && servers.Success? && images.Success? ==>
      var (apps, next) := Application.GenerateApplicationList(servers.value, images.value, counter);
      r.sent == [Remote.Applications(apps)] && r.counter == next
  {
    match secret
    case Some(Unencrypted(apiKey)) =>
      (match (servers, images)
       case (Failure(e), _) => Outcome(true, Some(apiKey.token), [Remote.ErrorMessage(e)], counter)
       case (Success(_), Failure(e)) => Outcome(true, Some(apiKey.token), [Remote.ErrorMessage(e)], counter)
       case (Success(s), Success(i)) =>
         var (apps, next) := Application.GenerateApplicationList(s, i, counter);
         Outcome(true, Some(apiKey.token), [Remote.Applications(apps)], next))
    case _ => Outcome(false, None, [Remote.ErrorMessage(NO_VALID_CONFIGURATION)], counter)
  }

  /** When both fetches succeed the payload holds one Application per server at least, servers first. */
  lemma SuccessListsEveryServer(
    token: string, servers: seq<Application.Server>, images: seq<Application.Image>, counter: nat)
    ensures var r := ReqApplicationList(Some(Unencrypted(Key(token))), Success(servers), Success(images), counter);
      r.sent[0].Applications?
      && |r.sent[0].apps| >= |servers|
      && forall i :: 0 <= i < |servers| ==> r.sent[0].apps[i].name == Some(servers[i].name)
  {
    Application.ServerAppsFirst(servers, images, counter);
  }
}
