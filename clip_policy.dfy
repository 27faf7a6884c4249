/**
 * The policy of `createClip(length, title, shouldRetry)`: clamp the length,
 * look up the current broadcast (giving up silently when there is none),
 * issue one clip-create call, reply with the share link on success, and on
 * failure either run the whole procedure once more with `shouldRetry` false
 * or, on that second run, reply that the clip failed.
 *
 * The network is a script: attempt k (the first run, then the retry) meets
 * the outcomes `env[k]`.
 */
module ClipPolicy {
  import opened JsValues
  import opened ChatCommand

  datatype Lookup = LookupOk(broadcastId: string) | LookupFail
  datatype Create = CreateOk(shareableId: string) | CreateFail

  /** What one run of `createClip` meets; `create` is not consulted when `lookup` fails. */
  datatype Attempt = Attempt(lookup: Lookup, create: Create)

  /** The body of the clip-create request. */
  datatype ClipPayload = ClipPayload(broadcastId: string, highlightTitle: string, clipDurationInSeconds: Length)

  /** The effects of one command: the create calls issued and the chat replies sent, in order. */
  datatype ClipTrace = ClipTrace(calls: seq<ClipPayload>, replies: seq<string>)

  const FailureReply: string := "Failed to generate clip :("

  const ShareLinkPrefix: string := "Clip created: https://mixer.com/"

  /**
   * The reply to a created clip: the link to the channel's page with the
   * clip's shareable id as the `clip` query parameter. It can never be
   * mistaken for the failure notice.
   */
  function ShareReply(channelName: string, shareableId: string): (r: string)
    ensures ShareLinkPrefix <= r
    ensures r[|ShareLinkPrefix|..] == channelName + "?clip=" + shareableId
    ensures r != FailureReply
  {
    assert (ShareLinkPrefix + channelName + "?clip=" + shareableId)[0] != FailureReply[0];
    ShareLinkPrefix + channelName + "?clip=" + shareableId
  }

  /** The runs a call may make: itself, and the retry when `shouldRetry`. */
  function AttemptsAllowed(shouldRetry: bool): nat
  {
    if shouldRetry then 2 else 1
  }

  /**
   * The calls and replies of `createClip(length, title, shouldRetry)`. Each
   * call carries the broadcast id its own run looked up, the title and the
   * clamped length; there is at most one call per run and at most one reply
   * in all; the failure notice is sent only after every allowed run has
   * issued a call and had it fail; a share link is sent only for the run
   * whose call succeeded, and that is the last call.
   */
  function ClipRun(length: Length, title: string, shouldRetry: bool, env: seq<Attempt>, channelName: string): (t: ClipTrace)
    requires |env| >= AttemptsAllowed(shouldRetry)
    decreases shouldRetry
    ensures |t.calls| <= AttemptsAllowed(shouldRetry)
    ensures forall k | 0 <= k < |t.calls| ::
      env[k].lookup == LookupOk(t.calls[k].broadcastId)
      && t.calls[k].highlightTitle == title
      && t.calls[k].clipDurationInSeconds == Clamp(length)
    ensures forall k | 0 <= k < |t.calls| - 1 :: env[k].create.CreateFail?
    ensures |t.replies| <= 1
    ensures env[0].lookup.LookupFail? ==> t == ClipTrace([], [])
    ensures env[0].lookup.LookupOk? ==> |t.calls| >= 1
    ensures |t.calls| >= 1 && env[|t.calls| - 1].create.CreateOk? ==>
      t.replies == [ShareReply(channelName, env[|t.calls| - 1].create.shareableId)]
    ensures t.replies == [FailureReply] <==>
      |t.calls| == AttemptsAllowed(shouldRetry) && env[|t.calls| - 1].create.CreateFail?
    ensures |t.replies| == 1 && t.replies[0] != FailureReply ==>
      |t.calls| >= 1 && env[|t.calls| - 1].create.CreateOk?
      && t.replies[0] == ShareReply(channelName, env[|t.calls| - 1].create.shareableId)
  {
    var len := Clamp(length);
    match env[0].lookup
    case LookupFail => ClipTrace([], [])
    case LookupOk(id) =>
      var call := ClipPayload(id, title, len);
      match env[0].create
      case CreateOk(sid) => ClipTrace([call], [ShareReply(channelName, sid)])
      case CreateFail =>
        if shouldRetry then
          ClampIdempotent(length);
          var retry := ClipRun(len, title, false, env[1..], channelName);
          ClipTrace([call] + retry.calls, retry.replies)
        else
          ClipTrace([call], [FailureReply])
  }

  /** With a live broadcast on every run, a command is answered by exactly one chat message. */
  lemma OneReplyWhenLive(length: Length, title: string, env: seq<Attempt>, channelName: string)
    requires |env| >= 2
    requires env[0].lookup.LookupOk? && env[1].lookup.LookupOk?
    ensures var t := ClipRun(length, title, true, env, channelName);
      |t.replies| == 1
      && (t.replies[0] == FailureReply <==> env[0].create.CreateFail? && env[1].create.CreateFail?)
  {
  }

  /** A first call that succeeds ends the command: one call, one share link. */
  lemma FirstSuccess(length: Length, title: string, env: seq<Attempt>, channelName: string, id: string, sid: string)
    requires |env| >= 2
    requires env[0] == Attempt(LookupOk(id), CreateOk(sid))
    ensures ClipRun(length, title, true, env, channelName)
      == ClipTrace([ClipPayload(id, title, Clamp(length))], [ShareReply(channelName, sid)])
  {
  }

  /**
   * A failed first call is retried from the broadcast lookup on: if the
   * retry succeeds the second call's link is the only reply, if it fails the
   * failure notice is, and if the retry finds no broadcast nothing is replied.
   */
  lemma RetryOutcomes(length: Length, title: string, env: seq<Attempt>, channelName: string, id: string)
    requires |env| >= 2
    requires env[0] == Attempt(LookupOk(id), CreateFail)
    ensures var t := ClipRun(length, title, true, env, channelName);
      var first := ClipPayload(id, title, Clamp(length));
      if env[1].lookup.LookupFail? then t == ClipTrace([first], [])
      else
        var second := ClipPayload(env[1].lookup.broadcastId, title, Clamp(length));
        if env[1].create.CreateOk? then
          t == ClipTrace([first, second], [ShareReply(channelName, env[1].create.shareableId)])
        else
          t == ClipTrace([first, second], [FailureReply])
  {
  }
}
