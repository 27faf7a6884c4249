/**
 * The bot's module-level mutable state and the handlers that reassign it:
 * the startup callback, the device-code completion, the token refresh,
 * `start`, the socket's `message` handler, `createClip` and
 * `sendChatMessage`. Network, file and library results arrive as parameters.
 */
module Session {
  import opened JsValues
  import opened ChatCommand
  import opened ChatFrames
  import opened ClipPolicy
  import opened TokenStore

  /** An inbound chat event as the `message` handler distinguishes it. */
  datatype ChatEvent =
    | WelcomeEvent
    | ChatMessage(userName: string, segments: seq<string>)  // the `text` of each message segment
    | OtherEvent

  class Bot {
    var token: Option<Json>
    var refreshToken: Option<Json>
    var userId: int
    var channelName: string
    var channelId: int
    /** The chat auth key that `start` obtained and the handler's closure captured. */
    var authKey: string
    /** The token file on disk. */
    var file: TokenFile
    /** Every frame written to the chat socket, oldest first. */
    var outbox: seq<Json>
    /** Every clip-create request issued, oldest first. */
    var clipCalls: seq<ClipPayload>

    /** The identity `start` resolves. */
    function Identity(): (int, string, int, string)
      reads this
    {
      (userId, channelName, channelId, authKey)
    }

    /** The tokens and their file. */
    function Credentials(): (Option<Json>, Option<Json>, TokenFile)
      reads this
    {
      (token, refreshToken, file)
    }

    /** The state at process start: no tokens, ids -1, an empty channel name. */
    constructor (tokenFile: TokenFile)
      ensures token == None && refreshToken == None
      ensures userId == -1 && channelName == "" && channelId == -1
      ensures file == tokenFile && outbox == [] && clipCalls == []
    {
      token, refreshToken := None, None;
      userId, channelName, channelId, authKey := -1, "", -1, "";
      file := tokenFile;
      outbox, clipCalls := [], [];
    }

    /**
     * The `fs.exists` callback: follows `StartupDecision`, loading stored
     * tokens when it refreshes them, and writing `{}` when the file is
     * missing (a failed write is only logged).
     */
    method Startup(writeOk: bool) returns (action: StartAction)
      modifies this
      ensures action == StartupDecision(old(file))
      ensures action.RefreshStored? ==> token == Some(action.token) && refreshToken == action.refreshToken
      ensures !action.RefreshStored? ==> token == old(token) && refreshToken == old(refreshToken)
      ensures file == if old(file).Missing? && writeOk then Holds(JObject(map[])) else old(file)
      ensures Identity() == old(Identity()) && outbox == old(outbox) && clipCalls == old(clipCalls)
    {
      action := StartupDecision(file);
      match action
      case CreateEmptyThenDeviceCode =>
        if writeOk {
          file := Holds(JObject(map[]));
        }
      case RefreshStored(stored, storedRefresh) =>
        token := Some(stored);
        refreshToken := storedRefresh;
      case DeviceCode =>
      case Crash =>
    }

    /**
     * `startAttempts` once the device-code flow yields `data`: both tokens
     * are taken from it, it is written to the file as it is, and `start`
     * follows whether or not the write succeeded.
     */
    method AcceptDeviceCodeTokens(data: Json, writeOk: bool) returns (startNext: bool)
      requires data.JObject?
      modifies this
      ensures token == Prop(data, "accessToken") && refreshToken == Prop(data, "refreshToken")
      ensures file == if writeOk then Holds(data) else old(file)
      ensures startNext
      ensures Identity() == old(Identity()) && outbox == old(outbox) && clipCalls == old(clipCalls)
    {
      token := Prop(data, "accessToken");
      refreshToken := Prop(data, "refreshToken");
      if writeOk {
        file := Holds(data);
      }
      startNext := true;
    }

    /**
     * `getNewTokensFromRefresh(startAfter)`: an applicable response replaces
     * both tokens, is persisted as `TokenRecord`, and is followed by `start`
     * exactly when `startAfter`; otherwise the tokens and the file stay as
     * they were and `start` is not called.
     */
    method RefreshTokens(result: RefreshResult, writeOk: bool, startAfter: bool) returns (startNext: bool)
      modifies this
      ensures RefreshApplies(result) ==>
        token == Prop(result.body, "access_token") && refreshToken == Prop(result.body, "refresh_token")
        && file == (if writeOk then Holds(TokenRecord(result.body)) else old(file))
        && startNext == startAfter
      ensures !RefreshApplies(result) ==> Credentials() == old(Credentials()) && !startNext
      ensures Identity() == old(Identity()) && outbox == old(outbox) && clipCalls == old(clipCalls)
    {
      startNext := false;
      if RefreshApplies(result) {
        var body := result.body;
        token := Prop(body, "access_token");
        refreshToken := Prop(body, "refresh_token");
        if writeOk {
          file := Holds(TokenRecord(body));
        }
        startNext := startAfter;
      }
    }

    /**
     * `start` once its two lookups answered: records the user id, the
     * channel's name and id, and the chat auth key the handler will use.
     */
    method Start(currentUserId: int, channelToken: string, currentChannelId: int, chatAuthKey: string)
      modifies this
      ensures Identity() == (currentUserId, channelToken, currentChannelId, chatAuthKey)
      ensures Credentials() == old(Credentials()) && outbox == old(outbox) && clipCalls == old(clipCalls)
    {
      userId, channelName, channelId, authKey := currentUserId, channelToken, currentChannelId, chatAuthKey;
    }

    /** `sendChatMessage`: one `msg` frame carrying the text. */
    method SendChatMessage(text: string)
      modifies this
      ensures outbox == old(outbox) + [MsgPayload(text)]
      ensures Identity() == old(Identity()) && Credentials() == old(Credentials()) && clipCalls == old(clipCalls)
    {
      outbox := outbox + [MsgPayload(text)];
    }

    /**
     * `createClip(length, title, shouldRetry)`, with run k meeting the
     * outcomes `env[k]`: issues exactly the calls and sends exactly the
     * replies of `ClipRun`.
     */
    method CreateClip(length: Length, title: string, shouldRetry: bool, env: seq<Attempt>)
      requires |env| >= AttemptsAllowed(shouldRetry)
      modifies this
      decreases shouldRetry
      ensures var t := ClipRun(length, title, shouldRetry, env, old(channelName));
        clipCalls == old(clipCalls) + t.calls && outbox == old(outbox) + MsgFrames(t.replies)
      ensures Identity() == old(Identity()) && Credentials() == old(Credentials())
    {
      var len := length;
      if ReachesCap(len) {
        len := Seconds(MaxClipSeconds);
      }
      assert len == Clamp(length);
      match env[0].lookup
      case LookupFail =>
        return;
      case LookupOk(broadcastId) =>
        clipCalls := clipCalls + [ClipPayload(broadcastId, title, len)];
        match env[0].create
        case CreateOk(shareableId) =>
          assert MsgFrames([ShareReply(channelName, shareableId)]) == [MsgPayload(ShareReply(channelName, shareableId))];
          SendChatMessage(ShareReply(channelName, shareableId));
        case CreateFail =>
          if shouldRetry {
            ClampIdempotent(length);
            CreateClip(len, title, false, env[1..]);
          } else {
            SendChatMessage(FailureReply);
          }
    }

    /**
     * The socket's `message` handler: the Welcome event sends the `auth`
     * handshake; a chat message whose first segment is a clip command runs
     * `createClip` with `shouldRetry` true; a chat message without segments
     * throws a TypeError in `buildMessage` (`threw`) before anything happens,
     * and nothing in the handler or around it catches it, so like `Crash` it
     * ends the process; anything else is ignored.
     */
    method OnMessage(event: ChatEvent, env: seq<Attempt>) returns (threw: bool)
      requires |env| >= 2
      modifies this
      ensures threw <==> event.ChatMessage? && |event.segments| == 0
      ensures event.WelcomeEvent? ==>
        outbox == old(outbox) + [AuthPayload(channelId, userId, authKey)] && clipCalls == old(clipCalls)
      ensures event.ChatMessage? && |event.segments| > 0 ==>
        match ParseCommand(event.segments[0], event.userName)
        case None => outbox == old(outbox) && clipCalls == old(clipCalls)
        case Some(req) =>
          var t := ClipRun(req.length, req.title, true, env, channelName);
          clipCalls == old(clipCalls) + t.calls && outbox == old(outbox) + MsgFrames(t.replies)
      ensures event.OtherEvent? || threw ==> outbox == old(outbox) && clipCalls == old(clipCalls)
      ensures Identity() == old(Identity()) && Credentials() == old(Credentials())
    {
      threw := false;
      match event
      case WelcomeEvent =>
        outbox := outbox + [AuthPayload(channelId, userId, authKey)];
      case ChatMessage(userName, segments) =>
        var msg := BuildMessage(segments);
        if msg.None? {
          threw := true;
          return;
        }
        var request := ParseCommand(segments[0], userName);
        if request.Some? {
          CreateClip(request.value.length, request.value.title, true, env);
        }
      case OtherEvent =>
    }
  }
}
