/**
 * The method calls the bot writes to the chat socket, each an object
 * `{"type": "method", "method": <name>, "arguments": [...]}`: the `auth`
 * handshake sent on the Welcome event and the `msg` call of
 * `sendChatMessage`.
 */
module ChatFrames {
  import opened JsValues

  datatype Call =
    | AuthCall(channelId: int, userId: int, authKey: string)
    | MsgCall(text: string)

  function Arguments(c: Call): seq<Json>
  {
    match c
    case AuthCall(channelId, userId, authKey) => [JNumber(channelId), JNumber(userId), JString(authKey)]
    case MsgCall(text) => [JString(text)]
  }

  function MethodName(c: Call): string
  {
    if c.AuthCall? then "auth" else "msg"
  }

  /** The object the bot serialises and sends for a call. */
  function Encode(c: Call): Json
  {
    JObject(map["type" := JString("method"), "method" := JString(MethodName(c)), "arguments" := JArray(Arguments(c))])
  }

  /** How the chat server reads a frame back: the method and its typed arguments. */
  function Decode(frame: Json): Option<Call>
  {
    if !frame.JObject? then None
    else
      var f := frame.fields;
      if !("type" in f && "method" in f && "arguments" in f) then None
      else if f["type"] != JString("method") || !f["arguments"].JArray? then None
      else
        var args := f["arguments"].items;
        if f["method"] == JString("auth") && |args| == 3 && args[0].JNumber? && args[1].JNumber? && args[2].JString? then
          Some(AuthCall(args[0].n, args[1].n, args[2].s))
        else if f["method"] == JString("msg") && |args| == 1 && args[0].JString? then
          Some(MsgCall(args[0].s))
        else None
  }

  /** Every call the bot sends is read back as exactly that call. */
  lemma DecodeEncode(c: Call)
    ensures Decode(Encode(c)) == Some(c)
  {
  }

  /** `sendChatMessage(text)`: a `msg` call carrying the text as its one argument. */
  function MsgPayload(text: string): (frame: Json)
    ensures Decode(frame) == Some(MsgCall(text))
    ensures frame.JObject? && frame.fields.Keys == {"type", "method", "arguments"}
  {
    DecodeEncode(MsgCall(text));
    Encode(MsgCall(text))
  }

  /** The handshake: an `auth` call with the channel id, the user id and the chat auth key, in that order. */
  function AuthPayload(channelId: int, userId: int, authKey: string): (frame: Json)
    ensures Decode(frame) == Some(AuthCall(channelId, userId, authKey))
    ensures frame.JObject? && frame.fields.Keys == {"type", "method", "arguments"}
  {
    DecodeEncode(AuthCall(channelId, userId, authKey));
    Encode(AuthCall(channelId, userId, authKey))
  }

  /** The frames of a list of chat replies, in order. */
  function MsgFrames(texts: seq<string>): (frames: seq<Json>)
    ensures |frames| == |texts|
    ensures forall k | 0 <= k < |texts| :: Decode(frames[k]) == Some(MsgCall(texts[k]))
  {
    if texts == [] then [] else [MsgPayload(texts[0])] + MsgFrames(texts[1..])
  }
}
