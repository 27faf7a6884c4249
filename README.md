# EzClip bot core, modelled in Dafny

EzClip is a single-account chat bot for the Mixer streaming platform. It
authenticates with a device-code OAuth flow and keeps its access and refresh
tokens in `./authTokens.json`. It listens on the channel's chat socket for
`!clip [length] [title]`. It then asks the REST API to clip the current
broadcast and replies in chat with the share link.

This project models the decision logic of `index.js`. Every network, socket,
file and OAuth-library result is an input:

- **Command parsing** (`ChatCommand`). `buildMessage` splits the first
  message segment's text on single spaces. The handler compares the
  lower-cased first token with `!clip`. It then picks either the default
  request (60 seconds, title `Clip by <user>`) or the second token as the
  length with the rest as the title. JavaScript's `isNaN` and `Number`
  coercions are written out (`JsValues.ToNumber`): white space around the
  token is ignored, exponents, `Infinity` and `0x`/`0o`/`0b` literals are
  numbers, and the empty string is the number 0.
- **The length clamp**. A length of 300 or more becomes the number 300.
  Every other length, including 0, negative lengths, `-Infinity` and NaN tokens, is
  passed on unchanged, in the form it arrived in. A chat token stays a
  string.
- **The clip policy** (`ClipPolicy.ClipRun`). This is a specification
  function over a script of broadcast-lookup and clip-create outcomes, one
  per run of `createClip`. `Session.Bot.CreateClip` is the imperative,
  recursive method that mirrors the source. Its postcondition ties its
  effects to `ClipRun`.
- **The chat frames** (`ChatFrames`). These are the `auth` handshake and
  the `msg` call, with a decoder that reads them back.
- **The token state** (`Session.Bot`). The module-level variables become
  the fields of one class: `token`, `refreshToken`, the resolved identity,
  the captured chat auth key, the token file, the frames sent and the
  clip-create requests issued. The methods are the startup callback, the
  device-code completion, the refresh, `start`, the socket's `message`
  handler, `createClip` and `sendChatMessage`.
- **The startup decision** (`TokenStore.StartupDecision`). It maps the
  token file's state to the next action. It is paired with the record that
  a refresh persists.

Behaviour of the code a reader might not expect:

- Only the first segment is split, and only on single spaces. It is not
  the concatenation of all segments split on whitespace. Consecutive
  spaces make empty tokens.
- There is no lower bound on the clip length, only the upper clamp at 300.
- The retry re-runs the whole procedure, broadcast lookup included. If the
  retry finds no broadcast, no chat message is sent at all
  (`ClipPolicy.RetryOutcomes`).
- A token file that is not JSON is not treated as absent. `JSON.parse`
  throws and nothing catches it (`Crash`). JSON `null` has the same
  outcome, because reading `accessToken` of `null` throws.
- A refresh response body that is `null` throws inside the promise
  handler. Its `.catch` logs the error, so the tokens stay as they were.

## Model

| member | source | states |
|---|---|---|
| `ChatCommand.ParseCommand` | index.js:73-83 | A clip is requested exactly when the text's first space-delimited word lower-cases to `!clip`. With no second word, or a NaN one, the request is 60 seconds titled `Clip by <user>`. Otherwise the second word is the length and the title is everything after the second space, verbatim, or empty when there is none. |
| `ChatCommand.BuildMessage` | index.js:129-131 | Fails (TypeError) exactly when there is no segment. Otherwise there is at least one token, no token contains a space, and the tokens rejoin with single spaces to the first segment's text. |
| `ChatCommand.JoinSpace` | index.js:81 | `join(' ')` of no tokens is empty; otherwise the result starts with the first token, a space follows it when there are more, and its length is the tokens' total length plus one space between each pair. `SplitJoin` makes it the inverse of `split(" ")`. |
| `ChatCommand.Lower` | index.js:76 | `toLowerCase()` keeps the length and maps each character on its own, upper-case ASCII letters to lower case. |
| `ChatCommand.IsClipWord` | index.js:76 | A word that lower-cases to `!clip` has five characters, starts with `!` and holds no space. |
| `ChatCommand.Split` | index.js:130 | `split(" ")` yields at least one piece, no piece contains a space, and the pieces rejoined with single spaces give back the text. |
| `ChatCommand.SplitJoin` | index.js:130 | Splitting a space-joined list of space-free tokens returns that list, so split and join are inverse. |
| `ChatCommand.TokensOfText` | index.js:129-131 | The first two tokens are the first two space-delimited words. The tokens from the third on rejoin to the text after the second space. |
| `ChatCommand.ClipWordSpellings` | index.js:76 | The lower-cased comparison accepts exactly the 16 upper/lower-case spellings of `!clip`. |
| `ChatCommand.LengthAndTitle` | index.js:79-81 | `<command> <length> <title>` requests the length word as it is and the title verbatim. |
| `ChatCommand.LengthOnly` | index.js:79-81 | `<command> <length>` requests the length word with an empty title, not the default one. |
| `ChatCommand.LengthAndTitleExample` | index.js:79-81 | `!clip 45 My Title Here` requests length `"45"` titled `My Title Here`. |
| `ChatCommand.LengthOnlyExample` | index.js:79-81 | `!clip 45` requests length `"45"` with the empty title. |
| `ChatCommand.NaNLength` | index.js:76-78 | The command word followed by one word that `isNaN` rejects gives the default request: 60 seconds titled `Clip by <user>`. |
| `ChatCommand.WordLengthExample` | index.js:76-78 | `!clip funny` gives the default request. |
| `ChatCommand.BareCommandExample` | index.js:76-78 | `!CLIP` alone, in upper case, gives the default request. |
| `ChatCommand.NotFirstWordExample` | index.js:76 | `!clip` later in the text requests nothing. |
| `ChatCommand.EmptyTokenIsALength` | index.js:77-81 | Two spaces after `!clip` make the empty token the length (it is the number 0 to `isNaN`) and the next word the title. |
| `ChatCommand.ReachesCap` | index.js:136 | `length >= 300` compares a number by its value. A NaN token never reaches the cap. |
| `ChatCommand.Clamp` | index.js:135-138 | The numeric value becomes `Math.min` of the length and 300 (`MinWithCap`): NaN stays NaN, `Infinity` becomes 300, `-Infinity` stays. A length that does not reach 300 is passed on unchanged, in its own form. A clamped length is exactly the number 300. |
| `ChatCommand.ClampIdempotent` | index.js:173 | Clamping the already clamped length changes nothing, so the retry sends the same length. |
| `ChatCommand.LongClipExample` | index.js:135-138 | A requested `500` is sent as the number 300. |
| `ChatCommand.NegativeLengthExample` | index.js:135-138 | A requested `-5` is sent as the token it was. |
| `ChatCommand.InfinityExamples` | index.js:135-138 | `Infinity` and `-Infinity` are numbers to `Number`. `!clip Infinity` is sent as 300 seconds, `-Infinity` as it is. |
| `JsValues.ToNumber` | index.js:77 | The coercion that `isNaN` applies, and `>=` at index.js:136 too. `Number` of an empty or all-white-space token is 0. The lemmas below give its value on these forms: plain decimal digits, digits after a `-` or a `+`, digits with a decimal point, digits with an `e` or `E` exponent that may be signed, `0x`/`0o`/`0b` literals, surrounding white space, words of letters and `Infinity`. Mixed forms such as `-4.5e1` follow the same definition, but no lemma states their value. |
| `JsValues.Trim` | index.js:77 | What `Number` parses is shorter or equal and starts and ends with no white space of ECMAScript's set (tab, vertical tab, form feed, no-break space, byte-order mark, Unicode space separators, line terminators). |
| `JsValues.TrimInnerPart` | index.js:77 | The trimmed token is a contiguous part of the token, and only white space lies before and after that part. |
| `JsValues.IsNaNFacts` | index.js:77 | `isNaN` is false for an empty or all-white-space token and for any string of decimal digits. |
| `JsValues.DigitsNumber` | index.js:77 | A non-empty string of decimal digits, leading zeros included, is the number it spells. |
| `JsValues.NegatedDigits` | index.js:77 | A minus sign before decimal digits gives the negated value. |
| `JsValues.PlusDigits` | index.js:77 | A plus sign before decimal digits gives their value. |
| `JsValues.FractionDigits` | index.js:77 | Digits with one decimal point, such as `4.5`, `.5` or `4.`, give the whole part plus the fraction digits over ten to the power of their count. |
| `JsValues.PrefixedDigits` | index.js:77 | `0x`, `0o` or `0b` before digits of that base is read in that base. |
| `JsValues.ExponentDigits` | index.js:77 | `<digits>e<digits>` and `<digits>E<digits>` are the first number times ten to the power of the second. |
| `JsValues.SignedExponentDigits` | index.js:77 | `<digits>e-<digits>` and `<digits>e+<digits>`, with `e` or `E`, are the first number times ten to the power of the signed second. |
| `JsValues.SurroundingWhiteSpaceIgnored` | index.js:77 | White space of any kind before and after a token does not change its value or its NaN-ness. |
| `JsValues.NoBreakSpaceExample` | index.js:77 | A no-break space before `45` is trimmed: the token is the number 45 and `isNaN` is false. |
| `JsValues.ExponentExample` | index.js:77 | `1e2` is the number 100. |
| `JsValues.HexExample` | index.js:77 | `0x1f` is the number 31. |
| `JsValues.DecimalRoundTrip` | index.js:77 | The decimal string of any natural number converts back to that number. |
| `JsValues.WordIsNaN` | index.js:77 | A second token made only of ASCII letters is NaN, and so gives the default request, exactly when it is not `Infinity`. |
| `ChatFrames.DecodeEncode` | index.js:61-69 | A method frame is read back as exactly the call it encodes. |
| `ChatFrames.AuthPayload` | index.js:61-69 | The handshake is an `auth` method call with the channel id, the user id and the chat auth key, in that order. The frame has exactly the members `type`, `method` and `arguments`. |
| `ChatFrames.MsgPayload` | index.js:182-188 | `sendChatMessage(text)` is a `msg` method call whose one argument is the text. The frame has exactly the members `type`, `method` and `arguments`. |
| `ClipPolicy.ClipRun` | index.js:134-179 | Each run issues at most one create call. Each call carries its own run's broadcast id, the title and the clamped length. At most one reply is sent. A failed lookup on the first run means no call and no reply. A successful first lookup issues at least one call. The failure notice is sent exactly when every allowed run issued a call and the last one failed. When the last call succeeded, its share link is the only reply, and any reply other than the failure notice is that link. |
| `ClipPolicy.ShareReply` | index.js:169 | The success reply is the `Clip created: https://mixer.com/` link prefix, then the channel name, `?clip=` and the shareable id. It never equals the failure notice. |
| `ClipPolicy.OneReplyWhenLive` | index.js:160-178 | When both lookups succeed, a command gets exactly one chat message. It is the failure notice exactly when both create calls failed. |
| `ClipPolicy.FirstSuccess` | index.js:160-169 | A successful first create ends the command with one call and one share link. |
| `ClipPolicy.RetryOutcomes` | index.js:170-177 | After a failed first create, the retry looks the broadcast up again. No broadcast means no reply. A successful second create sends its link. A failed one sends the failure notice. |
| `TokenStore.StartupDecision` | index.js:227-262 | A missing file is created empty and leads to the device-code flow, as does an unreadable file. A stored `accessToken` that is neither undefined nor null is loaded with `refreshToken` and refreshed before start. Any other JSON leads to the device-code flow. A malformed file or JSON `null` crashes. |
| `TokenStore.TokenRecord` | index.js:205-209 | The persisted record holds the response's `access_token`, `refresh_token` and `expires_in` under `accessToken`, `refreshToken` and `expires_in`, leaves undefined ones out, and holds nothing else. |
| `TokenStore.RefreshRecordReloads` | index.js:201-212 | After a refresh, the next startup refreshes with the same two tokens. If the response had no usable `access_token`, it runs the device-code flow instead. |
| `TokenStore.EmptyFileMeansDeviceCode` | index.js:228-236 | The `{}` written on first run sends the next startup to the device-code flow. |
| `Session.Bot.constructor` | index.js:16-22 | At process start the tokens are undefined, both ids are -1 and the channel name is empty. |
| `Session.Bot.Startup` | index.js:227-262 | The action is `StartupDecision` of the file. Stored tokens are loaded only when they are refreshed. `{}` is written only for a missing file. Nothing else changes. |
| `Session.Bot.AcceptDeviceCodeTokens` | index.js:95-109 | Both tokens are taken from the flow's data, which is written to the file as it is. `start` follows even when the write fails. |
| `Session.Bot.RefreshTokens` | index.js:191-224 | On success both tokens are replaced and `TokenRecord` is persisted, and `start` follows exactly when `startAfter` is set. On failure the tokens and the file are unchanged and `start` is not called. |
| `Session.Bot.Start` | index.js:24-34 | Records the user id, the channel name and id, and the chat auth key. The tokens are left alone. |
| `Session.Bot.SendChatMessage` | index.js:182-188 | Appends exactly one `msg` frame carrying the text. |
| `Session.Bot.CreateClip` | index.js:134-179 | The create calls issued and the frames sent are exactly those of `ClipRun` on the same script. Tokens and identity are unchanged. |
| `Session.Bot.OnMessage` | index.js:57-85 | Welcome sends the `auth` handshake. A chat message without segments throws a TypeError that nothing catches, so the process ends, like `Crash`, with nothing sent. A chat message runs `createClip` with retry exactly when `ParseCommand` finds a clip command. Every other event changes nothing. |

## Left out

- HTTP requests (user, chat endpoint, current broadcast, clip creation, token refresh) are outcomes given as parameters. The refresh request body and its `client_id` are not modelled.
- The WebSocket connection, its `open`/`close`/`error` handlers, the choice of `endpoints[0]` and sending before a socket exists are not modelled; `outbox` records the frames written.
- The device-code flow of `@mixer/shortcode-oauth`, its unbounded retry on code expiry and the browser launch are not modelled; only what happens with the tokens it yields is (`AcceptDeviceCodeTokens`).
- File I/O is an outcome: a failed write is only logged in the source and leaves the modelled file unchanged. The JSON text of the file is not modelled; a file is absent, unreadable, malformed or holds a decoded value, and what is written reads back as the same value.
- The 5-hour refresh timer is not modelled; each tick is a call of `RefreshTokens` with `startAfter` false.
- The GitHub version check and all console logging are not modelled.
- Ordering across events: `createClip` is asynchronous and its retry is not awaited, so another chat event can be handled between its network calls. The model runs each command to completion before the next event.
- ToNumber: keeps the exact value of a literal, whereas JavaScript rounds it to the nearest double. Near 300 this changes the outcome: `299.99999999999999999` is 300 to the source, which sends the number 300, and below 300 to the model, which passes the token on. Far from 300 the comparison with 300 is the same either way (`1e400` is `Infinity` in JavaScript and a very large value here).
- DecimalRoundTrip: holds for every natural number in the model; in JavaScript only up to 2^53, above which `Number` rounds. The rounded value is still far above 300, so the clamp decides the same.
- Lower: lower-cases ASCII letters only. No other character lower-cases to `!`, `c`, `l`, `i` or `p`, so the comparison with `!clip` is exact.
- Json: numbers are integers; floating-point ids or `expires_in` values are not modelled.
- Segments are modelled by their `text`; a segment without `text` (which would throw) is not modelled.
