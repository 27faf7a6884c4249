/**
 * The token file `./authTokens.json`: what a refresh writes to it, and the
 * startup decision its state drives (device-code flow, or refresh of the
 * stored tokens followed by `start`).
 */
module TokenStore {
  import opened JsValues

  /**
   * The file as the startup callback meets it: absent, present but
   * unreadable, readable but not JSON, or holding a decoded JSON value.
   */
  datatype TokenFile = Missing | Unreadable | Malformed | Holds(content: Json)

  /** The result of the refresh-token request: rejected, or a decoded response body. */
  datatype RefreshResult = RefreshRejected | RefreshAccepted(body: Json)

  /**
   * What startup does next. `Crash` is an exception nothing catches:
   * `JSON.parse` on a malformed file, or reading `accessToken` of `null`.
   */
  datatype StartAction =
    | CreateEmptyThenDeviceCode
    | DeviceCode
    | RefreshStored(token: Json, refreshToken: Option<Json>)
    | Crash

  /** The file holds an `accessToken` that is neither undefined nor null. */
  predicate HasStoredToken(f: TokenFile)
  {
    f.Holds? && !f.content.JNull? && LooselyDefined(Prop(f.content, "accessToken"))
  }

  /**
   * The startup decision: a missing file is created empty and the
   * device-code flow runs; an unreadable file, or one without a usable
   * `accessToken`, also leads to the device-code flow; stored tokens are
   * loaded and refreshed before `start`; a file that is not JSON, or is JSON
   * `null`, ends the process.
   */
  function StartupDecision(f: TokenFile): (a: StartAction)
    ensures a.RefreshStored? <==> HasStoredToken(f)
    ensures a.RefreshStored? ==>
      Prop(f.content, "accessToken") == Some(a.token) && !a.token.JNull?
      && a.refreshToken == Prop(f.content, "refreshToken")
    ensures a.Crash? <==> f.Malformed? || f == Holds(JNull)
    ensures a.CreateEmptyThenDeviceCode? <==> f.Missing?
  {
    match f
    case Missing => CreateEmptyThenDeviceCode
    case Unreadable => DeviceCode
    case Malformed => Crash
    case Holds(v) =>
      if v.JNull? then Crash
      else if LooselyDefined(Prop(v, "accessToken")) then
        RefreshStored(Prop(v, "accessToken").value, Prop(v, "refreshToken"))
      else DeviceCode
  }

  /** `{key: v}` when `v` is defined, `{}` otherwise: `JSON.stringify` drops undefined members. */
  function Entry(key: string, v: Option<Json>): map<string, Json>
  {
    if v.Some? then map[key := v.value] else map[]
  }

  /**
   * The record a successful refresh persists: the response's `access_token`,
   * `refresh_token` and `expires_in` under the names `accessToken`,
   * `refreshToken` and `expires_in`, and nothing else.
   */
  function TokenRecord(body: Json): (r: Json)
    requires !body.JNull?
    ensures r.JObject? && r.fields.Keys <= {"accessToken", "refreshToken", "expires_in"}
    ensures Prop(r, "accessToken") == Prop(body, "access_token")
    ensures Prop(r, "refreshToken") == Prop(body, "refresh_token")
    ensures Prop(r, "expires_in") == Prop(body, "expires_in")
  {
    JObject(Entry("accessToken", Prop(body, "access_token"))
      + Entry("refreshToken", Prop(body, "refresh_token"))
      + Entry("expires_in", Prop(body, "expires_in")))
  }

  /** A refresh response is applied unless the request failed or its body is `null` (whose TypeError is caught). */
  predicate RefreshApplies(result: RefreshResult)
  {
    result.RefreshAccepted? && !result.body.JNull?
  }

  /**
   * Reloading what a refresh persisted: the next startup refreshes with the
   * same two tokens, unless the response's `access_token` was undefined or
   * null, in which case the device-code flow runs.
   */
  lemma RefreshRecordReloads(body: Json)
    requires !body.JNull?
    ensures StartupDecision(Holds(TokenRecord(body))) ==
      if LooselyDefined(Prop(body, "access_token"))
      then RefreshStored(Prop(body, "access_token").value, Prop(body, "refresh_token"))
      else DeviceCode
  {
  }

  /** The empty object written on first run sends the next startup to the device-code flow. */
  lemma EmptyFileMeansDeviceCode()
    ensures StartupDecision(Holds(JObject(map[]))) == DeviceCode
  {
  }
}
