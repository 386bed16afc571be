/** Loading the gateway's settings from the process environment: six required
    variables checked in a fixed order, two defaulted ones, and fixed constants. */
module Config {
  import opened Outcomes
  import Js

  /** The process environment; an unset variable is absent from the map. */
  type Env = map<string, string>

  /** The required variables, in the order they are checked. */
  const RequiredVars: seq<string> :=
    ["ZOOM_OAUTH_URL", "ZOOM_BASE_URL", "ACCOUNT_ID", "CLIENT_ID", "CLIENT_SECRET", "ALLOWED_ORIGINS"]

  const MissingPrefix := "Missing required environment variable: "
  const DefaultPort := 5000
  const DefaultEnv := "development"

  /** Lifetime of a meeting signature, in minutes. */
  const SignatureExpirationMinutes := 60
  /** Rate limiter window (15 minutes, in milliseconds) and request budget per window. */
  const RateLimitWindowMs := 15 * 60 * 1000
  const RateLimitMax := 100

  datatype ZoomSettings = ZoomSettings(
    oauthUrl: string, baseUrl: string, accountId: string,
    clientId: string, clientSecret: string, allowedOrigins: seq<string>)

  /** `port` is the text of `PORT` when it is set, otherwise the number 5000. */
  datatype ServerSettings = ServerSettings(port: Js.Value, env: string)

  datatype Settings = Settings(
    zoom: ZoomSettings, server: ServerSettings,
    signatureExpirationMinutes: int, rateLimitWindowMs: int, rateLimitMax: int)

  /** `process.env[name]` is truthy: set and non-empty. */
  predicate IsSet(env: Env, name: string)
  {
    name in env && env[name] != ""
  }

  /** `process.env[name] || fallback` */
  function OrDefault(env: Env, name: string, fallback: string): string
  {
    if IsSet(env, name) then env[name] else fallback
  }

  /** The position of the first name in `names` that is not set, if any. */
  function FirstMissing(env: Env, names: seq<string>): (r: Option<nat>)
    ensures r.None? <==> forall k :: 0 <= k < |names| ==> IsSet(env, names[k])
    ensures r.Some? ==>
              && r.value < |names|
              && !IsSet(env, names[r.value])
              && forall k :: 0 <= k < r.value ==> IsSet(env, names[k])
  {
    if |names| == 0 then None
    else if !IsSet(env, names[0]) then Some(0)
    else
      match FirstMissing(env, names[1..])
      case None => None
      case Some(k) => Some(k + 1)
  }

  /** Loading the configuration module: throws for the first missing required variable,
      otherwise copies the variables verbatim and applies the defaults. */
  function Load(env: Env): (r: Result<Settings>)
    ensures r.Ok? <==> forall k :: 0 <= k < |RequiredVars| ==> IsSet(env, RequiredVars[k])
    ensures r.Err? ==>
              exists k :: 0 <= k < |RequiredVars|
                && r.message == MissingPrefix + RequiredVars[k]
                && !IsSet(env, RequiredVars[k])
                && forall j :: 0 <= j < k ==> IsSet(env, RequiredVars[j])
    ensures r.Ok? ==>
              var z := r.value.zoom;
              && "ALLOWED_ORIGINS" in env
              && z.oauthUrl == env["ZOOM_OAUTH_URL"]
              && z.baseUrl == env["ZOOM_BASE_URL"]
              && z.accountId == env["ACCOUNT_ID"]
              && z.clientId == env["CLIENT_ID"]
              && z.clientSecret == env["CLIENT_SECRET"]
              && Js.Join(z.allowedOrigins, ',') == env["ALLOWED_ORIGINS"]
              && Js.FieldsFree(z.allowedOrigins, ',')
    ensures r.Ok? ==>
              && r.value.server.port == (if IsSet(env, "PORT") then Js.Str(env["PORT"]) else Js.Num(DefaultPort))
              && r.value.server.env == (if IsSet(env, "NODE_ENV") then env["NODE_ENV"] else DefaultEnv)
              && r.value.signatureExpirationMinutes == 60
              && r.value.rateLimitWindowMs == 900000
              && r.value.rateLimitMax == 100
  {
    match FirstMissing(env, RequiredVars)
    case Some(k) => Err(MissingPrefix + RequiredVars[k])
    case None =>
      assert IsSet(env, RequiredVars[0]) && IsSet(env, RequiredVars[1]) && IsSet(env, RequiredVars[2]);
      assert IsSet(env, RequiredVars[3]) && IsSet(env, RequiredVars[4]) && IsSet(env, RequiredVars[5]);
      var origins := Js.Split(env["ALLOWED_ORIGINS"], ',');
      Js.JoinSplit(env["ALLOWED_ORIGINS"], ',');
      Ok(Settings(
        ZoomSettings(env["ZOOM_OAUTH_URL"], env["ZOOM_BASE_URL"], env["ACCOUNT_ID"],
                     env["CLIENT_ID"], env["CLIENT_SECRET"], origins),
        ServerSettings(if IsSet(env, "PORT") then Js.Str(env["PORT"]) else Js.Num(DefaultPort),
                       OrDefault(env, "NODE_ENV", DefaultEnv)),
        SignatureExpirationMinutes, RateLimitWindowMs, RateLimitMax))
  }
}
