/**
 * ConfigService lookups over the process environment, and the two JavaScript idioms the
 * service applies to them: `get(key) || fallback` and template interpolation `${get(key)}`.
 */
module Config {
  import opened Outcomes

  type Env = map<string, string>

  /** ConfigService.get: the value, or None (undefined) when the key is not set. */
  function Get(env: Env, key: string): (v: Option<string>)
    ensures v.Some? <==> key in env
    ensures v.Some? ==> v.value == env[key]
  {
    if key in env then Some(env[key]) else None
  }

  /** JavaScript truthiness of an optional string: defined and not empty. */
  predicate IsTruthy(v: Option<string>) {
    v.Some? && v.value != ""
  }

  /** `get(key) || fallback`: an absent value and an empty value both give the fallback. */
  function GetOr(env: Env, key: string, fallback: string): (v: string)
    ensures key in env && env[key] != "" ==> v == env[key]
    ensures key !in env || env[key] == "" ==> v == fallback
  {
    var g := Get(env, key);
    if IsTruthy(g) then g.value else fallback
  }

  /** `${value}` in a template literal: undefined is rendered as the text "undefined". */
  function Interpolate(v: Option<string>): (s: string)
    ensures v.Some? ==> s == v.value
    ensures v.None? ==> s == "undefined"
  {
    match v
    case Some(x) => x
    case None => "undefined"
  }

  /** `${configService.get('FRONTEND_URL')}`, the post-login destination. */
  function FrontendUrl(env: Env): (s: string)
    ensures "FRONTEND_URL" in env ==> s == env["FRONTEND_URL"]
    ensures "FRONTEND_URL" !in env ==> s == "undefined"
  {
    Interpolate(Get(env, "FRONTEND_URL"))
  }
}
