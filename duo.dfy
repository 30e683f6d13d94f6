/**
 * The Duo Universal Prompt client as the service uses it. Its network protocol is not
 * modelled: each call is an opaque function that returns a value or fails. The
 * outcome of generateState (a random nonce, or a failure) is supplied by the caller.
 */
module Duo {
  import opened Outcomes
  import opened Config

  datatype DuoClient = DuoClient(
    /** createAuthUrl(username, state): the Duo prompt URL. */
    createAuthUrl: (string, string) -> Result<string>,
    /** exchangeAuthorizationCodeFor2FAResult(code, username): Duo's answer; undefined arguments are None. */
    exchange: (Option<string>, Option<string>) -> Result<string>)

  /** The argument of verifyDuoResponse: fallback username, state and code, each possibly undefined. */
  datatype DuoVerify = DuoVerify(username: Option<string>, state: Option<string>, duoCode: Option<string>)

  /** The four settings the client needs. */
  predicate DuoConfigured(env: Env) {
    IsTruthy(Get(env, "DUO_CLIENT_ID")) && IsTruthy(Get(env, "DUO_CLIENT_SECRET")) &&
    IsTruthy(Get(env, "DUO_API_HOST")) && IsTruthy(Get(env, "DUO_REDIRECT_URL"))
  }

  /**
   * The client AuthService ends up with: one is built only when all four settings are
   * truthy; `built` is None when the Client constructor threw (the error is logged and
   * swallowed).
   */
  function ClientFromConfig(env: Env, built: Option<DuoClient>): (c: Option<DuoClient>)
    ensures c.Some? <==> DuoConfigured(env) && built.Some?
    ensures c.Some? ==> c == built
  {
    if DuoConfigured(env) then built else None
  }
}
