/**
 * DuoVerifiedGuard: the per-request Duo policy gate, evaluated on request.user after the
 * JWT strategy has accepted the token. It allows the request or raises Forbidden; it
 * never answers false.
 */
module Guards {
  import opened Outcomes
  import opened UserEntity
  import opened Tokens
  import opened JwtAuth

  const NotAuthenticated := Forbidden(ForbiddenMessage("User not authenticated"))
  const DuoRequiredError := Forbidden(DuoRequired(false, "Please verify with Duo before access", true))

  /** canActivate: its only input is request.user. */
  function CanActivate(user: Option<RequestUser>): (r: Result<bool>)
    ensures r.Ok? ==> r.value
    ensures r.Ok? <==> user.Some? && (!user.value.requiresDuo || user.value.duoVerified)
    ensures user.None? ==> r == Err(NotAuthenticated)
    ensures user.Some? && r.Err? ==> r == Err(DuoRequiredError)
  {
    if user.None? then Err(NotAuthenticated)
    else if !user.value.requiresDuo then Ok(true)
    else if !user.value.duoVerified then Err(DuoRequiredError)
    else Ok(true)
  }

  // ---------------------------------------------------------------------------
  // Properties linking the gate to the token strategy

  /** An account that does not require Duo passes whatever its flag says. */
  lemma NoDuoRequiredAlwaysPasses(user: RequestUser)
    requires !user.requiresDuo
    ensures CanActivate(Some(user)) == Ok(true)
    ensures CanActivate(Some(user.(duoVerified := !user.duoVerified))) == Ok(true)
  {
  }

  /**
   * The gate sees the stored flag as validate read it, before any repair: a token claiming
   * duoVerified === true for an account whose stored flag is false and which requires Duo
   * is still refused on that request, although the stored flag is written to true.
   */
  lemma RepairDoesNotAdmitCurrentRequest(payload: JwtPayload, u: User)
    requires ClaimsDuoVerified(payload.duoVerified)
    requires u.is_active && u.required_duo && !u.duo_verified
    ensures Decide(payload, Ok(Some(u))).Accept? && Decide(payload, Ok(Some(u))).repair
    ensures CanActivate(Some(Decide(payload, Ok(Some(u))).principal)) == Err(DuoRequiredError)
  {
  }

  /**
   * Once the stored flag is true (after a Duo verification or a repair), any token for
   * that active account passes the gate.
   */
  lemma VerifiedAccountPasses(payload: JwtPayload, u: User)
    requires u.is_active && u.duo_verified
    ensures Decide(payload, Ok(Some(u))).Accept?
    ensures CanActivate(Some(Decide(payload, Ok(Some(u))).principal)) == Ok(true)
  {
  }

  /**
   * An account created at first login requires Duo and is not yet verified, so a token
   * issued for it is refused by the gate until the stored flag is set.
   */
  lemma FreshAccountIsGated(u: User)
    requires u.is_active && u.required_duo && !u.duo_verified
    ensures CanActivate(Some(Decide(PayloadFor(u), Ok(Some(u))).principal)) == Err(DuoRequiredError)
  {
  }
}
