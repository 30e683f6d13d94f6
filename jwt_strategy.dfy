/**
 * JwtStrategy: the startup check on the signing secret, and the per-request mapping from
 * a verified token payload to the user placed on the request, with its write-through
 * repair of duo_verified.
 */
module JwtAuth {
  import opened Outcomes
  import opened Config
  import opened UserEntity
  import opened Repository
  import opened Tokens
  import opened Users

  /** The user attached to the request (request.user) once the token is accepted. */
  datatype RequestUser = RequestUser(
    id: Id,
    username: string,
    email: string,
    name: string,
    requiresDuo: bool,
    duoVerified: bool)

  /** What validate does after the lookup: reject, or accept and possibly repair the stored flag. */
  datatype Decision = Reject(error: Exception) | Accept(principal: RequestUser, repair: bool)

  const MissingSecret := StartupError("JWT_SECRET is not defined in environment variables")
  const UserNotFound := Unauthorized("User not found")
  const AccountDisabled := Unauthorized("Account is disabled")
  const InvalidToken := Unauthorized("Invalid token")

  /** The constructor's check: a missing or empty JWT_SECRET aborts construction. */
  function JwtSecret(env: Env): (r: Result<string>)
    ensures r.Ok? <==> "JWT_SECRET" in env && env["JWT_SECRET"] != ""
    ensures r.Ok? ==> r.value == env["JWT_SECRET"]
    ensures r.Err? ==> r.error == MissingSecret
  {
    var secret := Get(env, "JWT_SECRET");
    if IsTruthy(secret) then Ok(secret.value) else Err(MissingSecret)
  }

  /** The catch block: Unauthorized errors pass through, anything else becomes 'Invalid token'. */
  function Rethrow(e: Exception): (r: Exception)
    ensures r.Unauthorized?
    ensures e.Unauthorized? ==> r == e
    ensures !e.Unauthorized? ==> r == InvalidToken
  {
    if e.Unauthorized? then e else InvalidToken
  }

  /** The request user for a stored record, with the flag as it was read. */
  function Principal(u: User): (p: RequestUser)
    ensures p.id == u.id && p.username == u.username && p.email == u.email && p.name == u.fullname
    ensures p.requiresDuo == u.required_duo && p.duoVerified == u.duo_verified
  {
    RequestUser(u.id, u.username, u.email, u.fullname, u.required_duo, u.duo_verified)
  }

  /**
   * validate's decision on the outcome of the username lookup, which may fail, resolve to
   * nothing, or resolve to a record.
   */
  function Decide(payload: JwtPayload, lookup: Result<Option<User>>): (d: Decision)
    ensures lookup.Err? ==> d == Reject(Rethrow(lookup.error))
    ensures lookup == Ok(None) ==> d == Reject(UserNotFound)
    ensures d.Reject? ==> d.error.Unauthorized?
    ensures d.Accept? <==> lookup.Ok? && lookup.value.Some? && lookup.value.value.is_active
    ensures lookup.Ok? && lookup.value.Some? && !lookup.value.value.is_active ==> d == Reject(AccountDisabled)
    ensures d.Accept? ==> d.principal == Principal(lookup.value.value)
    ensures d.Accept? ==> (d.repair <==> ClaimsDuoVerified(payload.duoVerified) && !lookup.value.value.duo_verified)
  {
    match lookup
    case Err(e) => Reject(Rethrow(e))
    case Ok(None) => Reject(UserNotFound)
    case Ok(Some(u)) =>
      if !u.is_active then Reject(AccountDisabled)
      else
        var tokenDuoVerified := ClaimsDuoVerified(payload.duoVerified);
        var dbDuoVerified := u.duo_verified;
        Accept(Principal(u), tokenDuoVerified && !dbDuoVerified)
  }

  class JwtStrategy {
    const users: UsersService
    const secret: string

    constructor(secret: string, users: UsersService)
      requires secret != ""
      ensures this.secret == secret && this.users == users
    {
      this.secret := secret;
      this.users := users;
    }

    /** Construction from the environment: fails exactly when JWT_SECRET is absent or empty. */
    static method Create(env: Env, users: UsersService) returns (r: Result<JwtStrategy>)
      ensures r.Ok? <==> JwtSecret(env).Ok?
      ensures r.Err? ==> r.error == MissingSecret
      ensures r.Ok? ==> fresh(r.value) && r.value.secret == env["JWT_SECRET"] && r.value.users == users
    {
      var secret := JwtSecret(env);
      if secret.Err? {
        return Err(secret.error);
      }
      var strategy := new JwtStrategy(secret.value, users);
      r := Ok(strategy);
    }

    /**
     * validate(payload) with the real UsersService, whose findByUsername throws NotFound
     * rather than resolving to nothing: an unknown username therefore ends as
     * 'Invalid token'. A token claiming duoVerified === true for a record whose flag is
     * false causes one update to true; the returned flag is the one read before it.
     */
    method Validate(payload: JwtPayload) returns (r: Result<RequestUser>)
      requires users.repo.Valid()
      modifies users.repo
      ensures users.repo.Valid()
      ensures r.Err? ==> r.error.Unauthorized? && users.repo.rows == old(users.repo.rows)
      ensures !users.repo.available ==> r == Err(InvalidToken)
      ensures users.repo.available && !HasUsername(old(users.repo.rows), payload.username) ==> r == Err(InvalidToken)
      ensures r.Ok? <==>
        exists k :: k in old(users.repo.rows) && old(users.repo.rows)[k].username == payload.username &&
                    old(users.repo.rows)[k].is_active && users.repo.available
      ensures r.Err? && users.repo.available && HasUsername(old(users.repo.rows), payload.username) ==>
        r == Err(AccountDisabled)
      ensures r.Ok? ==> r.value.id in old(users.repo.rows)
      ensures r.Ok? ==>
        var stored := old(users.repo.rows)[r.value.id];
        && r.value == Principal(stored)
        && stored.username == payload.username
        && users.repo.rows ==
             if ClaimsDuoVerified(payload.duoVerified) && !stored.duo_verified
             then SetDuoVerified(old(users.repo.rows), stored.id, true)
             else old(users.repo.rows)
    {
      var found := users.FindByUsername(payload.username);
      var lookup: Result<Option<User>> := if found.Ok? then Ok(Some(found.value)) else Err(found.error);
      var decision := Decide(payload, lookup);
      match decision
      case Reject(e) =>
        r := Err(e);
      case Accept(principal, repair) =>
        if repair {
          var written := users.UpdateDuoVerification(principal.id, true);
          assert written.Ok?;
        }
        r := Ok(principal);
    }
  }

  // ---------------------------------------------------------------------------
  // Properties

  /** Only the boolean true claim triggers the repair: absent, false and non-boolean claims never do. */
  lemma RepairNeedsBooleanTrue(payload: JwtPayload, u: User)
    requires payload.duoVerified != BoolClaim(true)
    ensures Decide(payload, Ok(Some(u))) == if u.is_active then Accept(Principal(u), false) else Reject(AccountDisabled)
  {
  }

  /** Tokens this service issues carry no duoVerified claim, so presenting them never writes. */
  lemma IssuedTokensNeverRepair(u: User, lookup: Result<Option<User>>)
    ensures Decide(PayloadFor(u), lookup).Accept? ==> !Decide(PayloadFor(u), lookup).repair
  {
  }

  /**
   * The repair is idempotent across requests: once it has been applied, the same token
   * presented again finds the flag set and causes no further write.
   */
  lemma RepairHappensOnce(payload: JwtPayload, u: User)
    requires Decide(payload, Ok(Some(u))).Accept? && Decide(payload, Ok(Some(u))).repair
    ensures Decide(payload, Ok(Some(u.(duo_verified := true)))).Accept?
    ensures !Decide(payload, Ok(Some(u.(duo_verified := true)))).repair
  {
  }

  /** With the real lookup an unknown user is reported as 'Invalid token', never 'User not found'. */
  lemma UnknownUserIsInvalidToken(payload: JwtPayload)
    ensures Decide(payload, Err(NotFound("User not found"))) == Reject(InvalidToken)
    ensures Decide(payload, Err(StorageError)) == Reject(InvalidToken)
  {
  }
}
