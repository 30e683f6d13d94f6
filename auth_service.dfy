/**
 * AuthService: account resolution from SAML claims, starting the Duo step-up (with its
 * fail-open branch when no Duo client is configured), checking Duo's answer, and the
 * token for an account.
 */
module Auth {
  import opened Outcomes
  import opened Config
  import opened UserEntity
  import opened Repository
  import opened Tokens
  import opened Duo
  import opened Saml
  import opened CorrelationState

  /** validateSamlUser's result. */
  datatype LoginResult = LoginResult(user: User, requiresDuo: bool, duoVerified: bool)

  /** verifyDuoResponse's `{ verified, user }`; None stands for the blank `new User()` of a failure. */
  datatype DuoOutcome = DuoOutcome(verified: bool, user: Option<User>)

  const SamlFailed := Unauthorized("SAML authentication failed")
  const DuoInitFailed := Unauthorized("Failed to initialize Duo MFA")

  /** The draft validateSamlUser creates for an identity the directory does not know. */
  function NewAccountDraft(s: SamlUser): UserDraft {
    UserDraft(s.username, s.email, s.firstName + " " + s.lastName, Some(true), Some(false), Some(true))
  }

  /** The record stored for that draft. The SAML user's own Duo flags play no part. */
  function NewAccount(s: SamlUser, id: Id): (u: User)
    ensures u.id == id && u.username == s.username && u.email == s.email
    ensures u.fullname == s.firstName + " " + s.lastName
    ensures u.required_duo && !u.duo_verified && u.is_active
  {
    Materialize(NewAccountDraft(s), id)
  }

  /**
   * The account validateSamlUser resolves for the claims against the table `rows`: a
   * stored record matching the email or the username, as stored, or else a new account
   * under a key not yet in use.
   */
  ghost predicate ResolvedAccount(rows: map<Id, User>, claims: SamlUser, u: User) {
    if AnyMatch(rows, claims.email, claims.username) then
      u.id in rows && rows[u.id] == u && (u.email == claims.email || u.username == claims.username)
    else
      u.id !in rows && u == NewAccount(claims, u.id)
  }

  /** The username verifyDuoResponse works with; an undefined state makes `split` throw TypeError. */
  function ResolvedUsername(dv: DuoVerify): (r: Result<Option<string>>)
    ensures dv.state.None? ==> r == Err(TypeError)
    ensures dv.state.Some? ==> r == StateUsername(dv.state.value, dv.username)
  {
    match dv.state
    case None => Err(TypeError)
    case Some(state) => StateUsername(state, dv.username)
  }

  /**
   * The username whose record verifyDuoResponse looks up after Duo accepted the code: None
   * when there is no client, the state does not resolve, the resolved name is undefined,
   * or the exchange fails. What the exchange returns is not compared with anything.
   */
  function VerificationTarget(client: Option<DuoClient>, dv: DuoVerify): (t: Option<string>)
    ensures t.Some? ==> client.Some? && ResolvedUsername(dv) == Ok(t)
    ensures t.Some? ==> client.value.exchange(dv.duoCode, t).Ok?
  {
    match client
    case None => None
    case Some(c) =>
      match ResolvedUsername(dv)
      case Err(_) => None
      case Ok(name) => if c.exchange(dv.duoCode, name).Ok? then name else None
  }

  /**
   * What checking Duo's answer does to the table, from `before` to `after`: it reports
   * success exactly when storage is reachable and the verification target names a stored
   * record; that record, with its flag set, is the user returned, and setting its flag is
   * the only write. A failure returns no user and writes nothing.
   */
  ghost predicate DuoVerification(before: map<Id, User>, after: map<Id, User>, available: bool,
                                  client: Option<DuoClient>, dv: DuoVerify, r: DuoOutcome) {
    var target := VerificationTarget(client, dv);
    && (r.verified <==> r.user.Some?)
    && (r.verified <==> available && target.Some? && HasUsername(before, target.value))
    && (!r.verified ==> after == before)
    && (r.verified ==>
          var u := r.user.value;
          && Some(u.username) == target
          && u.id in before && u == before[u.id].(duo_verified := true)
          && after == SetDuoVerified(before, u.id, true))
  }

  class AuthService {
    const repo: UserRepository
    const jwt: JwtService
    const env: Env
    const duoClient: Option<DuoClient>

    /** `built` is the client the Duo constructor produced, or None if it threw. */
    constructor(repo: UserRepository, jwt: JwtService, env: Env, built: Option<DuoClient>)
      ensures this.repo == repo && this.jwt == jwt && this.env == env
      ensures duoClient == ClientFromConfig(env, built)
    {
      this.repo := repo;
      this.jwt := jwt;
      this.env := env;
      this.duoClient := ClientFromConfig(env, built);
    }

    /**
     * The account for a SAML login: the record found by email or username, unchanged, or
     * else a new record created and saved. Any directory failure becomes
     * Unauthorized('SAML authentication failed').
     */
    method ValidateSamlUser(claims: SamlUser) returns (r: Result<LoginResult>)
      requires repo.Valid()
      modifies repo
      ensures repo.Valid()
      ensures r.Err? <==> !repo.available
      ensures r.Err? ==> r.error == SamlFailed && repo.rows == old(repo.rows)
      ensures r.Ok? ==> r.value.requiresDuo == r.value.user.required_duo && r.value.duoVerified == r.value.user.duo_verified
      ensures r.Ok? ==> ResolvedAccount(old(repo.rows), claims, r.value.user)
      ensures r.Ok? ==> repo.rows == old(repo.rows)[r.value.user.id := r.value.user]
      ensures r.Ok? && AnyMatch(old(repo.rows), claims.email, claims.username) ==> repo.rows == old(repo.rows)
      ensures r.Ok? && !AnyMatch(old(repo.rows), claims.email, claims.username) ==>
        |repo.rows| == |old(repo.rows)| + 1
    {
      var found := repo.FindOneByEmailOrUsername(claims.email, claims.username);
      if found.Err? {
        return Err(SamlFailed);
      }
      var user: User;
      if found.value.Some? {
        user := found.value.value;
      } else {
        var draft := NewAccountDraft(claims);
        ghost var candidate := Materialize(draft, repo.nextId);
        assert !Conflicts(repo.rows, candidate) by {
          forall k | k in repo.rows
            ensures repo.rows[k].username != candidate.username && repo.rows[k].email != candidate.email
          {
          }
        }
        var saved := repo.Insert(draft);
        assert saved.Ok?;
        user := saved.value;
      }
      r := Ok(LoginResult(user, user.required_duo, user.duo_verified));
    }

    /**
     * Start the Duo step-up. Without a client (fail-open) the account is marked verified
     * and saved, and the front-end URL is returned; otherwise the Duo prompt URL for the
     * state `nonce|encodeURIComponent(username)`. `nonce` is what the client's
     * generateState gives (a value or a failure); it is consulted only when a client
     * exists. Any failure becomes Unauthorized('Failed to initialize Duo MFA').
     */
    method InitiateDuoAuth(user: User, nonce: Result<string>) returns (r: Result<string>)
      requires repo.Valid()
      modifies repo
      ensures repo.Valid()
      ensures r.Err? ==> r.error == DuoInitFailed && repo.rows == old(repo.rows)
      ensures duoClient.Some? ==> repo.rows == old(repo.rows)
      ensures duoClient.Some? && nonce.Err? ==> r == Err(DuoInitFailed)
      ensures duoClient.Some? && nonce.Ok? ==>
        var answer := duoClient.value.createAuthUrl(user.username, EncodeState(nonce.value, user.username));
        r == (if answer.Ok? then answer else Err(DuoInitFailed))
      ensures duoClient.None? ==>
        (r.Ok? <==> repo.available && !Conflicts(old(repo.rows), user.(duo_verified := true)))
      ensures duoClient.None? && r.Ok? ==>
        r.value == FrontendUrl(env) && repo.rows == old(repo.rows)[user.id := user.(duo_verified := true)]
      ensures duoClient.None? && repo.available && user.id in old(repo.rows) && old(repo.rows)[user.id] == user ==>
        r == Ok(FrontendUrl(env)) && repo.rows == SetDuoVerified(old(repo.rows), user.id, true)
    {
      if duoClient.None? {
        var verifiedUser := user.(duo_verified := true);
        if user.id in repo.rows && repo.rows[user.id] == user {
          FlagChangeNeverConflicts(repo.rows, user.id, true);
        }
        var saved := repo.Save(verifiedUser);
        if saved.Err? {
          return Err(DuoInitFailed);
        }
        return Ok(FrontendUrl(env));
      }
      if nonce.Err? {
        return Err(DuoInitFailed);
      }
      var state := EncodeState(nonce.value, user.username);
      var answer := duoClient.value.createAuthUrl(user.username, state);
      if answer.Err? {
        return Err(DuoInitFailed);
      }
      r := answer;
    }

    /**
     * Check Duo's answer for a callback. Never fails: every error (no client, undefined or
     * malformed state, rejected code, unknown user, directory failure) gives
     * `verified = false` with a blank user and no write. On success the account's
     * duo_verified is set and saved.
     */
    method VerifyDuoResponse(dv: DuoVerify) returns (r: DuoOutcome)
      requires repo.Valid()
      modifies repo
      ensures repo.Valid()
      ensures DuoVerification(old(repo.rows), repo.rows, repo.available, duoClient, dv, r)
    {
      r := DuoOutcome(false, None);
      if duoClient.None? {
        return;
      }
      var resolved := ResolvedUsername(dv);
      if resolved.Err? {
        return;
      }
      var username := resolved.value;
      var answer := duoClient.value.exchange(dv.duoCode, username);
      if answer.Err? || username.None? {
        return;
      }
      var found := repo.FindOneByUsername(username.value);
      if found.Err? || found.value.None? {
        return;
      }
      var user := found.value.value.(duo_verified := true);
      FlagChangeNeverConflicts(repo.rows, user.id, true);
      var saved := repo.Save(user);
      assert saved.Ok?;
      r := DuoOutcome(true, Some(user));
    }

    /** generateJwtToken: the signed payload {sub, username, email}. */
    function GenerateJwtToken(u: User): (r: Result<string>)
      ensures r == jwt.sign(JwtPayload(u.id, u.username, u.email, Absent))
    {
      jwt.sign(PayloadFor(u))
    }
  }

  // ---------------------------------------------------------------------------
  // Properties

  /**
   * A callback carrying the state initiateDuoAuth built for a non-empty username resolves
   * to that username, and Duo's acceptance of the code makes it the verification target.
   */
  lemma IssuedStateTargetsUser(client: DuoClient, nonce: string, username: string, fallback: Option<string>, code: Option<string>)
    requires Separator !in nonce && username != []
    ensures ResolvedUsername(DuoVerify(fallback, Some(EncodeState(nonce, username)), code)) == Ok(Some(username))
    ensures client.exchange(code, Some(username)).Ok? ==>
      VerificationTarget(Some(client), DuoVerify(fallback, Some(EncodeState(nonce, username)), code)) == Some(username)
  {
    StateRoundTrip(nonce, username, fallback);
  }

  /** Without a second segment the fallback username is verified instead. */
  lemma MissingSegmentTargetsFallback(client: DuoClient, state: string, fallback: string, code: Option<string>)
    requires Separator !in state
    requires client.exchange(code, Some(fallback)).Ok?
    ensures VerificationTarget(Some(client), DuoVerify(Some(fallback), Some(state), code)) == Some(fallback)
  {
    MissingSegmentFallsBack(state, Some(fallback));
  }

  /** Only whether the exchange succeeds matters, not the username Duo returns. */
  lemma ExchangeAnswerIgnored(c1: DuoClient, c2: DuoClient, dv: DuoVerify)
    requires forall code, name :: c1.exchange(code, name).Ok? == c2.exchange(code, name).Ok?
    ensures VerificationTarget(Some(c1), dv) == VerificationTarget(Some(c2), dv)
  {
  }

  /** An undefined or malformed state, or no client at all, never leads to a verification. */
  lemma FailuresHaveNoTarget(client: Option<DuoClient>, dv: DuoVerify)
    requires client.None? || dv.state.None? || ResolvedUsername(dv).Err?
    ensures VerificationTarget(client, dv).None?
  {
  }
}
