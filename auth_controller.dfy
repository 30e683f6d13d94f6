/**
 * AuthController: the HTTP handlers, each as the sequence of calls it makes on the
 * response. An exception that leaves a handler (samlCallback has no catch) is returned
 * as Err and answered by the framework, outside this model.
 */
module Controller {
  import opened Outcomes
  import opened Config
  import opened UserEntity
  import opened Duo
  import opened Saml
  import opened CorrelationState
  import opened Users
  import opened Auth
  import opened JwtAuth
  import opened Http

  const AuthCookieName := "auth_token"
  const AuthCookieOptions := CookieOptions(true, true)
  const MeFailed := "An error occurred retrieving user data"
  const InvalidCallback := "Invalid Duo callback parameters"
  const CallbackFailed := "Error during Duo callback"
  const LogoutFailed := "Error during logout"
  const SuccessPath := "/login/success?token="
  const FailurePath := "/login?error=duo_verification_failed"

  /** `res.status(code).json({ success: false, message })`. */
  function ErrorResponse(code: int, message: string): seq<Action> {
    [SetStatus(code), SendJson(MessageBody(false, message))]
  }

  /** The 400 duoCallback records when state or duo_code is falsy; it does not return afterwards. */
  function ParamCheck(state: Option<string>, duoCode: Option<string>): (a: seq<Action>)
    ensures a == [] <==> IsTruthy(state) && IsTruthy(duoCode)
    ensures a != [] ==> a == ErrorResponse(400, InvalidCallback)
  {
    if !IsTruthy(state) || !IsTruthy(duoCode) then ErrorResponse(400, InvalidCallback) else []
  }

  /**
   * What duoCallback records after the verification, given its outcome and the signing
   * result. `token` is read only when `verified`: no token is signed otherwise.
   */
  function CallbackTail(frontend: string, verified: bool, token: Result<string>): (a: seq<Action>)
    ensures |a| >= 1
    ensures a[0].SetCookie? <==> verified && token.Ok?
    ensures !verified ==> a == [SendRedirect(frontend + FailurePath)]
    ensures verified && token.Ok? ==>
      a == [SetCookie(AuthCookieName, token.value, AuthCookieOptions),
            SendRedirect(frontend + SuccessPath + token.value)]
    ensures verified && token.Err? ==> a == ErrorResponse(500, CallbackFailed)
  {
    if !verified then [SendRedirect(frontend + FailurePath)]
    else if token.Err? then ErrorResponse(500, CallbackFailed)
    else [SetCookie(AuthCookieName, token.value, AuthCookieOptions),
          SendRedirect(frontend + SuccessPath + token.value)]
  }

  /** The whole duoCallback response: the 400 (if any) is always followed by the verification's own answer. */
  lemma CallbackFallsThrough(state: Option<string>, duoCode: Option<string>, frontend: string, verified: bool, token: Result<string>)
    requires !IsTruthy(state) || !IsTruthy(duoCode)
    ensures var a := ParamCheck(state, duoCode) + CallbackTail(frontend, verified, token);
      |a| >= 3 && a[..2] == ErrorResponse(400, InvalidCallback) && a[2..] == CallbackTail(frontend, verified, token)
  {
  }

  class AuthController {
    const auth: AuthService
    const users: UsersService
    const env: Env

    /** One repository and one configuration are shared, as the dependency injector provides them. */
    ghost predicate Valid()
      reads this, auth.repo
    {
      users.repo == auth.repo && env == auth.env && auth.repo.Valid()
    }

    constructor(auth: AuthService, users: UsersService, env: Env)
      requires users.repo == auth.repo && env == auth.env && auth.repo.Valid()
      ensures this.auth == auth && this.users == users && this.env == env && Valid()
    {
      this.auth := auth;
      this.users := users;
      this.env := env;
    }

    /**
     * GET /auth/me. Reads the account by the request user's id, repairs duo_verified when
     * the request user says verified and the record does not, and answers 200 with the
     * record's fields and the request user's duoVerified. Any error answers 500.
     */
    method Me(reqUser: Option<RequestUser>, res: Response)
      requires Valid()
      modifies res, auth.repo
      ensures Valid()
      ensures reqUser.None? || !auth.repo.available || reqUser.value.id !in old(auth.repo.rows) ==>
        res.actions == old(res.actions) + ErrorResponse(500, MeFailed) && auth.repo.rows == old(auth.repo.rows)
      ensures reqUser.Some? && auth.repo.available && reqUser.value.id in old(auth.repo.rows) ==>
        var p := reqUser.value;
        var u := old(auth.repo.rows)[p.id];
        && res.actions == old(res.actions) +
             [SetStatus(200), SendJson(UserBody(true, UserView(u.id, u.username, u.email, u.fullname, u.required_duo, p.duoVerified)))]
        && auth.repo.rows == if p.duoVerified && !u.duo_verified then SetDuoVerified(old(auth.repo.rows), p.id, true) else old(auth.repo.rows)
    {
      if reqUser.None? {
        // `req.user.id` on an undefined user throws inside the try block
        res.Status(500);
        res.Json(MessageBody(false, MeFailed));
        return;
      }
      var p := reqUser.value;
      var found := users.GetCurrentUser(p.id);
      if found.Err? {
        res.Status(500);
        res.Json(MessageBody(false, MeFailed));
        return;
      }
      var u := found.value;
      if p.duoVerified && !u.duo_verified {
        var written := users.UpdateDuoVerification(u.id, true);
        assert written.Ok?;
      }
      res.Status(200);
      res.Json(UserBody(true, UserView(u.id, u.username, u.email, u.fullname, u.required_duo, p.duoVerified)));
    }

    /**
     * POST /auth/saml/callback. Resolves the account; if it requires Duo, redirects to the
     * URL initiateDuoAuth returns, issuing no token; otherwise sets the auth_token cookie
     * and redirects to the front end. `login` is validateSamlUser's result.
     */
    method SamlCallback(claims: SamlUser, nonce: Result<string>, res: Response) returns (r: Result<()>, ghost login: Result<LoginResult>)
      requires Valid()
      modifies res, auth.repo
      ensures Valid()
      ensures login.Err? <==> !auth.repo.available
      ensures login.Err? ==> r == Err(SamlFailed) && auth.repo.rows == old(auth.repo.rows)
      ensures r.Err? ==> res.actions == old(res.actions)
      ensures login.Ok? ==>
        login.value.requiresDuo == login.value.user.required_duo && login.value.duoVerified == login.value.user.duo_verified
      ensures login.Ok? ==> ResolvedAccount(old(auth.repo.rows), claims, login.value.user)
      ensures login.Ok? && (!login.value.requiresDuo || auth.duoClient.Some?) ==>
        auth.repo.rows == old(auth.repo.rows)[login.value.user.id := login.value.user]
      ensures login.Ok? && login.value.requiresDuo ==> r.Err? ==> r.error == DuoInitFailed
      ensures login.Ok? && login.value.requiresDuo && auth.duoClient.Some? && nonce.Err? ==> r == Err(DuoInitFailed)
      ensures login.Ok? && login.value.requiresDuo && auth.duoClient.Some? && nonce.Ok? ==>
        var answer := auth.duoClient.value.createAuthUrl(login.value.user.username, EncodeState(nonce.value, login.value.user.username));
        && (r.Ok? <==> answer.Ok?)
        && (r.Ok? ==> res.actions == old(res.actions) + [SendRedirect(answer.value)])
      ensures login.Ok? && login.value.requiresDuo && auth.duoClient.None? ==>
        && r.Ok?
        && res.actions == old(res.actions) + [SendRedirect(FrontendUrl(auth.env))]
        && auth.repo.rows == old(auth.repo.rows)[login.value.user.id := login.value.user.(duo_verified := true)]
      ensures login.Ok? && !login.value.requiresDuo ==>
        var token := auth.GenerateJwtToken(login.value.user);
        && (token.Err? ==> r == Err(token.error))
        && (token.Ok? ==>
              r.Ok? && res.actions == old(res.actions) +
                [SetCookie(AuthCookieName, token.value, AuthCookieOptions), SendRedirect(FrontendUrl(env))])
    {
      var result := auth.ValidateSamlUser(claims);
      login := result;
      if result.Err? {
        return Err(result.error), login;
      }
      if result.value.requiresDuo {
        var user := result.value.user;
        assert user.id in auth.repo.rows && auth.repo.rows[user.id] == user;
        StoreTwice(old(auth.repo.rows), user, user.(duo_verified := true));
        var duoAuthUrl := auth.InitiateDuoAuth(user, nonce);
        if duoAuthUrl.Err? {
          return Err(duoAuthUrl.error), login;
        }
        res.Redirect(duoAuthUrl.value);
        return Ok(()), login;
      }
      var jwt := auth.GenerateJwtToken(result.value.user);
      if jwt.Err? {
        return Err(jwt.error), login;
      }
      ghost var before := res.actions;
      res.Cookie(AuthCookieName, jwt.value, AuthCookieOptions);
      res.Redirect(FrontendUrl(env));
      assert res.actions == before + [SetCookie(AuthCookieName, jwt.value, AuthCookieOptions), SendRedirect(FrontendUrl(env))];
      r := Ok(());
    }

    /**
     * GET /auth/duo/callback. Records a 400 when state or duo_code is falsy and carries on;
     * verifies with the request user's username as the fallback; on success sets the
     * cookie and redirects to the success page with the token, otherwise redirects to the
     * failure page. A signing failure answers 500. `outcome` is verifyDuoResponse's result.
     */
    method DuoCallback(reqUsername: Option<string>, state: Option<string>, duoCode: Option<string>, res: Response)
      returns (ghost outcome: DuoOutcome)
      requires Valid()
      modifies res, auth.repo
      ensures Valid()
      ensures DuoVerification(old(auth.repo.rows), auth.repo.rows, auth.repo.available, auth.duoClient,
                              DuoVerify(reqUsername, state, duoCode), outcome)
      // when not verified no token is signed, and CallbackTail does not read the placeholder
      ensures res.actions == old(res.actions) + ParamCheck(state, duoCode) +
        CallbackTail(FrontendUrl(env), outcome.verified,
                     if outcome.verified then auth.GenerateJwtToken(outcome.user.value) else Err(ProviderError))
    {
      if !IsTruthy(state) || !IsTruthy(duoCode) {
        res.Status(400);
        res.Json(MessageBody(false, InvalidCallback));
        assert res.actions == old(res.actions) + ErrorResponse(400, InvalidCallback);
      }
      ghost var afterCheck := res.actions;
      assert afterCheck == old(res.actions) + ParamCheck(state, duoCode);
      var dv := DuoVerify(reqUsername, state, duoCode);
      var result := auth.VerifyDuoResponse(dv);
      outcome := result;
      AnswerVerification(result, res);
    }

    /** The answer duoCallback records once verifyDuoResponse has returned. */
    method AnswerVerification(result: DuoOutcome, res: Response)
      requires result.verified ==> result.user.Some?
      modifies res
      ensures res.actions == old(res.actions) +
        CallbackTail(FrontendUrl(env), result.verified,
                     if result.verified then auth.GenerateJwtToken(result.user.value) else Err(ProviderError))
    {
      var frontend := FrontendUrl(env);
      if result.verified {
        var jwt := auth.GenerateJwtToken(result.user.value);
        if jwt.Err? {
          res.Status(500);
          res.Json(MessageBody(false, CallbackFailed));
        } else {
          res.Cookie(AuthCookieName, jwt.value, AuthCookieOptions);
          res.Redirect(frontend + SuccessPath + jwt.value);
        }
      } else {
        res.Redirect(frontend + FailurePath);
      }
    }

    /**
     * POST /auth/logout. Clears the auth_token cookie and answers 200; reading the request
     * user's name for the log line throws when there is no request user, which answers 500.
     */
    method Logout(reqUser: Option<RequestUser>, res: Response)
      modifies res
      ensures reqUser.None? ==> res.actions == old(res.actions) + ErrorResponse(500, LogoutFailed)
      ensures reqUser.Some? ==>
        res.actions == old(res.actions) +
          [ClearCookie(AuthCookieName), SetStatus(200),
           SendJson(LogoutBody(true, "Logout successful", "Please remove token from localStorage"))]
    {
      if reqUser.None? {
        res.Status(500);
        res.Json(MessageBody(false, LogoutFailed));
        return;
      }
      res.ClearCookieNamed(AuthCookieName);
      res.Status(200);
      res.Json(LogoutBody(true, "Logout successful", "Please remove token from localStorage"));
    }
  }
}
