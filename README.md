# Authentication service with Duo step-up, modelled in Dafny

This project models the core of a NestJS authentication service. Users sign in through
SAML single sign-on (a Keycloak realm). Accounts that require it then complete a Duo
Universal Prompt step-up. After that, the service issues a signed JWT. Later requests
present the token and pass two checks: the JWT strategy, which loads the account and
repairs its stored `duo_verified` flag, and the Duo-verified guard, which enforces the
account's Duo policy.

What is modelled, module by module:

- `UserEntity`: the `users` table record and its column defaults. Its unique constraints
  on `username` and `email` are stated as a predicate.
- `Repository`: the TypeORM repository as a class over a map from key to record. Its
  class invariant is the table's constraints.
- `Users`: `UsersService`, which covers lookup by username, lookup by key, and the flag
  update.
- `PercentEncoding`: `encodeURIComponent` and `decodeURIComponent` as the ECMAScript
  standard defines them: the Encode and Decode abstract operations of ECMA-262, which
  percent-encode (section 2.1 of RFC 3986) the UTF-8 octets of every character except
  `A-Z a-z 0-9 - _ . ! ~ * ' ( )`. `Decode` gives `None` where the standard throws
  URIError.
- `CorrelationState`: the Duo state `nonce|encodeURIComponent(username)`, and how
  `verifyDuoResponse` reads it back with `split('|')`.
- `Config`: configuration lookups with JavaScript's `||` defaults and `${…}`
  interpolation. An undefined value interpolates as the text `undefined`.
- `Saml`: the SAML strategy's options and its profile-to-user mapping.
- `Tokens`: the JWT payload the service signs.
- `Duo`: the Duo client, as two opaque operations that may fail.
- `Auth`: `AuthService`, which covers account resolution, starting the Duo step-up
  (including its fail-open branch), checking Duo's answer, and token issuance.
- `JwtAuth`: `JwtStrategy`, which covers the startup secret check and per-request
  validation with the write-through repair.
- `Guards`: `DuoVerifiedGuard`.
- `Http` and `Controller`: the `AuthController` handlers. Each handler is modelled as
  the sequence of calls it makes on the Express response.

Failures are values. `Result` carries the exception a call would throw, and the
repository's `available` flag stands for a reachable or unreachable database.

Behaviour of the code worth knowing:

- Tokens carry `sub`, `username` and `email` only, with no Duo claim. This holds even
  after a successful Duo verification. As a result, the strategy's repair never fires
  for tokens this service issues (`JwtAuth.IssuedTokensNeverRepair`).
- A unique-key conflict while creating an account is not retried. `validateSamlUser`
  reports it as `SAML authentication failed`.
- The guard reads the flag that the strategy returned, which is the value stored before
  the repair. A token claiming verification for an unverified account that requires Duo
  is therefore refused on that request (`Guards.RepairDoesNotAdmitCurrentRequest`).
- `duoCallback` does not return after its 400 answer. It goes on to verify and to answer
  a second time (`Controller.CallbackFallsThrough`).
- The state segment Duo returns is not compared with the username Duo's exchange
  answers. Only the success of the exchange matters (`Auth.ExchangeAnswerIgnored`).
- `UsersService.findByUsername` throws NotFound rather than resolving to nothing. With
  the real service, the strategy's `User not found` branch is therefore never taken, and
  an unknown user ends as `Invalid token` (`JwtAuth.UnknownUserIsInvalidToken`,
  `JwtAuth.JwtStrategy.Validate`).

## Model

| member | source | states |
|---|---|---|
| UserEntity.ColumnDefault | src/entities/user.entity.ts:29-39 | a `default: false` column holds true exactly when the insert set it to true |
| UserEntity.Materialize | src/entities/user.entity.ts:12-39 | the stored row keeps the draft's text columns, gets the generated key, and each flag is true iff the draft set it true |
| UserEntity.SetDuoVerified | src/users/users.service.ts:34 | the update keeps the set of keys, changes only the flag of the record with that key, and leaves every other record equal |
| UserEntity.UniqueKeys | src/entities/user.entity.ts:15-23 | the table's constraints (every record stored under its own key, no two records sharing a username or an email) hold of the empty table, and under them a username or an email picks out one key |
| UserEntity.RecordsDistinct | src/entities/user.entity.ts:15-23 | under the unique constraints a username, or an email, identifies at most one record |
| UserEntity.StoreKeepsUniqueKeys | src/entities/user.entity.ts:15-23 | storing a record that clashes with no other record's username or email keeps the constraints |
| UserEntity.SetDuoVerifiedKeepsUniqueKeys | src/users/users.service.ts:27-35 | the flag update never breaks the unique constraints |
| UserEntity.SetDuoVerifiedIdempotent | src/users/users.service.ts:27-35 | applying the same flag update twice leaves the same table as applying it once |
| UserEntity.SetDuoVerifiedNoop | src/users/users.service.ts:34 | setting the flag to the value it already has leaves the table unchanged |
| Repository.UserRepository.FindOneByUsername | src/users/users.service.ts:16-18 | fails iff the database is unreachable; otherwise returns a stored record with that username, or nothing exactly when none exists |
| Repository.UserRepository.FindOneById | src/users/users.service.ts:40-42 | fails iff the database is unreachable; otherwise returns the record stored under the key, or nothing |
| Repository.UserRepository.FindOneByEmailOrUsername | src/auth/auth.service.ts:69-71 | returns a stored record whose email or username matches, or nothing exactly when no record matches either |
| Repository.UserRepository.Insert | src/auth/auth.service.ts:76-85 | succeeds iff the database is reachable and the new row clashes with no record; the row gets a key not yet in use and is the only change |
| Repository.UserRepository.Save | src/auth/auth.service.ts:159 | succeeds iff reachable and no other record shares the username or email; the record is then stored under its key and nothing else changes |
| Repository.UserRepository.UpdateDuoVerified | src/users/users.service.ts:34 | when reachable, the table becomes the flag update of the old table; otherwise StorageError and no change |
| Repository.FlagChangeNeverConflicts | src/auth/auth.service.ts:157-159 | re-saving a stored record with only its flag changed never clashes, so that save cannot fail on a constraint |
| Users.UsersService.FindByUsername | src/users/users.service.ts:15-25 | returns the stored record with that username iff one exists and the database is reachable; otherwise NotFound('User not found') or the storage error |
| Users.UsersService.UpdateDuoVerification | src/users/users.service.ts:27-35 | sets only duo_verified of the keyed record; a missing key is not an error; unreachable storage fails without change |
| Users.UsersService.GetCurrentUser | src/users/users.service.ts:37-52 | returns the record under the key iff it exists and storage is reachable; NotFound('User not found') or the rethrown storage error otherwise |
| PercentEncoding.Encode | src/auth/auth.service.ts:113 | `encodeURIComponent`, defined as the UTF-8 octets of every character outside `A-Z a-z 0-9 - _ . ! ~ * ' ( )` written as upper-case `%XY` groups (total, since Dafny strings hold no lone surrogates); its contract states that text made only of unreserved characters passes through unchanged and that the result is never shorter than the input; `DecodeEncode` is its round trip |
| PercentEncoding.Decode | src/auth/auth.service.ts:137 | `decodeURIComponent`, defined to give None exactly where URIError is thrown (a truncated escape, a non-hex digit, a lead octet with one or more than four leading ones, or an ill-formed UTF-8 sequence: a non-continuation octet, an overlong form, a surrogate or a value above U+10FFFF); its contract states that text without `%` decodes to itself and that a decoded string is never longer than its input |
| PercentEncoding.EncodeHasNoPipe | src/auth/auth.service.ts:113 | `encodeURIComponent` output never contains the bar character that separates the state's segments |
| PercentEncoding.EncodeEmpty | src/auth/auth.service.ts:136-138 | the encoding is empty (hence falsy) exactly when the username is empty |
| PercentEncoding.DecodeEncode | src/auth/auth.service.ts:135-138 | `decodeURIComponent(encodeURIComponent(s)) == s` for every string |
| CorrelationState.Split | src/auth/auth.service.ts:135 | `split` on the bar character always yields at least one part |
| CorrelationState.SplitJoin | src/auth/auth.service.ts:135 | no part of a split contains the separator, and joining the parts with it gives back the string |
| CorrelationState.SplitWithoutSeparator | src/auth/auth.service.ts:135 | a string without the bar character splits into itself alone |
| CorrelationState.SplitAtFirst | src/auth/auth.service.ts:135 | the text before the first bar character is the first part, and the rest splits on its own |
| CorrelationState.StateUsername | src/auth/auth.service.ts:135-138 | the only failure reading the state's username is decodeURIComponent's URIError |
| CorrelationState.EncodeState | src/auth/auth.service.ts:113 | the state begins with the nonce, then the bar character, and everything after that is `encodeURIComponent(username)` |
| CorrelationState.EncodedStateSplits | src/auth/auth.service.ts:113 | a state built from a nonce without the bar character splits into exactly the nonce and the encoded username |
| CorrelationState.StateRoundTrip | src/auth/auth.service.ts:112-138 | the state built for a non-empty username reads back as that username, whatever the fallback |
| CorrelationState.EmptyUsernameFallsBack | src/auth/auth.service.ts:136-138 | for an empty username the segment is empty and the fallback username is used instead |
| CorrelationState.MissingSegmentFallsBack | src/auth/auth.service.ts:135-138 | a state without the bar character yields the fallback username |
| CorrelationState.LaterSegmentsIgnored | src/auth/auth.service.ts:135 | text after a second bar character has no effect on the username read |
| Config.GetOr | src/auth/strategies/saml.strategy.ts:21-29 | `get(key) or fallback` gives the configured value when it is set and non-empty, and the fallback otherwise |
| Config.FrontendUrl | src/auth/auth.service.ts:108 | the front-end URL is the configured value, or the text `undefined` when it is unset |
| Saml.EntryPoint | src/auth/strategies/saml.strategy.ts:42 | the entry point is the Keycloak URL, `/realms/`, the realm and `/protocol/saml`, in that order, position by position |
| Saml.Options | src/auth/strategies/saml.strategy.ts:21-51 | the options take each setting or its default, do not require signed assertions, disable the requested authn context, never validate InResponseTo, allow 5000 ms clock skew and ask for the unspecified NameID format |
| Saml.MapProfile | src/auth/strategies/saml.strategy.ts:56-66 | the request user carries the profile's attributes unchanged (they can be read back) and both Duo flags false |
| Saml.Validate | src/auth/strategies/saml.strategy.ts:77-79 | validate hands the profile on unchanged |
| Saml.EmptyEnvGivesDefaults | src/auth/strategies/saml.strategy.ts:21-29 | with nothing configured, the entry point, issuer and callback are the built-in defaults |
| Saml.EmptyValueFallsBack | src/auth/strategies/saml.strategy.ts:21-29 | a setting configured as the empty string gives the same options as leaving it unset |
| Tokens.PayloadFor | src/auth/auth.service.ts:170-175 | the signed payload copies the key, username and email, and has no duoVerified claim |
| Tokens.PayloadIgnoresFlags | src/auth/auth.service.ts:170-175 | two accounts that agree on key, username and email get the same payload, whatever their Duo flags |
| Duo.ClientFromConfig | src/auth/auth.service.ts:31-50 | a client exists iff all four DUO_* settings are non-empty and the client constructor did not throw |
| Auth.NewAccount | src/auth/auth.service.ts:76-83 | a first-login account has fullname `first + " " + last`, requires Duo, is not verified and is active |
| Auth.ResolvedUsername | src/auth/auth.service.ts:135-138 | an undefined state fails with TypeError; otherwise the username is read from the state with the request's username as fallback |
| Auth.VerificationTarget | src/auth/auth.service.ts:130-145 | a username is looked up only when a client exists, the state resolves to a defined username, and Duo accepts the code for it |
| Auth.AuthService.constructor | src/auth/auth.service.ts:23-51 | the service keeps its collaborators and holds a Duo client exactly as configuration allows |
| Auth.AuthService.ValidateSamlUser | src/auth/auth.service.ts:62-97 | fails with 'SAML authentication failed' iff storage is unreachable, changing nothing; when some record matches the email or username, returns that stored record and writes nothing; otherwise adds exactly one record, the new account built from the claims under a fresh key; the result's Duo flags mirror the account's |
| Auth.AuthService.InitiateDuoAuth | src/auth/auth.service.ts:99-123 | with a client, writes nothing, fails with 'Failed to initialize Duo MFA' when generateState fails, and otherwise returns Duo's prompt URL for the state made of the nonce, the bar character and the encoded username; without one, saves the user as verified and returns the front-end URL; failures become 'Failed to initialize Duo MFA' |
| Auth.AuthService.VerifyDuoResponse | src/auth/auth.service.ts:125-168 | never fails; verified iff storage is reachable and the verification target names a stored record; the returned user is that record with its flag set to true, and that flag is the only change; otherwise nothing changes |
| Auth.AuthService.GenerateJwtToken | src/auth/auth.service.ts:170-178 | the token is what `sign` gives for exactly `{sub: id, username, email}`, with no Duo claim |
| Auth.IssuedStateTargetsUser | src/auth/auth.service.ts:112-145 | a callback carrying the state built for a non-empty username verifies that username once Duo accepts the code |
| Auth.MissingSegmentTargetsFallback | src/auth/auth.service.ts:135-145 | a state without a username segment makes the request's own username the target |
| Auth.ExchangeAnswerIgnored | src/auth/auth.service.ts:141-151 | two Duo clients that accept the same codes give the same target, whatever usernames they answer |
| Auth.FailuresHaveNoTarget | src/auth/auth.service.ts:129-138 | no client, an undefined state, or a malformed state never leads to a lookup or a write |
| JwtAuth.JwtSecret | src/auth/strategies/jwt.strategy.ts:17-21 | startup succeeds iff JWT_SECRET is set and non-empty, and then uses it; otherwise it aborts with the startup error |
| JwtAuth.Rethrow | src/auth/strategies/jwt.strategy.ts:65-73 | Unauthorized errors pass through unchanged; every other error becomes 'Invalid token' |
| JwtAuth.Principal | src/auth/strategies/jwt.strategy.ts:57-64 | the request user copies id, username, email, fullname as name, and both stored flags |
| JwtAuth.Decide | src/auth/strategies/jwt.strategy.ts:37-64 | accepts iff the lookup found an active record; rejects with the matching Unauthorized message otherwise; repairs iff the claim is exactly true and the stored flag false |
| JwtAuth.JwtStrategy.Create | src/auth/strategies/jwt.strategy.ts:13-28 | construction succeeds iff JWT_SECRET is set and non-empty |
| JwtAuth.JwtStrategy.Validate | src/auth/strategies/jwt.strategy.ts:35-74 | accepts iff an active record has the token's username; an unknown user or unreachable storage gives 'Invalid token'; the returned flag is the one read; only a repair writes, and only that flag |
| JwtAuth.RepairNeedsBooleanTrue | src/auth/strategies/jwt.strategy.ts:48-54 | a claim that is absent, false or not a boolean never triggers the repair |
| JwtAuth.IssuedTokensNeverRepair | src/auth/strategies/jwt.strategy.ts:48-54 | tokens the service itself issues never trigger the repair |
| JwtAuth.RepairHappensOnce | src/auth/strategies/jwt.strategy.ts:52-54 | once the repair is applied, the same token triggers no further write |
| JwtAuth.UnknownUserIsInvalidToken | src/auth/strategies/jwt.strategy.ts:37-72 | a NotFound or storage error from the lookup is reported as 'Invalid token' |
| Guards.CanActivate | src/auth/guards/duo-verified.guard.ts:13-41 | allows iff a user is present and either Duo is not required or it is verified; no user and unverified users get their distinct Forbidden answers |
| Guards.NoDuoRequiredAlwaysPasses | src/auth/guards/duo-verified.guard.ts:24-27 | an account that does not require Duo passes whatever its flag |
| Guards.RepairDoesNotAdmitCurrentRequest | src/auth/strategies/jwt.strategy.ts:52-63 | a token claiming verification for an unverified account that requires Duo is repaired yet refused on that request |
| Guards.VerifiedAccountPasses | src/auth/guards/duo-verified.guard.ts:29-40 | any token for an active account whose stored flag is true passes the gate |
| Guards.FreshAccountIsGated | src/auth/guards/duo-verified.guard.ts:29-37 | a token issued to an active account that requires Duo and is not yet verified is refused |
| Controller.ParamCheck | src/auth/auth.controller.ts:110-116 | the 400 'Invalid Duo callback parameters' answer is recorded exactly when state or duo_code is falsy |
| Controller.CallbackTail | src/auth/auth.controller.ts:126-143 | the auth cookie is set iff verification succeeded and signing did; success redirects with that token, failure to the error page, a signing error gives the 500 answer |
| Controller.CallbackFallsThrough | src/auth/auth.controller.ts:110-136 | after the 400 answer, the verification's own answer is still recorded |
| Controller.AuthController.Me | src/auth/auth.controller.ts:33-70 | answers 200 with the stored record and the request's duoVerified, writing the flag only when the request says verified and the record does not; any error answers 500 and writes nothing |
| Controller.AuthController.SamlCallback | src/auth/auth.controller.ts:85-101 | the account is the one validateSamlUser resolves from the claims (the matching stored record, or the new account); unreachable storage fails with 'SAML authentication failed'; an account requiring Duo gets only the redirect to Duo's prompt URL for its state, or 'Failed to initialize Duo MFA' with nothing recorded when generateState or createAuthUrl fails (or, without a client, to the front end, after saving it verified), with no token; otherwise the cookie holds the token signed for that account and the front-end redirect follows; any escaping exception records nothing |
| Controller.AuthController.DuoCallback | src/auth/auth.controller.ts:104-144 | records the 400 check followed by the answer for the verification outcome; verified iff storage is reachable and the target resolved from the state, the code and the request's username names a stored record; that record's flag alone is then set, and the cookie and the success redirect carry the token signed for it (a signing failure answers 500); otherwise nothing is written |
| Controller.AuthController.Logout | src/auth/auth.controller.ts:148-167 | clears the auth cookie and answers 200 with the logout instructions; with no request user it answers 500 |

## Left out

- `duoHealthCheck` and its controller route: it returns a fixed object, and its only variable part is the clock's timestamp.
- `samlLogin`: its body is empty. The SAML guard performs the redirect to the identity provider.
- SAML assertion parsing and signature checking, and the certificate and private-key file reads: these belong to the SAML library and the file system.
- JWT signature and expiry checking and token encoding: `sign` is an opaque function that may fail.
- Duo's network protocol: `createAuthUrl` and the code exchange are opaque functions that may fail. The outcome of `generateState` (a random nonce, or a failure) is a parameter.
- Logging: it has no effect on results.
- Timing of database failures: reachability is one flag per repository, so a failure between two calls of the same handler is not modelled.
- Concurrency: interleavings between concurrent requests (for example two first logins racing between lookup and insert) are not modelled; each handler runs alone.
- Keys: the uuid primary key is a natural-number counter. `created_at`, `updated_at` and the class-validator decorators are not modelled.
- Undefined usernames: TypeORM's handling of `where: { username: undefined }` is outside the model. A Duo callback whose username resolves to undefined is treated as finding no record.
- Mutation of the caller's object: `initiateDuoAuth` also sets `duo_verified` on the caller's `user` object. The model records the save but not this mutation, which no later step of `samlCallback` reads.
- Express's refusal to send twice: the response records every call. The "headers already sent" error that the second answer after the 400 would raise is not modelled.
- Non-string query parameters: query values are optional strings. Array-valued query parameters are not modelled.
- Lone surrogates: Dafny strings hold Unicode scalar values, so the URIError that `encodeURIComponent` raises on a lone surrogate cannot arise.
- `main.ts`, `app.module.ts` and `JwtAuthGuard`: these are bootstrap and framework glue. `JwtAuthGuard` is not part of this model beyond its effect that `me` and `logout` receive the strategy's request user.
- CorrelationState.StateUsername: its own contract says only that a failure is URIError. What it returns is stated by `StateRoundTrip`, `EmptyUsernameFallsBack`, `MissingSegmentFallsBack` and `LaterSegmentsIgnored`.
