# Aspectus: a verified model of the credential lifecycles

Aspectus is an identity service. This project models its credential state machines and the caches,
counters and parsers around them, and proves what the service relies on over every run.

Conventions used throughout:

- SQL tables are finite maps, Redis is a map from keys to values with a deadline, and there is one
  clock in milliseconds. Truncation to whole seconds is written out wherever the code truncates.
- Hashing is symbolic (`Digest = Sha256(preimage)`), hence injective. Random tokens and ids are drawn
  by the environment and are fresh; the guard that says so is part of each model.
- Code that changes rows or cache entries is a class whose methods change fields in place. Each method is
  proved equal to a function from old state to new state, and the theorems are about these functions and
  all runs of them.
- Redis serves an entry through the millisecond of its deadline.
- Where interleaving matters (OAuth, API keys, service tokens, scope expansion, login lockout), a request is a program counter
  and one event runs one statement of one request, in any order with all others.

How the pieces fit:

| file | content |
|---|---|
| Basics, Text, Redis | options, symbolic hash, split/join and sorted listings, expiring keys |
| OAuthStore, OAuthProtocol | the OAuth tables and their statements; the handlers as interleaved statement programs |
| Baton, OAuthLineage | the four moves a refresh-token lineage allows; the protocol makes no others |
| OAuthCodes | authorization codes over every interleaving |
| OAuthHandlers | the handlers run alone, in place, and as runs of the interleaved protocol |
| OAuthChecks | what codes and logins were checked for over every interleaving; suspension; the remaining handlers run alone |
| ApiKeys, ApiKeyStaleness | cached introspection with atomic handlers, and with interleaved statements |
| ServiceTokens, ServiceTokenStaleness | one live token per project behind a 60-second cache, atomically and with interleaved statements |
| KeyIssuing, Scopes | creating and exchanging keys; the scope language and project derivation |
| JwtDenyList, Introspection | deny-list timing; dispatch and completion of introspection answers |
| Roles, ScopeCache, ScopeLife, ScopeStaleness, ScopeRows, ScopeRuns, RoleService | the role tables and the scope-rewriting loop; cached expansion over every run, atomically and with interleaved statements, which run alone are the atomic ones; the handlers in place |
| RateLimiter, Lockout | timed counters with quantitative bounds |
| PasswordReset, Cleanup | reset tokens against a ledger; what background deletion changes and what it does not |

Requirements met by the OAuth part come from sections 4.1.2, 4.1.3, 6 and 10.4 of RFC 6749 and section 4.6 of
RFC 7636; the shape of introspection answers from section 2.2 of RFC 7662.

Places where the code does less than its comments or a first reading suggest, each stated exactly:

- `/token/revoke` updates the row and leaves the cache. A cached answer differs from the lookup exactly when the row
  is revoked and an entry is live (`ApiKeys.RunVerifyIsPlainIff`), for at most 300 seconds after earlier readers have
  stored (`ApiKeyStaleness.StalenessIsBounded`, reached by `BoundIsTight`); with statements interleaved it can still be
  answered active exactly while an entry or a pending store holds a good answer (`RevokedAnswersIff`). A token bought in that time is a new row
  and lives on (`KeyIssuing.RevokedKeyBuysToken`).
- `JwtVerifier::revoke` leaves the audience check at its default and names no audience, while every claim set has
  one. By the rule of jsonwebtoken 9.3.1, the locked version, it therefore denies nothing
  (`JwtDenyList.RevocationIsInert`); `RevokeDeniesIff` says what it accepts under any audience setting.
- Under settings that do accept tokens, `revoke` checks no signature, so the latest accepted revocation of a jti
  decides, whoever presented it (`JwtDenyList.ActiveIff`): one with an earlier expiry reopens the window
  (`ShorterRevocationReopens`), exactly when its own denial is too short (`OverwriteKeepsWindowIff`). A revoked token
  can also be active again between its expiry and the end of the leeway (`ReactivatesIff`).
- Background deletion of refresh tokens is invisible to rotation but not to replay detection: the lookup differs
  exactly for rows that exist and have expired (`Cleanup.ReplayLookupNoticesIff`, `Cleanup.MissedReplay`).
- At most threshold + T / duration wrong passwords within T holds for logins one at a time
  (`Lockout.SerialFailuresAreBounded`) and fails as soon as two overlap (`OverlapExceedsSerialBound`); with at most c
  in flight the bound is threshold - 1 + c (floor(T / duration) + 1), and it is reached (`BoundIsReached`).
- A rotated service token is dead at once when handlers do not overlap; of two overlapping rotations the token
  between can authenticate for 60 more seconds (`ServiceTokenStaleness.MiddleTokenLingers`). In every reachable state a
  dead token can still authenticate exactly when an entry for it is live or a verify that had found it is about to
  store one (`DeadAuthenticatesIff`).
- A role change invalidates its users' expansions, but an expansion under way can store the old scopes after the
  deletion (`ScopeStaleness.OverlapGoesStale`): stale answers remain possible exactly while an entry or a pending store
  holds other scopes (`StaleIff`), for at most 60 seconds (`StalenessIsBounded`).

## Model

| member | source | states |
|---|---|---|
| OAuthLineage.EventRefines | crates/aspectus-server/src/routes/oauth.rs:183-427 | every statement of every OAuth handler, and every other event, is one of four lineage moves: drop, take a live token, start a lineage, mint one token |
| Baton.InvKept | crates/aspectus-server/src/db/oauth_store.rs:103-116 | all four moves keep each lineage to one holder with the owner it started with, and each token to one successor |
| OAuthLineage.LineageNeverForks | crates/aspectus-server/src/routes/oauth.rs:322-423 | under any interleaving of refresh, login, registration, code exchange, logout, wipe, cleanup, time and aborts: acceptable tokens of a lineage plus requests between `rotate` and `create` number at most one, and no token is replaced twice |
| OAuthLineage.LineageKeepsOwner | crates/aspectus-server/src/routes/oauth.rs:357-395 | every acceptable token belongs to the user and client its lineage began with, and the token it replaced is no longer acceptable |
| OAuthLineage.HoldersConserved | crates/aspectus-server/src/db/oauth_store.rs:82-141 | a user's unrevoked tokens plus requests in flight grow only by lineages started, over any run |
| OAuthLineage.ReplayWipeHolds | crates/aspectus-server/src/routes/oauth.rs:396-416 | the wipe leaves the user no unrevoked token, and whatever interleaves later, usable tokens number at most the requests in flight at the wipe plus lineages started since |
| OAuthHandlers.ReplayEndsTheUser | crates/aspectus-server/src/routes/oauth.rs:396-416 | presenting a revoked token with none of its user's requests in flight leaves no usable token, and no later run gives one back without a new login, registration or code exchange |
| OAuthCodes.CodesAreSingleUseAndBound | crates/aspectus-server/src/routes/oauth.rs:188-321 | under any interleaving a code reaches `issue_tokens` at most once, by a request that exchanged it before its 300 seconds were over, for a client that is registered and has no secret or presented the right one, with the client id and redirect URI of the authorize request, and a verifier present exactly when there is a challenge and answering it |
| OAuthCodes.BurnedForever | crates/aspectus-server/src/db/oauth_store.rs:64-77 | an exchanged code never exchanges again; if the request that exchanged it fails a later check, no tokens are ever issued for it |
| OAuthHandlers.CodeGrantIff | crates/aspectus-server/src/routes/oauth.rs:188-321 | on the rows: the code grant issues exactly for a registered client without a secret or with the right one, an unused unexpired code of this client and redirect URI, a matching verifier and a known user; every refusal and the whole new state are given, and the code is spent for any authenticated caller |
| OAuthHandlers.AuthorizeIff | crates/aspectus-server/src/routes/oauth.rs:36-162 | on the rows: a code is given exactly for a registered redirect URI, a challenge only with S256, the right password of a known user and one who is not suspended; it is stored for 300 seconds as asked, and a refusal changes nothing |
| OAuthHandlers.AuthorizeThenToken | crates/aspectus-server/src/routes/oauth.rs:36-162 | round trip: the code of an authorize request buys tokens exactly for that client, redirect URI and verifier, exactly within 300 seconds |
| OAuthHandlers.RefreshGrantIff | crates/aspectus-server/src/routes/oauth.rs:322-423 | on the rows: issued exactly for a registered client without a secret or with the right one, its own unrevoked unexpired token and a known user who is not suspended; then exactly the presented token is replaced. A failed check still burns it; a revoked token ends all of its user's tokens and nobody else's; anything else changes nothing |
| OAuthHandlers.TokenEndpointIff | crates/aspectus-server/src/routes/oauth.rs:183-427 | each grant type runs its grant exactly when its fields are present, an absent secret or redirect URI counting as empty; anything else is unprocessable and changes nothing |
| OAuthHandlers.RefreshIsRun | crates/aspectus-server/src/routes/oauth.rs:322-423 | the refresh handler run alone is the interleaved protocol without interference |
| OAuthHandlers.CodeIsRun | crates/aspectus-server/src/routes/oauth.rs:188-321 | the same for the code handler |
| OAuthChecks.CodesAndLoginsAreChecked | crates/aspectus-server/src/routes/oauth.rs:36-162 | under any interleaving each code ever issued was asked for with a registered redirect URI, S256 if there is a challenge, and the right password of a known user; each lineage not rooted at a code was started by the right password of its owner or by its owner's registration |
| OAuthChecks.SuspendedGetNothing | crates/aspectus-server/src/routes/oauth.rs:100-119 | under any interleaving: while a user stays suspended and no request of theirs is past the check, no code is issued for them, no login of theirs succeeds and no token of theirs is exchanged for another |
| OAuthChecks.AuthorizeIsRun | crates/aspectus-server/src/routes/oauth.rs:36-162 | the authorize handler run alone is the interleaved protocol without interference |
| OAuthChecks.CodeLife | crates/aspectus-server/src/routes/oauth.rs:36-321 | a run from the empty service on: the code is issued exactly when the authorize request passes its checks, buys a refresh token exactly within 300 seconds by a request that fits it, and cleanup deletes that token's row exactly when its 30 days are over |
| OAuthChecks.LoginIsRun | crates/aspectus-server/src/routes/auth.rs:159-318 | a login run alone gives a token exactly to the right password of a known user who is not suspended, and changes nothing otherwise |
| OAuthChecks.RegisterIsRun | crates/aspectus-server/src/routes/auth.rs:339-568 | a registration run alone creates an active user and gives a token, unless the name is in use |
| OAuthChecks.LogoutIsRun | crates/aspectus-server/src/routes/auth.rs:584-606 | a logout run alone revokes exactly the presented token, if it is acceptable |
| OAuthHandlers.OAuthService.Authorize | crates/aspectus-server/src/routes/oauth.rs:36-162 | the in-place handler computes the authorize function that `AuthorizeIff` characterises |
| OAuthHandlers.OAuthService.GrantByCode | crates/aspectus-server/src/routes/oauth.rs:188-321 | the in-place code grant computes the function that `CodeGrantIff` characterises |
| OAuthHandlers.OAuthService.GrantByRefresh | crates/aspectus-server/src/routes/oauth.rs:322-423 | the in-place refresh grant, including the replay branch, computes the function that `RefreshGrantIff` characterises |
| OAuthHandlers.OAuthService.Token | crates/aspectus-server/src/routes/oauth.rs:183-427 | requests without a required field or with another grant type change nothing; the others run their grant |
| OAuthHandlers.OAuthService.StoreToken | crates/aspectus-server/src/routes/oauth.rs:498-521 | the next refresh token is stored for 30 days for the same user and client |
| OAuthHandlers.OAuthService.Logout | crates/aspectus-server/src/routes/auth.rs:584-606 | always succeeds; afterwards the presented refresh token is not acceptable, and an access token sent along has been put through `revoke` |
| OAuthStore.OAuthTables.InsertCode | crates/aspectus-server/src/db/oauth_store.rs:41-62 | the code row is added unused, without a challenge |
| OAuthStore.OAuthTables.UpdateChallenge | crates/aspectus-server/src/routes/oauth.rs:148-154 | the challenge is stored on the row of this code only |
| OAuthStore.OAuthTables.ClaimCode | crates/aspectus-server/src/db/oauth_store.rs:64-77 | claims a code exactly when unused and unexpired, and marks it used |
| OAuthStore.OAuthTables.InsertRefresh | crates/aspectus-server/src/db/oauth_store.rs:82-101 | a new unrevoked row for the hash |
| OAuthStore.OAuthTables.RevokeIfAcceptable | crates/aspectus-server/src/db/oauth_store.rs:103-116 | revokes and returns the row exactly when unrevoked and unexpired |
| OAuthStore.OAuthTables.RevokeUser | crates/aspectus-server/src/db/oauth_store.rs:118-128 | revokes every unrevoked row of the user, keeping earlier revocation times and other users' rows |
| OAuthStore.OAuthTables.DeleteExpired | crates/aspectus-server/src/cleanup.rs:50-53 | deletes exactly the rows whose expiry has passed |
| ApiKeys.CacheIsInvisible | crates/aspectus-auth/src/lib.rs:187-230 | over every run of creation, introspection, admin revocation, time and eviction, without `/token/revoke`, the cached answers are those of a service without a cache |
| ApiKeys.CacheIsInvisibleIff | crates/aspectus-auth/src/lib.rs:187-230 | a run with both revocations among its events answers as without a cache exactly when no introspection asks for a revoked key with a live entry |
| ApiKeys.RunVerifyIsPlainIff | crates/aspectus-auth/src/lib.rs:187-230 | in every reachable state an answer is that of the lookup exactly unless the key is revoked and an entry is live |
| ApiKeys.RunActiveIff | crates/aspectus-auth/src/lib.rs:187-230 | over every run, cached or not, an answer is active exactly for a stored key that is not past its expiry and is unrevoked or answered by an entry from before its revocation; it carries the fields of the row, and otherwise none |
| ApiKeys.PlainVerifyIff | crates/aspectus-auth/src/lib.rs:187-230 | the lookup, on the row: active exactly when the stored hash is the presented one, the key is unrevoked and its expiry has not passed; then tenant, service account, project, scopes and expiry in whole seconds are those of the row |
| ApiKeys.VerifyEffect | crates/aspectus-auth/src/lib.rs:187-230 | a live entry stays; an active answer of the lookup is stored for a tenth of the remaining seconds, at most 300 and not at all in the last ten; nothing else is stored |
| ApiKeys.EntryIsRechecked | crates/aspectus-auth/src/lib.rs:187-230 | whatever an entry holds, it is answered only until the second of its exp is over, and inactive after it |
| ApiKeys.EntriesWithinLifetime | crates/aspectus-auth/src/lib.rs:66-74 | over every run, `/token/revoke` included, each entry is what its row says and its deadline is not past the key's expiry; without `/token/revoke` the row is unrevoked |
| ApiKeys.TtlInsideLifetime | crates/aspectus-auth/src/lib.rs:66-74 | the TTL is a tenth of the remaining seconds, between 0 and 300, and 300 without expiry; ten times it fits in the remaining lifetime, and it is zero exactly in the last ten seconds |
| ApiKeys.InactiveIsBare | crates/aspectus-core/src/introspect.rs:48-61 | an inactive answer carries no other field, cached or not |
| ApiKeys.TokenRevokeVisibleIff | crates/aspectus-server/src/routes/token.rs:130-166 | in every state the service reaches: after `/token/revoke` the cached answer is inactive exactly when no live entry existed |
| ApiKeys.TokenRevokeMayLag | crates/aspectus-server/src/routes/token.rs:130-166 | a state in which a key revoked this way is still answered active |
| ApiKeys.AdminRevokeIsFinal | crates/aspectus-server/src/routes/api_keys.rs:252-288 | an unrevoked key revoked by its owner is answered inactive in every later run with atomic handlers; other keys are answered as before, and a key revoked earlier keeps its time |
| ApiKeys.ApiKeyVerifier.Introspect | crates/aspectus-auth/src/lib.rs:187-230 | the in-place read-through lookup computes the answer and the new cache of the verified function |
| ApiKeys.ApiKeyVerifier.Revoke | crates/aspectus-server/src/routes/api_keys.rs:252-288 | revokes an unrevoked row once and drops its entry |
| ApiKeys.ApiKeyVerifier.RevokePresented | crates/aspectus-server/src/routes/token.rs:142-158 | revokes the row of a presented token without touching the cache, and succeeds again on a revoked one |
| ApiKeyStaleness.StalenessIsBounded | crates/aspectus-auth/src/lib.rs:187-230 | with statements interleaved: once the row is revoked and every earlier reader has stored, any verify whose GET comes more than 300 s later answers inactive |
| ApiKeyStaleness.DeleteEndsStaleness | crates/aspectus-server/src/routes/api_keys.rs:252-288 | after the DEL of an admin revoke with no earlier reader pending, every later verify answers inactive, forever |
| ApiKeyStaleness.BoundIsTight | crates/aspectus-auth/src/lib.rs:66-74 | a reachable run in which a verify started 300 s after the revocation, to the millisecond, is still answered active |
| ApiKeyStaleness.RevokedAnswersIff | crates/aspectus-auth/src/lib.rs:187-230 | with statements interleaved, from any state, some new verify of a revoked key can be answered active exactly when a live entry passes the re-check or an earlier reader is about to store such an answer |
| ApiKeyStaleness.VerifyIsRun | crates/aspectus-auth/src/lib.rs:187-230 | the statements of an undisturbed introspection are the atomic one: same answer, same cache |
| ApiKeyStaleness.RevokeIsRun | crates/aspectus-server/src/routes/token.rs:130-166 | the same for both revocations |
| ServiceTokens.CacheIsInvisible | crates/aspectus-auth/src/lib.rs:279-308 | over every run of create, rotate, revoke, authentication, time and eviction, cached authentication equals lookup |
| ServiceTokens.OneLiveToken | crates/aspectus-server/src/db/service_token_store.rs:117-158 | two tokens that authenticate as one project are the same token |
| ServiceTokens.ReplacedTokenIsDead | crates/aspectus-server/src/routes/service_tokens.rs:239-355 | a rotated or revoked token never authenticates again in any later run |
| ServiceTokenStaleness.StalenessIsBounded | crates/aspectus-auth/src/lib.rs:279-308 | with statements interleaved: once a token is dead and every verify that had found it has stored, a verify whose GET comes more than 60 s later finds no project |
| ServiceTokenStaleness.DeleteEndsStaleness | crates/aspectus-server/src/routes/service_tokens.rs:262-268 | a DEL of its hash with no earlier reader left ends a dead token for every later verify |
| ServiceTokenStaleness.DeadAuthenticatesIff | crates/aspectus-server/src/routes/service_tokens.rs:239-355 | in every reachable state, a token that is no project's live token can still authenticate some new verify exactly when an entry for it is live or a verify that had found it is about to store one |
| ServiceTokenStaleness.MiddleTokenLingers | crates/aspectus-server/src/routes/service_tokens.rs:239-301 | a run of two overlapping rotations after which, every handler finished, the token between still authenticates 60 s later |
| ServiceTokenStaleness.VerifyIsRun | crates/aspectus-auth/src/lib.rs:279-308 | the statements of an undisturbed authentication are the atomic one |
| ServiceTokenStaleness.ChangesAreRun | crates/aspectus-server/src/routes/service_tokens.rs:180-355 | the same for create, rotate and revoke |
| ServiceTokens.AuthenticationChanges | crates/aspectus-server/src/routes/service_tokens.rs:180-355 | after a change, the new token authenticates as the project, its old one as nobody, and all other tokens as before |
| ServiceTokens.OutcomesIff | crates/aspectus-server/src/routes/service_tokens.rs:180-355 | on the rows: create is invalid for unknown and admin projects, conflicts exactly with a token that is not revoked and succeeds otherwise; rotate and revoke succeed exactly for such a token; a refused change changes nothing |
| ServiceTokens.ChangesWrite | crates/aspectus-server/src/routes/service_tokens.rs:180-355 | what a successful create, rotate or revoke writes to the row and deletes from the cache, and nothing else |
| ServiceTokens.VerifyIff | crates/aspectus-auth/src/lib.rs:279-308 | in a coherent state, cached or not, a token authenticates as a project exactly when the project's row has its hash and is not revoked |
| ServiceTokens.VerifyEffect | crates/aspectus-auth/src/lib.rs:279-308 | a live entry is served and changes nothing; a token found in the rows is cached for 60 seconds, one not found is not |
| ServiceTokens.TokenLife | crates/aspectus-server/src/routes/service_tokens.rs:180-237 | from the empty service on: a created token authenticates, its first authentication is cached for exactly 60 seconds, and an evicted entry does not end it |
| ServiceTokens.ServiceTokenService.Authenticate | crates/aspectus-auth/src/lib.rs:279-308 | the in-place read-through lookup |
| ServiceTokens.ServiceTokenService.CreateToken | crates/aspectus-server/src/routes/service_tokens.rs:180-237 | computes the create function characterised by `OutcomesIff` |
| ServiceTokens.ServiceTokenService.RotateToken | crates/aspectus-server/src/routes/service_tokens.rs:239-301 | replaces the live hash and drops the old one's entry |
| ServiceTokens.ServiceTokenService.RevokeToken | crates/aspectus-server/src/routes/service_tokens.rs:303-355 | marks the row revoked and drops its entry |
| RateLimiter.CountersAreExact | crates/aspectus-server/src/middleware/rate_limit.rs:45-87 | after any history the counter of a key and bucket holds exactly the requests seen there and expires no earlier than the bucket ends |
| RateLimiter.ExpiryFollowsFirst | crates/aspectus-server/src/middleware/rate_limit.rs:53-66 | the first request of a bucket starts the expiry of its counter, one window long, and no later request moves it |
| RateLimiter.GrantedIff | crates/aspectus-server/src/middleware/rate_limit.rs:45-87 | a request passes exactly when its bucket has seen, itself included, at most its limiter's maximum, whichever limiters counted the others |
| RateLimiter.GrantedPerBucket | crates/aspectus-server/src/middleware/rate_limit.rs:45-87 | a limiter of maximum M, with all stricter ones on the key, grants at most M per bucket |
| RateLimiter.GrantedPerSpan | crates/aspectus-server/src/middleware/rate_limit.rs:45-87 | at most (n + 1) M in any half-open span of n windows, so 2 M in one |
| RateLimiter.TwiceTheMaximum | crates/aspectus-server/src/middleware/rate_limit.rs:50-52 | the bound for one window is reached, for every maximum and window |
| RateLimiter.AloneGrantsExactly | crates/aspectus-server/src/middleware/rate_limit.rs:45-87 | a limiter alone on its key grants exactly min(n, M) of n requests in a bucket |
| RateLimiter.CounterNamesDistinct | crates/aspectus-server/src/middleware/rate_limit.rs:51 | the formatted Redis key determines request key and bucket, even when request keys contain colons |
| RateLimiter.DecimalStandsFor | crates/aspectus-server/src/middleware/rate_limit.rs:50-51 | the bucket is written in decimal digits that stand for it, without a leading zero |
| RateLimiter.ZeroWindowLimitsNothing | crates/aspectus-server/src/middleware/rate_limit.rs:50-66 | a window of zero deletes each counter at once: every request passes unless the maximum is zero |
| RateLimiter.RateLimiter.Allow | crates/aspectus-server/src/middleware/rate_limit.rs:45-87 | the in-place script: count, start the expiry on the first hit, compare |
| Lockout.LockedIffThreshold | crates/aspectus-server/src/db/user_store.rs:79-114 | in every reachable state a lock is set exactly when the counter has reached the threshold and ends one duration after the latest failure, so the "locked" answer to a wrong password means locked now |
| Lockout.LoginAnswers | crates/aspectus-server/src/routes/auth.rs:159-286 | in every reachable state: blocked exactly while threshold failures stand and less than a duration has passed since the latest; otherwise the right password signs in, or is told of the suspension set last, and clears the row, and the n-th wrong one is told of the lock exactly from the threshold on |
| Lockout.SettleAnswers | crates/aspectus-server/src/routes/auth.rs:189-269 | in every reachable state, what a login in flight that read the suspension flag answers and leaves behind, other logins having written in between |
| Lockout.FailuresAreBounded | crates/aspectus-server/src/routes/auth.rs:159-269 | however logins interleave, between two clears the wrong passwords recorded in a closed interval of length T number at most threshold - 1 + c (floor(T / duration) + 1), c being the most logins ever in flight at once |
| Lockout.BoundIsReached | crates/aspectus-server/src/routes/auth.rs:159-269 | for every threshold, positive duration, c and k some run with peak c records exactly threshold - 1 + c (k + 1) failures within k durations |
| Lockout.OverlapExceedsSerialBound | crates/aspectus-server/src/routes/auth.rs:159-269 | two overlapping logins exceed threshold + T / duration, for every policy that locks |
| Lockout.SerialFailuresAreBounded | crates/aspectus-server/src/routes/auth.rs:159-269 | with one login at a time that is at most threshold + floor(T / duration) |
| Lockout.NoLockWithoutDuration | crates/aspectus-server/src/routes/auth.rs:38-52 | a configured duration that is not positive never refuses a login |
| Lockout.AttemptIsLogin | crates/aspectus-server/src/routes/auth.rs:159-269 | the read and the write of an undisturbed login are together the handler: same account, same answer |
| Lockout.UserStore.RecordFailedLogin | crates/aspectus-server/src/db/user_store.rs:79-103 | increments the counter, sets the lock from the threshold on, returns both, leaves other rows alone |
| Lockout.UserStore.ClearFailedLogins | crates/aspectus-server/src/db/user_store.rs:105-114 | resets counter and lock of an existing row |
| Lockout.UserStore.SetSuspended | crates/aspectus-server/src/db/user_store.rs:58-66 | sets the flag of an existing row |
| Lockout.LoginHandler.SignIn | crates/aspectus-server/src/routes/auth.rs:159-286 | the in-place handler computes the login function that `LoginAnswers` characterises; an unknown user is told what a wrong password is told |
| Lockout.LoginHandler.Unlock | crates/aspectus-server/src/routes/users.rs:289-319 | clears an existing user's failures and lock |
| JwtDenyList.DenyListWindow | crates/aspectus-auth/src/jwt.rs:190-250 | for every setting of the audience check and every run after an accepted revocation at r in which no accepted revocation names the jti with an earlier exp: inactive at every instant up to exp and up to r + 1 s; a later active answer lies between exp and exp plus leeway |
| JwtDenyList.ActiveIff | crates/aspectus-auth/src/jwt.rs:190-250 | over every run, a token is active exactly when it is genuine, within lifetime plus leeway and past the denial of the latest accepted revocation naming its jti |
| JwtDenyList.VerifyIff | crates/aspectus-auth/src/jwt.rs:190-233 | a presented token is active exactly when its signature is good, it names the service as issuer, is within lifetime plus leeway and not denied; it is answered with its own claims, and otherwise bare |
| JwtDenyList.RevokeDeniesIff | crates/aspectus-auth/src/jwt.rs:234-250 | with signature, expiry and issuer unchecked, `revoke` takes effect exactly on tokens whose audience passes, until exp and for one second at least, and for that jti only |
| JwtDenyList.RevocationIsInert | crates/aspectus-auth/src/jwt.rs:234-250 | under the settings in the code no run of revocations denies anything, and a genuine token stays active until lifetime plus leeway is over |
| JwtDenyList.OverwriteKeepsWindowIff | crates/aspectus-auth/src/jwt.rs:234-250 | a further accepted revocation of the same jti keeps a token inactive until its exp exactly when its own denial reaches that far |
| JwtDenyList.ShorterRevocationReopens | crates/aspectus-auth/src/jwt.rs:234-250 | where `revoke` accepts a token it accepts the same claims with exp 0 unsigned, and a second later the revoked token is active before its exp |
| JwtDenyList.ReactivatesIff | crates/aspectus-auth/src/jwt.rs:190-250 | such a later active instant exists, in some run that does not name the jti again, exactly when the denial ends before the leeway does |
| JwtDenyList.SignedTokenLifetime | crates/aspectus-auth/src/jwt.rs:128-150 | a signed token that is not denied is active exactly until its lifetime plus leeway is over, and names its project |
| JwtDenyList.JwtVerifier.Verify | crates/aspectus-auth/src/jwt.rs:190-233 | answers from the claims when signature, issuer and expiry pass and the jti is not denied |
| JwtDenyList.JwtVerifier.Revoke | crates/aspectus-auth/src/jwt.rs:234-250 | denies a token that its decode settings accept for the saturated remaining time, never for zero seconds, and reports whether it did |
| Introspection.AnswersAreHonest | crates/aspectus-server/src/routes/introspect.rs:18-49 | in every state the service reaches, an answer is active for exactly the reason the fields of the row or the claims give or because a revocation lags, an inactive one stays bare, and only scope, quotas and token format may differ from what they say; the quotas are the tenant's |
| Introspection.UserScopesAreCurrent | crates/aspectus-server/src/routes/introspect.rs:29-34 | over every run of role and assignment events, the scope of an active answer for a user splits into exactly the sorted scopes of the roles held now |
| Introspection.JwtExchangePreservesAuthority | crates/aspectus-server/src/routes/token.rs:71-97 | a JWT bought with a credential that was answered active introspects as the key does, but for expiry and format |
| Introspection.IntrospectEndpoint.VerifyToken | crates/aspectus-auth/src/token_verifier.rs:26-40 | dispatch by prefix, with the format rewritten for opaque tokens |
| Introspection.IntrospectEndpoint.Handle | crates/aspectus-server/src/routes/introspect.rs:18-49 | completes active answers only: a user's scope from the role tables through their cache, quotas when the tenant has them |
| KeyIssuing.ChainPreservesAuthority | crates/aspectus-server/src/routes/token.rs:27-128 | along any chain of exchanges, with any service events between the links, each opaque token introspects with the tenant, service account, project and scope list of the first key |
| KeyIssuing.FollowIff | crates/aspectus-server/src/routes/token.rs:27-128 | a link of a chain succeeds exactly when, after its events, the credential still answers and the client id is that of its project |
| KeyIssuing.ChainAppend | crates/aspectus-server/src/routes/token.rs:27-128 | a chain is its links one after the other, up to the first that fails |
| KeyIssuing.ExchangePreservesAuthority | crates/aspectus-auth/src/lib.rs:128-164 | an exchange succeeds exactly for its own project's client id and a credential that is unexpired and unrevoked, or whose revocation lags behind a live entry; each refusal has its cause; the new row has the old authority and the Pandaria fallback is never taken |
| KeyIssuing.RevokedKeyBuysToken | crates/aspectus-server/src/routes/token.rs:27-122 | a key revoked through `/token/revoke` while an entry is live still buys a token of its authority, active in the tables for its whole lifetime |
| KeyIssuing.AcceptedScopesAreWords | crates/aspectus-core/src/api_key.rs:30-51 | scope lists that pass `validate_scopes` have at most 100 entries, all of this project and free of white space |
| KeyIssuing.CountAcceptsIff | crates/aspectus-server/src/routes/api_keys.rs:115-139 | with unique names the counting query accepts a list exactly when every name exists and none repeats |
| KeyIssuing.FirstProblemIff | crates/aspectus-core/src/api_key.rs:30-51 | the loop finds no problem exactly when every scope is in the grammar and of the key's project, and otherwise reports the first that is not, with what is wrong with it |
| KeyIssuing.ScopesProblemIff | crates/aspectus-core/src/api_key.rs:30-51 | accepted exactly for at most 100 scopes, all in the grammar and of the project; more than 100 are reported before any other problem |
| KeyIssuing.ApiKeyCreator.CheckScopes | crates/aspectus-server/src/routes/api_keys.rs:76-113 | the handler's loop reports the first problem that `validate_scopes` would |
| KeyIssuing.ApiKeyCreator.Create | crates/aspectus-server/src/routes/api_keys.rs:44-213 | a row is inserted exactly for acceptable requests, each refusal has its exact cause, and every inserted row satisfies `validate_scopes` |
| Scopes.ValidateIffScope | crates/aspectus-core/src/scope.rs:31-103 | `validate` accepts exactly the strings project:resource:action of the grammar; the triple is unique and the extractors return it |
| Scopes.ValidateErrors | crates/aspectus-core/src/scope.rs:31-58 | for three segments: an empty one, an unknown project, a bad resource and a bad action are reported in this order |
| Scopes.ColonsDecideFirst | crates/aspectus-core/src/scope.rs:31-58 | the segment count is wrong exactly for strings without exactly two colons, whatever else is wrong |
| Scopes.ParseDisplay | crates/aspectus-core/src/project.rs:37-65 | a string parses to a project exactly when it is its display name |
| Scopes.ScopeIsWord | crates/aspectus-core/src/scope.rs:89-103 | a valid scope contains no white space |
| Scopes.ProjectsFromScopesIff | crates/aspectus-server/src/scope_expander.rs:20-31 | for every string: the strictly increasing list of exactly the parts before the first colon of its words, without empty ones and `*` |
| Scopes.ProjectsOfValidScopes | crates/aspectus-server/src/scope_expander.rs:20-31 | for valid scopes joined by spaces the derived list is the strictly increasing list of exactly their projects' names |
| Text.WordsOfJoinIff | crates/aspectus-auth/src/lib.rs:128-164 | joining by spaces and splitting at white space is the identity exactly on lists of nonempty words, the empty list included |
| Text.WordsApart | crates/aspectus-auth/src/lib.rs:128-164 | splitting at white space of any amount, on every string |
| Text.BelowIff | crates/aspectus-server/src/scope_expander.rs:45-56 | the order of the listings: the first difference decides, and a proper prefix comes first |
| Roles.AddScopesGrants | crates/aspectus-server/src/routes/roles.rs:260-295 | after the loop the role grants what it did plus exactly the requested names, repeated or unknown; other roles keep theirs, names stay unique, the scope table only grows |
| Roles.CreateRewrites | crates/aspectus-server/src/routes/roles.rs:313-382 | on the rows: create succeeds exactly for a name of 1 to 128 letters, digits, hyphens and underscores that no role has, scopes of the grammar and a known type; then the role grants exactly the requested names and lists them sorted; otherwise nothing changes and the refusal is the stated one |
| Roles.UpdateRewrites | crates/aspectus-server/src/routes/roles.rs:384-467 | on the rows: update succeeds exactly for an existing non-system role with valid input; then its scope set is the requested one, other roles and all holders are unchanged and the scope table only grows; otherwise nothing changes and the refusal is the stated one |
| Roles.DeleteIff | crates/aspectus-server/src/routes/roles.rs:469-541 | on the rows: unknown, system and held roles are refused, each as such, and nothing changes; else exactly the role's row and scope pairs go |
| Roles.AssignIff | crates/aspectus-server/src/routes/roles.rs:122-172 | on the rows: each refusal exactly for its cause; success adds exactly this pair |
| Roles.RemoveIff | crates/aspectus-server/src/routes/roles.rs:174-212 | on the rows: succeeds exactly for a known user who holds the role, and removes exactly this pair |
| Roles.CreateUserIff | crates/aspectus-server/src/routes/users.rs:88-106 | on the rows: the user gets exactly the roles that are default and of type user or both; all other pairs stay |
| Roles.RegisterIff | crates/aspectus-server/src/routes/auth.rs:491-547 | on the rows: the user gets at most the role that was found, if it is default and of type user or both; all other pairs stay |
| ScopeCache.CacheStaysCoherent | crates/aspectus-server/src/scope_expander.rs:38-75 | over every run of role, assignment, user and expansion events each cached entry is the sorted duplicate-free union of the user's current scopes, so cached and uncached expansion agree |
| ScopeCache.DeleteKeeps | crates/aspectus-server/src/routes/roles.rs:469-541 | deleting a role needs no invalidation because it is refused while anyone holds the role |
| ScopeCache.SystemRolesAreFixed | crates/aspectus-server/src/routes/roles.rs:384-541 | system roles keep row and scopes over every run and are never deleted |
| ScopeCache.AssignmentEffect | crates/aspectus-server/src/routes/roles.rs:122-172 | assigning succeeds exactly for a known user and a role of type user or both not held yet; it adds what the role grants, drops the user's entry and changes nobody else |
| ScopeCache.RemovalEffect | crates/aspectus-server/src/routes/roles.rs:174-212 | removing succeeds exactly for a role the known user holds; it leaves exactly what the other roles grant, drops the user's entry and changes nobody else |
| ScopeCache.NewUserEffect | crates/aspectus-server/src/routes/users.rs:88-106 | a new user holds exactly the default roles that users may hold and has exactly the scopes those grant; nobody else changes |
| ScopeCache.RegistrationEffect | crates/aspectus-server/src/routes/auth.rs:491-547 | a registered user has at most the one default role found and exactly its scopes; nobody else changes, and the entry is dropped |
| ScopeCache.RewriteEffect | crates/aspectus-server/src/routes/roles.rs:384-467 | a successful rewrite drops exactly the entries of the role's holders, a refused one none |
| ScopeCache.HoldersFollow | crates/aspectus-server/src/routes/roles.rs:384-467 | in every coherent state a successful rewrite reaches its holders: a user then has what the other roles grant, and the requested scopes exactly when the user holds the role, and a holder's entry is gone |
| ScopeCache.ExpandEffect | crates/aspectus-server/src/scope_expander.rs:38-75 | a live entry is served; otherwise the sorted scopes of the tables are answered and stored for 60 seconds |
| ScopeCache.ExpansionReadsBack | crates/aspectus-server/src/scope_expander.rs:20-75 | over every run the expanded string splits back into exactly the user's scopes, and the projects derived from it are exactly theirs |
| ScopeLife.RoleIsHeld | crates/aspectus-server/src/routes/roles.rs:122-382 | a run from the empty service on: one who is given a new role has exactly its scopes, served from the cache for exactly 60 seconds |
| ScopeLife.RoleEnds | crates/aspectus-server/src/routes/roles.rs:174-541 | and on: after a rewrite the holder has exactly the new scopes and no entry; the role cannot be deleted until it is taken away, which leaves no scopes |
| ScopeStaleness.StalenessIsBounded | crates/aspectus-server/src/scope_expander.rs:38-75 | with statements interleaved and handlers stopping anywhere: once a user's scopes have stopped changing and earlier readers of others have stored, an expansion whose GET comes more than 60 s later gives exactly the present scopes |
| ScopeStaleness.StaleIff | crates/aspectus-server/src/scope_expander.rs:38-75 | from any state, with the user's scopes changing no more, some new expansion can give others exactly when a live entry holds others or an expansion is about to store others |
| ScopeStaleness.OverlapGoesStale | crates/aspectus-server/src/routes/roles.rs:122-172 | for every role that gives a user something new, an expansion overlapping its assignment leaves the old scopes cached after both have finished, for exactly 60 s unless evicted |
| ScopeRows.ConstraintsHold | crates/aspectus-server/src/routes/roles.rs:122-541 | over every interleaving of the role and user handlers, stopped anywhere, scope and role names stay unique and every pair joins rows that exist |
| ScopeRows.SystemRolesAreFixed | crates/aspectus-server/src/routes/roles.rs:384-541 | over every interleaving a system role keeps its row and its scopes and is never deleted |
| ScopeRuns.ExpandIsRun | crates/aspectus-server/src/scope_expander.rs:38-75 | the statements of an undisturbed expansion are the atomic one |
| ScopeRuns.AssignIsRun | crates/aspectus-server/src/routes/roles.rs:122-212 | the same for assignment and removal |
| ScopeRuns.CreateIsRun | crates/aspectus-server/src/routes/roles.rs:313-382 | the same for creating a role, its loop included |
| ScopeRuns.UpdateIsRun | crates/aspectus-server/src/routes/roles.rs:384-467 | the same for rewriting a role, in whatever order its holders' entries go |
| ScopeRuns.DeleteIsRun | crates/aspectus-server/src/routes/roles.rs:469-541 | the same for deleting a role |
| ScopeRuns.NewUserIsRun | crates/aspectus-server/src/routes/users.rs:88-106 | the same for the administrator's user creation, in whatever order the default roles come |
| ScopeRuns.RegisterIsRun | crates/aspectus-server/src/routes/auth.rs:491-547 | the same for self-registration, whatever role the query returns |
| RoleService.RoleService.InsertRoleScopes | crates/aspectus-server/src/routes/roles.rs:260-295 | the loop over requested names computes the function of `AddScopesGrants` |
| RoleService.RoleService.LookUpScope | crates/aspectus-server/src/routes/roles.rs:266-270 | finds the id of a stored name, and none exactly when the name is not stored |
| RoleService.RoleService.InvalidateUsersWithRole | crates/aspectus-server/src/routes/roles.rs:297-311 | exactly the holders' entries are deleted |
| RoleService.RoleService.Sorted | crates/aspectus-server/src/routes/roles.rs:38-48 | the strictly increasing listing of a set of names |
| RoleService.RoleService.Create | crates/aspectus-server/src/routes/roles.rs:313-382 | the in-place handler computes the function of `CreateRewrites` |
| RoleService.RoleService.Update | crates/aspectus-server/src/routes/roles.rs:384-467 | the in-place handler, invalidation included, computes the function of `UpdateRewrites` |
| RoleService.RoleService.Delete | crates/aspectus-server/src/routes/roles.rs:469-541 | refuses unknown, system and assigned roles, else removes the role and its scope rows |
| RoleService.RoleService.Assign | crates/aspectus-server/src/routes/roles.rs:122-172 | computes the assignment and drops the user's entry exactly when a row was added |
| RoleService.RoleService.Remove | crates/aspectus-server/src/routes/roles.rs:174-212 | computes the removal and drops the user's entry exactly when a row was deleted |
| RoleService.RoleService.NewUser | crates/aspectus-server/src/routes/users.rs:88-106 | the loop computes the user creation that `CreateUserIff` characterises |
| RoleService.RoleService.SelfRegister | crates/aspectus-server/src/routes/auth.rs:491-547 | computes the registration that `RegistrationEffect` characterises, its cache deletion included |
| RoleService.RoleService.Expand | crates/aspectus-server/src/scope_expander.rs:38-69 | cached string, or the joined sorted listing stored for 60 seconds |
| PasswordReset.RowsAnswerAsLedger | crates/aspectus-server/src/routes/auth.rs:731-757 | over every run a token is accepted exactly when issued less than an hour ago and not accepted before, whatever cleanup deleted |
| PasswordReset.CleanupIsInvisible | crates/aspectus-server/src/cleanup.rs:55-59 | removing all cleanups from a run changes no answer |
| PasswordReset.AcceptedAtMostOnce | crates/aspectus-server/src/routes/auth.rs:731-757 | at most one acceptance per token in any run, none once used or after an hour |
| PasswordReset.IssuedIsAcceptedOnce | crates/aspectus-server/src/routes/auth.rs:623-815 | a new token presented twice is accepted once, and exactly within its hour |
| PasswordReset.CleanupDeletesIff | crates/aspectus-server/src/cleanup.rs:55-59 | exactly used rows and rows past their expiry go, and the rest stay as they are |
| PasswordReset.PasswordResets.ForgotPassword | crates/aspectus-server/src/routes/auth.rs:623-706 | a known user gets a fresh token for an hour, an unknown one nothing |
| PasswordReset.PasswordResets.ResetPassword | crates/aspectus-server/src/routes/auth.rs:719-815 | the password changes exactly for the user of a claimable token, which is spent |
| PasswordReset.PasswordResets.Cleanup | crates/aspectus-server/src/cleanup.rs:55-59 | deletes exactly used and expired rows |
| Cleanup.RotateNeverNotices | crates/aspectus-server/src/cleanup.rs:49-62 | removing all cleanups from any run of refresh-token statements changes no result of `rotate` |
| Cleanup.RowsAnswerAsLedger | crates/aspectus-server/src/db/oauth_store.rs:82-128 | over every run of insertions, rotations, revocations by user, cleanup and time, `rotate` returns a token's row exactly when it was given less than 30 days ago and has neither been rotated nor revoked since |
| Cleanup.GrantCommutes | crates/aspectus-server/src/routes/oauth.rs:322-423 | for a token whose row stays, or that has none, the refresh grant commutes with cleanup |
| Cleanup.ReplayLookupNoticesIff | crates/aspectus-server/src/db/oauth_store.rs:130-141 | cleanup changes the replay lookup exactly for rows that exist and have expired |
| Cleanup.DeletedGrant | crates/aspectus-server/src/routes/oauth.rs:396-416 | for such a row the grant is refused either way, but a revoked token ends its user's tokens before cleanup and none after |
| Cleanup.MissedReplay | crates/aspectus-server/src/cleanup.rs:49-53 | a concrete replay that wipes before cleanup and not after it |
| Redis.Cache.Read | crates/aspectus-auth/src/cache.rs:56-60 | an entry is visible until its deadline |
| Redis.Cache.Write | crates/aspectus-auth/src/cache.rs:38-71 | stores with a deadline; a TTL of zero stores nothing |
| Redis.Cache.Delete | crates/aspectus-auth/src/cache.rs:73-77 | removes exactly this key |

## Left out

- HTTP routing, JSON decoding, problem texts, metrics, audit log, email, health, CORS, the console and the client crate: plumbing without state of interest here.
- SHA-256, argon2, RSA and the random generator: symbolic hash, password comparison and signature validity as input bits, fresh values by guard. Hex encodings and token prefixes are abstract; the constant-time comparisons are equality.
- Outages of Redis and PostgreSQL: caches swallow errors, the limiter passes requests, `expand` reads a failed query as no scopes. The OAuth protocol model lets a request end at any statement, which covers errors that end a handler; the errors it ignores are not modelled, in particular a failed UPDATE of the PKCE challenge, after which the code is released without one.
- The JWT library: its parsing, signature and audience rules are taken as stated for version 9.3.1; the library itself is not part of this model.
- KeyIssuing.ApiKeyCreator.Create: requests with owner_type user are not modelled, because the row type has no such owner; a request without a service account is refused as one without an owner.
- Key rows are addressed by their unique hash, not by id.
- Users are addressed by id; the lookups by tenant and email, tenants, display names, the password policy and quota contents are not modelled. Registration's tenant checks are one input.
- Reads of `issue_tokens` that only shape its response (tenant name, user profile), and the access token it signs next to the refresh token.
- The rate limiter's key extraction from headers and proxies.
- Lockout.FailuresAreBounded: counts failures since the last clear; `/authorize` and change-password compare passwords without consulting the lock and are not part of this model. The counter is unbounded where the column has 32 bits.
- ScopeCache.CacheStaysCoherent: handlers are atomic; ScopeStaleness has the interleaved ones, where looking a scope up, creating it and linking it count as one statement. Listings are sorted by character, where the database sorts by its collation. Column widths are not modelled.
- ServiceTokens.CacheIsInvisible: handlers are atomic; ServiceTokenStaleness has the interleaved ones.
- Startup seeding of roles, scopes and the admin service token: initial tables are arbitrary well-formed ones.
- PasswordReset.PasswordResets.ResetPassword: the claim and the password update are one step; the runs that the other reset theorems speak about are per statement.
- Change-password, tenant and service-account administration, list and get endpoints: they would add only easy members.
