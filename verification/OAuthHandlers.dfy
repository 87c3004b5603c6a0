/** The OAuth handlers run to completion without interference: the in-place programs, what they
  * compute, and that they are runs of the interleaved protocol. */
module OAuthHandlers {
  import opened Basics
  import opened OAuthStore
  import opened Baton
  import opened OAuthProtocol
  import opened OAuthLineage
  import JwtDenyList

  datatype TokenRequest = TokenRequest(grantType: string, code: Option<string>, verifier: Option<string>,
                                       client: Option<string>, secret: Option<string>,
                                       redirectUri: Option<string>, refreshToken: Option<string>)

  function OrEmpty(o: Option<string>): string {
    match o case Some(s) => s case None => ""
  }

  /** INSERT of the next refresh token at the end of issue_tokens. */
  function IssueTokens(db: Db, user: string, client: string, drawn: string): (Db, Outcome) {
    (CreateRefresh(db, Sha256(drawn), user, client, db.now + REFRESH_LIFETIME_MS), Issued(Sha256(drawn)))
  }

  /** Exchange the code, then check everything the row says. */
  function ExchangeAndCheck(db: Db, r: CodeRequest, drawn: string): (Db, Outcome) {
    var (db', row) := ExchangeCode(db, r.code);
    match row
    case None => (db', Unauthorized)
    case Some(row) =>
      if row.client != r.client then (db', Unauthorized)
      else if r.redirectUri == "" then (db', Unprocessable)
      else if r.redirectUri != row.redirectUri then (db', Unauthorized)
      else if !VerifierMatches(ReadChallenge(db', r.code), r.verifier) then (db', Unauthorized)
      else if row.user !in db'.users then (db', ServerError)
      else IssueTokens(db', row.user, row.client, drawn)
  }

  function CodeGrant(db: Db, r: CodeRequest, drawn: string): (Db, Outcome) {
    if !ValidClientSecret(db, r.client, r.secret) then (db, Unauthorized) else ExchangeAndCheck(db, r, drawn)
  }

  function RefreshGrant(db: Db, refresh: string, client: string, secret: string, drawn: string): (Db, Outcome) {
    if !ValidClientSecret(db, client, secret) then (db, Unauthorized) else
    var (db', row) := Rotate(db, Sha256(refresh));
    match row
    case Some(row) =>
      if row.client != client then (db', Unauthorized)
      else if row.user !in db'.users then (db', ServerError)
      else if db'.users[row.user].suspended then (db', Unauthorized)
      else IssueTokens(db', row.user, row.client, drawn)
    case None =>
      match FindByHashAny(db', Sha256(refresh))
      case Some((user, true)) => (RevokeAllForUser(db', user), Unauthorized)
      case _ => (db', Unauthorized)
  }

  /** `/oauth/token`: requests lacking a required field are refused before any statement runs. */
  function TokenEndpoint(db: Db, req: TokenRequest, drawn: string): (Db, Outcome) {
    if req.grantType == "authorization_code" && req.code.Some? && req.client.Some? then
      CodeGrant(db, CodeRequest(req.code.value, req.client.value, OrEmpty(req.secret), OrEmpty(req.redirectUri),
                                req.verifier), drawn)
    else if req.grantType == "refresh_token" && req.refreshToken.Some? && req.client.Some? then
      RefreshGrant(db, req.refreshToken.value, req.client.value, OrEmpty(req.secret), drawn)
    else (db, Unprocessable)
  }

  /** `/authorize`: checks, then INSERT of the code and UPDATE of its challenge. */
  function AuthorizeEndpoint(db: Db, r: AuthorizeRequest, drawn: string): (Db, Outcome) {
    if !ValidRedirectUri(db, r.client, r.redirectUri) then (db, Unprocessable)
    else if r.challenge.Some? && !r.methodIsS256 then (db, Unprocessable)
    else if r.user !in db.users || !r.passwordOk || db.users[r.user].suspended then (db, Unauthorized)
    else
      var db' := CreateCode(db, drawn, r.user, r.client, r.redirectUri, db.now + CODE_LIFETIME_MS);
      (if r.challenge.Some? then StoreChallenge(db', drawn, r.challenge.value) else db', CodeIssued(drawn))
  }

  class OAuthService {
    const tables: OAuthTables
    const jwt: JwtDenyList.JwtVerifier

    constructor (tables: OAuthTables, jwt: JwtDenyList.JwtVerifier)
      ensures this.tables == tables && this.jwt == jwt
    {
      this.tables, this.jwt := tables, jwt;
    }

    method Authorize(r: AuthorizeRequest, drawn: string, now: int) returns (o: Outcome)
      modifies tables
      ensures (tables.Snapshot(now), o) == AuthorizeEndpoint(old(tables.Snapshot(now)), r, drawn)
    {
      if !ValidRedirectUri(tables.Snapshot(now), r.client, r.redirectUri) {
        return Unprocessable;
      }
      if r.challenge.Some? && !r.methodIsS256 {
        return Unprocessable;
      }
      if r.user !in tables.users || !r.passwordOk {
        return Unauthorized;
      }
      if tables.users[r.user].suspended {
        return Unauthorized;
      }
      tables.InsertCode(drawn, r.user, r.client, r.redirectUri, now + CODE_LIFETIME_MS, now);
      if r.challenge.Some? {
        tables.UpdateChallenge(drawn, r.challenge.value, now);
      }
      return CodeIssued(drawn);
    }

    method StoreToken(user: string, client: string, drawn: string, now: int) returns (r: Outcome)
      modifies tables
      ensures (tables.Snapshot(now), r) == IssueTokens(old(tables.Snapshot(now)), user, client, drawn)
    {
      tables.InsertRefresh(Sha256(drawn), user, client, now + REFRESH_LIFETIME_MS, now);
      return Issued(Sha256(drawn));
    }

    method GrantByCode(r: CodeRequest, drawn: string, now: int) returns (o: Outcome)
      modifies tables
      ensures (tables.Snapshot(now), o) == CodeGrant(old(tables.Snapshot(now)), r, drawn)
    {
      if !ValidClientSecret(tables.Snapshot(now), r.client, r.secret) {
        return Unauthorized;
      }
      var row := tables.ClaimCode(r.code, now);
      if row.None? {
        return Unauthorized;
      }
      if row.value.client != r.client {
        return Unauthorized;
      }
      if r.redirectUri == "" {
        return Unprocessable;
      }
      if r.redirectUri != row.value.redirectUri {
        return Unauthorized;
      }
      var challenge := ReadChallenge(tables.Snapshot(now), r.code);
      if !VerifierMatches(challenge, r.verifier) {
        return Unauthorized;
      }
      if row.value.user !in tables.users {
        return ServerError;
      }
      o := StoreToken(row.value.user, row.value.client, drawn, now);
    }

    method GrantByRefresh(refresh: string, client: string, secret: string, drawn: string, now: int) returns (o: Outcome)
      modifies tables
      ensures (tables.Snapshot(now), o) == RefreshGrant(old(tables.Snapshot(now)), refresh, client, secret, drawn)
    {
      if !ValidClientSecret(tables.Snapshot(now), client, secret) {
        return Unauthorized;
      }
      var row := tables.RevokeIfAcceptable(Sha256(refresh), now);
      if row.Some? {
        if row.value.client != client {
          return Unauthorized;
        }
        if row.value.user !in tables.users {
          return ServerError;
        }
        if tables.users[row.value.user].suspended {
          return Unauthorized;
        }
        o := StoreToken(row.value.user, row.value.client, drawn, now);
      } else {
        // Not found or already revoked: a revoked row means the token is being replayed.
        var found := FindByHashAny(tables.Snapshot(now), Sha256(refresh));
        if found.Some? && found.value.1 {
          tables.RevokeUser(found.value.0, now);
        }
        return Unauthorized;
      }
    }

    method Token(req: TokenRequest, drawn: string, now: int) returns (o: Outcome)
      modifies tables
      ensures (tables.Snapshot(now), o) == TokenEndpoint(old(tables.Snapshot(now)), req, drawn)
    {
      if req.grantType == "authorization_code" {
        if req.code.None? || req.client.None? {
          return Unprocessable;
        }
        o := GrantByCode(CodeRequest(req.code.value, req.client.value, OrEmpty(req.secret), OrEmpty(req.redirectUri),
                                     req.verifier),
                         drawn, now);
      } else if req.grantType == "refresh_token" {
        if req.refreshToken.None? || req.client.None? {
          return Unprocessable;
        }
        o := GrantByRefresh(req.refreshToken.value, req.client.value, OrEmpty(req.secret), drawn, now);
      } else {
        return Unprocessable;
      }
    }

    /** Logging out revokes the token if it is acceptable and succeeds whatever it was; `access` is the access
      * token when one was sent that looks like a JWT. */
    method Logout(refresh: string, access: Option<JwtDenyList.Jwt>, now: int) returns (o: Outcome)
      modifies tables, jwt.cache
      ensures o == LoggedOut
      ensures jwt.cache.entries ==
        if access.Some? then JwtDenyList.RevokeJwt(jwt.revokeRules, old(jwt.cache.entries), access.value, now).0
        else old(jwt.cache.entries)
      ensures tables.Snapshot(now) == Rotate(old(tables.Snapshot(now)), Sha256(refresh)).0
      ensures !Acceptable(tables.Snapshot(now), Sha256(refresh))
    {
      var _ := tables.RevokeIfAcceptable(Sha256(refresh), now);
      if access.Some? {
        var _ := jwt.Revoke(access.value, now);
      }
      return LoggedOut;
    }
  }

  /** The code grant, on the rows. Tokens are issued exactly when the client proves its secret, if it has one, the code
    * is unused and unexpired, and client, redirect URI and verifier are those of the row; an authenticated caller
    * spends the code whatever the later checks say; nothing else changes. */
  lemma CodeGrantIff(db: Db, r: CodeRequest, drawn: string)
    ensures var (db', o) := CodeGrant(db, r, drawn);
            var trusted := r.client in db.clients && (db.clients[r.client].secretHash == None || db.clients[r.client].secretHash == Some(Sha256(r.secret)));
            var spent := trusted && r.code in db.codes && !db.codes[r.code].used && db.now < db.codes[r.code].expiresAt;
            var proved := spent
                          && match db.codes[r.code].challenge
                             case None => r.verifier == None
                             case Some(c) => r.verifier.Some? && c == HexDigest(Sha256(r.verifier.value));
            var checked := proved && db.codes[r.code].client == r.client && db.codes[r.code].redirectUri == r.redirectUri != "";
            && (o.Issued? <==> checked && db.codes[r.code].user in db.users)
            && (o == ServerError <==> checked && db.codes[r.code].user !in db.users)
            && (o == Unprocessable <==> spent && db.codes[r.code].client == r.client && r.redirectUri == "")
            && (o.Issued? || o == ServerError || o == Unprocessable || o == Unauthorized)
            && db' == db.(codes := db'.codes, refresh := db'.refresh)
            && db'.codes == (if spent then db.codes[r.code := db.codes[r.code].(used := true)] else db.codes)
            && (o.Issued? ==>
                  && o.token == Sha256(drawn)
                  && db'.refresh == db.refresh[o.token := RefreshRow(db.codes[r.code].user, r.client,
                                                                     db.now + 30 * 24 * 3600 * 1000, None)])
            && (!o.Issued? ==> db'.refresh == db.refresh)
  {
  }

  /** `/authorize`, on the rows. A code is given exactly for a registered redirect URI, a challenge only with S256, the
    * right password of a known user, and one who is not suspended; it is stored for 300 seconds with what was asked. */
  lemma AuthorizeIff(db: Db, r: AuthorizeRequest, drawn: string)
    ensures var (db', o) := AuthorizeEndpoint(db, r, drawn);
            var formed := r.client in db.clients && r.redirectUri in db.clients[r.client].redirectUris
                          && (r.challenge.Some? ==> r.methodIsS256);
            && (o == CodeIssued(drawn) <==>
                  formed && r.passwordOk && r.user in db.users && !db.users[r.user].suspended)
            && (o == Unprocessable <==> !formed)
            && (o == CodeIssued(drawn) || o == Unprocessable || o == Unauthorized)
            && (o != CodeIssued(drawn) ==> db' == db)
            && (o == CodeIssued(drawn) ==>
                  db' == db.(codes := db.codes[drawn := CodeRow(r.user, r.client, r.redirectUri, db.now + 300_000, false, r.challenge)]))
  {
  }

  /** Round trip of `/authorize` and `/oauth/token`: the code buys tokens exactly for the authenticated client,
    * redirect URI and verifier of the authorize request, exactly while its 300 seconds last. */
  lemma AuthorizeThenToken(db: Db, r: AuthorizeRequest, code: string, wait: nat, request: CodeRequest, drawn: string)
    requires AuthorizeEndpoint(db, r, code).1 == CodeIssued(code) && request.code == code
    ensures var later := AuthorizeEndpoint(db, r, code).0.(now := db.now + wait);
            CodeGrant(later, request, drawn).1.Issued? <==>
              && wait < 300_000
              && request.client in db.clients && (db.clients[request.client].secretHash == None || db.clients[request.client].secretHash == Some(Sha256(request.secret)))
              && request.client == r.client && request.redirectUri == r.redirectUri != ""
              && match r.challenge
                 case None => request.verifier == None
                 case Some(c) => request.verifier.Some? && c == HexDigest(Sha256(request.verifier.value))
  {
    AuthorizeIff(db, r, code);
    CodeGrantIff(AuthorizeEndpoint(db, r, code).0.(now := db.now + wait), request, drawn);
  }

  /** What a refresh grant makes of the row of token t. */
  ghost predicate RowAfter(before: RefreshRow, after: RefreshRow, revoked: bool, now: int) {
    after == if revoked then before.(revokedAt := Some(now)) else before
  }

  /** The refresh grant, on the rows. Success replaces exactly the presented token by one of the same user and client; a
    * wrong client still burns the token; presenting a revoked token revokes all of its user's tokens and nobody else's;
    * anything else changes nothing. */
  lemma RefreshGrantIff(db: Db, refresh: string, client: string, secret: string, drawn: string)
    requires Sha256(drawn) !in db.refresh
    ensures var presented := Sha256(refresh);
            var (db', o) := RefreshGrant(db, refresh, client, secret, drawn);
            var trusted := client in db.clients && (db.clients[client].secretHash == None || db.clients[client].secretHash == Some(Sha256(secret)));
            var known := trusted && presented in db.refresh;
            var replayed := known && db.refresh[presented].revokedAt.Some?;
            var taken := known && !replayed && db.now < db.refresh[presented].expiresAt;
            var matched := taken && db.refresh[presented].client == client;
            && (o.Issued? <==> matched && db.refresh[presented].user in db.users && !db.users[db.refresh[presented].user].suspended)
            && (o == ServerError <==> matched && db.refresh[presented].user !in db.users)
            && (o.Issued? || o == ServerError || o == Unauthorized)
            && db' == db.(refresh := db'.refresh)
            && db'.refresh.Keys == db.refresh.Keys + (if o.Issued? then {Sha256(drawn)} else {})
            && (o.Issued? ==>
                  && o.token == Sha256(drawn)
                  && db'.refresh[o.token] == RefreshRow(db.refresh[presented].user, client, db.now + 30 * 24 * 3600 * 1000, None))
            && (forall t :: t in db.refresh ==>
                  RowAfter(db.refresh[t], db'.refresh[t],
                           (taken && t == presented)
                           || (replayed && db.refresh[t].user == db.refresh[presented].user && db.refresh[t].revokedAt.None?),
                           db.now))
  {
  }

  /** `/oauth/token` gives tokens exactly for a known grant type whose required fields are present and whose grant does,
    * absent secrets and redirect URIs counting as empty. */
  lemma TokenEndpointIff(db: Db, req: TokenRequest, drawn: string)
    ensures var (db', o) := TokenEndpoint(db, req, drawn);
            var secret := if req.secret.Some? then req.secret.value else "";
            var redirectUri := if req.redirectUri.Some? then req.redirectUri.value else "";
            var byCode := req.grantType == "authorization_code" && req.code.Some? && req.client.Some?;
            var byRefresh := req.grantType == "refresh_token" && req.refreshToken.Some? && req.client.Some?;
            && (byCode ==>
                  var r := CodeRequest(req.code.value, req.client.value, secret, redirectUri, req.verifier);
                  (db', o) == CodeGrant(db, r, drawn))
            && (byRefresh ==> (db', o) == RefreshGrant(db, req.refreshToken.value, req.client.value, secret, drawn))
            && (!byCode && !byRefresh ==> (db', o) == (db, Unprocessable))
  {
  }

  /** n more statements of request q. */
  function Steps(s: Sys, q: nat, drawn: string, n: nat): Sys
    decreases n
  {
    if n == 0 then s else Steps(Apply(s, Run(q, drawn)), q, drawn, n - 1)
  }

  /** Request q arrives with `pc` and runs alone; five statements finish every request. */
  function Alone(s: Sys, q: nat, pc: Pc, drawn: string): Sys {
    Steps(Apply(s, Arrive(q, pc)), q, drawn, 5)
  }

  function Script(q: nat, drawn: string, n: nat): seq<Event> {
    if n == 0 then [] else [Run(q, drawn)] + Script(q, drawn, n - 1)
  }

  lemma {:induction false} StepsAreRun(s: Sys, q: nat, drawn: string, n: nat)
    ensures Steps(s, q, drawn, n) == Exec(s, Script(q, drawn, n))
    decreases n
  {
    if n != 0 {
      assert Script(q, drawn, n)[1..] == Script(q, drawn, n - 1);
      StepsAreRun(Apply(s, Run(q, drawn)), q, drawn, n - 1);
    }
  }

  lemma {:induction false} DoneSteps(s: Sys, q: nat, drawn: string, n: nat)
    requires q in s.reqs && s.reqs[q].Done?
    ensures Steps(s, q, drawn, n) == s
    decreases n
  {
    if n != 0 {
      DoneSteps(s, q, drawn, n - 1);
    }
  }

  /** The refresh handler is the interleaved protocol run without interference. */
  lemma RefreshIsRun(s: Sys, q: nat, refresh: string, client: string, secret: string, drawn: string)
    requires q !in s.reqs && Sha256(drawn) !in s.h.rootOf
    ensures var t := Alone(s, q, RefreshSecret(refresh, client, secret), drawn);
            var (db, o) := RefreshGrant(s.db, refresh, client, secret, drawn);
            t.db == db && q in t.reqs && t.reqs == s.reqs[q := Done(o)]
  {
    var s0 := Apply(s, Arrive(q, RefreshSecret(refresh, client, secret)));
    var s1 := Apply(s0, Run(q, drawn));
    if s1.reqs[q].Done? {
      DoneSteps(s1, q, drawn, 4);
    } else {
      RotateIsRun(s1, q, refresh, client, secret, drawn);
    }
  }

  lemma RotateIsRun(s: Sys, q: nat, refresh: string, client: string, secret: string, drawn: string)
    requires q in s.reqs && s.reqs[q] == RefreshRotate(Sha256(refresh), client)
    requires ValidClientSecret(s.db, client, secret) && Sha256(drawn) !in s.h.rootOf
    ensures var t := Steps(s, q, drawn, 4);
            var (db, o) := RefreshGrant(s.db, refresh, client, secret, drawn);
            t.db == db && t.reqs == s.reqs[q := Done(o)]
  {
    RotatedIsRun(Apply(s, Run(q, drawn)), q, drawn);
  }

  lemma RotatedIsRun(s: Sys, q: nat, drawn: string)
    requires q in s.reqs && (s.reqs[q].Done? || s.reqs[q].RefreshUser? || s.reqs[q].ReplayLookup?)
    requires Sha256(drawn) !in s.h.rootOf
    ensures var t := Steps(s, q, drawn, 3);
            match s.reqs[q]
            case RefreshUser(l) =>
              if l.owner.user !in s.db.users then t.db == s.db && t.reqs == s.reqs[q := Done(ServerError)]
              else if s.db.users[l.owner.user].suspended then t.db == s.db && t.reqs == s.reqs[q := Done(Unauthorized)]
              else (t.db, t.reqs) == (IssueTokens(s.db, l.owner.user, l.owner.client, drawn).0,
                                      s.reqs[q := Done(Issued(Sha256(drawn)))])
            case ReplayLookup(token) =>
              t.reqs == s.reqs[q := Done(Unauthorized)] &&
              t.db == (match FindByHashAny(s.db, token)
                       case Some((user, true)) => RevokeAllForUser(s.db, user)
                       case _ => s.db)
            case _ => t == s
  {
    var s1 := Apply(s, Run(q, drawn));
    if s1.reqs[q].Done? {
      DoneSteps(s1, q, drawn, 2);
    } else {
      var s2 := Apply(s1, Run(q, drawn));
      assert s2.reqs == s.reqs[q := s2.reqs[q]];
      DoneSteps(s2, q, drawn, 1);
    }
  }

  /** The code handler is the interleaved protocol run without interference. */
  lemma CodeIsRun(s: Sys, q: nat, r: CodeRequest, drawn: string)
    requires q !in s.reqs && Sha256(drawn) !in s.h.rootOf && (r.code in s.h.origins ==> r.code in s.h.released)
    ensures var t := Alone(s, q, CodeSecret(r), drawn);
            var (db, o) := CodeGrant(s.db, r, drawn);
            t.db == db && q in t.reqs && t.reqs == s.reqs[q := Done(o)]
  {
    var s0 := Apply(s, Arrive(q, CodeSecret(r)));
    var s1 := StepCodeSecret(s0, q, r);
    assert s1 == Apply(s0, Run(q, drawn));
    if s1.reqs[q].Done? {
      DoneSteps(s1, q, drawn, 4);
    } else {
      ExchangeIsRun(s1, q, r, drawn);
    }
  }

  lemma ExchangeIsRun(s: Sys, q: nat, r: CodeRequest, drawn: string)
    requires q in s.reqs && s.reqs[q] == CodeExchange(r) && Sha256(drawn) !in s.h.rootOf
    ensures var t := Steps(s, q, drawn, 4);
            var (db, o) := ExchangeAndCheck(s.db, r, drawn);
            t.db == db && q in t.reqs && t.reqs == s.reqs[q := Done(o)]
  {
    var s1 := StepCodeExchange(s, q, r);
    assert s1 == Apply(s, Run(q, drawn));
    if s1.reqs[q].Done? {
      DoneSteps(s1, q, drawn, 3);
    } else {
      ExchangedIsRun(s1, q, drawn);
    }
  }

  lemma ExchangedIsRun(s: Sys, q: nat, drawn: string)
    requires q in s.reqs && s.reqs[q].CodeChallenge?
    requires Sha256(drawn) !in s.h.rootOf
    ensures var t, r, l := Steps(s, q, drawn, 3), s.reqs[q].request, s.reqs[q].lineage;
            if !VerifierMatches(ReadChallenge(s.db, r.code), r.verifier) then
              t.db == s.db && t.reqs == s.reqs[q := Done(Unauthorized)]
            else if l.owner.user !in s.db.users then
              t.db == s.db && t.reqs == s.reqs[q := Done(ServerError)]
            else
              t.db == IssueTokens(s.db, l.owner.user, l.owner.client, drawn).0
              && t.reqs == s.reqs[q := Done(Issued(Sha256(drawn)))]
  {
    var s1 := Apply(s, Run(q, drawn));
    if s1.reqs[q].Done? {
      DoneSteps(s1, q, drawn, 2);
    } else {
      var s2 := Apply(s1, Run(q, drawn));
      assert s2.reqs == s.reqs[q := s2.reqs[q]];
      if s2.reqs[q].Done? {
        DoneSteps(s2, q, drawn, 1);
      }
    }
  }

  lemma ReplayAlone(s: Sys, q: nat, refresh: string, client: string, secret: string, drawn: string)
    requires q !in s.reqs && Sha256(drawn) !in s.h.rootOf
    requires client in s.db.clients && (s.db.clients[client].secretHash == None || s.db.clients[client].secretHash == Some(Sha256(secret)))
    requires Sha256(refresh) in s.db.refresh && s.db.refresh[Sha256(refresh)].revokedAt.Some?
    requires InFlight(s, s.db.refresh[Sha256(refresh)].user) == {}
    ensures var user := s.db.refresh[Sha256(refresh)].user;
            var t := Alone(s, q, RefreshSecret(refresh, client, secret), drawn);
            LiveTokens(t, user) == {} && InFlight(t, user) == {}
  {
    RefreshIsRun(s, q, refresh, client, secret, drawn);
    assert RefreshGrant(s.db, refresh, client, secret, drawn)
        == (RevokeAllForUser(s.db, s.db.refresh[Sha256(refresh)].user), Unauthorized);
  }

  /** Presenting a revoked token whose row still exists, with no request of its user in flight: afterwards the user has
    * no acceptable token, and no later run gives one back except by starting a lineage. */
  lemma ReplayEndsTheUser(now: int, before: seq<Event>, q: nat, refresh: string, client: string, secret: string,
                          drawn: string, after: seq<Event>)
    requires var s := Exec(Init(now), before);
             && q !in s.reqs && Sha256(drawn) !in s.h.rootOf
             && client in s.db.clients && (s.db.clients[client].secretHash == None || s.db.clients[client].secretHash == Some(Sha256(secret)))
             && Sha256(refresh) in s.db.refresh && s.db.refresh[Sha256(refresh)].revokedAt.Some?
             && InFlight(s, s.db.refresh[Sha256(refresh)].user) == {}
    ensures var s := Exec(Init(now), before);
            var user := s.db.refresh[Sha256(refresh)].user;
            var replayed := Alone(s, q, RefreshSecret(refresh, client, secret), drawn);
            && LiveTokens(replayed, user) == {}
            && |AcceptableOf(Exec(replayed, after), user)| <= LineagesStarted(replayed, after, user)
  {
    var s := Exec(Init(now), before);
    RunKeeps(Init(now), before);
    AloneKeeps(s, q, RefreshSecret(refresh, client, secret), drawn);
    ReplayAlone(s, q, refresh, client, secret, drawn);
    NoneInFlight(Alone(s, q, RefreshSecret(refresh, client, secret), drawn), s.db.refresh[Sha256(refresh)].user, after);
  }

  lemma AloneKeeps(s: Sys, q: nat, pc: Pc, drawn: string)
    requires LineageInv(s)
    ensures LineageInv(Alone(s, q, pc, drawn))
  {
    var s0 := Apply(s, Arrive(q, pc));
    EventKeeps(s, Arrive(q, pc));
    StepsAreRun(s0, q, drawn, 5);
    RunKeeps(s0, Script(q, drawn, 5));
  }

  lemma NoneInFlight(s: Sys, user: string, after: seq<Event>)
    requires LineageInv(s) && InFlight(s, user) == {} && LiveTokens(s, user) == {}
    ensures |AcceptableOf(Exec(s, after), user)| <= LineagesStarted(s, after, user)
  {
    var t := Exec(s, after);
    HoldersConserved(s, after, user);
    HoldersAre(t, user);
    SubsetCard(AcceptableOf(t, user), LiveTokens(t, user));
  }
}
