/** `POST /introspect`: dispatch by token prefix, scope expansion for users, quota injection. */
module Introspection {
  import opened Basics
  import opened Redis
  import opened ApiKeys
  import opened JwtDenyList
  import opened Scopes
  import opened Text
  import KeyIssuing
  import Roles
  import RoleService
  import ScopeCache

  /** A presented token by its prefix; the hash is that of the raw bytes the prefix is followed by. */
  datatype Presented = JwtToken(token: Jwt) | ApiKeyToken(hash: Digest) | OpaqueToken(hash: Digest) | Garbage

  /** What the token itself says. */
  function Dispatch(s: ApiKeys.State, deny: DenyList, leeway: nat, token: Presented): Response {
    match token
    case JwtToken(t) => VerifyJwt(deny, t, leeway, s.now)
    case Garbage => INACTIVE
    case ApiKeyToken(h) => Verify(s, h).1
    case OpaqueToken(h) =>
      var r := Verify(s, h).1;
      if r.active then r.(tokenFormat := Some("opaque")) else r
  }

  predicate NamesUser(r: Response) {
    r.active && r.identityType == Some(User) && r.userId.Some?
  }

  function WithQuotas(r: Response, quotas: map<string, string>): Response {
    if r.active && r.tenantId.Some? && r.tenantId.value in quotas
    then r.(quotas := Some(quotas[r.tenantId.value])) else r
  }

  /** What the handler adds: a user's scopes as the role tables and their cache expand them, and the tenant's quotas
    * when it has any. */
  ghost function Complete(r: Response, roles: ScopeCache.Sys, quotas: map<string, string>): (ScopeCache.Sys, Response) {
    if NamesUser(r) then
      var (roles', expanded) := ScopeCache.Expand(roles, r.userId.value);
      (roles', WithQuotas(r.(scope := Some(expanded)), quotas))
    else (roles, WithQuotas(r, quotas))
  }

  class IntrospectEndpoint {
    const apiKeys: ApiKeyVerifier
    const jwt: JwtVerifier
    const roles: RoleService.RoleService
    var quotas: map<string, string>  // tenants with quotas

    constructor (apiKeys: ApiKeyVerifier, jwt: JwtVerifier, roles: RoleService.RoleService, quotas: map<string, string>)
      ensures this.apiKeys == apiKeys && this.jwt == jwt && this.roles == roles && this.quotas == quotas
    {
      this.apiKeys, this.jwt, this.roles, this.quotas := apiKeys, jwt, roles, quotas;
    }

    /** Keys of different purposes have different prefixes, so the three caches are apart. */
    ghost predicate Valid()
      reads this
    {
      var a: object, b: object, c: object := apiKeys.cache, jwt.cache, roles.cache;
      a != b && a != c && b != c
    }

    method VerifyToken(token: Presented, now: int) returns (r: Response)
      modifies apiKeys.cache
      ensures r == Dispatch(old(apiKeys.Abstract(now)), old(jwt.cache.entries), jwt.leeway, token)
    {
      match token
      case JwtToken(t) =>
        r := jwt.Verify(t, now);
      case Garbage =>
        r := INACTIVE;
      case ApiKeyToken(h) =>
        r := apiKeys.Introspect(h, now);
      case OpaqueToken(h) =>
        r := apiKeys.Introspect(h, now);
        if r.active {
          r := r.(tokenFormat := Some("opaque"));
        }
    }

    method Handle(token: Presented, now: int) returns (r: Response)
      requires Valid()
      modifies apiKeys.cache, roles.cache
      ensures var said := Dispatch(old(apiKeys.Abstract(now)), old(jwt.cache.entries), jwt.leeway, token);
        (roles.Whole(now), r) == Complete(said, old(roles.Whole(now)), quotas)
    {
      r := VerifyToken(token, now);
      if r.active {
        if r.identityType == Some(User) && r.userId.Some? {
          var expanded := roles.Expand(r.userId.value, now);
          r := r.(scope := Some(expanded));
        }
        if r.tenantId.Some? && r.tenantId.value in quotas {
          r := r.(quotas := Some(quotas[r.tenantId.value]));
        }
      }
    }
  }

  /** What the rows or the claims say about a presented token. */
  ghost predicate Deserved(s: ApiKeys.State, deny: DenyList, leeway: nat, token: Presented) {
    match token
    case JwtToken(t) =>
      && t.Token? && t.signatureOk && t.claims.iss == "https://aspectus" && s.now / 1000 <= t.claims.exp + leeway
      && !(t.claims.jti in deny && s.now <= deny[t.claims.jti].deadline)
    case ApiKeyToken(h) => Answerable(s, h)
    case OpaqueToken(h) => Answerable(s, h)
    case Garbage => false
  }

  /** The handler never turns an answer: an inactive one stays bare, an active one is active for exactly the reason
    * the row or the claims give, or because a revocation lags; only scope, quotas and token format may differ from
    * what those say, a service account keeps its own scope, and the quotas are those of the tenant, if it has any. */
  lemma AnswersAreHonest(s: ApiKeys.State, deny: DenyList, leeway: nat, token: Presented, roles: ScopeCache.Sys,
                         quotas: map<string, string>)
    requires CacheInv(s)
    ensures var (roles', r) := Complete(Dispatch(s, deny, leeway, token), roles, quotas);
            && (r.active <==> Deserved(s, deny, leeway, token))
            && (!r.active ==> r == INACTIVE && roles' == roles)
            && (r.active && (token.ApiKeyToken? || token.OpaqueToken?) ==>
                  && SaysRow(r.(quotas := None, tokenFormat := Some("api_key")), s.keys[token.hash])
                  && r.tokenFormat == Some(if token.OpaqueToken? then "opaque" else "api_key"))
            && (r.active && token.JwtToken? ==>
                  var c := token.token.claims;
                  && (r.tenantId, r.userId, r.identityType, r.clientId, r.exp)
                  == (Some(c.tenant), Some(c.sub), Some(c.identityType), Some(c.clientId), Some(c.exp))
                  && (r.tokenType, r.tokenFormat) == (Some("Bearer"), Some("jwt"))
                  && (c.identityType == ServiceAccount ==> r.scope == Some(c.scope)))
            && (r.active ==>
                  r.quotas == if r.tenantId.value in quotas then Some(quotas[r.tenantId.value]) else None)
  {
    match token
    case JwtToken(t) => JwtDenyList.VerifyIff(deny, t, leeway, s.now);
    case ApiKeyToken(h) => ApiKeys.VerifyIff(s, h);
    case OpaqueToken(h) => ApiKeys.VerifyIff(s, h);
    case Garbage =>
  }

  /** A user's token introspects with the scopes of the roles the user holds now, whatever the token was signed with:
    * over every run of role, assignment and expansion events, the scope of an active answer for a user splits into
    * exactly the sorted list of those scopes. */
  lemma UserScopesAreCurrent(w: ScopeCache.World, es: seq<ScopeCache.Event>, said: Response, quotas: map<string, string>)
    requires ScopeCache.Coherent(w) && ScopeCache.ValidNames(w.s.t)
    requires said.active && said.identityType == Some(User) && said.userId.Some?
    ensures var roles := ScopeCache.Exec(w, es).s;
      var r := Complete(said, roles, quotas).1;
      && r.scope.Some?
      && Words(r.scope.value) == Roles.Listing(Roles.UserScopes(roles.t, said.userId.value))
  {
    ScopeCache.ExpansionReadsBack(w, es, said.userId.value);
  }

  /** Exchanging a credential for a JWT: for as long as the JWT is active it introspects as the key does, but for its
    * own expiry and token format. */
  lemma JwtExchangePreservesAuthority(s: ApiKeys.State, secret: Digest, ttl: nat, jti: string, deny: DenyList,
                                      leeway: nat, later: int)
    requires CacheInv(s) && Verify(s, secret).1.active && s.now >= 0
    ensures secret in s.keys
    ensures var r := Verify(s, secret).1;
      var c := Sign(KeyIssuing.OrEmpty(r.userId), KeyIssuing.OrEmpty(r.tenantId), KeyIssuing.ProjectOf(r.clientId),
                    KeyIssuing.OrEmpty(r.scope), ServiceAccount, ttl, jti, s.now);
      var answer := VerifyJwt(deny, Token(c, true), leeway, later);
      answer.active ==>
        answer == BuildResponse(s.keys[secret]).(exp := Some(Seconds(s.now) + ttl), tokenFormat := Some("jwt"))
  {
    VerifyIsPlainIff(s, secret);
    ParseDisplay(Display(s.keys[secret].project), s.keys[secret].project);
  }
}
