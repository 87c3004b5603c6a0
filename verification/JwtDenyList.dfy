/** JWT verification and the deny list.
  *
  * A presented string either does not parse or carries claims and a signature that is good or bad; what
  * `decode` makes of it depends on the validation settings of the call, and `verify` and `revoke` use
  * different ones. The settings' meaning is that of jsonwebtoken 9.3.1. */
module JwtDenyList {
  import opened Basics
  import opened Redis
  import opened ApiKeys
  import opened Scopes

  const ISSUER := "https://aspectus"

  /** `exp` is in seconds. */
  datatype Claims = Claims(sub: string, tenant: string, scope: string, clientId: string, identityType: IdentityType,
                           aud: string, iss: string, exp: nat, jti: string)

  datatype Jwt = Garbled | Token(claims: Claims, signatureOk: bool)

  datatype Validation = Validation(signature: bool, expiry: bool, leeway: nat, audience: bool,
                                   audiences: Option<set<string>>, issuer: Option<string>)

  /** `verify` checks signature, expiry and issuer and switches the audience check off. */
  function VerifyRules(leeway: nat): Validation {
    Validation(true, true, leeway, false, None, Some(ISSUER))
  }

  /** `revoke` switches signature and expiry off and leaves the audience check at its default, on, naming none. */
  const REVOKE_RULES := Validation(false, false, 60, true, None, None)

  /** Expired once the clock is past exp by more than the leeway. */
  predicate Expired(c: Claims, leeway: nat, now: int) {
    c.exp < Seconds(now) - leeway
  }

  /** With the audience check on, a token whose audience is not among the named ones is rejected, and so is every
    * token with an audience when none is named. */
  predicate AudienceOk(v: Validation, c: Claims) {
    v.audience ==> v.audiences.Some? && c.aud in v.audiences.value
  }

  function Decode(v: Validation, token: Jwt, now: int): Option<Claims> {
    match token
    case Garbled => None
    case Token(c, signatureOk) =>
      if v.signature && !signatureOk then None
      else if v.expiry && Expired(c, v.leeway, now) then None
      else if !AudienceOk(v, c) then None
      else if v.issuer.Some? && v.issuer.value != c.iss then None
      else Some(c)
  }

  type DenyList = Store<string, string>

  function Sign(sub: string, tenant: string, project: Project, scope: string, identityType: IdentityType,
                ttl: nat, jti: string, now: nat): Claims {
    Claims(sub, tenant, scope, Display(project), identityType, Display(project), ISSUER, Seconds(now) + ttl, jti)
  }

  function ActiveResponse(c: Claims): Response {
    Response(true, Some(c.tenant), Some(c.sub), Some(c.identityType), Some(c.clientId), Some(c.scope),
             Some("Bearer"), Some(c.exp), None, Some("jwt"))
  }

  function VerifyJwt(deny: DenyList, token: Jwt, leeway: nat, now: int): Response {
    match Decode(VerifyRules(leeway), token, now)
    case None => INACTIVE
    case Some(c) => if Get(deny, c.jti, now).Some? then INACTIVE else ActiveResponse(c)
  }

  /** Seconds until exp, saturating at zero, but at least one. */
  function DenyTtl(c: Claims, now: int): nat {
    var left := if c.exp < Seconds(now) then 0 else c.exp - Seconds(now);
    if left < 1 then 1 else left
  }

  /** The last millisecond at which a denial made now is still served. */
  function DeniedUntil(c: Claims, now: int): int {
    now + 1000 * DenyTtl(c, now)
  }

  function Deny(deny: DenyList, c: Claims, now: int): DenyList {
    SetEx(deny, c.jti, "1", DenyTtl(c, now), now)
  }

  /** `revoke` under given settings, and whether it denied anything. */
  function RevokeJwt(v: Validation, deny: DenyList, token: Jwt, now: int): (DenyList, bool) {
    match Decode(v, token, now)
    case None => (deny, false)
    case Some(c) => (Deny(deny, c, now), true)
  }

  /** The service runs with `revokeRules == REVOKE_RULES`. */
  class JwtVerifier {
    const cache: Cache<string, string>
    const leeway: nat
    const revokeRules: Validation

    constructor (cache: Cache<string, string>, leeway: nat, revokeRules: Validation)
      ensures this.cache == cache && this.leeway == leeway && this.revokeRules == revokeRules
    {
      this.cache, this.leeway, this.revokeRules := cache, leeway, revokeRules;
    }

    method Verify(token: Jwt, now: int) returns (r: Response)
      ensures r == VerifyJwt(cache.entries, token, leeway, now)
    {
      var decoded := Decode(VerifyRules(leeway), token, now);
      if decoded.None? {
        return INACTIVE;
      }
      var denied := cache.Read(decoded.value.jti, now);
      if denied.Some? {
        return INACTIVE;
      }
      return ActiveResponse(decoded.value);
    }

    method Revoke(token: Jwt, now: int) returns (ok: bool)
      modifies cache
      ensures (cache.entries, ok) == RevokeJwt(revokeRules, old(cache.entries), token, now)
    {
      var decoded := Decode(revokeRules, token, now);
      if decoded.None? {
        return false;
      }
      var c := decoded.value;
      var left := if c.exp < Seconds(now) then 0 else c.exp - Seconds(now);
      cache.Write(c.jti, "1", if left < 1 then 1 else left, now);
      return true;
    }
  }

  /** A token that is not denied is active exactly until its lifetime plus the leeway is over. */
  lemma SignedTokenLifetime(sub: string, tenant: string, project: Project, scope: string, who: IdentityType,
                            ttl: nat, jti: string, signedAt: nat, deny: DenyList, leeway: nat, t: int)
    requires Get(deny, jti, t).None?
    ensures var c := Sign(sub, tenant, project, scope, who, ttl, jti, signedAt);
            && (VerifyJwt(deny, Token(c, true), leeway, t).active <==> t < 1000 * (Seconds(signedAt) + ttl + leeway + 1))
            && ParseProject(c.clientId) == Some(project) && c.aud == c.clientId
  {
  }

  /** The service's own claims under the settings of `verify`: everything but signature and expiry passes. */
  predicate Genuine(token: Jwt) {
    token.Token? && token.signatureOk && token.claims.iss == ISSUER
  }

  // What `revoke` accepts

  /** With signature, expiry and issuer unchecked, a revocation takes effect exactly on a token whose audience
    * passes; it then denies its jti until its exp, and for one second at least, and touches no other. */
  lemma RevokeDeniesIff(v: Validation, deny: DenyList, token: Jwt, now: int)
    requires !v.signature && !v.expiry && v.issuer.None?
    ensures var (deny', ok) := RevokeJwt(v, deny, token, now);
      && (ok <==> token.Token? && (v.audience ==> v.audiences.Some? && token.claims.aud in v.audiences.value))
      && (ok ==>
            var left := token.claims.exp - now / 1000;
            && token.claims.jti in deny'
            && deny'[token.claims.jti].deadline == now + 1000 * (if left >= 1 then left else 1)
            && forall j :: j != token.claims.jti ==> (j in deny' <==> j in deny) && (j in deny ==> deny'[j] == deny[j]))
      && (!ok ==> deny' == deny)
  {
  }

  /** A presented token is active exactly when it is signed by the service, names it as issuer, is within lifetime plus
    * leeway and not denied; it is then answered with its own claims, and otherwise bare. */
  lemma VerifyIff(deny: DenyList, token: Jwt, leeway: nat, now: int)
    ensures var r := VerifyJwt(deny, token, leeway, now);
      && (r.active <==>
            && token.Token? && token.signatureOk && token.claims.iss == "https://aspectus"
            && now / 1000 <= token.claims.exp + leeway
            && !(token.claims.jti in deny && now <= deny[token.claims.jti].deadline))
      && (r.active ==>
            var c := token.claims;
            && r.tenantId == Some(c.tenant) && r.userId == Some(c.sub) && r.identityType == Some(c.identityType)
            && r.clientId == Some(c.clientId) && r.scope == Some(c.scope) && r.tokenType == Some("Bearer")
            && r.exp == Some(c.exp) && r.quotas == None && r.tokenFormat == Some("jwt"))
      && (!r.active ==> r == Response(false, None, None, None, None, None, None, None, None, None))
  {
  }

  datatype State = State(now: int, deny: DenyList)

  datatype Event = Pass(ms: nat) | Present(token: Jwt)

  /** Presenting a token for revocation, under the settings `v`, and time. */
  function Apply(s: State, v: Validation, e: Event): State {
    match e
    case Pass(ms) => s.(now := s.now + ms)
    case Present(token) => s.(deny := RevokeJwt(v, s.deny, token, s.now).0)
  }

  function Exec(s: State, v: Validation, es: seq<Event>): State
    decreases |es|
  {
    if es == [] then s else Exec(Apply(s, v, es[0]), v, es[1..])
  }

  /** Under the settings the service uses, every claim set has an audience and none is named: no run of revocations
    * denies anything, and a genuine token stays active until its lifetime plus leeway is over. */
  lemma {:induction false} RevocationIsInert(s: State, es: seq<Event>, token: Jwt, leeway: nat)
    requires s.deny == map[] && Genuine(token)
    ensures var t := Exec(s, REVOKE_RULES, es);
      && t.deny == map[]
      && (VerifyJwt(t.deny, token, leeway, t.now).active <==> Seconds(t.now) <= token.claims.exp + leeway)
    decreases |es|
  {
    if es != [] {
      RevocationIsInert(Apply(s, REVOKE_RULES, es[0]), es[1..], token, leeway);
    }
  }

  // When a token is denied, for all settings of `revoke` and all runs

  /** Until when the latest accepted revocation naming `jti` denies it, read off the run alone; `before` is what
    * held when the run began. */
  function LatestDenial(v: Validation, now: int, es: seq<Event>, jti: string, before: Option<int>): Option<int>
    decreases |es|
  {
    if es == [] then before else
    match es[0]
    case Pass(ms) => LatestDenial(v, now + ms, es[1..], jti, before)
    case Present(token) =>
      var decoded := Decode(v, token, now);
      LatestDenial(v, now, es[1..], jti,
                   if decoded.Some? && decoded.value.jti == jti then Some(DeniedUntil(decoded.value, now)) else before)
  }

  function DeadlineOf(deny: DenyList, jti: string): Option<int> {
    if jti in deny then Some(deny[jti].deadline) else None
  }

  lemma {:induction false} DeadlineIsLatest(s: State, v: Validation, es: seq<Event>, jti: string)
    ensures DeadlineOf(Exec(s, v, es).deny, jti) == LatestDenial(v, s.now, es, jti, DeadlineOf(s.deny, jti))
    decreases |es|
  {
    if es != [] {
      DeadlineIsLatest(Apply(s, v, es[0]), v, es[1..], jti);
    }
  }

  /** Over every run, a token is active exactly when it is genuine, within lifetime plus leeway and the latest
    * accepted revocation naming its jti, whoever presented it, has run out. */
  lemma ActiveIff(s: State, v: Validation, es: seq<Event>, token: Jwt, leeway: nat)
    requires token.Token?
    ensures var t := Exec(s, v, es);
      var until := LatestDenial(v, s.now, es, token.claims.jti, DeadlineOf(s.deny, token.claims.jti));
      VerifyJwt(t.deny, token, leeway, t.now).active <==>
        Genuine(token) && Seconds(t.now) <= token.claims.exp + leeway && !(until.Some? && t.now <= until.value)
  {
    DeadlineIsLatest(s, v, es, token.claims.jti);
  }

  /** No accepted revocation of the run names `jti` with an earlier expiry than `exp`. */
  ghost predicate NoneShorter(v: Validation, now: int, es: seq<Event>, jti: string, exp: nat)
    decreases |es|
  {
    es == [] ||
    match es[0]
    case Pass(ms) => NoneShorter(v, now + ms, es[1..], jti, exp)
    case Present(token) =>
      && (Decode(v, token, now).Some? && Decode(v, token, now).value.jti == jti ==> Decode(v, token, now).value.exp >= exp)
      && NoneShorter(v, now, es[1..], jti, exp)
  }

  lemma TtlCovers(c: Claims, exp: nat, now: int)
    requires c.exp >= exp
    ensures DeniedUntil(c, now) >= 1000 * exp && DeniedUntil(c, now) >= now + 1000
  {
  }

  lemma {:induction false} DenialLasts(v: Validation, now: int, es: seq<Event>, jti: string, exp: nat, before: int, from: int)
    requires NoneShorter(v, now, es, jti, exp) && from <= now && before >= 1000 * exp && before >= from + 1000
    ensures var until := LatestDenial(v, now, es, jti, Some(before));
      until.Some? && until.value >= 1000 * exp && until.value >= from + 1000
    decreases |es|
  {
    if es != [] {
      match es[0]
      case Pass(ms) => DenialLasts(v, now + ms, es[1..], jti, exp, before, from);
      case Present(token) =>
        var decoded := Decode(v, token, now);
        if decoded.Some? && decoded.value.jti == jti {
          TtlCovers(decoded.value, exp, now);
          DenialLasts(v, now, es[1..], jti, exp, DeniedUntil(decoded.value, now), from);
        } else {
          DenialLasts(v, now, es[1..], jti, exp, before, from);
        }
    }
  }

  lemma {:induction false} TimeAdvances(s: State, v: Validation, es: seq<Event>)
    ensures s.now <= Exec(s, v, es).now
    decreases |es|
  {
    if es != [] {
      TimeAdvances(Apply(s, v, es[0]), v, es[1..]);
    }
  }

  /** The deny-list window: from an accepted revocation on, as long as no accepted revocation names the jti with an
    * earlier expiry, the token is inactive at every instant up to exp and for at least one second; a later active
    * answer can only fall between exp and exp + leeway. */
  lemma DenyListWindow(s: State, v: Validation, token: Jwt, es: seq<Event>, leeway: nat)
    requires Decode(v, token, s.now).Some?
    requires NoneShorter(v, s.now, es, token.claims.jti, token.claims.exp)
    ensures var c := token.claims;
      var t := Exec(Apply(s, v, Present(token)), v, es);
      var r := VerifyJwt(t.deny, token, leeway, t.now);
      && (t.now <= 1000 * c.exp || t.now <= s.now + 1000 ==> r == INACTIVE)
      && (r.active ==> c.exp <= Seconds(t.now) <= c.exp + leeway)
  {
    var c := token.claims;
    var s' := Apply(s, v, Present(token));
    TtlCovers(c, c.exp, s.now);
    DenialLasts(v, s.now, es, c.jti, c.exp, DeniedUntil(c, s.now), s.now);
    DeadlineIsLatest(s', v, es, c.jti);
  }

  /** What one later revocation does to the window: with no further one, a genuine token stays inactive at every
    * remaining instant before exp exactly when that revocation's own denial reaches exp. */
  lemma OverwriteKeepsWindowIff(s: State, v: Validation, token: Jwt, other: Jwt, leeway: nat)
    requires Genuine(token) && Decode(v, other, s.now).Some? && other.claims.jti == token.claims.jti
    ensures var s' := Apply(s, v, Present(other));
      (forall t :: s.now <= t < 1000 * token.claims.exp ==> !VerifyJwt(s'.deny, token, leeway, t).active) <==>
        s.now >= 1000 * token.claims.exp || DeniedUntil(other.claims, s.now) + 1 >= 1000 * token.claims.exp
  {
    var s' := Apply(s, v, Present(other));
    var until := DeniedUntil(other.claims, s.now);
    assert s'.deny[token.claims.jti].deadline == until;
    if s.now < 1000 * token.claims.exp && until + 1 < 1000 * token.claims.exp {
      assert VerifyJwt(s'.deny, token, leeway, until + 1).active;
    }
  }

  /** So the window does not hold over all runs: where `revoke` accepts a token, it accepts the same claims with
    * expiry zero and no signature, and one second later the revoked token is active long before exp. */
  lemma ShorterRevocationReopens(s: State, v: Validation, token: Jwt, leeway: nat)
    requires !v.signature && !v.expiry && Genuine(token) && Decode(v, token, s.now).Some?
    requires 0 <= s.now && s.now + 1001 < 1000 * token.claims.exp
    ensures var unsigned := Token(token.claims.(exp := 0), false);
      var t := Exec(Apply(s, v, Present(token)), v, [Present(unsigned), Pass(1001)]);
      t.now < 1000 * token.claims.exp && VerifyJwt(t.deny, token, leeway, t.now).active
  {
    var unsigned := Token(token.claims.(exp := 0), false);
    var es := [Present(unsigned), Pass(1001)];
    var s' := Apply(s, v, Present(token));
    var u := Apply(s', v, Present(unsigned));
    assert es[1..] == [Pass(1001)] && [Pass(1001)][1..] == [];
    assert Exec(u, v, [Pass(1001)]) == Apply(u, v, Pass(1001));
    assert Exec(s', v, es) == Exec(u, v, es[1..]);
    assert DenyTtl(unsigned.claims, s.now) == 1;
  }

  /** No accepted revocation of the run names `jti`. */
  ghost predicate NoneNames(v: Validation, now: int, es: seq<Event>, jti: string)
    decreases |es|
  {
    es == [] ||
    match es[0]
    case Pass(ms) => NoneNames(v, now + ms, es[1..], jti)
    case Present(token) =>
      && (Decode(v, token, now).Some? ==> Decode(v, token, now).value.jti != jti)
      && NoneNames(v, now, es[1..], jti)
  }

  lemma {:induction false} UnnamedKeepsDenial(v: Validation, now: int, es: seq<Event>, jti: string, before: Option<int>)
    requires NoneNames(v, now, es, jti)
    ensures LatestDenial(v, now, es, jti, before) == before
    decreases |es|
  {
    if es != [] {
      match es[0]
      case Pass(ms) => UnnamedKeepsDenial(v, now + ms, es[1..], jti, before);
      case Present(_) => UnnamedKeepsDenial(v, now, es[1..], jti, before);
    }
  }

  predicate ActiveAfter(s: State, v: Validation, es: seq<Event>, token: Jwt, leeway: nat) {
    var t := Exec(s, v, es);
    VerifyJwt(t.deny, token, leeway, t.now).active
  }

  /** After an accepted revocation that no later one names again, some run finds a genuine token active again exactly
    * when the denial ends before the leeway after exp does. */
  lemma ReactivatesIff(s: State, v: Validation, token: Jwt, leeway: nat)
    requires Genuine(token) && Decode(v, token, s.now).Some?
    ensures (exists es :: NoneNames(v, s.now, es, token.claims.jti)
                          && ActiveAfter(Apply(s, v, Present(token)), v, es, token, leeway))
            <==> Seconds(DeniedUntil(token.claims, s.now) + 1) <= token.claims.exp + leeway
  {
    var c := token.claims;
    var s' := Apply(s, v, Present(token));
    var until := DeniedUntil(c, s.now);
    assert s'.deny[c.jti].deadline == until;
    forall es | NoneNames(v, s.now, es, c.jti)
      ensures ActiveAfter(s', v, es, token, leeway)
              <==> Seconds(Exec(s', v, es).now) <= c.exp + leeway && Exec(s', v, es).now > until
    {
      ActiveIff(s', v, es, token, leeway);
      UnnamedKeepsDenial(v, s.now, es, c.jti, Some(until));
    }
    if Seconds(until + 1) <= c.exp + leeway {
      var es := [Pass((until + 1 - s.now) as nat)];
      assert es[1..] == [];
      assert NoneNames(v, s.now, es, c.jti);
      assert Exec(s', v, es).now == until + 1;
      assert ActiveAfter(s', v, es, token, leeway);
    }
  }
}
