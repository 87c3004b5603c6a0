/** API keys: rows, introspection answers, and the read-through cache in front of the lookup.
  *
  * Rows are addressed by their unique key hash; a row's id is another unique name for it. With atomic
  * handlers the cache is invisible except for keys revoked through `/token/revoke` while an entry is live. */
module ApiKeys {
  import opened Basics
  import opened Redis
  import opened Scopes
  import opened Text

  datatype IdentityType = User | ServiceAccount

  datatype Response = Response(active: bool, tenantId: Option<string>, userId: Option<string>,
                               identityType: Option<IdentityType>, clientId: Option<string>, scope: Option<string>,
                               tokenType: Option<string>, exp: Option<int>, quotas: Option<string>,
                               tokenFormat: Option<string>)

  const INACTIVE := Response(false, None, None, None, None, None, None, None, None, None)

  datatype ApiKey = ApiKey(tenant: string, serviceAccount: string, project: Project, keyHash: Digest,
                           scopes: seq<string>, expiresAt: Option<int>, revokedAt: Option<int>)

  type Keys = map<Digest, ApiKey>

  function BuildResponse(key: ApiKey): Response {
    Response(true, Some(key.tenant), Some(key.serviceAccount), Some(ServiceAccount), Some(Display(key.project)),
             Some(Join(key.scopes, ' ')), Some("Bearer"),
             match key.expiresAt case Some(e) => Some(Seconds(e)) case None => None,
             None, Some("api_key"))
  }

  /** A tenth of the whole seconds remaining, at most 300; num_seconds truncates toward zero. */
  function ComputeCacheTtl(expiresAt: Option<int>, now: int): nat {
    match expiresAt
    case Some(e) =>
      var remaining := if e < now then 0 else (e - now) / 1000;
      if remaining / 10 < 300 then remaining / 10 else 300
    case None => 300
  }

  /** What a row says about a presented hash. */
  function Judge(key: ApiKey, hash: Digest, now: int): Response {
    if key.keyHash != hash then INACTIVE
    else if key.revokedAt.Some? then INACTIVE
    else if key.expiresAt.Some? && key.expiresAt.value < now then INACTIVE
    else BuildResponse(key)
  }

  /** The lookup without a cache. */
  function PlainVerify(keys: Keys, hash: Digest, now: int): Response {
    if hash in keys then Judge(keys[hash], hash, now) else INACTIVE
  }

  /** A cached answer is re-checked against its expiry in whole seconds. */
  function Recheck(cached: Response, now: int): Response {
    if cached.exp.Some? && cached.exp.value < Seconds(now) then INACTIVE else cached
  }

  datatype State = State(now: int, keys: Keys, cache: Store<Digest, Response>)

  function Verify(s: State, hash: Digest): (State, Response) {
    match Get(s.cache, hash, s.now)
    case Some(cached) => (s, Recheck(cached, s.now))
    case None =>
      var r := PlainVerify(s.keys, hash, s.now);
      if r.active then
        (s.(cache := SetEx(s.cache, hash, r, ComputeCacheTtl(s.keys[hash].expiresAt, s.now), s.now)), r)
      else (s, r)
  }

  function RevokeRow(keys: Keys, hash: Digest, now: int): Keys {
    if hash in keys && keys[hash].revokedAt.None? then keys[hash := keys[hash].(revokedAt := Some(now))] else keys
  }

  /** `DELETE /api-keys/{id}`: UPDATE, and DEL when a row changed. */
  function AdminRevoke(s: State, hash: Digest): State {
    if hash in s.keys && s.keys[hash].revokedAt.None? then
      s.(keys := RevokeRow(s.keys, hash, s.now), cache := Del(s.cache, hash))
    else s
  }

  /** `/token/revoke`: UPDATE only. */
  function TokenRevoke(s: State, hash: Digest): State {
    s.(keys := RevokeRow(s.keys, hash, s.now))
  }

  class ApiKeyVerifier {
    var keys: Keys
    const cache: Cache<Digest, Response>

    constructor (cache: Cache<Digest, Response>)
      ensures this.cache == cache && keys == map[]
    {
      this.cache := cache;
      keys := map[];
    }

    function Abstract(now: int): State
      reads this, cache
    {
      State(now, keys, cache.entries)
    }

    method Introspect(hash: Digest, now: int) returns (r: Response)
      modifies cache
      ensures (Abstract(now), r) == Verify(old(Abstract(now)), hash)
    {
      var cached := cache.Read(hash, now);
      if cached.Some? {
        if cached.value.exp.Some? && cached.value.exp.value < Seconds(now) {
          return INACTIVE;
        }
        return cached.value;
      }
      if hash !in keys {
        return INACTIVE;
      }
      var key := keys[hash];
      if key.keyHash != hash {
        return INACTIVE;
      }
      if key.revokedAt.Some? {
        return INACTIVE;
      }
      if key.expiresAt.Some? && key.expiresAt.value < now {
        return INACTIVE;
      }
      r := BuildResponse(key);
      var ttl := ComputeCacheTtl(key.expiresAt, now);
      cache.Write(hash, r, ttl, now);
    }

    /** Returns whether a row was revoked by this call. */
    method Revoke(hash: Digest, now: int) returns (found: bool)
      modifies this, cache
      ensures Abstract(now) == AdminRevoke(old(Abstract(now)), hash)
      ensures found == (hash in old(keys) && old(keys)[hash].revokedAt.None?)
    {
      if hash !in keys || keys[hash].revokedAt.Some? {
        return false;
      }
      keys := keys[hash := keys[hash].(revokedAt := Some(now))];
      cache.Delete(hash);
      return true;
    }

    /** `/token/revoke`: the row is updated, the cache is left alone; a second revocation also reports success. */
    method RevokePresented(hash: Digest, now: int) returns (revoked: bool)
      modifies this`keys
      ensures Abstract(now) == TokenRevoke(old(Abstract(now)), hash)
      ensures revoked == (hash in old(keys))
    {
      revoked := hash in keys;
      if revoked && keys[hash].revokedAt.None? {
        keys := keys[hash := keys[hash].(revokedAt := Some(now))];
      }
    }
  }

  /** No answer is half-inactive: an inactive answer carries no other field. */
  lemma InactiveIsBare(s: State, hash: Digest)
    requires CacheInv(s)
    ensures var r := Verify(s, hash).1; r.active || r == INACTIVE
  {
  }

  datatype Event = Tick(ms: nat) | Create(hash: Digest, key: ApiKey) | Introspect(hash: Digest)
                 | Revoke(hash: Digest) | RevokePresented(hash: Digest) | Evict(hash: Digest)

  /** Key hashes are hashes of fresh random bytes. */
  function Insert(keys: Keys, hash: Digest, key: ApiKey): Keys {
    if hash in keys then keys else keys[hash := key.(keyHash := hash, revokedAt := None)]
  }

  function Apply(s: State, e: Event): State {
    match e
    case Tick(ms) => s.(now := s.now + ms)
    case Create(hash, key) => s.(keys := Insert(s.keys, hash, key))
    case Introspect(hash) => Verify(s, hash).0
    case Revoke(hash) => AdminRevoke(s, hash)
    case RevokePresented(hash) => TokenRevoke(s, hash)
    case Evict(hash) => s.(cache := Del(s.cache, hash))
  }

  /** The answers a run gives, in order. */
  function Answers(s: State, es: seq<Event>): seq<Response>
    decreases |es|
  {
    if es == [] then []
    else (if es[0].Introspect? then [Verify(s, es[0].hash).1] else []) + Answers(Apply(s, es[0]), es[1..])
  }

  /** The same run of a service without a cache. */
  function PlainAnswers(now: int, keys: Keys, es: seq<Event>): seq<Response>
    decreases |es|
  {
    if es == [] then [] else
    match es[0]
    case Tick(ms) => PlainAnswers(now + ms, keys, es[1..])
    case Create(hash, key) => PlainAnswers(now, Insert(keys, hash, key), es[1..])
    case Introspect(hash) => [PlainVerify(keys, hash, now)] + PlainAnswers(now, keys, es[1..])
    case Revoke(hash) => PlainAnswers(now, RevokeRow(keys, hash, now), es[1..])
    case RevokePresented(hash) => PlainAnswers(now, RevokeRow(keys, hash, now), es[1..])
    case Evict(_) => PlainAnswers(now, keys, es[1..])
  }

  /** A cached answer is what its row says, whether or not it has been revoked since, and never outlives the key. */
  ghost predicate EntryOk(keys: Keys, hash: Digest, entry: Entry<Response>) {
    && hash in keys && keys[hash].keyHash == hash
    && entry.value == BuildResponse(keys[hash])
    && (keys[hash].expiresAt.Some? ==> entry.deadline <= keys[hash].expiresAt.value)
  }

  ghost predicate CacheInv(s: State) {
    forall h :: h in s.cache ==> EntryOk(s.keys, h, s.cache[h])
  }

  /** The row is revoked and a live entry still answers for it. */
  predicate Lagging(s: State, hash: Digest) {
    hash in s.keys && s.keys[hash].revokedAt.Some? && Get(s.cache, hash, s.now).Some?
  }

  /** The TTL is a tenth of what is left, in whole seconds, between 0 and 300; a key without expiry is cached for 300.
    * So every TTL stays inside the key's lifetime, and the last ten seconds of a key are never cached. */
  lemma TtlInsideLifetime(e: int, now: int)
    ensures var ttl := ComputeCacheTtl(Some(e), now);
            && ttl <= 300 && (now <= e ==> now + 10 * 1000 * ttl <= e) && (ttl == 0 <==> e < now + 10_000)
            && (0 < ttl < 300 ==> e < now + 10_000 * (ttl + 1))
            && (ttl == 300 <==> e >= now + 3_000_000)
    ensures ComputeCacheTtl(None, now) == 300
  {
  }

  lemma VerifyKeeps(s: State, hash: Digest)
    requires CacheInv(s)
    ensures CacheInv(Verify(s, hash).0)
  {
    if Get(s.cache, hash, s.now).None? && PlainVerify(s.keys, hash, s.now).active && s.keys[hash].expiresAt.Some? {
      TtlInsideLifetime(s.keys[hash].expiresAt.value, s.now);
    }
  }

  lemma ApplyKeeps(s: State, e: Event)
    requires CacheInv(s)
    ensures CacheInv(Apply(s, e))
  {
    if e.Introspect? {
      VerifyKeeps(s, e.hash);
    }
  }

  function Exec(s: State, es: seq<Event>): State
    decreases |es|
  {
    if es == [] then s else Exec(Apply(s, es[0]), es[1..])
  }

  /** Over every run each cached answer is what its row says, and no entry is kept beyond the expiry of its key;
    * without `/token/revoke` the row is not revoked either. */
  lemma {:induction false} EntriesWithinLifetime(s: State, es: seq<Event>, hash: Digest)
    requires CacheInv(s) && hash in Exec(s, es).cache
    ensures var t := Exec(s, es);
            && hash in t.keys && t.cache[hash].value == BuildResponse(t.keys[hash])
            && (t.keys[hash].expiresAt.Some? ==> t.cache[hash].deadline <= t.keys[hash].expiresAt.value)
            && (NoneRevoked(s) && WithoutTokenRevoke(es) ==> t.keys[hash].revokedAt.None?)
    decreases |es|
  {
    if es != [] {
      ApplyKeeps(s, es[0]);
      EntriesWithinLifetime(Apply(s, es[0]), es[1..], hash);
    }
  }

  /** Rows are stored under their own hash. */
  ghost predicate KeyedByHash(keys: Keys) {
    forall h :: h in keys ==> keys[h].keyHash == h
  }

  /** What an active answer for a key says. */
  ghost predicate SaysRow(r: Response, key: ApiKey) {
    && r.active && r.tenantId == Some(key.tenant)
    && r.userId == Some(key.serviceAccount) && r.identityType == Some(ServiceAccount)
    && r.clientId.Some? && ParseProject(r.clientId.value) == Some(key.project)
    && r.scope == Some(Join(key.scopes, ' ')) && r.tokenType == Some("Bearer")
    && (r.exp.Some? <==> key.expiresAt.Some?)
    && (r.exp.Some? ==> 1000 * r.exp.value <= key.expiresAt.value < 1000 * (r.exp.value + 1))
    && r.quotas == None && r.tokenFormat == Some("api_key")
  }

  /** A stored key not past its expiry, unrevoked or answered by an entry from before its revocation. */
  ghost predicate Answerable(s: State, hash: Digest) {
    && hash in s.keys && s.keys[hash].keyHash == hash
    && (s.keys[hash].expiresAt.Some? ==> s.now <= s.keys[hash].expiresAt.value)
    && (s.keys[hash].revokedAt.None? || (hash in s.cache && s.now <= s.cache[hash].deadline))
  }

  /** The lookup: active exactly for a stored key that is neither revoked nor past its expiry, with the fields of its
    * row; otherwise the answer is bare. */
  lemma PlainVerifyIff(keys: Keys, hash: Digest, now: int)
    ensures var r := PlainVerify(keys, hash, now);
            && (r.active <==> hash in keys && keys[hash].keyHash == hash && keys[hash].revokedAt.None?
                              && (keys[hash].expiresAt.Some? ==> now <= keys[hash].expiresAt.value))
            && (r.active ==> SaysRow(r, keys[hash]))
            && (!r.active ==> r == Response(false, None, None, None, None, None, None, None, None, None))
  {
    if hash in keys {
      ParseDisplay(Display(keys[hash].project), keys[hash].project);
    }
  }

  lemma VerifyIff(s: State, hash: Digest)
    requires CacheInv(s)
    ensures var r := Verify(s, hash).1;
      && (r.active <==> Answerable(s, hash))
      && (r.active ==> SaysRow(r, s.keys[hash]))
      && (!r.active ==> r == INACTIVE)
  {
    VerifyIsPlainIff(s, hash);
    PlainVerifyIff(s.keys, hash, s.now);
    if hash in s.cache {
      assert EntryOk(s.keys, hash, s.cache[hash]);
      ParseDisplay(Display(s.keys[hash].project), s.keys[hash].project);
    }
  }

  /** Over every run, cached or not: an answer is active exactly for a stored key that is not past its expiry and is
    * either unrevoked or answered by an entry from before its revocation; it carries the fields of the row. */
  lemma {:induction false} RunActiveIff(s: State, es: seq<Event>, hash: Digest)
    requires CacheInv(s) && KeyedByHash(s.keys)
    ensures var t := Exec(s, es);
      var r := Verify(t, hash).1;
      && (r.active <==>
            && hash in t.keys && (t.keys[hash].expiresAt.Some? ==> t.now <= t.keys[hash].expiresAt.value)
            && (t.keys[hash].revokedAt.None? || (hash in t.cache && t.now <= t.cache[hash].deadline)))
      && (r.active ==> SaysRow(r, t.keys[hash]))
      && (!r.active ==> r == Response(false, None, None, None, None, None, None, None, None, None))
    decreases |es|
  {
    if es != [] {
      ApplyKeeps(s, es[0]);
      RunActiveIff(Apply(s, es[0]), es[1..], hash);
    } else {
      VerifyIff(s, hash);
    }
  }

  /** Whatever a live entry holds, it is answered only until the second of its exp is over. */
  lemma EntryIsRechecked(s: State, hash: Digest)
    requires hash in s.cache && s.now <= s.cache[hash].deadline
    ensures var (t, r) := Verify(s, hash);
      var cached := s.cache[hash].value;
      && t == s
      && (cached.exp.Some? && 1000 * (cached.exp.value + 1) <= s.now ==> r == INACTIVE)
      && (cached.exp.None? || s.now < 1000 * (cached.exp.value + 1) ==> r == cached)
  {
  }

  /** What an introspection leaves in the cache: a live entry stays as it is; an active answer of the lookup is kept for
    * a tenth of the key's remaining seconds, at most 300 and not at all if that is none; nothing else is kept. */
  lemma VerifyEffect(s: State, hash: Digest)
    ensures var (t, r) := Verify(s, hash);
      var hit := hash in s.cache && s.now <= s.cache[hash].deadline;
      && t.now == s.now && t.keys == s.keys
      && (hit || !r.active ==> t == s)
      && (!hit && r.active ==>
            && hash in s.keys
            && var tenth := if s.keys[hash].expiresAt.None? then 300 else (s.keys[hash].expiresAt.value - s.now) / 10_000;
               t.cache == if tenth == 0 then s.cache
                          else s.cache[hash := Entry(r, s.now + 1000 * if tenth < 300 then tenth else 300)])
  {
  }

  /** A key is active from its creation until its expiry. */
  lemma CreatedIsActive(s: State, hash: Digest, key: ApiKey)
    requires CacheInv(s) && hash !in s.keys
    ensures var t := Apply(s, Create(hash, key));
      && t == s.(keys := s.keys[hash := key.(keyHash := hash, revokedAt := None)])
      && (Verify(t, hash).1.active <==> key.expiresAt.Some? ==> s.now <= key.expiresAt.value)
  {
    ApplyKeeps(s, Create(hash, key));
    VerifyIff(Apply(s, Create(hash, key)), hash);
  }

  lemma {:induction false} RevokedStaysInactive(s: State, es: seq<Event>, hash: Digest)
    requires CacheInv(s) && hash in s.keys && s.keys[hash].revokedAt.Some? && Get(s.cache, hash, s.now).None?
    ensures var t := Exec(s, es); hash in t.keys && t.keys[hash] == s.keys[hash] && Verify(t, hash).1 == INACTIVE
    decreases |es|
  {
    if es != [] {
      ApplyKeeps(s, es[0]);
      RevokedStaysInactive(Apply(s, es[0]), es[1..], hash);
    }
  }

  /** `DELETE /api-keys/{id}` on an unrevoked key: from then on the key is answered inactive in every run, and the
    * answers for other keys are what they were. A key that is revoked already keeps its time, and the cache is left
    * alone. */
  lemma AdminRevokeIsFinal(s: State, hash: Digest, es: seq<Event>)
    requires CacheInv(s) && hash in s.keys
    ensures var t := AdminRevoke(s, hash);
      && (s.keys[hash].revokedAt.None? ==>
            var u := Exec(t, es);
            hash in u.keys && u.keys[hash] == s.keys[hash].(revokedAt := Some(s.now)) && Verify(u, hash).1 == INACTIVE)
      && (s.keys[hash].revokedAt.Some? ==> t == s)
      && (forall h :: h != hash ==> Verify(t, h).1 == Verify(s, h).1)
      && t.now == s.now && t.keys.Keys == s.keys.Keys && forall h :: h in s.keys && h != hash ==> t.keys[h] == s.keys[h]
  {
    ApplyKeeps(s, Revoke(hash));
    if s.keys[hash].revokedAt.None? {
      RevokedStaysInactive(AdminRevoke(s, hash), es, hash);
    }
  }

  /** One answer: what the cache hides is exactly a lagging revocation. */
  lemma VerifyIsPlainIff(s: State, hash: Digest)
    requires CacheInv(s)
    ensures Verify(s, hash).1 == if Lagging(s, hash) then BuildResponse(s.keys[hash]) else PlainVerify(s.keys, hash, s.now)
    ensures Verify(s, hash).1 == PlainVerify(s.keys, hash, s.now) <==> !Lagging(s, hash)
  {
    if hash in s.cache {
      assert EntryOk(s.keys, hash, s.cache[hash]);
    }
  }

  /** The same in every state a run reaches, `/token/revoke` among its events. */
  lemma {:induction false} RunVerifyIsPlainIff(s: State, es: seq<Event>, hash: Digest)
    requires CacheInv(s)
    ensures var t := Exec(s, es);
      && CacheInv(t)
      && (Verify(t, hash).1 == PlainVerify(t.keys, hash, t.now) <==> !Lagging(t, hash))
    decreases |es|
  {
    if es == [] {
      VerifyIsPlainIff(s, hash);
    } else {
      ApplyKeeps(s, es[0]);
      RunVerifyIsPlainIff(Apply(s, es[0]), es[1..], hash);
    }
  }

  /** No introspection of the run meets a lagging key. */
  predicate NeverAsksLagging(s: State, es: seq<Event>)
    decreases |es|
  {
    es == [] || ((es[0].Introspect? ==> !Lagging(s, es[0].hash)) && NeverAsksLagging(Apply(s, es[0]), es[1..]))
  }

  /** Refinement: a run of creation, introspection, both revocations, time and eviction answers as the service
    * without a cache exactly when none of its introspections asks for a key whose revocation lags. */
  lemma {:induction false} CacheIsInvisibleIff(s: State, es: seq<Event>)
    requires CacheInv(s)
    ensures Answers(s, es) == PlainAnswers(s.now, s.keys, es) <==> NeverAsksLagging(s, es)
    decreases |es|
  {
    if es != [] {
      ApplyKeeps(s, es[0]);
      CacheIsInvisibleIff(Apply(s, es[0]), es[1..]);
      if es[0].Introspect? {
        var tail, plain := Answers(Apply(s, es[0]), es[1..]), PlainAnswers(s.now, s.keys, es[1..]);
        VerifyIsPlainIff(s, es[0].hash);
        assert Answers(s, es)[0] == Verify(s, es[0].hash).1 && Answers(s, es)[1..] == tail;
        assert PlainAnswers(s.now, s.keys, es)[1..] == plain;
      } else {
        assert [] + Answers(Apply(s, es[0]), es[1..]) == Answers(Apply(s, es[0]), es[1..]);
      }
    }
  }

  ghost predicate NoneRevoked(s: State) {
    forall h :: h in s.cache && h in s.keys ==> s.keys[h].revokedAt.None?
  }

  predicate WithoutTokenRevoke(es: seq<Event>) {
    forall e :: e in es ==> !e.RevokePresented?
  }

  lemma {:induction false} NothingLags(s: State, es: seq<Event>)
    requires CacheInv(s) && NoneRevoked(s) && WithoutTokenRevoke(es)
    ensures NeverAsksLagging(s, es)
    decreases |es|
  {
    if es != [] {
      assert es[0] in es;
      ApplyKeeps(s, es[0]);
      NothingLags(Apply(s, es[0]), es[1..]);
    }
  }

  /** In particular the cache is invisible in every run without `/token/revoke`. */
  lemma CacheIsInvisible(s: State, es: seq<Event>)
    requires CacheInv(s) && NoneRevoked(s) && WithoutTokenRevoke(es)
    ensures Answers(s, es) == PlainAnswers(s.now, s.keys, es)
  {
    NothingLags(s, es);
    CacheIsInvisibleIff(s, es);
  }

  /** `/token/revoke` marks an unrevoked row and leaves the cache alone: the revocation is visible at once exactly when
    * no live entry exists for the hash. */
  lemma TokenRevokeVisibleIff(s: State, hash: Digest)
    requires CacheInv(s)
    ensures var t := TokenRevoke(s, hash);
            && CacheInv(t)
            && PlainVerify(t.keys, hash, t.now) == INACTIVE
            && (Verify(t, hash).1 == INACTIVE <==> Get(s.cache, hash, s.now).None?)
            && t.now == s.now && t.cache == s.cache && t.keys.Keys == s.keys.Keys
            && forall h :: h in s.keys ==>
                 t.keys[h] == if h == hash && s.keys[h].revokedAt.None? then s.keys[h].(revokedAt := Some(s.now)) else s.keys[h]
  {
    VerifyIsPlainIff(TokenRevoke(s, hash), hash);
  }

  /** A run in which a revoked key is still answered active: cache a key, revoke it by `/token/revoke`. */
  lemma TokenRevokeMayLag()
    ensures exists s: State, h: Digest :: CacheInv(s) && Verify(TokenRevoke(s, h), h).1.active
  {
    var h := Sha256("k");
    var key := ApiKey("t", "sa", Pandaria, h, [], None, None);
    var s := Verify(State(0, map[h := key], map[]), h).0;
    VerifyKeeps(State(0, map[h := key], map[]), h);
    TokenRevokeVisibleIff(s, h);
    assert Verify(TokenRevoke(s, h), h).1.active;
  }
}
