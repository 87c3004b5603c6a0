/** API-key introspection when handlers interleave statement by statement: how long a revoked key can
  * still be answered from the cache. */
module ApiKeyStaleness {
  import opened Basics
  import opened Redis
  import opened ApiKeys
  import Scopes

  const MAX_TTL_MS: int := 300 * 1000

  /** The statement a request is about to run. A verify reads the cache, then the row, then decides and
    * picks a TTL, then stores; a revoke updates the row, and the admin one then deletes the entry. */
  datatype Pc =
    | CacheGet(hash: Digest)
    | RowSelect(hash: Digest)
    | Decide(hash: Digest, row: Option<ApiKey>)
    | CacheSet(hash: Digest, response: Response, ttl: nat)
    | Answered(hash: Digest, response: Response)
    | RowUpdate(hash: Digest, admin: bool)
    | CacheDel(hash: Digest)
    | Finished

  datatype Sys = Sys(now: int, keys: Keys, cache: Store<Digest, Response>, reqs: map<nat, Pc>)

  function Init(now: int): Sys {
    Sys(now, map[], map[], map[])
  }

  function At(s: Sys, q: nat, pc: Pc): Sys {
    s.(reqs := s.reqs[q := pc])
  }

  function Step(s: Sys, q: nat): Sys
    requires q in s.reqs
  {
    match s.reqs[q]
    case CacheGet(h) =>
      (match Get(s.cache, h, s.now)
       case Some(cached) => At(s, q, Answered(h, Recheck(cached, s.now)))
       case None => At(s, q, RowSelect(h)))
    case RowSelect(h) => At(s, q, Decide(h, if h in s.keys then Some(s.keys[h]) else None))
    case Decide(h, row) =>
      var r := if row.Some? then Judge(row.value, h, s.now) else INACTIVE;
      At(s, q, if r.active then CacheSet(h, r, ComputeCacheTtl(row.value.expiresAt, s.now)) else Answered(h, r))
    case CacheSet(h, r, ttl) => At(s.(cache := SetEx(s.cache, h, r, ttl, s.now)), q, Answered(h, r))
    case RowUpdate(h, admin) =>
      var changed := h in s.keys && s.keys[h].revokedAt.None?;
      At(s.(keys := RevokeRow(s.keys, h, s.now)), q, if admin && changed then CacheDel(h) else Finished)
    case CacheDel(h) => At(s.(cache := Del(s.cache, h)), q, Finished)
    case Answered(_, _) => s
    case Finished => s
  }

  datatype Event = Tick(ms: nat) | Create(hash: Digest, key: ApiKey) | Arrive(q: nat, pc: Pc) | Run(q: nat)
                 | Evict(hash: Digest)

  function Apply(s: Sys, e: Event): Sys {
    match e
    case Tick(ms) => s.(now := s.now + ms)
    case Create(h, key) => s.(keys := Insert(s.keys, h, key))
    case Arrive(q, pc) => if q !in s.reqs && (pc.CacheGet? || pc.RowUpdate?) then At(s, q, pc) else s
    case Run(q) => if q in s.reqs then Step(s, q) else s
    case Evict(h) => s.(cache := Del(s.cache, h))
  }

  function Exec(s: Sys, es: seq<Event>): Sys
    decreases |es|
  {
    if es == [] then s else Exec(Apply(s, es[0]), es[1..])
  }

  /** No TTL exceeds 300 s, so no entry's deadline is further away. */
  ghost predicate TtlsBounded(s: Sys) {
    && (forall h :: h in s.cache ==> s.cache[h].deadline <= s.now + MAX_TTL_MS)
    && (forall q :: q in s.reqs && s.reqs[q].CacheSet? ==> s.reqs[q].ttl <= 300)
  }

  lemma TtlsStayBounded(s: Sys, e: Event)
    requires TtlsBounded(s)
    ensures TtlsBounded(Apply(s, e))
  {
  }

  lemma {:induction false} RunTtls(s: Sys, es: seq<Event>)
    requires TtlsBounded(s)
    ensures TtlsBounded(Exec(s, es))
    decreases |es|
  {
    if es != [] {
      TtlsStayBounded(s, es[0]);
      RunTtls(Apply(s, es[0]), es[1..]);
    }
  }

  /** A verify of h that read the row before it was revoked and has not answered yet. */
  predicate Pending(pc: Pc, h: Digest) {
    (pc.CacheSet? && pc.hash == h) || (pc.Decide? && pc.hash == h && pc.row.Some? && pc.row.value.revokedAt.None?)
  }

  /** The row is revoked and every verify that read it earlier has done its SETEX. */
  ghost predicate Settled(s: Sys, h: Digest) {
    && h in s.keys && s.keys[h].revokedAt.Some?
    && forall q :: q in s.reqs ==> !Pending(s.reqs[q], h)
  }

  /** From a settled state on, nothing is stored for h: what is left only runs out. */
  ghost predicate RunningOut(s: Sys, h: Digest, last: int) {
    Settled(s, h) && (h in s.cache ==> s.cache[h].deadline <= last)
  }

  lemma KeepsRunningOut(s: Sys, e: Event, h: Digest, last: int)
    requires RunningOut(s, h, last)
    ensures RunningOut(Apply(s, e), h, last) && s.now <= Apply(s, e).now
  {
  }

  lemma {:induction false} RunRunsOut(s: Sys, es: seq<Event>, h: Digest, last: int)
    requires RunningOut(s, h, last)
    ensures RunningOut(Exec(s, es), h, last) && s.now <= Exec(s, es).now
    decreases |es|
  {
    if es != [] {
      KeepsRunningOut(s, es[0], h, last);
      RunRunsOut(Apply(s, es[0]), es[1..], h, last);
    }
  }

  /** A request that, at state s, had not read the cache for h yet. */
  predicate ReadsAfter(s: Sys, q: nat, h: Digest) {
    q !in s.reqs || s.reqs[q] == CacheGet(h)
  }

  /** What one request may be doing in a cold state. */
  predicate ColdPc(pc: Pc, h: Digest) {
    && (pc.Decide? && pc.hash == h ==> pc.row.Some? && pc.row.value.revokedAt.Some?)
    && (pc.Answered? && pc.hash == h ==> pc.response == INACTIVE)
  }

  /** What is cached for h is out of date, and requests that had not read the cache at `s0` are on their way to an
    * inactive answer. */
  ghost predicate Cold(s: Sys, h: Digest, s0: Sys) {
    && RunningOut(s, h, s.now - 1)
    && forall q | q in s.reqs && ReadsAfter(s0, q, h) :: ColdPc(s.reqs[q], h)
  }

  lemma StepStaysCold(s: Sys, q: nat, h: Digest)
    requires RunningOut(s, h, s.now - 1) && q in s.reqs && ColdPc(s.reqs[q], h)
    ensures ColdPc(Step(s, q).reqs[q], h)
  {
  }

  lemma RunStepStaysCold(s: Sys, q: nat, h: Digest, s0: Sys)
    requires Cold(s, h, s0) && q in s.reqs
    ensures Cold(Step(s, q), h, s0)
  {
    KeepsRunningOut(s, Run(q), h, s.now - 1);
    if ReadsAfter(s0, q, h) {
      StepStaysCold(s, q, h);
    }
  }

  lemma StaysCold(s: Sys, e: Event, h: Digest, s0: Sys)
    requires Cold(s, h, s0)
    ensures Cold(Apply(s, e), h, s0)
  {
    if e.Run? {
      if e.q in s.reqs { RunStepStaysCold(s, e.q, h, s0); }
    } else {
      KeepsRunningOut(s, e, h, s.now - 1);
    }
  }

  lemma {:induction false} RunStaysCold(s: Sys, es: seq<Event>, h: Digest, s0: Sys)
    requires Cold(s, h, s0)
    ensures Cold(Exec(s, es), h, s0)
    decreases |es|
  {
    if es != [] {
      StaysCold(s, es[0], h, s0);
      RunStaysCold(Apply(s, es[0]), es[1..], h, s0);
    }
  }

  /** Bounded staleness: once the row is revoked and every earlier reader has stored (state `s`), any verify
    * whose GET comes more than 300 s later answers inactive, whatever interleaves. */
  lemma StalenessIsBounded(now: int, before: seq<Event>, h: Digest, wait: seq<Event>, after: seq<Event>, q: nat)
    requires Settled(Exec(Init(now), before), h)
    requires Exec(Exec(Init(now), before), wait).now > Exec(Init(now), before).now + 300_000
    requires ReadsAfter(Exec(Exec(Init(now), before), wait), q, h)
    ensures var s := Exec(Init(now), before);
            var t := Exec(s, wait);
            var u := Exec(t, after);
            q in u.reqs && u.reqs[q].Answered? && u.reqs[q].hash == h ==> u.reqs[q].response == INACTIVE
  {
    var s := Exec(Init(now), before);
    var t := Exec(s, wait);
    RunTtls(Init(now), before);
    RunRunsOut(s, wait, h, s.now + MAX_TTL_MS);
    assert Cold(t, h, t);
    RunStaysCold(t, after, h, t);
  }

  /** After the DEL of an admin revoke with no earlier reader pending, every verify whose GET comes later
    * answers inactive, forever. */
  lemma DeleteEndsStaleness(now: int, before: seq<Event>, d: nat, after: seq<Event>, q: nat)
    requires var s := Exec(Init(now), before); d in s.reqs && s.reqs[d].CacheDel? && Settled(s, s.reqs[d].hash)
    requires var s := Exec(Init(now), before); ReadsAfter(s, q, s.reqs[d].hash)
    ensures var s := Exec(Init(now), before);
            var u := Exec(Apply(s, Run(d)), after);
            q in u.reqs && u.reqs[q].Answered? && u.reqs[q].hash == s.reqs[d].hash ==> u.reqs[q].response == INACTIVE
  {
    var s := Exec(Init(now), before);
    var h, t := s.reqs[d].hash, Apply(s, Run(d));
    KeepsRunningOut(s, Run(d), h, if h in s.cache then s.cache[h].deadline else s.now);
    assert Cold(t, h, t);
    RunStaysCold(t, after, h, t);
  }

  // When a revoked key can still be answered active

  /** A verify that is about to store an answer that still passes the re-check. */
  predicate Storing(pc: Pc, h: Digest, now: int) {
    || (pc.CacheSet? && pc.hash == h && pc.ttl > 0 && Recheck(pc.response, now).active)
    || (pc.Decide? && pc.hash == h && pc.row.Some? && Judge(pc.row.value, h, now).active
        && ComputeCacheTtl(pc.row.value.expiresAt, now) > 0)
  }

  predicate LiveEntry(s: Sys, h: Digest) {
    Get(s.cache, h, s.now).Some? && Recheck(s.cache[h].value, s.now).active
  }

  predicate AnswersActive(s: Sys, q: nat, h: Digest) {
    q in s.reqs && s.reqs[q].Answered? && s.reqs[q].hash == h && s.reqs[q].response.active
  }

  lemma HitAnswers(s: Sys, h: Digest, q: nat)
    requires q !in s.reqs && LiveEntry(s, h)
    ensures AnswersActive(Exec(s, [Arrive(q, CacheGet(h))] + ([Run(q)] + [])), q, h)
    ensures exists es :: AnswersActive(Exec(s, es), q, h)
  {
    var s1 := At(s, q, CacheGet(h));
    ExecCons(s, Arrive(q, CacheGet(h)), [Run(q)] + []);
    ExecCons(s1, Run(q), []);
  }

  lemma StoreAnswers(s: Sys, h: Digest, q: nat, r: nat)
    requires q !in s.reqs && r in s.reqs && Storing(s.reqs[r], h, s.now)
    ensures exists es :: AnswersActive(Exec(s, es), q, h)
  {
    var hit := [Arrive(q, CacheGet(h))] + ([Run(q)] + []);
    var s1 := Step(s, r);
    if s.reqs[r].CacheSet? {
      HitAnswers(s1, h, q);
      ExecCons(s, Run(r), hit);
      assert AnswersActive(Exec(s, [Run(r)] + hit), q, h);
    } else {
      assert Storing(s1.reqs[r], h, s1.now);
      var s2 := Step(s1, r);
      HitAnswers(s2, h, q);
      ExecCons(s1, Run(r), hit);
      ExecCons(s, Run(r), [Run(r)] + hit);
      assert AnswersActive(Exec(s, [Run(r)] + ([Run(r)] + hit)), q, h);
    }
  }

  /** What request q may be doing when nothing can make it answer active for the revoked h. */
  predicate HopelessPc(pc: Pc, h: Digest) {
    && (pc.Decide? && pc.hash == h && pc.row.Some? ==> pc.row.value.revokedAt.Some?)
    && !(pc.CacheSet? && pc.hash == h)
    && (pc.Answered? && pc.hash == h ==> !pc.response.active)
  }

  /** The row is revoked, and neither the cache nor any request holds an answer for it that is still good. */
  ghost predicate Hopeless(s: Sys, h: Digest, q: nat) {
    && h in s.keys && s.keys[h].revokedAt.Some?
    && !LiveEntry(s, h)
    && (forall r :: r in s.reqs ==> !Storing(s.reqs[r], h, s.now))
    && (q in s.reqs ==> HopelessPc(s.reqs[q], h))
  }

  lemma TimeKeepsHopeless(s: Sys, ms: nat, h: Digest, q: nat)
    requires Hopeless(s, h, q)
    ensures Hopeless(s.(now := s.now + ms), h, q)
  {
    var t := s.(now := s.now + ms);
    forall r | r in t.reqs ensures !Storing(t.reqs[r], h, t.now) {
      assert !Storing(s.reqs[r], h, s.now);
    }
  }

  lemma StepKeepsHopeless(s: Sys, r: nat, h: Digest, q: nat)
    requires Hopeless(s, h, q) && r in s.reqs
    ensures Hopeless(Step(s, r), h, q)
  {
    var t := Step(s, r);
    assert !Storing(s.reqs[r], h, s.now);
    forall p | p in t.reqs ensures !Storing(t.reqs[p], h, t.now) {
      if p != r { assert !Storing(s.reqs[p], h, s.now); }
    }
  }

  lemma EventKeepsHopeless(s: Sys, e: Event, h: Digest, q: nat)
    requires Hopeless(s, h, q)
    ensures Hopeless(Apply(s, e), h, q)
  {
    match e
    case Tick(ms) => TimeKeepsHopeless(s, ms, h, q);
    case Run(r) => if r in s.reqs { StepKeepsHopeless(s, r, h, q); }
    case _ =>
  }

  lemma {:induction false} RunKeepsHopeless(s: Sys, es: seq<Event>, h: Digest, q: nat)
    requires Hopeless(s, h, q)
    ensures Hopeless(Exec(s, es), h, q)
    decreases |es|
  {
    if es != [] {
      EventKeepsHopeless(s, es[0], h, q);
      RunKeepsHopeless(Apply(s, es[0]), es[1..], h, q);
    }
  }

  /** In every state, a revoked key can still be answered active to some new verify, in some run, exactly when a live
    * entry still passes the re-check or a verify that read the row earlier is about to store such an answer. */
  lemma RevokedAnswersIff(s: Sys, h: Digest, q: nat)
    requires h in s.keys && s.keys[h].revokedAt.Some? && q !in s.reqs
    ensures (exists es :: AnswersActive(Exec(s, es), q, h)) <==>
      LiveEntry(s, h) || exists r :: r in s.reqs && Storing(s.reqs[r], h, s.now)
  {
    if LiveEntry(s, h) {
      HitAnswers(s, h, q);
    } else if r :| r in s.reqs && Storing(s.reqs[r], h, s.now) {
      StoreAnswers(s, h, q, r);
    } else {
      forall es ensures !AnswersActive(Exec(s, es), q, h) {
        RunKeepsHopeless(s, es, h, q);
      }
    }
  }

  lemma ExecCons(s: Sys, e: Event, es: seq<Event>)
    ensures Exec(s, [e] + es) == Exec(Apply(s, e), es)
  {
    assert ([e] + es)[1..] == es;
  }

  /** A key without expiry is cached, then revoked through `/token/revoke`, all in the same instant. */
  function CachedThenRevoked(h: Digest, key: ApiKey): seq<Event> {
    [Event.Create(h, key)] + ([Arrive(0, CacheGet(h))] + ([Run(0)] + ([Run(0)] + ([Run(0)] + ([Run(0)]
      + ([Arrive(1, RowUpdate(h, false))] + ([Run(1)] + [])))))))
  }

  /** A verify of an active key without expiry, run alone on an empty cache. */
  lemma VerifyStores(s: Sys, h: Digest, key: ApiKey, rest: seq<Event>)
    requires key.keyHash == h && key.expiresAt.None? && key.revokedAt.None?
    requires s == Sys(0, map[h := key], map[], map[])
    ensures Exec(s, [Arrive(0, CacheGet(h))] + ([Run(0)] + ([Run(0)] + ([Run(0)] + ([Run(0)] + rest)))))
         == Exec(At(s.(cache := map[h := Entry(BuildResponse(key), 300_000)]), 0, Answered(h, BuildResponse(key))), rest)
  {
    var s2, s3 := At(s, 0, CacheGet(h)), At(s, 0, RowSelect(h));
    var s4, s5 := At(s, 0, Decide(h, Some(key))), At(s, 0, CacheSet(h, BuildResponse(key), 300));
    var s6 := At(s.(cache := map[h := Entry(BuildResponse(key), 300_000)]), 0, Answered(h, BuildResponse(key)));
    assert Apply(s2, Run(0)).reqs == s3.reqs;
    assert Apply(s3, Run(0)).reqs == s4.reqs;
    assert Apply(s4, Run(0)).reqs == s5.reqs;
    assert Apply(s5, Run(0)).reqs == s6.reqs && Apply(s5, Run(0)).cache == s6.cache;
    assert Apply(s5, Run(0)) == s6;
    ExecCons(s5, Run(0), rest);
    ExecCons(s4, Run(0), [Run(0)] + rest);
    ExecCons(s3, Run(0), [Run(0)] + ([Run(0)] + rest));
    ExecCons(s2, Run(0), [Run(0)] + ([Run(0)] + ([Run(0)] + rest)));
    ExecCons(s, Arrive(0, CacheGet(h)), [Run(0)] + ([Run(0)] + ([Run(0)] + ([Run(0)] + rest))));
  }

  lemma CachedThenRevokedState(h: Digest, key: ApiKey)
    requires key.keyHash == h && key.expiresAt.None? && key.revokedAt.None?
    ensures Exec(Init(0), CachedThenRevoked(h, key))
         == Sys(0, map[h := key.(revokedAt := Some(0))], map[h := Entry(BuildResponse(key), 300_000)],
                map[0 := Answered(h, BuildResponse(key)), 1 := Finished])
  {
    var s1 := Sys(0, map[h := key], map[], map[]);
    var rest := [Arrive(1, RowUpdate(h, false))] + ([Run(1)] + []);
    ExecCons(Init(0), Event.Create(h, key),
             [Arrive(0, CacheGet(h))] + ([Run(0)] + ([Run(0)] + ([Run(0)] + ([Run(0)] + rest)))));
    VerifyStores(s1, h, key, rest);
    var s6 := At(s1.(cache := map[h := Entry(BuildResponse(key), 300_000)]), 0, Answered(h, BuildResponse(key)));
    ExecCons(s6, Arrive(1, RowUpdate(h, false)), [Run(1)] + []);
    ExecCons(At(s6, 1, RowUpdate(h, false)), Run(1), []);
  }

  /** The bound cannot be lowered: a reachable settled state after which, at the end of the 300 s, a verify that starts anew is still answered active. */
  lemma BoundIsTight()
    ensures exists before: seq<Event>, h: Digest, q: nat ::
              var s := Exec(Init(0), before);
              && Settled(s, h) && q !in s.reqs
              && var u := Exec(s, [Event.Tick(300_000)] + ([Arrive(q, CacheGet(h))] + ([Run(q)] + [])));
                 u.now == s.now + 300_000 && q in u.reqs && u.reqs[q].Answered? && u.reqs[q].response.active
  {
    var h := Sha256("k");
    var key := ApiKey("t", "sa", Scopes.Pandaria, h, [], None, None);
    var before, q: nat := CachedThenRevoked(h, key), 2;
    CachedThenRevokedState(h, key);
    var s := Exec(Init(0), before);
    var s1 := Apply(s, Event.Tick(300_000));
    var s2 := Apply(s1, Arrive(q, CacheGet(h)));
    ExecCons(s, Event.Tick(300_000), [Arrive(q, CacheGet(h))] + ([Run(q)] + []));
    ExecCons(s1, Arrive(q, CacheGet(h)), [Run(q)] + []);
    ExecCons(s2, Run(q), []);
    assert Settled(s, h);
  }

  // The handlers run alone

  /** Request q arrives and runs alone; four statements finish every request. */
  function Alone(s: Sys, q: nat, pc: Pc): Sys {
    Apply(Apply(Apply(Apply(Apply(s, Arrive(q, pc)), Run(q)), Run(q)), Run(q)), Run(q))
  }

  function Whole(s: Sys): State {
    State(s.now, s.keys, s.cache)
  }

  /** Without interference, the statements of an introspection are the introspection of ApiKeys. */
  lemma VerifyIsRun(s: Sys, q: nat, h: Digest)
    requires q !in s.reqs
    ensures var t := Alone(s, q, CacheGet(h));
      Whole(t) == Verify(Whole(s), h).0 && t.reqs == s.reqs[q := Answered(h, Verify(Whole(s), h).1)]
  {
    if Get(s.cache, h, s.now).None? {
      var s1 := Apply(Apply(s, Arrive(q, CacheGet(h))), Run(q));
      MissIsRun(s1, q, h);
      assert Whole(s1) == Whole(s);
    }
  }

  lemma MissIsRun(s: Sys, q: nat, h: Digest)
    requires q in s.reqs && s.reqs[q] == RowSelect(h) && Get(s.cache, h, s.now).None?
    ensures var t := Apply(Apply(Apply(s, Run(q)), Run(q)), Run(q));
      Whole(t) == Verify(Whole(s), h).0 && t.reqs == s.reqs[q := Answered(h, Verify(Whole(s), h).1)]
  {
  }

  /** ... and so for the two revocations. */
  lemma RevokeIsRun(s: Sys, q: nat, h: Digest, admin: bool)
    requires q !in s.reqs
    ensures var t := Alone(s, q, RowUpdate(h, admin));
      Whole(t) == (if admin then AdminRevoke(Whole(s), h) else TokenRevoke(Whole(s), h)) && t.reqs == s.reqs[q := Finished]
  {
  }
}
