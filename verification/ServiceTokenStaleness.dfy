/** Service tokens when handlers interleave statement by statement: how long a replaced token can still
  * authenticate from the cache. */
module ServiceTokenStaleness {
  import opened Basics
  import opened Redis
  import opened Scopes
  import opened ServiceTokens

  /** The statement a request is about to run. A verify reads the cache, then the row, then stores. Create, rotate
    * and revoke read the project's row, write it, and delete the entry of the hash they had read. */
  datatype Pc =
    | CacheGet(hash: Digest)
    | RowSelect(hash: Digest)
    | CacheSet(hash: Digest, project: Project)
    | Answered(hash: Digest, answer: Option<Project>)
    | CreateRead(project: Project)
    | RotateRead(project: Project)
    | Upsert(project: Project, replaced: Option<Digest>)
    | RevokeRead(project: Project)
    | RevokeWrite(project: Project, hash: Digest)
    | CacheDel(hash: Digest)
    | Finished

  /** `issued` collects every hash ever drawn; tokens are 32 random bytes. */
  datatype Sys = Sys(now: int, rows: Rows, cache: Store<Digest, string>, reqs: map<nat, Pc>, issued: set<Digest>)

  function Init(now: int): Sys {
    Sys(now, map[], map[], map[], {})
  }

  predicate IsStart(pc: Pc) {
    || pc.CacheGet?
    || ((pc.CreateRead? || pc.RotateRead? || pc.RevokeRead?) && pc.project != Aspectus)
  }

  function At(s: Sys, q: nat, pc: Pc): Sys {
    s.(reqs := s.reqs[q := pc])
  }

  function Step(s: Sys, q: nat, drawn: Digest): Sys
    requires q in s.reqs
  {
    match s.reqs[q]
    case CacheGet(h) =>
      (match Get(s.cache, h, s.now)
       case Some(name) => At(s, q, Answered(h, ParseProject(name)))
       case None => At(s, q, RowSelect(h)))
    case RowSelect(h) =>
      (match FindByHash(s.rows, h)
       case Some(p) => At(s, q, CacheSet(h, p))
       case None => At(s, q, Answered(h, None)))
    case CacheSet(h, p) =>
      At(s.(cache := SetEx(s.cache, h, Display(p), CACHE_TTL, s.now)), q, Answered(h, Some(p)))
    case CreateRead(p) => At(s, q, if HasActive(s.rows, p) then Finished else Upsert(p, None))
    case RotateRead(p) => At(s, q, if HasActive(s.rows, p) then Upsert(p, Some(s.rows[p].hash)) else Finished)
    case Upsert(p, replaced) =>
      if drawn in s.issued then s
      else At(s.(rows := s.rows[p := Row(drawn, false)], issued := s.issued + {drawn}), q,
              if replaced.Some? then CacheDel(replaced.value) else Finished)
    case RevokeRead(p) => At(s, q, if HasActive(s.rows, p) then RevokeWrite(p, s.rows[p].hash) else Finished)
    case RevokeWrite(p, revoked) =>
      if HasActive(s.rows, p)
      then At(s.(rows := s.rows[p := s.rows[p].(revoked := true)]), q, CacheDel(revoked))
      else At(s, q, Finished)
    case CacheDel(h) => At(s.(cache := Del(s.cache, h)), q, Finished)
    case Answered(_, _) => s
    case Finished => s
  }

  datatype Event = Tick(ms: nat) | Arrive(q: nat, pc: Pc) | Run(q: nat, drawn: Digest) | Evict(hash: Digest)

  function Apply(s: Sys, e: Event): Sys {
    match e
    case Tick(ms) => s.(now := s.now + ms)
    case Arrive(q, pc) => if q !in s.reqs && IsStart(pc) then At(s, q, pc) else s
    case Run(q, drawn) => if q in s.reqs then Step(s, q, drawn) else s
    case Evict(h) => s.(cache := Del(s.cache, h))
  }

  function Exec(s: Sys, es: seq<Event>): Sys
    decreases |es|
  {
    if es == [] then s else Exec(Apply(s, es[0]), es[1..])
  }

  /** Entries live at most 60 seconds from the moment they are stored. */
  ghost predicate TtlsBounded(s: Sys) {
    forall h :: h in s.cache ==> s.cache[h].deadline <= s.now + 60_000
  }

  lemma {:induction false} RunTtls(s: Sys, es: seq<Event>)
    requires TtlsBounded(s)
    ensures TtlsBounded(Exec(s, es))
    decreases |es|
  {
    if es != [] {
      RunTtls(Apply(s, es[0]), es[1..]);
    }
  }

  /** Drawn once, and the live token of no project. */
  ghost predicate Dead(rows: Rows, issued: set<Digest>, h: Digest) {
    h in issued && forall p :: !Active(rows, p, h)
  }

  lemma DeadStays(s: Sys, e: Event, h: Digest)
    requires Dead(s.rows, s.issued, h)
    ensures Dead(Apply(s, e).rows, Apply(s, e).issued, h)
  {
    forall p ensures !Active(Apply(s, e).rows, p, h) {
      assert !Active(s.rows, p, h);
    }
  }

  /** The token is dead and every verify that found it earlier has stored. */
  ghost predicate Settled(s: Sys, h: Digest) {
    && Dead(s.rows, s.issued, h)
    && forall q :: q in s.reqs ==> !(s.reqs[q].CacheSet? && s.reqs[q].hash == h)
  }

  lemma DeadIsNotFound(rows: Rows, issued: set<Digest>, h: Digest)
    requires Dead(rows, issued, h)
    ensures FindByHash(rows, h) == None
  {
    FindInIff(rows, h, ALL_PROJECTS);
  }

  /** From a settled state on, nothing is stored for h: what is left only runs out. */
  ghost predicate RunningOut(s: Sys, h: Digest, last: int) {
    Settled(s, h) && (h in s.cache ==> s.cache[h].deadline <= last)
  }

  lemma KeepsRunningOut(s: Sys, e: Event, h: Digest, last: int)
    requires RunningOut(s, h, last)
    ensures RunningOut(Apply(s, e), h, last) && s.now <= Apply(s, e).now
  {
    DeadStays(s, e, h);
    DeadIsNotFound(s.rows, s.issued, h);
  }

  lemma {:induction false} RunRunsOut(s: Sys, es: seq<Event>, h: Digest, last: int)
    requires RunningOut(s, h, last)
    ensures RunningOut(Exec(s, es), h, last) && s.now <= Exec(s, es).now
    decreases |es|
  {
    if es != [] {
      KeepsRunningOut(s, es[0], h, last);
      RunRunsOut(Apply(s, es[0]), es[1..], h, last);
    }
  }

  /** A request that, at state s, had not read the cache for h yet. */
  predicate ReadsAfter(s: Sys, q: nat, h: Digest) {
    q !in s.reqs || s.reqs[q] == CacheGet(h)
  }

  /** What is cached for h is out of date, and requests that had not read the cache at `s0` are on their way to no
    * project. */
  ghost predicate Cold(s: Sys, h: Digest, s0: Sys) {
    && RunningOut(s, h, s.now - 1)
    && forall q | q in s.reqs && ReadsAfter(s0, q, h) ::
         s.reqs[q].Answered? && s.reqs[q].hash == h ==> s.reqs[q].answer == None
  }

  lemma StaysCold(s: Sys, e: Event, h: Digest, s0: Sys)
    requires Cold(s, h, s0)
    ensures Cold(Apply(s, e), h, s0)
  {
    KeepsRunningOut(s, e, h, s.now - 1);
  }

  lemma {:induction false} RunStaysCold(s: Sys, es: seq<Event>, h: Digest, s0: Sys)
    requires Cold(s, h, s0)
    ensures Cold(Exec(s, es), h, s0)
    decreases |es|
  {
    if es != [] {
      StaysCold(s, es[0], h, s0);
      RunStaysCold(Apply(s, es[0]), es[1..], h, s0);
    }
  }

  /** Bounded staleness: once a token is replaced or revoked and every verify that had found it has stored, any
    * verify whose GET comes more than 60 s later finds no project, whatever interleaves. */
  lemma StalenessIsBounded(now: int, before: seq<Event>, h: Digest, wait: seq<Event>, after: seq<Event>, q: nat)
    requires Settled(Exec(Init(now), before), h)
    requires Exec(Exec(Init(now), before), wait).now > Exec(Init(now), before).now + 60_000
    requires ReadsAfter(Exec(Exec(Init(now), before), wait), q, h)
    ensures var u := Exec(Exec(Exec(Init(now), before), wait), after);
      q in u.reqs && u.reqs[q].Answered? && u.reqs[q].hash == h ==> u.reqs[q].answer == None
  {
    var s := Exec(Init(now), before);
    var t := Exec(s, wait);
    RunTtls(Init(now), before);
    RunRunsOut(s, wait, h, s.now + 60_000);
    assert Cold(t, h, t);
    RunStaysCold(t, after, h, t);
  }

  /** The DEL of the handler that replaced the token ends it at once, when no earlier reader is left to store. */
  lemma DeleteEndsStaleness(now: int, before: seq<Event>, d: nat, drawn: Digest, after: seq<Event>, q: nat)
    requires var s := Exec(Init(now), before); d in s.reqs && s.reqs[d].CacheDel? && Settled(s, s.reqs[d].hash)
    requires var s := Exec(Init(now), before); ReadsAfter(s, q, s.reqs[d].hash)
    ensures var s := Exec(Init(now), before);
      var u := Exec(Apply(s, Run(d, drawn)), after);
      q in u.reqs && u.reqs[q].Answered? && u.reqs[q].hash == s.reqs[d].hash ==> u.reqs[q].answer == None
  {
    var s := Exec(Init(now), before);
    var h, t := s.reqs[d].hash, Apply(s, Run(d, drawn));
    KeepsRunningOut(s, Run(d, drawn), h, if h in s.cache then s.cache[h].deadline else s.now);
    assert Cold(t, h, t);
    RunStaysCold(t, after, h, t);
  }

  lemma {:induction false} ExecAppend(s: Sys, es: seq<Event>, fs: seq<Event>)
    ensures Exec(s, es + fs) == Exec(Exec(s, es), fs)
    decreases |es|
  {
    if es == [] {
      assert es + fs == fs;
    } else {
      assert (es + fs)[1..] == es[1..] + fs;
      ExecAppend(Apply(s, es[0]), es[1..], fs);
    }
  }

  lemma Two(s: Sys, e: Event, t: Sys, f: Event, u: Sys)
    requires Apply(s, e) == t && Apply(t, f) == u
    ensures Exec(s, [e, f]) == u
  {
    assert [e, f][1..] == [f] && [f][1..] == [];
    assert Exec(t, [f]) == Exec(u, []);
  }

  // When a dead token can still authenticate

  /** Every cached string is a project's name. */
  ghost predicate Parses(s: Sys) {
    forall h :: h in s.cache ==> ParseProject(s.cache[h].value).Some?
  }

  lemma EventParses(s: Sys, e: Event)
    requires Parses(s)
    ensures Parses(Apply(s, e))
  {
    if e.Run? && e.q in s.reqs && s.reqs[e.q].CacheSet? {
      ParseDisplay(Display(s.reqs[e.q].project), s.reqs[e.q].project);
    }
  }

  lemma {:induction false} RunParses(s: Sys, es: seq<Event>)
    requires Parses(s)
    ensures Parses(Exec(s, es))
    decreases |es|
  {
    if es != [] {
      EventParses(s, es[0]);
      RunParses(Apply(s, es[0]), es[1..]);
    }
  }

  /** A verify that found the token and has not stored it yet. */
  predicate Storing(pc: Pc, h: Digest) {
    pc.CacheSet? && pc.hash == h
  }

  predicate Authenticates(s: Sys, q: nat, h: Digest) {
    q in s.reqs && s.reqs[q].Answered? && s.reqs[q].hash == h && s.reqs[q].answer.Some?
  }

  lemma HitAuthenticates(s: Sys, h: Digest, q: nat)
    requires Parses(s) && q !in s.reqs && Get(s.cache, h, s.now).Some?
    ensures Authenticates(Exec(s, [Arrive(q, CacheGet(h)), Run(q, h)]), q, h)
    ensures exists es :: Authenticates(Exec(s, es), q, h)
  {
    var s1 := At(s, q, CacheGet(h));
    Two(s, Arrive(q, CacheGet(h)), s1, Run(q, h), Step(s1, q, h));
  }

  lemma StoreAuthenticates(s: Sys, h: Digest, q: nat, r: nat)
    requires Parses(s) && q !in s.reqs && r in s.reqs && Storing(s.reqs[r], h)
    ensures exists es :: Authenticates(Exec(s, es), q, h)
  {
    EventParses(s, Run(r, h));
    HitAuthenticates(Step(s, r, h), h, q);
    var hit := [Arrive(q, CacheGet(h)), Run(q, h)];
    assert ([Run(r, h)] + hit)[1..] == hit;
    assert Authenticates(Exec(s, [Run(r, h)] + hit), q, h);
  }

  /** In every reachable state, a token that is the live token of no project can still authenticate some new verify, in
    * some run, exactly when an entry for it is live or a verify that had found it is about to store one. */
  lemma DeadAuthenticatesIff(now: int, before: seq<Event>, h: Digest, q: nat)
    requires var s := Exec(Init(now), before); Dead(s.rows, s.issued, h) && q !in s.reqs
    ensures var s := Exec(Init(now), before);
      (exists es :: Authenticates(Exec(s, es), q, h)) <==>
        Get(s.cache, h, s.now).Some? || exists r :: r in s.reqs && Storing(s.reqs[r], h)
  {
    var s := Exec(Init(now), before);
    RunParses(Init(now), before);
    if Get(s.cache, h, s.now).Some? {
      HitAuthenticates(s, h, q);
    } else if r :| r in s.reqs && Storing(s.reqs[r], h) {
      StoreAuthenticates(s, h, q, r);
    } else {
      assert Cold(s, h, s);
      forall es ensures !Authenticates(Exec(s, es), q, h) {
        RunStaysCold(s, es, h, s);
      }
    }
  }

  // Two rotations at once

  lemma Four(s: Sys, e: Event, t: Sys, f: Event, u: Sys, g: Event, v: Sys, h: Event, w: Sys)
    requires Apply(s, e) == t && Apply(t, f) == u && Apply(u, g) == v && Apply(v, h) == w
    ensures Exec(s, [e, f, g, h]) == w
  {
    Two(s, e, t, f, u);
    Two(u, g, v, h, w);
    ExecAppend(s, [e, f], [g, h]);
    assert [e, f, g, h] == [e, f] + [g, h];
  }

  /** A project's first token, and two rotations that have both read it. */
  function TwoRotations(p: Project, a: Digest): Sys {
    Sys(0, map[p := Row(a, false)], map[], map[0 := Finished, 1 := Upsert(p, Some(a)), 2 := Upsert(p, Some(a))], {a})
  }

  function Creation(p: Project, a: Digest): seq<Event> {
    [Arrive(0, CreateRead(p)), Run(0, a), Run(0, a), Arrive(1, RotateRead(p))]
  }

  function Reading(p: Project, a: Digest): seq<Event> {
    [Arrive(2, RotateRead(p)), Run(1, a), Run(2, a), Tick(0)]
  }

  lemma AfterCreation(p: Project, a: Digest)
    requires p != Aspectus
    ensures Exec(Init(0), Creation(p, a))
         == Sys(0, map[p := Row(a, false)], map[], map[0 := Finished, 1 := RotateRead(p)], {a})
  {
    var s1, s2 := At(Init(0), 0, CreateRead(p)), At(Init(0), 0, Upsert(p, None));
    var s3 := Sys(0, map[p := Row(a, false)], map[], map[0 := Finished], {a});
    assert Apply(s1, Run(0, a)).reqs == s2.reqs;
    assert Apply(s2, Run(0, a)).reqs == s3.reqs && Apply(s2, Run(0, a)).issued == s3.issued;
    Four(Init(0), Arrive(0, CreateRead(p)), s1, Run(0, a), s2, Run(0, a), s3, Arrive(1, RotateRead(p)),
         At(s3, 1, RotateRead(p)));
  }

  lemma AfterReading(p: Project, a: Digest)
    requires p != Aspectus
    ensures Exec(Sys(0, map[p := Row(a, false)], map[], map[0 := Finished, 1 := RotateRead(p)], {a}), Reading(p, a))
         == TwoRotations(p, a)
  {
    var s := Sys(0, map[p := Row(a, false)], map[], map[0 := Finished, 1 := RotateRead(p)], {a});
    var s1 := At(s, 2, RotateRead(p));
    var s2 := s.(reqs := map[0 := Finished, 1 := Upsert(p, Some(a)), 2 := RotateRead(p)]);
    assert Apply(s1, Run(1, a)).reqs == s2.reqs;
    assert Apply(s2, Run(2, a)).reqs == TwoRotations(p, a).reqs;
    Four(s, Arrive(2, RotateRead(p)), s1, Run(1, a), s2, Run(2, a), TwoRotations(p, a), Tick(0), TwoRotations(p, a));
  }

  /** Rotation 1 draws b and a verify of b starts; the verify runs; rotation 2 draws c; both delete the entry of a. */
  function FirstWrite(b: Digest): seq<Event> {
    [Run(1, b), Arrive(3, CacheGet(b))]
  }

  function Verification(b: Digest): seq<Event> {
    [Run(3, b), Run(3, b), Run(3, b), Tick(0)]
  }

  function SecondWrite(c: Digest): seq<Event> {
    [Run(2, c), Tick(0)]
  }

  function Deletions(c: Digest): seq<Event> {
    [Run(1, c), Run(2, c)]
  }

  function Between(p: Project, a: Digest, b: Digest, pc: Pc, cache: Store<Digest, string>): Sys {
    Sys(0, map[p := Row(b, false)], cache, map[0 := Finished, 1 := CacheDel(a), 2 := Upsert(p, Some(a)), 3 := pc], {a, b})
  }

  function Written(p: Project, b: Digest, issued: set<Digest>, c: Digest, one: Pc, two: Pc): Sys {
    Sys(0, map[p := Row(c, false)], map[b := Entry(Display(p), 60_000)],
        map[0 := Finished, 1 := one, 2 := two, 3 := Answered(b, Some(p))], issued)
  }

  lemma AfterFirstWrite(p: Project, a: Digest, b: Digest)
    requires a != b
    ensures Exec(TwoRotations(p, a), FirstWrite(b)) == Between(p, a, b, CacheGet(b), map[])
  {
    var s, t := TwoRotations(p, a), Between(p, a, b, CacheGet(b), map[]);
    var s1 := t.(reqs := map[0 := Finished, 1 := CacheDel(a), 2 := Upsert(p, Some(a))]);
    assert Apply(s, Run(1, b)).reqs == s1.reqs && Apply(s, Run(1, b)).rows == s1.rows;
    assert Apply(s1, Arrive(3, CacheGet(b))).reqs == t.reqs;
    Two(s, Run(1, b), s1, Arrive(3, CacheGet(b)), t);
  }

  lemma FoundFirst(rows: Rows, p: Project, h: Digest)
    requires rows == map[p := Row(h, false)]
    ensures FindByHash(rows, h) == Some(p)
  {
    FindByHashIff(World(ServiceTokens.State(0, rows, map[]), {h}), h, p);
  }

  lemma AfterVerification(p: Project, a: Digest, b: Digest)
    ensures Exec(Between(p, a, b, CacheGet(b), map[]), Verification(b))
         == Between(p, a, b, Answered(b, Some(p)), map[b := Entry(Display(p), 60_000)])
  {
    var s, s1 := Between(p, a, b, CacheGet(b), map[]), Between(p, a, b, RowSelect(b), map[]);
    var s2 := Between(p, a, b, CacheSet(b, p), map[]);
    var s3 := Between(p, a, b, Answered(b, Some(p)), map[b := Entry(Display(p), 60_000)]);
    FoundFirst(s.rows, p, b);
    assert Apply(s, Run(3, b)).reqs == s1.reqs;
    assert Apply(s1, Run(3, b)).reqs == s2.reqs;
    assert Apply(s2, Run(3, b)).reqs == s3.reqs && Apply(s2, Run(3, b)).cache == s3.cache;
    Four(s, Run(3, b), s1, Run(3, b), s2, Run(3, b), s3, Tick(0), s3);
  }

  lemma AfterSecondWrite(p: Project, a: Digest, b: Digest, c: Digest)
    requires a != b && a != c && b != c
    ensures Exec(Between(p, a, b, Answered(b, Some(p)), map[b := Entry(Display(p), 60_000)]), SecondWrite(c))
         == Written(p, b, {a, b} + {c}, c, CacheDel(a), CacheDel(a))
  {
    var s := Between(p, a, b, Answered(b, Some(p)), map[b := Entry(Display(p), 60_000)]);
    var s1 := Written(p, b, {a, b} + {c}, c, CacheDel(a), CacheDel(a));
    assert Apply(s, Run(2, c)).reqs == s1.reqs && Apply(s, Run(2, c)).rows == s1.rows;
    Two(s, Run(2, c), s1, Tick(0), s1);
  }

  lemma AfterDeletions(p: Project, a: Digest, b: Digest, c: Digest, issued: set<Digest>)
    requires a != b
    ensures Exec(Written(p, b, issued, c, CacheDel(a), CacheDel(a)), Deletions(c)) == Written(p, b, issued, c, Finished, Finished)
  {
    var s, s1 := Written(p, b, issued, c, CacheDel(a), CacheDel(a)), Written(p, b, issued, c, Finished, CacheDel(a));
    var s2 := Written(p, b, issued, c, Finished, Finished);
    assert Apply(s, Run(1, c)).reqs == s1.reqs && Apply(s, Run(1, c)).cache == s1.cache;
    assert Apply(s1, Run(2, c)).reqs == s2.reqs && Apply(s1, Run(2, c)).cache == s2.cache;
    Two(s, Run(1, c), s1, Run(2, c), s2);
  }

  function Interleaving(p: Project, a: Digest, b: Digest, c: Digest): seq<Event> {
    Creation(p, a) + (Reading(p, a) + (FirstWrite(b) + (Verification(b) + (SecondWrite(c) + Deletions(c)))))
  }

  lemma InterleavingLingers(p: Project, a: Digest, b: Digest, c: Digest)
    requires p != Aspectus && a != b && a != c && b != c
    ensures Exec(Init(0), Interleaving(p, a, b, c)) == Written(p, b, {a, b} + {c}, c, Finished, Finished)
  {
    AfterCreation(p, a);
    AfterReading(p, a);
    AfterFirstWrite(p, a, b);
    AfterVerification(p, a, b);
    AfterSecondWrite(p, a, b, c);
    AfterDeletions(p, a, b, c, {a, b} + {c});
    var ws := SecondWrite(c) + Deletions(c);
    var vs := Verification(b) + ws;
    ExecAppend(Init(0), Creation(p, a), Reading(p, a) + (FirstWrite(b) + vs));
    ExecAppend(Exec(Init(0), Creation(p, a)), Reading(p, a), FirstWrite(b) + vs);
    ExecAppend(TwoRotations(p, a), FirstWrite(b), vs);
    ExecAppend(Between(p, a, b, CacheGet(b), map[]), Verification(b), ws);
    ExecAppend(Exec(Between(p, a, b, CacheGet(b), map[]), Verification(b)), SecondWrite(c), Deletions(c));
  }

  /** Interleaved rotations do not coincide with atomic ones: when two read the same token, the one between is
    * replaced while neither deletes its entry. With every handler finished it still authenticates a new verify, up to
    * the end of the 60 s. */
  lemma MiddleTokenLingers(p: Project, a: Digest, b: Digest, c: Digest)
    requires p != Aspectus && a != b && a != c && b != c
    ensures var s := Exec(Init(0), Interleaving(p, a, b, c));
      && Settled(s, b) && (forall q :: q in s.reqs ==> s.reqs[q].Finished? || s.reqs[q].Answered?)
      && var t := Exec(Apply(s, Tick(60_000)), [Arrive(4, CacheGet(b)), Run(4, b)]);
         4 in t.reqs && t.reqs[4] == Answered(b, Some(p))
  {
    InterleavingLingers(p, a, b, c);
    var s := Written(p, b, {a, b} + {c}, c, Finished, Finished).(now := 60_000);
    ParseDisplay(Display(p), p);
    var s1 := At(s, 4, CacheGet(b));
    Two(s, Arrive(4, CacheGet(b)), s1, Run(4, b), Step(s1, 4, b));
  }

  // The handlers run alone

  /** Request q arrives and runs alone; three statements finish every request. */
  function Alone(s: Sys, q: nat, pc: Pc, drawn: Digest): Sys {
    Apply(Apply(Apply(Apply(s, Arrive(q, pc)), Run(q, drawn)), Run(q, drawn)), Run(q, drawn))
  }

  function Whole(s: Sys): State {
    State(s.now, s.rows, s.cache)
  }

  /** Without interference, the statements of an authentication are the authentication of ServiceTokens. */
  lemma VerifyIsRun(s: Sys, q: nat, hash: Digest, drawn: Digest)
    requires q !in s.reqs
    ensures var t := Alone(s, q, CacheGet(hash), drawn);
      Whole(t) == Verify(Whole(s), hash).0 && t.reqs == s.reqs[q := Answered(hash, Verify(Whole(s), hash).1)]
  {
  }

  /** ... and so for the three changes. */
  lemma ChangesAreRun(s: Sys, q: nat, p: Project, drawn: Digest)
    requires q !in s.reqs && p != Aspectus && drawn !in s.issued
    ensures var t := Alone(s, q, CreateRead(p), drawn);
      Whole(t) == Create(Whole(s), Display(p), drawn).0 && t.reqs == s.reqs[q := Finished]
    ensures var t := Alone(s, q, RotateRead(p), drawn);
      Whole(t) == Rotate(Whole(s), Display(p), drawn).0 && t.reqs == s.reqs[q := Finished]
    ensures var t := Alone(s, q, RevokeRead(p), drawn);
      Whole(t) == Revoke(Whole(s), Display(p)).0 && t.reqs == s.reqs[q := Finished]
  {
    ParseDisplay(Display(p), p);
    CreateIsRun(s, q, p, drawn);
    RotateIsRun(s, q, p, drawn);
    RevokeIsRun(s, q, p, drawn);
  }

  lemma CreateIsRun(s: Sys, q: nat, p: Project, drawn: Digest)
    requires q !in s.reqs && p != Aspectus && drawn !in s.issued && ParseProject(Display(p)) == Some(p)
    ensures var t := Alone(s, q, CreateRead(p), drawn);
      Whole(t) == Create(Whole(s), Display(p), drawn).0 && t.reqs == s.reqs[q := Finished]
  {
  }

  lemma RotateIsRun(s: Sys, q: nat, p: Project, drawn: Digest)
    requires q !in s.reqs && p != Aspectus && drawn !in s.issued && ParseProject(Display(p)) == Some(p)
    ensures var t := Alone(s, q, RotateRead(p), drawn);
      Whole(t) == Rotate(Whole(s), Display(p), drawn).0 && t.reqs == s.reqs[q := Finished]
  {
  }

  lemma RevokeIsRun(s: Sys, q: nat, p: Project, drawn: Digest)
    requires q !in s.reqs && p != Aspectus && ParseProject(Display(p)) == Some(p)
    ensures var t := Alone(s, q, RevokeRead(p), drawn);
      Whole(t) == Revoke(Whole(s), Display(p)).0 && t.reqs == s.reqs[q := Finished]
  {
  }
}
