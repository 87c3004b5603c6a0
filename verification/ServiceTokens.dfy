/** Service tokens: one row per project, a 60-second cache from token hash to project, and the
  * create / rotate / revoke lifecycle. */
module ServiceTokens {
  import opened Basics
  import opened Redis
  import opened Scopes

  const CACHE_TTL: nat := 60

  datatype Row = Row(hash: Digest, revoked: bool)

  type Rows = map<Project, Row>

  predicate Active(rows: Rows, p: Project, hash: Digest) {
    p in rows && !rows[p].revoked && rows[p].hash == hash
  }

  predicate HasActive(rows: Rows, p: Project) {
    p in rows && !rows[p].revoked
  }

  const ALL_PROJECTS: seq<Project> := [Pandaria, Emerald, Constell, Tokencamp, Heirloom, Aspectus]

  function FindIn(rows: Rows, hash: Digest, ps: seq<Project>): Option<Project> {
    if ps == [] then None else if Active(rows, ps[0], hash) then Some(ps[0]) else FindIn(rows, hash, ps[1..])
  }

  /** The project whose unrevoked row has this hash. */
  function FindByHash(rows: Rows, hash: Digest): Option<Project> {
    FindIn(rows, hash, ALL_PROJECTS)
  }

  datatype State = State(now: int, rows: Rows, cache: Store<Digest, string>)

  function Verify(s: State, hash: Digest): (State, Option<Project>) {
    match Get(s.cache, hash, s.now)
    case Some(name) => (s, ParseProject(name))
    case None =>
      match FindByHash(s.rows, hash)
      case Some(p) => (s.(cache := SetEx(s.cache, hash, Display(p), CACHE_TTL, s.now)), Some(p))
      case None => (s, None)
  }

  datatype Outcome = Done | Conflict | NotFound | Invalid

  /** `POST /service-tokens`: refused for unknown projects, the admin project and a live token. */
  function Create(s: State, project: string, hash: Digest): (State, Outcome) {
    match ParseProject(project)
    case None => (s, Invalid)
    case Some(p) =>
      if p == Aspectus then (s, Invalid)
      else if HasActive(s.rows, p) then (s, Conflict)
      else (s.(rows := s.rows[p := Row(hash, false)]), Done)
  }

  /** Replace the live token, then drop the cached entry of the old one. */
  function Rotate(s: State, project: string, hash: Digest): (State, Outcome) {
    match ParseProject(project)
    case None => (s, NotFound)
    case Some(p) =>
      if p == Aspectus then (s, Invalid)
      else if !HasActive(s.rows, p) then (s, NotFound)
      else (s.(rows := s.rows[p := Row(hash, false)], cache := Del(s.cache, s.rows[p].hash)), Done)
  }

  function Revoke(s: State, project: string): (State, Outcome) {
    match ParseProject(project)
    case None => (s, NotFound)
    case Some(p) =>
      if p == Aspectus then (s, Invalid)
      else if !HasActive(s.rows, p) then (s, NotFound)
      else (s.(rows := s.rows[p := s.rows[p].(revoked := true)], cache := Del(s.cache, s.rows[p].hash)), Done)
  }

  class ServiceTokenService {
    var rows: Rows
    const cache: Cache<Digest, string>

    constructor (cache: Cache<Digest, string>)
      ensures this.cache == cache && rows == map[]
    {
      this.cache := cache;
      rows := map[];
    }

    function Abstract(now: int): State
      reads this, cache
    {
      State(now, rows, cache.entries)
    }

    method Authenticate(hash: Digest, now: int) returns (p: Option<Project>)
      modifies cache
      ensures (Abstract(now), p) == Verify(old(Abstract(now)), hash)
    {
      var cached := cache.Read(hash, now);
      if cached.Some? {
        return ParseProject(cached.value);
      }
      p := FindByHash(rows, hash);
      if p.Some? {
        cache.Write(hash, Display(p.value), CACHE_TTL, now);
      }
    }

    method CreateToken(project: string, hash: Digest, now: int) returns (o: Outcome)
      modifies this, cache
      ensures (Abstract(now), o) == Create(old(Abstract(now)), project, hash)
    {
      var p := ParseProject(project);
      if p.None? || p.value == Aspectus {
        return Invalid;
      }
      if p.value in rows && !rows[p.value].revoked {
        return Conflict;
      }
      rows := rows[p.value := Row(hash, false)];
      return Done;
    }

    method RotateToken(project: string, hash: Digest, now: int) returns (o: Outcome)
      modifies this, cache
      ensures (Abstract(now), o) == Rotate(old(Abstract(now)), project, hash)
    {
      var p := ParseProject(project);
      if p.None? {
        return NotFound;
      }
      if p.value == Aspectus {
        return Invalid;
      }
      if p.value !in rows || rows[p.value].revoked {
        return NotFound;
      }
      var existing := rows[p.value];
      rows := rows[p.value := Row(hash, false)];
      cache.Delete(existing.hash);
      return Done;
    }

    method RevokeToken(project: string, now: int) returns (o: Outcome)
      modifies this, cache
      ensures (Abstract(now), o) == Revoke(old(Abstract(now)), project)
    {
      var p := ParseProject(project);
      if p.None? {
        return NotFound;
      }
      if p.value == Aspectus {
        return Invalid;
      }
      if p.value !in rows || rows[p.value].revoked {
        return NotFound;
      }
      var existing := rows[p.value];
      rows := rows[p.value := existing.(revoked := true)];
      cache.Delete(existing.hash);
      return Done;
    }
  }

  datatype Event = Pass(ms: nat) | CreateFor(project: string, hash: Digest) | RotateFor(project: string, hash: Digest)
                 | RevokeFor(project: string) | Authenticate(hash: Digest) | Evict(hash: Digest)

  /** A run remembers every hash ever drawn; tokens are 32 fresh random bytes. */
  datatype World = World(s: State, issued: set<Digest>)

  function Apply(w: World, e: Event): World {
    match e
    case Pass(ms) => w.(s := w.s.(now := w.s.now + ms))
    case CreateFor(project, h) => if h in w.issued then w else World(Create(w.s, project, h).0, w.issued + {h})
    case RotateFor(project, h) => if h in w.issued then w else World(Rotate(w.s, project, h).0, w.issued + {h})
    case RevokeFor(project) => w.(s := Revoke(w.s, project).0)
    case Authenticate(h) => w.(s := Verify(w.s, h).0)
    case Evict(h) => w.(s := w.s.(cache := Del(w.s.cache, h)))
  }

  function Exec(w: World, es: seq<Event>): World
    decreases |es|
  {
    if es == [] then w else Exec(Apply(w, es[0]), es[1..])
  }

  ghost predicate RowsOk(rows: Rows, issued: set<Digest>) {
    && (forall p :: p in rows ==> rows[p].hash in issued)
    && (forall p, q :: p in rows && q in rows && rows[p].hash == rows[q].hash ==> p == q)
  }

  ghost predicate EntriesOk(rows: Rows, cache: Store<Digest, string>) {
    forall h :: h in cache ==> exists p :: cache[h].value == Display(p) && Active(rows, p, h)
  }

  ghost predicate Coherent(w: World) {
    RowsOk(w.s.rows, w.issued) && EntriesOk(w.s.rows, w.s.cache)
  }

  lemma {:induction false} FindInIff(rows: Rows, hash: Digest, ps: seq<Project>)
    ensures FindIn(rows, hash, ps).None? ==> forall p :: p in ps ==> !Active(rows, p, hash)
    ensures FindIn(rows, hash, ps).Some? ==> Active(rows, FindIn(rows, hash, ps).value, hash)
  {
    if ps != [] {
      FindInIff(rows, hash, ps[1..]);
    }
  }

  /** With one hash per row, the lookup finds exactly the project whose live token this is. */
  lemma FindByHashIff(w: World, hash: Digest, p: Project)
    requires Coherent(w)
    ensures FindByHash(w.s.rows, hash) == Some(p) <==> Active(w.s.rows, p, hash)
  {
    FindInIff(w.s.rows, hash, ALL_PROJECTS);
    assert p in ALL_PROJECTS by {
      assert ALL_PROJECTS[0] == Pandaria && ALL_PROJECTS[1] == Emerald && ALL_PROJECTS[2] == Constell;
      assert ALL_PROJECTS[3] == Tokencamp && ALL_PROJECTS[4] == Heirloom && ALL_PROJECTS[5] == Aspectus;
    }
  }

  /** A token authenticates as a project exactly when the project's row has this hash and is not revoked. */
  lemma VerifyIff(w: World, hash: Digest, p: Project)
    requires Coherent(w)
    ensures Verify(w.s, hash).1 == Some(p) <==> p in w.s.rows && !w.s.rows[p].revoked && w.s.rows[p].hash == hash
  {
    if hash in w.s.cache && w.s.now <= w.s.cache[hash].deadline {
      HitIff(w, hash, p);
    } else {
      FindByHashIff(w, hash, p);
    }
  }

  lemma HitIff(w: World, hash: Digest, p: Project)
    requires Coherent(w) && hash in w.s.cache
    ensures ParseProject(w.s.cache[hash].value) == Some(p) <==> Active(w.s.rows, p, hash)
  {
    var q :| w.s.cache[hash].value == Display(q) && Active(w.s.rows, q, hash);
    ParseDisplay(Display(q), q);
  }

  lemma RowChangeKeeps(w: World, w': World, p: Project, row: Row, dropped: Option<Digest>)
    requires Coherent(w) && w'.s.rows == w.s.rows[p := row] && w.issued <= w'.issued
    requires row.hash in w'.issued && (row.hash !in w.issued || (p in w.s.rows && row.hash == w.s.rows[p].hash))
    requires HasActive(w.s.rows, p) ==> dropped == Some(w.s.rows[p].hash)
    requires w'.s.cache == if dropped.Some? then Del(w.s.cache, dropped.value) else w.s.cache
    ensures Coherent(w')
  {
    EntriesStayOk(w.s.rows, w.s.cache, w'.s.cache, p, row);
  }

  lemma EntriesStayOk(rows: Rows, cache: Store<Digest, string>, left: Store<Digest, string>, p: Project, row: Row)
    requires EntriesOk(rows, cache)
    requires forall h :: h in left ==> h in cache && left[h] == cache[h] && !Active(rows, p, h)
    ensures EntriesOk(rows[p := row], left)
  {
    forall h | h in left ensures exists q :: left[h].value == Display(q) && Active(rows[p := row], q, h) {
      var q :| cache[h].value == Display(q) && Active(rows, q, h);
      assert Active(rows[p := row], q, h);
    }
  }

  lemma EventKeeps(w: World, e: Event)
    requires Coherent(w)
    ensures Coherent(Apply(w, e)) && w.issued <= Apply(w, e).issued
  {
    var w' := Apply(w, e);
    match e
    case CreateFor(project, h) =>
      if h !in w.issued && Create(w.s, project, h).1.Done? {
        RowChangeKeeps(w, w', ParseProject(project).value, Row(h, false), None);
      }
    case RotateFor(project, h) =>
      if h !in w.issued && Rotate(w.s, project, h).1.Done? {
        var p := ParseProject(project).value;
        RowChangeKeeps(w, w', p, Row(h, false), Some(w.s.rows[p].hash));
      }
    case RevokeFor(project) =>
      if Revoke(w.s, project).1.Done? {
        var p := ParseProject(project).value;
        RowChangeKeeps(w, w', p, w.s.rows[p].(revoked := true), Some(w.s.rows[p].hash));
      }
    case Authenticate(h) =>
      var found := FindByHash(w.s.rows, h);
      if found.Some? {
        FindByHashIff(w, h, found.value);
      }
    case _ =>
  }

  /** One answer: the cache is invisible. */
  lemma VerifyIsPlain(w: World, hash: Digest)
    requires Coherent(w)
    ensures Verify(w.s, hash).1 == FindByHash(w.s.rows, hash)
  {
    forall p ensures FindByHash(w.s.rows, hash) == Some(p) <==> Active(w.s.rows, p, hash) {
      FindByHashIff(w, hash, p);
    }
    VerifyDetermined(w, hash, FindByHash(w.s.rows, hash));
  }

  /** The answers a run gives, in order, with the cache and without it. */
  function Answers(w: World, es: seq<Event>): seq<Option<Project>>
    decreases |es|
  {
    if es == [] then []
    else (if es[0].Authenticate? then [Verify(w.s, es[0].hash).1] else []) + Answers(Apply(w, es[0]), es[1..])
  }

  /** A service that never caches: every answer is a lookup. */
  function PlainAnswers(rows: Rows, issued: set<Digest>, es: seq<Event>): seq<Option<Project>>
    decreases |es|
  {
    if es == [] then [] else
    var s := State(0, rows, map[]);
    match es[0]
    case CreateFor(project, h) =>
      PlainAnswers(if h in issued then rows else Create(s, project, h).0.rows, issued + {h}, es[1..])
    case RotateFor(project, h) =>
      PlainAnswers(if h in issued then rows else Rotate(s, project, h).0.rows, issued + {h}, es[1..])
    case RevokeFor(project) => PlainAnswers(Revoke(s, project).0.rows, issued, es[1..])
    case Authenticate(h) => [FindByHash(rows, h)] + PlainAnswers(rows, issued, es[1..])
    case _ => PlainAnswers(rows, issued, es[1..])
  }

  lemma PlainStep(w: World, es: seq<Event>)
    requires es != []
    ensures var w' := Apply(w, es[0]);
      PlainAnswers(w.s.rows, w.issued, es)
        == (if es[0].Authenticate? then [FindByHash(w.s.rows, es[0].hash)] else [])
           + PlainAnswers(w'.s.rows, w'.issued, es[1..])
  {
    if (es[0].CreateFor? || es[0].RotateFor?) && es[0].hash in w.issued {
      assert w.issued + {es[0].hash} == w.issued;
    }
  }

  /** Refinement: over every run of the lifecycle, authentication, time and eviction, the cached service
    * authenticates exactly as one that always looks the token up. */
  lemma {:induction false} CacheIsInvisible(w: World, es: seq<Event>)
    requires Coherent(w)
    ensures Answers(w, es) == PlainAnswers(w.s.rows, w.issued, es)
    decreases |es|
  {
    if es != [] {
      EventKeeps(w, es[0]);
      if es[0].Authenticate? {
        VerifyIsPlain(w, es[0].hash);
      }
      PlainStep(w, es);
      CacheIsInvisible(Apply(w, es[0]), es[1..]);
    }
  }

  /** At any moment a project has at most one token that authenticates. */
  lemma OneLiveToken(w: World, g: Digest, h: Digest, p: Project)
    requires Coherent(w) && Verify(w.s, g).1 == Some(p) && Verify(w.s, h).1 == Some(p)
    ensures g == h
  {
    VerifyIff(w, g, p);
    VerifyIff(w, h, p);
  }

  /** Drawn once and no longer the live token of any project. */
  ghost predicate Retired(w: World, h: Digest) {
    h in w.issued && forall p :: !Active(w.s.rows, p, h)
  }

  lemma RetiredKept(w: World, e: Event, h: Digest)
    requires Coherent(w) && Retired(w, h)
    ensures Retired(Apply(w, e), h)
  {
    forall p ensures !Active(Apply(w, e).s.rows, p, h) {
      assert !Active(w.s.rows, p, h);
    }
  }

  lemma {:induction false} StaysRetired(w: World, es: seq<Event>, h: Digest)
    requires Coherent(w) && Retired(w, h)
    ensures Coherent(Exec(w, es)) && Retired(Exec(w, es), h)
    decreases |es|
  {
    if es != [] {
      EventKeeps(w, es[0]);
      RetiredKept(w, es[0], h);
      StaysRetired(Apply(w, es[0]), es[1..], h);
    }
  }

  /** A token that was rotated away or revoked never authenticates again, in any later run. */
  lemma ReplacedTokenIsDead(w: World, e: Event, p: Project, later: seq<Event>)
    requires Coherent(w) && HasActive(w.s.rows, p)
    requires e == RevokeFor(Display(p)) || (e.RotateFor? && e.project == Display(p) && e.hash !in w.issued)
    requires p != Aspectus
    ensures Verify(Exec(Apply(w, e), later).s, w.s.rows[p].hash).1 == None
  {
    var replaced := w.s.rows[p].hash;
    var w' := Apply(w, e);
    ParseDisplay(Display(p), p);
    EventKeeps(w, e);
    assert Retired(w', replaced);
    StaysRetired(w', later, replaced);
    RetiredIsDead(Exec(w', later), replaced);
  }

  lemma RetiredIsDead(w: World, h: Digest)
    requires Coherent(w) && Retired(w, h)
    ensures Verify(w.s, h).1 == None
  {
    if Verify(w.s, h).1.Some? {
      var p := Verify(w.s, h).1.value;
      VerifyIff(w, h, p);
      assert Active(w.s.rows, p, h);
    }
  }

  /** Who a presented token authenticates as, in a coherent state. */
  lemma VerifyDetermined(w: World, hash: Digest, answer: Option<Project>)
    requires Coherent(w)
    requires forall p :: answer == Some(p) <==> Active(w.s.rows, p, hash)
    ensures Verify(w.s, hash).1 == answer
  {
    if Verify(w.s, hash).1.Some? {
      VerifyIff(w, hash, Verify(w.s, hash).1.value);
    }
    if answer.Some? {
      VerifyIff(w, hash, answer.value);
    }
  }

  /** The project of this name has a token that is not revoked. */
  ghost predicate Live(rows: Rows, project: string) {
    exists p :: p in rows && !rows[p].revoked && p in NAMES && NAMES[p] == project
  }

  /** The outcomes on the rows: tokens of the admin project and of unknown ones are refused; create conflicts exactly
    * with a live token, and rotate and revoke succeed exactly for one. A refused change changes nothing. */
  lemma OutcomesIff(s: State, project: string, hash: Digest)
    ensures var known := project in NAMES.Values && project != "aspectus";
      var live := Live(s.rows, project);
      && Create(s, project, hash).1 == (if !known then Invalid else if live then Conflict else Done)
      && Rotate(s, project, hash).1 == (if project == "aspectus" then Invalid else if live then Done else NotFound)
      && Revoke(s, project).1 == (if project == "aspectus" then Invalid else if live then Done else NotFound)
      && (Create(s, project, hash).1 != Done ==> Create(s, project, hash).0 == s)
      && (Rotate(s, project, hash).1 != Done ==> Rotate(s, project, hash).0 == s)
      && (Revoke(s, project).1 != Done ==> Revoke(s, project).0 == s)
  {
    ProjectNames(project);
    forall p: Project ensures p in NAMES && (ParseProject(project) == Some(p) <==> project == NAMES[p]) {
      ParseDisplay(project, p);
    }
  }

  /** What a successful change writes: create and rotate the drawn hash, revoke the mark; rotate and revoke drop the
    * entry of the hash that was live. */
  lemma ChangesWrite(s: State, p: Project, hash: Digest)
    ensures p in NAMES
    ensures var name := NAMES[p];
      && (Create(s, name, hash).1 == Done ==> Create(s, name, hash).0 == s.(rows := s.rows[p := Row(hash, false)]))
      && (Rotate(s, name, hash).1 == Done ==>
            p in s.rows && Rotate(s, name, hash).0 == s.(rows := s.rows[p := Row(hash, false)], cache := s.cache - {s.rows[p].hash}))
      && (Revoke(s, name).1 == Done ==>
            p in s.rows && Revoke(s, name).0 == s.(rows := s.rows[p := Row(s.rows[p].hash, true)], cache := s.cache - {s.rows[p].hash}))
  {
    ParseDisplay(NAMES[p], p);
  }

  /** An authentication serves a live entry; otherwise it stores the project it found, for 60 seconds, and nothing when
    * it found none. */
  lemma VerifyEffect(s: State, hash: Digest)
    ensures var (s', found) := Verify(s, hash);
      var hit := hash in s.cache && s.now <= s.cache[hash].deadline;
      && s'.rows == s.rows && s'.now == s.now
      && (hit || found.None? ==> s' == s)
      && (!hit && found.Some? ==> found.value in NAMES && s'.cache == s.cache[hash := Entry(NAMES[found.value], s.now + 60_000)])
  {
    if Verify(s, hash).1.Some? {
      ParseDisplay("", Verify(s, hash).1.value);
    }
  }

  /** The effect of a successful change on every token at once: the new token authenticates as the project, its
    * previous token as nobody, and all others as before. */
  lemma AuthenticationChanges(w: World, e: Event, p: Project, g: Digest)
    requires Coherent(w) && p != Aspectus
    requires || (e.CreateFor? && e.project == Display(p) && e.hash !in w.issued && !HasActive(w.s.rows, p))
             || (e.RotateFor? && e.project == Display(p) && e.hash !in w.issued && HasActive(w.s.rows, p))
             || (e == RevokeFor(Display(p)) && HasActive(w.s.rows, p))
    ensures Verify(Apply(w, e).s, g).1 ==
      if !e.RevokeFor? && g == e.hash then Some(p)
      else if Verify(w.s, g).1 == Some(p) then None
      else Verify(w.s, g).1
  {
    var w' := Apply(w, e);
    ParseDisplay(Display(p), p);
    EventKeeps(w, e);
    var row := if e.RevokeFor? then w.s.rows[p].(revoked := true) else Row(e.hash, false);
    assert w'.s.rows == w.s.rows[p := row];
    var before := Verify(w.s, g).1;
    var answer := if !e.RevokeFor? && g == e.hash then Some(p) else if before == Some(p) then None else before;
    forall q ensures answer == Some(q) <==> Active(w'.s.rows, q, g) {
      VerifyIff(w, g, q);
    }
    VerifyDetermined(w', g, answer);
  }

  /** The life of a token, from the empty service on: it authenticates from its creation; the first authentication is
    * cached for 60 seconds; when the entry has gone, the row still answers. */
  lemma TokenLife(now: int, p: Project, h: Digest, ms: nat)
    requires p != Aspectus
    ensures var created := Apply(World(State(now, map[], map[]), {}), CreateFor(Display(p), h));
      var later := Apply(Apply(created, Authenticate(h)), Pass(ms));
      var evicted := Apply(later, Evict(h));
      && Verify(created.s, h).1 == Some(p)
      && (Get(later.s.cache, h, later.s.now) == Some(Display(p)) <==> ms <= 60_000)
      && h !in evicted.s.cache && Verify(evicted.s, h).1 == Some(p)
  {
    ParseDisplay(Display(p), p);
    var created := Apply(World(State(now, map[], map[]), {}), CreateFor(Display(p), h));
    FindByHashIff(created, h, p);
    assert Apply(created, Authenticate(h)).s.cache[h] == Entry(Display(p), now + 60_000);
  }

  lemma {:induction false} ExecAppend(w: World, es: seq<Event>, e: Event)
    ensures Exec(w, es + [e]) == Apply(Exec(w, es), e)
    decreases |es|
  {
    if es == [] {
      assert es + [e] == [e] && [e][1..] == [];
    } else {
      assert (es + [e])[1..] == es[1..] + [e];
      ExecAppend(Apply(w, es[0]), es[1..], e);
    }
  }
}
