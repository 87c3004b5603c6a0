/** Scope expansion when handlers interleave statement by statement: how long a changed role set can still be
  * expanded from the cache. */
module ScopeStaleness {
  import opened Basics
  import opened Redis
  import opened Roles
  import opened Text
  import ScopeCache

  /** The statement a request is about to run. The role handlers write rows and then delete entries; creating a role
    * deletes none. Looking a scope up, creating it and linking it count as one statement. */
  datatype Pc =
    | ExpandGet(user: string)
    | ExpandSelect(user: string)
    | ExpandSet(user: string, value: string)
    | Expanded(user: string, value: string)
    | AssignRow(user: string, role: string)
    | RemoveRow(user: string, role: string)
    | CreateRow(name: string, description: Option<string>, kind: string, names: seq<string>)
    | UpdateRow(role: string, description: Option<string>, kind: string, names: seq<string>)
    | ClearPairs(role: string, names: seq<string>)
    | InsertScope(role: string, names: seq<string>, updating: bool)
    | ListHolders(role: string)
    | Invalidate(users: set<string>)
    | DeleteRow(role: string)
    | UserRow(user: string, registering: bool)
    | DefaultRoles(user: string, registering: bool)
    | GrantRoles(user: string, roles: set<string>, registering: bool)
    | Finished

  datatype Sys = Sys(now: int, t: Tables, cache: Store<string, string>, reqs: map<nat, Pc>)

  function Init(now: int, t: Tables): Sys {
    Sys(now, t, map[], map[])
  }

  predicate IsStart(pc: Pc) {
    || pc.ExpandGet? || pc.AssignRow? || pc.RemoveRow? || pc.CreateRow? || pc.UpdateRow? || pc.DeleteRow? || pc.UserRow?
  }

  function At(s: Sys, q: nat, pc: Pc): Sys {
    s.(reqs := s.reqs[q := pc])
  }

  ghost function StepExpand(s: Sys, q: nat): Sys
    requires q in s.reqs
  {
    match s.reqs[q]
    case ExpandGet(user) =>
      (match Get(s.cache, user, s.now)
       case Some(v) => At(s, q, Expanded(user, v))
       case None => At(s, q, ExpandSelect(user)))
    case ExpandSelect(user) => At(s, q, ExpandSet(user, ScopeCache.Expansion(s.t, user)))
    case ExpandSet(user, v) => At(s.(cache := SetEx(s.cache, user, v, ScopeCache.CACHE_TTL, s.now)), q, Expanded(user, v))
    case _ => s
  }

  /** What a statement of a role handler makes of the tables, and where the handler goes on. `choice` is the id it
    * draws, the row a query happens to return, or the element a loop takes next. */
  ghost function StepTables(t: Tables, pc: Pc, choice: string): (Tables, Pc) {
    match pc
    case AssignRow(user, role) =>
      var (t', o) := AssignRole(t, user, role);
      (t', if o.Done? then Invalidate({user}) else Finished)
    case RemoveRow(user, role) =>
      var (t', o) := RemoveRole(t, user, role);
      (t', if o.Done? then Invalidate({user}) else Finished)
    case CreateRow(name, description, kind, names) =>
      if choice in t.roles then (t, pc)
      else if !ValidRoleName(name) || !ValidRoleScopes(names) || ParseType(kind).None? || NameInUse(t.roles, name)
      then (t, Finished)
      else (t.(roles := t.roles[choice := Role(name, description, ParseType(kind).value, false, false)]),
            InsertScope(choice, names, false))
    case UpdateRow(role, description, kind, names) =>
      if !ValidRoleScopes(names) || ParseType(kind).None? || role !in t.roles || t.roles[role].isSystem then (t, Finished)
      else (t.(roles := t.roles[role := t.roles[role].(description := description, kind := ParseType(kind).value)]),
            ClearPairs(role, names))
    case ClearPairs(role, names) =>
      (t.(rolesScopes := WithoutRole(t.rolesScopes, role)), InsertScope(role, names, true))
    case InsertScope(role, names, updating) =>
      if names == [] then (t, if updating then ListHolders(role) else Finished)
      else if role !in t.roles then (t, Finished)
      else if choice in t.scopes then (t, pc)
      else (AddScope(t, role, names[0], choice), InsertScope(role, names[1..], updating))
    case ListHolders(role) => (t, Invalidate(Holders(t.usersRoles, role)))
    case DeleteRow(role) => (DeleteRole(t, role).0, Finished)
    case UserRow(user, registering) =>
      if user in t.users then (t, Finished) else (t.(users := t.users + {user}), DefaultRoles(user, registering))
    case DefaultRoles(user, registering) =>
      if registering then (t, if IsDefaultRole(t.roles, choice) then GrantRoles(user, {choice}, true) else Finished)
      else (t, GrantRoles(user, set r | r in t.roles && IsDefaultRole(t.roles, r), false))
    case GrantRoles(user, roles, registering) =>
      if roles == {} then (t, if registering then Invalidate({user}) else Finished)
      else if choice !in roles then (t, pc)
      else (if choice in t.roles then t.(usersRoles := t.usersRoles + {(user, choice)}) else t,
            GrantRoles(user, roles - {choice}, registering))
    case _ => (t, pc)
  }

  predicate Expanding(pc: Pc) {
    pc.ExpandGet? || pc.ExpandSelect? || pc.ExpandSet? || pc.Expanded?
  }

  ghost function Step(s: Sys, q: nat, choice: string): Sys
    requires q in s.reqs
  {
    var pc := s.reqs[q];
    if Expanding(pc) then StepExpand(s, q)
    else if pc.Invalidate? then
      if pc.users == {} then At(s, q, Finished)
      else if choice in pc.users then At(s.(cache := Del(s.cache, choice)), q, Invalidate(pc.users - {choice}))
      else s
    else
      var (t', pc') := StepTables(s.t, pc, choice);
      At(s.(t := t'), q, pc')
  }

  datatype Event = Tick(ms: nat) | Arrive(q: nat, pc: Pc) | Run(q: nat, choice: string) | Abort(q: nat) | Drop(user: string)

  /** A handler may stop anywhere, as it does on a database error; an entry may be evicted at any time. */
  ghost function Apply(s: Sys, e: Event): Sys {
    match e
    case Tick(ms) => s.(now := s.now + ms)
    case Arrive(q, pc) => if q !in s.reqs && IsStart(pc) then At(s, q, pc) else s
    case Run(q, choice) => if q in s.reqs then Step(s, q, choice) else s
    case Abort(q) => if q in s.reqs && !s.reqs[q].Expanded? then At(s, q, Finished) else s
    case Drop(user) => s.(cache := Del(s.cache, user))
  }

  ghost function Exec(s: Sys, es: seq<Event>): Sys
    decreases |es|
  {
    if es == [] then s else Exec(Apply(s, es[0]), es[1..])
  }

  lemma {:induction false} ExecAppend(s: Sys, es: seq<Event>, fs: seq<Event>)
    ensures Exec(s, es + fs) == Exec(Exec(s, es), fs)
    decreases |es|
  {
    if es == [] {
      assert es + fs == fs;
    } else {
      assert (es + fs)[1..] == es[1..] + fs;
      ExecAppend(Apply(s, es[0]), es[1..], fs);
    }
  }

  /** The user's scopes stay what they are along the run, whoever else's change. */
  ghost predicate Steady(s: Sys, es: seq<Event>, user: string)
    decreases |es|
  {
    es == [] || (ScopeCache.Expansion(Apply(s, es[0]).t, user) == ScopeCache.Expansion(s.t, user) && Steady(Apply(s, es[0]), es[1..], user))
  }

  /** Entries live at most 60 seconds from the moment they are stored. */
  ghost predicate TtlsBounded(s: Sys) {
    forall u :: u in s.cache ==> s.cache[u].deadline <= s.now + 60_000
  }

  lemma EventTtls(s: Sys, e: Event)
    requires TtlsBounded(s)
    ensures TtlsBounded(Apply(s, e))
  {
  }

  lemma {:induction false} RunTtls(s: Sys, es: seq<Event>)
    requires TtlsBounded(s)
    ensures TtlsBounded(Exec(s, es))
    decreases |es|
  {
    if es != [] {
      EventTtls(s, es[0]);
      RunTtls(Apply(s, es[0]), es[1..]);
    }
  }

  /** An expansion about to store something other than v for the user. */
  predicate StoresOther(pc: Pc, user: string, v: string) {
    pc.ExpandSet? && pc.user == user && pc.value != v
  }

  /** v is the user's expansion, nothing else is about to be stored, and what else is cached runs out by `last`. */
  ghost predicate RunningOut(s: Sys, user: string, v: string, last: int) {
    && ScopeCache.Expansion(s.t, user) == v
    && (forall r :: r in s.reqs ==> !StoresOther(s.reqs[r], user, v))
    && (user in s.cache ==> s.cache[user].value == v || s.cache[user].deadline <= last)
  }

  /** A statement of a role handler: it expands nothing and stores nothing. */
  ghost predicate Writes(s: Sys, t: Sys, q: nat) {
    && t.now == s.now
    && (t.reqs == s.reqs || (q in t.reqs && t.reqs == s.reqs[q := t.reqs[q]] && !Expanding(t.reqs[q])))
    && (forall u :: u in t.cache ==> u in s.cache && t.cache[u] == s.cache[u])
  }

  lemma TablesDoNotExpand(t: Tables, pc: Pc, choice: string)
    requires !Expanding(pc)
    ensures !Expanding(StepTables(t, pc, choice).1)
  {
  }

  lemma HandlerWrites(s: Sys, q: nat, choice: string)
    requires q in s.reqs && !Expanding(s.reqs[q])
    ensures Writes(s, Step(s, q, choice), q)
  {
    TablesDoNotExpand(s.t, s.reqs[q], choice);
  }

  lemma WritesKeepRunningOut(s: Sys, t: Sys, q: nat, user: string, v: string, last: int)
    requires RunningOut(s, user, v, last) && Writes(s, t, q) && ScopeCache.Expansion(t.t, user) == v
    ensures RunningOut(t, user, v, last)
  {
  }

  lemma ExpandKeepsRunningOut(s: Sys, q: nat, user: string, v: string, last: int)
    requires RunningOut(s, user, v, last) && q in s.reqs && Expanding(s.reqs[q])
    ensures RunningOut(StepExpand(s, q), user, v, last)
  {
    var t := StepExpand(s, q);
    assert !StoresOther(s.reqs[q], user, v);
    forall r | r in t.reqs ensures !StoresOther(t.reqs[r], user, v) {
      if r != q { assert !StoresOther(s.reqs[r], user, v); }
    }
  }

  lemma StepKeepsRunningOut(s: Sys, q: nat, choice: string, user: string, v: string, last: int)
    requires RunningOut(s, user, v, last) && q in s.reqs && ScopeCache.Expansion(Step(s, q, choice).t, user) == v
    ensures RunningOut(Step(s, q, choice), user, v, last)
  {
    if Expanding(s.reqs[q]) {
      ExpandKeepsRunningOut(s, q, user, v, last);
    } else {
      HandlerWrites(s, q, choice);
      WritesKeepRunningOut(s, Step(s, q, choice), q, user, v, last);
    }
  }

  lemma EventKeepsRunningOut(s: Sys, e: Event, user: string, v: string, last: int)
    requires RunningOut(s, user, v, last) && ScopeCache.Expansion(Apply(s, e).t, user) == v
    ensures RunningOut(Apply(s, e), user, v, last) && s.now <= Apply(s, e).now
  {
    if e.Run? && e.q in s.reqs {
      StepKeepsRunningOut(s, e.q, e.choice, user, v, last);
    }
  }

  lemma {:induction false} RunRunsOut(s: Sys, es: seq<Event>, user: string, v: string, last: int)
    requires RunningOut(s, user, v, last) && Steady(s, es, user)
    ensures RunningOut(Exec(s, es), user, v, last) && s.now <= Exec(s, es).now
    decreases |es|
  {
    if es != [] {
      EventKeepsRunningOut(s, es[0], user, v, last);
      RunRunsOut(Apply(s, es[0]), es[1..], user, v, last);
    }
  }

  /** Whatever is still served is v, and so is what request q holds. */
  ghost predicate Right(s: Sys, user: string, v: string, q: nat) {
    && RunningOut(s, user, v, s.now - 1)
    && HoldsRight(s.reqs, user, v, q)
  }

  predicate HoldsRight(reqs: map<nat, Pc>, user: string, v: string, q: nat) {
    q in reqs && reqs[q].Expanded? && reqs[q].user == user ==> reqs[q].value == v
  }

  lemma ExpandHoldsRight(s: Sys, r: nat, user: string, v: string, q: nat)
    requires Right(s, user, v, q) && r in s.reqs && Expanding(s.reqs[r])
    ensures HoldsRight(StepExpand(s, r).reqs, user, v, q)
  {
    assert !StoresOther(s.reqs[r], user, v);
  }

  lemma EventHoldsRight(s: Sys, e: Event, user: string, v: string, q: nat)
    requires Right(s, user, v, q)
    ensures HoldsRight(Apply(s, e).reqs, user, v, q)
  {
    if e.Run? && e.q in s.reqs {
      if Expanding(s.reqs[e.q]) {
        ExpandHoldsRight(s, e.q, user, v, q);
      } else {
        HandlerWrites(s, e.q, e.choice);
      }
    }
  }

  lemma StaysRight(s: Sys, e: Event, user: string, v: string, q: nat)
    requires Right(s, user, v, q) && ScopeCache.Expansion(Apply(s, e).t, user) == v
    ensures Right(Apply(s, e), user, v, q)
  {
    EventKeepsRunningOut(s, e, user, v, s.now - 1);
    EventHoldsRight(s, e, user, v, q);
  }

  lemma {:induction false} RunStaysRight(s: Sys, es: seq<Event>, user: string, v: string, q: nat)
    requires Right(s, user, v, q) && Steady(s, es, user)
    ensures Right(Exec(s, es), user, v, q)
    decreases |es|
  {
    if es != [] {
      StaysRight(s, es[0], user, v, q);
      RunStaysRight(Apply(s, es[0]), es[1..], user, v, q);
    }
  }

  /** Bounded staleness, whatever interleaves: once a user's scopes have stopped changing and every expansion that read
    * others has stored them, any expansion whose GET comes more than 60 s later gives exactly the present ones. */
  lemma StalenessIsBounded(now: int, t0: Tables, before: seq<Event>, user: string, wait: seq<Event>, after: seq<Event>,
                           q: nat)
    requires var s := Exec(Init(now, t0), before);
      && (forall r :: r in s.reqs ==> !StoresOther(s.reqs[r], user, ScopeCache.Expansion(s.t, user)))
      && Steady(s, wait, user) && Steady(Exec(s, wait), after, user)
      && Exec(s, wait).now > s.now + 60_000
      && (q in Exec(s, wait).reqs ==> Exec(s, wait).reqs[q] == ExpandGet(user))
    ensures var s := Exec(Init(now, t0), before);
      var u := Exec(Exec(s, wait), after);
      q in u.reqs && u.reqs[q].Expanded? && u.reqs[q].user == user ==> u.reqs[q].value == ScopeCache.Expansion(s.t, user)
  {
    var s := Exec(Init(now, t0), before);
    var v := ScopeCache.Expansion(s.t, user);
    RunTtls(Init(now, t0), before);
    RunRunsOut(s, wait, user, v, s.now + 60_000);
    assert Right(Exec(s, wait), user, v, q);
    RunStaysRight(Exec(s, wait), after, user, v, q);
  }

  // When an expansion is stale

  predicate ExpandsOther(s: Sys, q: nat, user: string, v: string) {
    q in s.reqs && s.reqs[q].Expanded? && s.reqs[q].user == user && s.reqs[q].value != v
  }

  predicate ServesOther(s: Sys, user: string, v: string) {
    Get(s.cache, user, s.now).Some? && Get(s.cache, user, s.now).value != v
  }

  /** Some run in which the user's scopes do not change ends with q holding something other than v. */
  ghost predicate CanExpandOther(s: Sys, q: nat, user: string, v: string) {
    exists es :: Steady(s, es, user) && ExpandsOther(Exec(s, es), q, user, v)
  }

  lemma HitIsStale(s: Sys, user: string, v: string, q: nat)
    requires q !in s.reqs && ServesOther(s, user, v)
    ensures var es := [Arrive(q, ExpandGet(user)), Run(q, "")];
      ExpandsOther(Exec(s, es), q, user, v) && Steady(s, es, user)
    ensures CanExpandOther(s, q, user, v)
  {
    var s1 := At(s, q, ExpandGet(user));
    var es := [Arrive(q, ExpandGet(user)), Run(q, "")];
    assert es[1..] == [Run(q, "")] && es[1..][1..] == [];
    assert Apply(s, es[0]) == s1 && Exec(s1, [Run(q, "")]) == Exec(Step(s1, q, ""), []);
    assert Steady(s1, [Run(q, "")], user) by {
      assert [Run(q, "")][1..] == [];
    }
  }

  lemma StoreIsStale(s: Sys, user: string, v: string, q: nat, r: nat)
    requires q !in s.reqs && r in s.reqs && StoresOther(s.reqs[r], user, v)
    ensures CanExpandOther(s, q, user, v)
  {
    var s1 := Step(s, r, "");
    var hit := [Arrive(q, ExpandGet(user)), Run(q, "")];
    HitIsStale(s1, user, v, q);
    var es := [Run(r, "")] + hit;
    assert es[1..] == hit && Apply(s, es[0]) == s1;
    assert Steady(s, es, user) && ExpandsOther(Exec(s, es), q, user, v);
  }

  /** In every state, with the user's scopes changing no more, some new expansion can still give others exactly when a
    * live entry holds others or an expansion that read others is about to store them. */
  lemma StaleIff(s: Sys, user: string, q: nat)
    requires q !in s.reqs
    ensures var v := ScopeCache.Expansion(s.t, user);
      CanExpandOther(s, q, user, v) <==>
        ServesOther(s, user, v) || exists r :: r in s.reqs && StoresOther(s.reqs[r], user, v)
  {
    var v := ScopeCache.Expansion(s.t, user);
    if ServesOther(s, user, v) {
      HitIsStale(s, user, v, q);
    } else if r :| r in s.reqs && StoresOther(s.reqs[r], user, v) {
      StoreIsStale(s, user, v, q, r);
    } else {
      NothingOther(s, user, q);
    }
  }

  lemma NothingOther(s: Sys, user: string, q: nat)
    requires q !in s.reqs && !ServesOther(s, user, ScopeCache.Expansion(s.t, user))
    requires forall r :: r in s.reqs ==> !StoresOther(s.reqs[r], user, ScopeCache.Expansion(s.t, user))
    ensures !CanExpandOther(s, q, user, ScopeCache.Expansion(s.t, user))
  {
    var v := ScopeCache.Expansion(s.t, user);
    assert Right(s, user, v, q);
    forall es | Steady(s, es, user) ensures !ExpandsOther(Exec(s, es), q, user, v) {
      RunStaysRight(s, es, user, v, q);
    }
  }

  // An assignment overlapping an expansion

  lemma ExpansionsDiffer(t: Tables, t': Tables, user: string)
    requires ScopeCache.ValidNames(t) && ScopeCache.ValidNames(t') && UserScopes(t, user) != UserScopes(t', user)
    ensures ScopeCache.Expansion(t, user) != ScopeCache.Expansion(t', user)
  {
    var a, b := UserScopes(t, user), UserScopes(t', user);
    ScopeCache.UserScopesAreStored(t, user);
    ScopeCache.UserScopesAreStored(t', user);
    ScopeCache.ListingReadsBack(a);
    ScopeCache.ListingReadsBack(b);
    assert Elements(Listing(a)) == a && Elements(Listing(b)) == b;
  }

  /** ScopeCache.Expansion 0 reads, assignment 1 inserts its row and deletes the entry, and expansion 0 stores what it read. */
  function Overlap(user: string, role: string): seq<Event> {
    [Arrive(0, ExpandGet(user)), Run(0, ""), Run(0, "")]
      + ([Arrive(1, AssignRow(user, role)), Run(1, ""), Run(1, user)] + [Run(1, ""), Run(0, ""), Tick(0)])
  }

  lemma Three(s: Sys, e: Event, t: Sys, f: Event, u: Sys, g: Event, v: Sys)
    requires Apply(s, e) == t && Apply(t, f) == u && Apply(u, g) == v
    ensures Exec(s, [e, f, g]) == v
  {
    assert [e, f, g][1..] == [f, g] && [f, g][1..] == [g] && [g][1..] == [];
    assert Exec(u, [g]) == Exec(v, []);
    assert Exec(t, [f, g]) == Exec(u, [g]);
  }

  lemma AfterReading(t: Tables, user: string)
    ensures Exec(Init(0, t), [Arrive(0, ExpandGet(user)), Run(0, ""), Run(0, "")])
         == Sys(0, t, map[], map[0 := ExpandSet(user, ScopeCache.Expansion(t, user))])
  {
    var s := Init(0, t);
    var s2 := At(s, 0, ExpandSelect(user));
    assert Apply(At(s, 0, ExpandGet(user)), Run(0, "")).reqs == s2.reqs;
    var s3 := Sys(0, t, map[], map[0 := ExpandSet(user, ScopeCache.Expansion(t, user))]);
    assert Apply(s2, Run(0, "")).reqs == s3.reqs;
    Three(s, Arrive(0, ExpandGet(user)), At(s, 0, ExpandGet(user)), Run(0, ""), s2, Run(0, ""), s3);
  }

  lemma AfterAssignment(t: Tables, t': Tables, user: string, role: string, pc: Pc)
    requires AssignRole(t, user, role) == (t', Outcome.Done)
    ensures Exec(Sys(0, t, map[], map[0 := pc]), [Arrive(1, AssignRow(user, role)), Run(1, ""), Run(1, user)])
         == Sys(0, t', map[], map[0 := pc, 1 := Invalidate({})])
  {
    var s := Sys(0, t, map[], map[0 := pc]);
    var s1 := At(s, 1, AssignRow(user, role));
    var s2 := Sys(0, t', map[], map[0 := pc, 1 := Invalidate({user})]);
    var s3 := Sys(0, t', map[], map[0 := pc, 1 := Invalidate({})]);
    assert Apply(s1, Run(1, "")).reqs == s2.reqs;
    assert {user} - {user} == {};
    assert Apply(s2, Run(1, user)).reqs == s3.reqs && Apply(s2, Run(1, user)).cache == s3.cache;
    Three(s, Arrive(1, AssignRow(user, role)), s1, Run(1, ""), s2, Run(1, user), s3);
  }

  lemma AfterStoring(t: Tables, user: string, v: string)
    ensures Exec(Sys(0, t, map[], map[0 := ExpandSet(user, v), 1 := Invalidate({})]), [Run(1, ""), Run(0, ""), Tick(0)])
         == Sys(0, t, map[user := Entry(v, 60_000)], map[0 := Expanded(user, v), 1 := Finished])
  {
    var s := Sys(0, t, map[], map[0 := ExpandSet(user, v), 1 := Invalidate({})]);
    var s1 := Sys(0, t, map[], map[0 := ExpandSet(user, v), 1 := Finished]);
    var s2 := Sys(0, t, map[user := Entry(v, 60_000)], map[0 := Expanded(user, v), 1 := Finished]);
    assert Apply(s, Run(1, "")).reqs == s1.reqs;
    assert Apply(s1, Run(0, "")).reqs == s2.reqs && Apply(s1, Run(0, "")).cache == s2.cache;
    Three(s, Run(1, ""), s1, Run(0, ""), s2, Tick(0), s2);
  }

  /** The invalidation of a role change does not reach an expansion that is under way: for every role that would give a
    * user something new, an overlapping expansion leaves the old scopes in the cache after both handlers have finished, for exactly 60 seconds unless they are evicted. */
  lemma OverlapGoesStale(t: Tables, user: string, role: string)
    requires ScopeCache.ValidNames(t) && AssignRole(t, user, role).1.Done?
    requires !(RoleScopes(t.scopes, t.rolesScopes, role) <= UserScopes(t, user))
    ensures var s := Exec(Init(0, t), Overlap(user, role));
      && s.t == AssignRole(t, user, role).0
      && (forall q :: q in s.reqs ==> s.reqs[q].Finished? || s.reqs[q].Expanded?)
      && ServesOther(s, user, ScopeCache.Expansion(s.t, user)) && s.cache[user] == Entry(ScopeCache.Expansion(t, user), 60_000)
      && (forall ms: nat :: ServesOther(Apply(s, Tick(ms)), user, ScopeCache.Expansion(s.t, user)) <==> ms <= 60_000)
      && !ServesOther(Apply(s, Drop(user)), user, ScopeCache.Expansion(s.t, user))
  {
    var t' := AssignRole(t, user, role).0;
    AssignmentChanges(t, t', user, role);
    OverlapState(t, t', user, role);
    LingersFor(Exec(Init(0, t), Overlap(user, role)), user, ScopeCache.Expansion(t, user), ScopeCache.Expansion(t', user));
  }

  lemma LingersFor(s: Sys, user: string, stale: string, v: string)
    requires s.now == 0 && user in s.cache && s.cache[user] == Entry(stale, 60_000) && stale != v
    ensures forall ms: nat :: ServesOther(Apply(s, Tick(ms)), user, v) <==> ms <= 60_000
    ensures !ServesOther(Apply(s, Drop(user)), user, v)
  {
  }

  lemma AssignmentChanges(t: Tables, t': Tables, user: string, role: string)
    requires ScopeCache.ValidNames(t) && AssignRole(t, user, role) == (t', Outcome.Done)
    requires !(RoleScopes(t.scopes, t.rolesScopes, role) <= UserScopes(t, user))
    ensures ScopeCache.Expansion(t, user) != ScopeCache.Expansion(t', user)
  {
    ScopeCache.AssignmentEffect(ScopeCache.Sys(0, t, map[]), user, role, user);
    assert t'.scopes == t.scopes;
    ExpansionsDiffer(t, t', user);
  }

  lemma OverlapState(t: Tables, t': Tables, user: string, role: string)
    requires AssignRole(t, user, role) == (t', Outcome.Done)
    ensures var v := ScopeCache.Expansion(t, user);
      Exec(Init(0, t), Overlap(user, role))
        == Sys(0, t', map[user := Entry(v, 60_000)], map[0 := Expanded(user, v), 1 := Finished])
  {
    var v := ScopeCache.Expansion(t, user);
    AfterReading(t, user);
    AfterAssignment(t, t', user, role, ExpandSet(user, v));
    AfterStoring(t', user, v);
    var es, fs := [Arrive(1, AssignRow(user, role)), Run(1, ""), Run(1, user)], [Run(1, ""), Run(0, ""), Tick(0)];
    ExecAppend(Init(0, t), [Arrive(0, ExpandGet(user)), Run(0, ""), Run(0, "")], es + fs);
    ExecAppend(Sys(0, t, map[], map[0 := ExpandSet(user, v)]), es, fs);
  }
}
