/** Scope expansion behind its 60-second cache, over every run of the operations that change roles, their
  * scopes and their holders. */
module ScopeCache {
  import opened Basics
  import opened Redis
  import opened Roles
  import opened Text
  import Scopes

  const CACHE_TTL: nat := 60

  /** What an uncached expansion answers: the user's scope names, sorted and without repetition. */
  ghost function Expansion(t: Tables, user: string): string {
    Join(Listing(UserScopes(t, user)), ' ')
  }

  datatype Sys = Sys(now: int, t: Tables, cache: Store<string, string>)

  ghost function Expand(s: Sys, user: string): (Sys, string) {
    match Get(s.cache, user, s.now)
    case Some(v) => (s, v)
    case None =>
      var v := Expansion(s.t, user);
      (s.(cache := SetEx(s.cache, user, v, CACHE_TTL, s.now)), v)
  }

  ghost function Update(s: Sys, id: string, description: Option<string>, kind: string, names: seq<string>,
                        drawn: seq<string>): (Sys, Outcome)
    requires |names| == |drawn|
  {
    var (t', o) := UpdateRole(s.t, id, description, kind, names, drawn);
    (s.(t := t', cache := if o.Detail? then s.cache - Holders(s.t.usersRoles, id) else s.cache), o)
  }

  function Assign(s: Sys, user: string, role: string): (Sys, Outcome) {
    var (t', o) := AssignRole(s.t, user, role);
    (s.(t := t', cache := if o.Done? then Del(s.cache, user) else s.cache), o)
  }

  function Remove(s: Sys, user: string, role: string): (Sys, Outcome) {
    var (t', o) := RemoveRole(s.t, user, role);
    (s.(t := t', cache := if o.Done? then Del(s.cache, user) else s.cache), o)
  }

  function SelfRegister(s: Sys, user: string, role: string): Sys {
    s.(t := Register(s.t, user, role), cache := if IsDefaultRole(s.t.roles, role) then Del(s.cache, user) else s.cache)
  }

  datatype Event =
    | Pass(ms: nat)
    | Create(id: string, name: string, description: Option<string>, kind: string, names: seq<string>, drawn: seq<string>)
    | Rewrite(id: string, description: Option<string>, kind: string, names: seq<string>, drawn: seq<string>)
    | Delete(id: string)
    | AssignTo(user: string, role: string)
    | RemoveFrom(user: string, role: string)
    | NewUser(user: string)
    | SelfRegistered(user: string, role: string)
    | ExpandFor(user: string)
    | Evict(user: string)

  /** `named` collects every user id ever mentioned; new users get ids outside it. */
  datatype World = World(s: Sys, named: set<string>)

  ghost function Apply(w: World, e: Event): World {
    var s := w.s;
    match e
    case Pass(ms) => w.(s := s.(now := s.now + ms))
    case Create(id, name, description, kind, names, drawn) =>
      if |names| == |drawn| && id !in s.t.roles && Drawn(drawn, s.t.scopes)
      then w.(s := s.(t := CreateRole(s.t, id, name, description, kind, names, drawn).0)) else w
    case Rewrite(id, description, kind, names, drawn) =>
      if |names| == |drawn| && Drawn(drawn, s.t.scopes)
      then w.(s := Update(s, id, description, kind, names, drawn).0) else w
    case Delete(id) => w.(s := s.(t := DeleteRole(s.t, id).0))
    case AssignTo(user, role) => w.(s := Assign(s, user, role).0)
    case RemoveFrom(user, role) => w.(s := Remove(s, user, role).0)
    case NewUser(user) =>
      if user in w.named then w else World(s.(t := CreateUser(s.t, user)), w.named + {user})
    case SelfRegistered(user, role) =>
      if user in w.named then w else World(SelfRegister(s, user, role), w.named + {user})
    case ExpandFor(user) => World(Expand(s, user).0, w.named + {user})
    case Evict(user) => w.(s := s.(cache := Del(s.cache, user)))
  }

  ghost function Exec(w: World, es: seq<Event>): World
    decreases |es|
  {
    if es == [] then w else Exec(Apply(w, es[0]), es[1..])
  }

  /** Every cached entry is what the tables say now. */
  ghost predicate Coherent(w: World) {
    && WellFormed(w.s.t)
    && w.s.t.users <= w.named && w.s.cache.Keys <= w.named
    && (forall u :: u in w.s.cache ==> w.s.cache[u].value == Expansion(w.s.t, u))
  }

  lemma UserScopesIff(t: Tables, user: string, n: string)
    ensures n in UserScopes(t, user) <==>
      exists r :: (user, r) in t.usersRoles && n in RoleScopes(t.scopes, t.rolesScopes, r)
  {
    if n in UserScopes(t, user) {
      var p, q :| p in t.usersRoles && q in t.rolesScopes && p.0 == user && p.1 == q.0 && q.1 in t.scopes
                  && t.scopes[q.1] == n;
      assert p == (user, p.1);
      assert n in RoleScopes(t.scopes, t.rolesScopes, p.1);
    }
    if r :| (user, r) in t.usersRoles && n in RoleScopes(t.scopes, t.rolesScopes, r) {
      var q :| q in t.rolesScopes && q.0 == r && q.1 in t.scopes && t.scopes[q.1] == n;
      assert (user, r).1 == q.0;
    }
  }

  /** A user's expansion depends only on the roles held and what those grant. */
  lemma SameExpansion(t: Tables, t': Tables, user: string)
    requires forall r :: (user, r) in t.usersRoles <==> (user, r) in t'.usersRoles
    requires forall r :: (user, r) in t.usersRoles ==>
      RoleScopes(t'.scopes, t'.rolesScopes, r) == RoleScopes(t.scopes, t.rolesScopes, r)
    ensures Expansion(t', user) == Expansion(t, user)
  {
    forall n ensures n in UserScopes(t, user) <==> n in UserScopes(t', user) {
      UserScopesIff(t, user, n);
      UserScopesIff(t', user, n);
    }
    assert UserScopes(t, user) == UserScopes(t', user);
  }

  /** Assigning a role succeeds exactly for a known user and a known role that users may hold and this one does not; it
    * adds what the role grants, drops the user's entry, and changes nobody else. */
  lemma AssignmentEffect(s: Sys, user: string, role: string, other: string)
    ensures var (s', o) := Assign(s, user, role);
      && (o.Done? <==> user in s.t.users && role in s.t.roles && s.t.roles[role].kind in {ForUsers, ForBoth}
                       && (user, role) !in s.t.usersRoles)
      && (o.Done? ==>
            && UserScopes(s'.t, user) == UserScopes(s.t, user) + RoleScopes(s.t.scopes, s.t.rolesScopes, role)
            && s'.cache == s.cache - {user} && s'.now == s.now)
      && (!o.Done? ==> s' == s)
      && (other != user ==> UserScopes(s'.t, other) == UserScopes(s.t, other))
  {
    var (s', o) := Assign(s, user, role);
    var t, t' := s.t, s'.t;
    AssignIff(t, user, role);
    if o.Done? {
      forall n
        ensures n in UserScopes(t', user) <==> n in UserScopes(t, user) || n in RoleScopes(t.scopes, t.rolesScopes, role)
      {
        UserScopesIff(t, user, n);
        UserScopesIff(t', user, n);
      }
      if other != user {
        forall n ensures n in UserScopes(t', other) <==> n in UserScopes(t, other) {
          UserScopesIff(t, other, n);
          UserScopesIff(t', other, n);
        }
      }
    }
  }

  /** Removing a role succeeds exactly for a known user who holds it; it leaves exactly what the user's other roles
    * grant, drops the user's entry, and changes nobody else. */
  lemma RemovalEffect(s: Sys, user: string, role: string, other: string)
    ensures var (s', o) := Remove(s, user, role);
      && (o.Done? <==> user in s.t.users && (user, role) in s.t.usersRoles)
      && (o.Done? ==>
            && (forall n :: n in UserScopes(s'.t, user) <==>
                  exists r :: r != role && (user, r) in s.t.usersRoles && n in RoleScopes(s.t.scopes, s.t.rolesScopes, r))
            && s'.cache == s.cache - {user} && s'.now == s.now)
      && (!o.Done? ==> s' == s)
      && (other != user ==> UserScopes(s'.t, other) == UserScopes(s.t, other))
  {
    var (s', o) := Remove(s, user, role);
    var t, t' := s.t, s'.t;
    RemoveIff(t, user, role);
    if o.Done? {
      forall n {
        UserScopesIff(t', user, n);
      }
      if other != user {
        forall n ensures n in UserScopes(t', other) <==> n in UserScopes(t, other) {
          UserScopesIff(t, other, n);
          UserScopesIff(t', other, n);
        }
      }
    }
  }

  /** A user the administrator creates holds exactly the default roles that users may hold, so has exactly the scopes
    * those grant; nobody else's change. */
  lemma NewUserEffect(t: Tables, user: string, other: string)
    requires WellFormed(t) && user !in t.users && other != user
    ensures var t' := CreateUser(t, user);
      && (forall r :: (user, r) in t'.usersRoles <==>
            r in t.roles && t.roles[r].isDefault && t.roles[r].kind in {ForUsers, ForBoth})
      && (forall r :: (other, r) in t'.usersRoles <==> (other, r) in t.usersRoles)
      && (forall n :: n in UserScopes(t', user) <==>
            exists r :: r in t.roles && t.roles[r].isDefault && t.roles[r].kind in {ForUsers, ForBoth}
                        && n in RoleScopes(t.scopes, t.rolesScopes, r))
      && UserScopes(t', other) == UserScopes(t, other)
  {
    var t' := CreateUser(t, user);
    CreateUserIff(t, user);
    forall r ensures (user, r) !in t.usersRoles {
      assert (user, r) in t.usersRoles ==> (user, r).0 in t.users;
    }
    forall n { UserScopesIff(t', user, n); }
    forall n ensures n in UserScopes(t', other) <==> n in UserScopes(t, other) {
      UserScopesIff(t, other, n);
      UserScopesIff(t', other, n);
    }
  }

  /** A user who registers has the one default role that was found, if there was any, and exactly its scopes; nobody
    * else's change, and the new user's entry is dropped. */
  lemma RegistrationEffect(s: Sys, user: string, role: string, other: string)
    requires WellFormed(s.t) && user !in s.t.users && other != user
    ensures var s' := SelfRegister(s, user, role);
      var given := role in s.t.roles && s.t.roles[role].isDefault && s.t.roles[role].kind in {ForUsers, ForBoth};
      && (forall r :: (user, r) in s'.t.usersRoles <==> r == role && given)
      && (forall r :: (other, r) in s'.t.usersRoles <==> (other, r) in s.t.usersRoles)
      && UserScopes(s'.t, user) == (if given then RoleScopes(s.t.scopes, s.t.rolesScopes, role) else {})
      && UserScopes(s'.t, other) == UserScopes(s.t, other)
      && s'.cache == (if given then s.cache - {user} else s.cache) && s'.now == s.now
  {
    var t, t' := s.t, SelfRegister(s, user, role).t;
    RegisterIff(t, user, role);
    forall r ensures (user, r) !in t.usersRoles {
      assert (user, r) in t.usersRoles ==> (user, r).0 in t.users;
    }
    forall n { UserScopesIff(t', user, n); }
    forall n ensures n in UserScopes(t', other) <==> n in UserScopes(t, other) {
      UserScopesIff(t, other, n);
      UserScopesIff(t', other, n);
    }
  }

  /** A rewrite drops exactly the entries of the role's holders, and none when it is refused. */
  lemma RewriteEffect(s: Sys, id: string, description: Option<string>, kind: string, names: seq<string>, drawn: seq<string>)
    requires |names| == |drawn| && WellFormed(s.t) && Drawn(drawn, s.t.scopes)
    ensures var (s', o) := Update(s, id, description, kind, names, drawn);
      && (s'.t, o) == UpdateRole(s.t, id, description, kind, names, drawn) && s'.now == s.now
      && (forall u :: u in s'.cache <==> u in s.cache && !(o.Detail? && (u, id) in s.t.usersRoles))
      && (forall u :: u in s'.cache ==> s'.cache[u] == s.cache[u])
  {
    UpdateRewrites(s.t, id, description, kind, names, drawn);
    forall u { HoldersIff(s.t.usersRoles, u, id); }
  }

  /** An expansion serves a live entry; otherwise it stores what the tables say for 60 seconds. */
  lemma ExpandEffect(s: Sys, user: string)
    ensures var (s', v) := Expand(s, user);
      var hit := user in s.cache && s.now <= s.cache[user].deadline;
      && s'.t == s.t && s'.now == s.now
      && (hit ==> v == s.cache[user].value && s' == s)
      && (!hit ==> v == Join(Listing(UserScopes(s.t, user)), ' ') && s'.cache == s.cache[user := Entry(v, s.now + 60_000)])
  {
  }

  lemma CreateKeeps(w: World, e: Event)
    requires Coherent(w) && e.Create?
    ensures Coherent(Apply(w, e))
  {
    var t, t' := w.s.t, Apply(w, e).s.t;
    if t' != t {
      CreateRewrites(t, e.id, e.name, e.description, e.kind, e.names, e.drawn);
      forall u | u in w.s.cache ensures Expansion(t', u) == Expansion(t, u) {
        SameExpansion(t, t', u);
      }
    }
  }

  lemma HoldersIff(usersRoles: set<(string, string)>, user: string, role: string)
    ensures user in Holders(usersRoles, role) <==> (user, role) in usersRoles
  {
    assert (user, role).0 == user && (user, role).1 == role;
  }

  lemma RewriteKeeps(w: World, e: Event)
    requires Coherent(w) && e.Rewrite?
    ensures Coherent(Apply(w, e))
  {
    var t, t' := w.s.t, Apply(w, e).s.t;
    if |e.names| == |e.drawn| && Drawn(e.drawn, t.scopes) {
      UpdateRewrites(t, e.id, e.description, e.kind, e.names, e.drawn);
      if UpdateRole(t, e.id, e.description, e.kind, e.names, e.drawn).1.Detail? {
        forall u | u in w.s.cache && u !in Holders(t.usersRoles, e.id) ensures Expansion(t', u) == Expansion(t, u) {
          HoldersIff(t.usersRoles, u, e.id);
          SameExpansion(t, t', u);
        }
      }
    }
  }

  lemma UnassignedGrantsNobody(t: Tables, id: string)
    requires WellFormed(t) && Holders(t.usersRoles, id) == {} && id in t.roles
    ensures var t' := t.(roles := t.roles - {id}, rolesScopes := WithoutRole(t.rolesScopes, id));
      WellFormed(t') && forall u :: Expansion(t', u) == Expansion(t, u)
  {
    var t' := t.(roles := t.roles - {id}, rolesScopes := WithoutRole(t.rolesScopes, id));
    forall p | p in t.usersRoles ensures p.1 != id {
      assert p.1 == id ==> p.0 in Holders(t.usersRoles, id);
    }
    forall u ensures Expansion(t', u) == Expansion(t, u) {
      forall r | (u, r) in t.usersRoles
        ensures RoleScopes(t'.scopes, t'.rolesScopes, r) == RoleScopes(t.scopes, t.rolesScopes, r)
      {
        assert (u, r).1 != id;
        SameRoleScopes(t, t', r);
      }
      SameExpansion(t, t', u);
    }
  }

  /** Deleting a role invalidates nothing, and needs not: it is refused while anyone holds the role. */
  lemma DeleteKeeps(w: World, id: string)
    requires Coherent(w)
    ensures Coherent(Apply(w, Delete(id)))
  {
    if DeleteRole(w.s.t, id).1.Done? {
      UnassignedGrantsNobody(w.s.t, id);
      SameExpansionsKeep(w, DeleteRole(w.s.t, id).0);
    }
  }

  lemma SameExpansionsKeep(w: World, t: Tables)
    requires Coherent(w) && WellFormed(t) && t.users == w.s.t.users
    requires forall u :: Expansion(t, u) == Expansion(w.s.t, u)
    ensures Coherent(w.(s := w.s.(t := t)))
  {
  }

  ghost predicate OnlyChangesFor(before: set<(string, string)>, after: set<(string, string)>, user: string) {
    forall p: (string, string) :: p.0 != user ==> (p in after <==> p in before)
  }

  /** Changing one user's roles leaves every other user's expansion alone. */
  lemma HoldersChangeKeeps(w: World, w': World, user: string)
    requires Coherent(w) && WellFormed(w'.s.t) && w.named <= w'.named && w'.s.t.users <= w.named + {user} <= w'.named
    requires w'.s.t == w.s.t.(users := w'.s.t.users, usersRoles := w'.s.t.usersRoles)
    requires OnlyChangesFor(w.s.t.usersRoles, w'.s.t.usersRoles, user)
    requires w'.s.cache == w.s.cache || w'.s.cache == Del(w.s.cache, user)
    requires user !in w'.s.cache
    ensures Coherent(w')
  {
    forall u | u in w'.s.cache ensures w'.s.cache[u].value == Expansion(w'.s.t, u) {
      SameExpansion(w.s.t, w'.s.t, u);
    }
  }

  lemma OnePairAdded(t: Tables, user: string, role: string)
    requires WellFormed(t) && user in t.users && role in t.roles
    ensures var more := t.usersRoles + {(user, role)};
      && WellFormed(t.(usersRoles := more))
      && OnlyChangesFor(t.usersRoles, more, user)
  {
  }

  lemma NewHoldingKeeps(w: World, user: string, role: string)
    requires Coherent(w) && user in w.s.t.users && role in w.s.t.roles
    ensures var t' := w.s.t.(usersRoles := w.s.t.usersRoles + {(user, role)});
      Coherent(w.(s := w.s.(t := t', cache := Del(w.s.cache, user))))
  {
    var t' := w.s.t.(usersRoles := w.s.t.usersRoles + {(user, role)});
    OnePairAdded(w.s.t, user, role);
    HoldersChangeKeeps(w, w.(s := w.s.(t := t', cache := Del(w.s.cache, user))), user);
  }

  lemma AssignKeeps(w: World, user: string, role: string)
    requires Coherent(w)
    ensures Coherent(Apply(w, AssignTo(user, role)))
  {
    if AssignRole(w.s.t, user, role).1.Done? {
      NewHoldingKeeps(w, user, role);
    }
  }

  lemma RemoveKeeps(w: World, user: string, role: string)
    requires Coherent(w)
    ensures Coherent(Apply(w, RemoveFrom(user, role)))
  {
    if RemoveRole(w.s.t, user, role).1.Done? {
      HoldersChangeKeeps(w, Apply(w, RemoveFrom(user, role)), user);
    }
  }

  lemma NewUserKeeps(w: World, user: string)
    requires Coherent(w)
    ensures Coherent(Apply(w, NewUser(user)))
  {
    if user !in w.named {
      HoldersChangeKeeps(w, World(w.s.(t := CreateUser(w.s.t, user)), w.named + {user}), user);
    }
  }

  lemma SelfRegisteredKeeps(w: World, user: string, role: string)
    requires Coherent(w)
    ensures Coherent(Apply(w, SelfRegistered(user, role)))
  {
    if user !in w.named {
      HoldersChangeKeeps(w, World(SelfRegister(w.s, user, role), w.named + {user}), user);
    }
  }

  lemma EventKeeps(w: World, e: Event)
    requires Coherent(w)
    ensures Coherent(Apply(w, e))
  {
    if e.Create? { CreateKeeps(w, e); }
    else if e.Rewrite? { RewriteKeeps(w, e); }
    else if e.Delete? { DeleteKeeps(w, e.id); }
    else if e.AssignTo? { AssignKeeps(w, e.user, e.role); }
    else if e.RemoveFrom? { RemoveKeeps(w, e.user, e.role); }
    else if e.NewUser? { NewUserKeeps(w, e.user); }
    else if e.SelfRegistered? { SelfRegisteredKeeps(w, e.user, e.role); }
  }

  /** Over every run, each cached entry equals the sorted, duplicate-free union of the scopes of that user's
    * current roles, so an expansion answers the same with the cache as without. */
  lemma {:induction false} CacheStaysCoherent(w: World, es: seq<Event>, user: string)
    requires Coherent(w)
    ensures var s := Exec(w, es).s;
      && (user in s.cache ==> s.cache[user].value == Join(Listing(UserScopes(s.t, user)), ' '))
      && Expand(s, user).1 == Join(Listing(UserScopes(s.t, user)), ' ')
      && Lists(Listing(UserScopes(s.t, user)), UserScopes(s.t, user))
    ensures WellFormed(Exec(w, es).s.t)
    decreases |es|
  {
    if es != [] {
      EventKeeps(w, es[0]);
      CacheStaysCoherent(Apply(w, es[0]), es[1..], user);
    }
  }

  /** Who a system role's row and scopes are. */
  ghost predicate IsSystemRole(t: Tables, id: string, role: Role, names: set<string>) {
    id in t.roles && t.roles[id] == role && role.isSystem && RoleScopes(t.scopes, t.rolesScopes, id) == names
  }

  lemma SystemRoleKept(w: World, e: Event, id: string, role: Role, names: set<string>)
    requires Coherent(w) && IsSystemRole(w.s.t, id, role, names)
    ensures IsSystemRole(Apply(w, e).s.t, id, role, names)
  {
    var t := w.s.t;
    match e
    case Create(_, _, _, _, _, _) =>
      if |e.names| == |e.drawn| && e.id !in t.roles && Drawn(e.drawn, t.scopes) {
        CreateRewrites(t, e.id, e.name, e.description, e.kind, e.names, e.drawn);
      }
    case Rewrite(_, _, _, _, _) =>
      if |e.names| == |e.drawn| && Drawn(e.drawn, t.scopes) {
        UpdateRewrites(t, e.id, e.description, e.kind, e.names, e.drawn);
      }
    case Delete(other) =>
      if DeleteRole(t, other).1.Done? {
        SameRoleScopes(t, Apply(w, e).s.t, id);
      }
    case _ =>
  }

  /** System roles keep their row and their scopes over every run, and are never deleted. */
  lemma {:induction false} SystemRolesAreFixed(w: World, es: seq<Event>, id: string, role: Role, names: set<string>)
    requires Coherent(w) && IsSystemRole(w.s.t, id, role, names)
    ensures IsSystemRole(Exec(w, es).s.t, id, role, names)
    decreases |es|
  {
    if es != [] {
      EventKeeps(w, es[0]);
      SystemRoleKept(w, es[0], id, role, names);
      SystemRolesAreFixed(Apply(w, es[0]), es[1..], id, role, names);
    }
  }

  /** Every stored scope name satisfies the scope grammar. */
  ghost predicate ValidNames(t: Tables) {
    forall n :: n in t.scopes.Values ==> Scopes.Validate(n).Ok?
  }

  lemma ValidNamesKept(w: World, e: Event)
    requires Coherent(w) && ValidNames(w.s.t)
    ensures ValidNames(Apply(w, e).s.t)
  {
    var t := w.s.t;
    if e.Create? && |e.names| == |e.drawn| && e.id !in t.roles && Drawn(e.drawn, t.scopes) {
      CreateRewrites(t, e.id, e.name, e.description, e.kind, e.names, e.drawn);
    } else if e.Rewrite? && |e.names| == |e.drawn| && Drawn(e.drawn, t.scopes) {
      UpdateRewrites(t, e.id, e.description, e.kind, e.names, e.drawn);
    }
  }

  function ProjectsOf(names: set<string>): set<string> {
    set n | n in names && Scopes.ScopeProject(n).Ok? :: Scopes.Display(Scopes.ScopeProject(n).value)
  }

  lemma UserScopesAreStored(t: Tables, user: string)
    ensures UserScopes(t, user) <= t.scopes.Values
  {
  }

  /** Over every run from valid seed scopes, the expanded string read back at white space is exactly the sorted
    * list of the user's scopes, and the projects derived from it are exactly those of the user's scopes. */
  lemma {:induction false} ExpansionReadsBack(w: World, es: seq<Event>, user: string)
    requires Coherent(w) && ValidNames(w.s.t)
    ensures var s := Exec(w, es).s;
      var held := UserScopes(s.t, user);
      && Words(Expand(s, user).1) == Listing(held)
      && Lists(Scopes.ProjectsFromScopes(Expand(s, user).1), ProjectsOf(held))
    decreases |es|
  {
    if es == [] {
      CacheStaysCoherent(w, [], user);
      UserScopesAreStored(w.s.t, user);
      ListingReadsBack(UserScopes(w.s.t, user));
    } else {
      EventKeeps(w, es[0]);
      ValidNamesKept(w, es[0]);
      ExpansionReadsBack(Apply(w, es[0]), es[1..], user);
    }
  }

  lemma ListingReadsBack(held: set<string>)
    requires forall n :: n in held ==> Scopes.Validate(n).Ok?
    ensures Words(Join(Listing(held), ' ')) == Listing(held)
    ensures Lists(Scopes.ProjectsFromScopes(Join(Listing(held), ' ')), ProjectsOf(held))
  {
    var xs := Listing(held);
    forall w | w in xs ensures w in held && IsWord(w) {
      assert w in Elements(xs);
      Scopes.ScopeIsWord(w);
    }
    WordsOfJoin(xs);
    Scopes.ProjectsOfValidScopes(xs);
    assert forall n :: n in held <==> n in Elements(xs);
    assert ProjectsOf(held) == (set n | n in xs :: Scopes.Display(Scopes.ScopeProject(n).value));
  }

  /** A rewrite reaches its holders: afterwards a user has what the other roles grant, and the requested scopes exactly
    * when the user holds the role, and a holder's entry is gone. */
  lemma HoldersFollow(w: World, e: Event, user: string)
    requires Coherent(w) && e.Rewrite? && |e.names| == |e.drawn| && Drawn(e.drawn, w.s.t.scopes)
    requires GoodScopes(e.names) && e.kind in TYPES && e.id in w.s.t.roles && !w.s.t.roles[e.id].isSystem
    ensures var t, t' := w.s.t, Apply(w, e).s.t;
      && (forall n :: n in UserScopes(t', user) <==>
            || (n in e.names && (user, e.id) in t.usersRoles)
            || exists r :: r != e.id && (user, r) in t.usersRoles && n in RoleScopes(t.scopes, t.rolesScopes, r))
      && ((user, e.id) in t.usersRoles ==> user !in Apply(w, e).s.cache)
  {
    UpdateRewrites(w.s.t, e.id, e.description, e.kind, e.names, e.drawn);
    HoldersIff(w.s.t.usersRoles, user, e.id);
    forall n { UserScopesIff(Apply(w, e).s.t, user, n); }
  }
}
