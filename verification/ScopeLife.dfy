/** A run through the operations of ScopeCache: a role from its creation to its deletion. */
module ScopeLife {
  import opened Basics
  import opened Redis
  import opened Roles
  import opened Text
  import opened ScopeCache

  /** A service without users and roles. */
  function Empty(now: int): World {
    World(Sys(now, Tables({}, map[], map[], {}, {}), map[]), {})
  }

  /** The one role there is, what it grants, and who is there and holds it. */
  ghost predicate OneRole(w: World, id: string, role: Role, names: set<string>, users: set<string>, holders: set<(string, string)>) {
    && Coherent(w) && w.s.t.roles == map[id := role] && RoleScopes(w.s.t.scopes, w.s.t.rolesScopes, id) == names
    && w.s.t.users == users && w.s.t.usersRoles == holders
  }

  /** A request to create a role that users may hold, which the service accepts. */
  ghost predicate GoodCreate(e: Event) {
    && e.Create? && |e.names| == |e.drawn| && Drawn(e.drawn, map[])
    && GoodName(e.name) && GoodScopes(e.names) && e.kind in {"user", "both"}
  }

  ghost function RoleOf(e: Event): Role
    requires GoodCreate(e)
  {
    Role(e.name, e.description, if e.kind == "user" then ForUsers else ForBoth, false, false)
  }

  lemma Created(now: int, e: Event)
    requires GoodCreate(e)
    ensures var w := Apply(Empty(now), e);
      OneRole(w, e.id, RoleOf(e), Elements(e.names), {}, {}) && w.s.cache == map[] && w.named == {} && w.s.now == now
  {
    CreateRewrites(Empty(now).s.t, e.id, e.name, e.description, e.kind, e.names, e.drawn);
    EventKeeps(Empty(now), e);
  }

  lemma UserAdded(w: World, id: string, role: Role, names: set<string>, user: string)
    requires OneRole(w, id, role, names, {}, {}) && !role.isDefault && user !in w.named
    ensures var w' := Apply(w, NewUser(user));
      OneRole(w', id, role, names, {user}, {}) && w'.s.cache == w.s.cache && w'.s.now == w.s.now
  {
    CreateUserIff(w.s.t, user);
    EventKeeps(w, NewUser(user));
    assert CreateUser(w.s.t, user).usersRoles == {};
  }

  lemma Assigned(w: World, id: string, role: Role, names: set<string>, user: string)
    requires OneRole(w, id, role, names, {user}, {}) && role.kind in {ForUsers, ForBoth} && w.s.cache == map[]
    ensures var w' := Apply(w, AssignTo(user, id));
      OneRole(w', id, role, names, {user}, {(user, id)}) && w'.s.cache == map[] && w'.s.now == w.s.now
  {
    AssignIff(w.s.t, user, id);
    EventKeeps(w, AssignTo(user, id));
    assert AssignRole(w.s.t, user, id).0.usersRoles == {(user, id)};
  }

  /** One who holds a single role has exactly its scopes. */
  lemma OnlyRole(t: Tables, user: string, id: string)
    requires t.usersRoles == {(user, id)}
    ensures UserScopes(t, user) == RoleScopes(t.scopes, t.rolesScopes, id)
  {
    forall n { UserScopesIff(t, user, n); }
  }

  lemma ExpandedFor(w: World, id: string, role: Role, names: set<string>, user: string)
    requires OneRole(w, id, role, names, {user}, {(user, id)}) && w.s.cache == map[]
    ensures var w' := Apply(w, ExpandFor(user));
      && OneRole(w', id, role, names, {user}, {(user, id)})
      && w'.s.cache == map[user := Entry(Join(Listing(names), ' '), w.s.now + 60_000)] && w'.s.now == w.s.now
  {
    OnlyRole(w.s.t, user, id);
    ExpandEffect(w.s, user);
    EventKeeps(w, ExpandFor(user));
  }

  /** A role is created and given to a new user. */
  ghost function Given(now: int, e: Event, user: string): World
    requires e.Create?
  {
    Apply(Apply(Apply(Empty(now), e), NewUser(user)), AssignTo(user, e.id))
  }

  lemma GivenIs(now: int, e: Event, user: string)
    requires GoodCreate(e)
    ensures var w := Given(now, e, user);
      OneRole(w, e.id, RoleOf(e), Elements(e.names), {user}, {(user, e.id)}) && w.s.cache == map[] && w.s.now == now
  {
    Created(now, e);
    UserAdded(Apply(Empty(now), e), e.id, RoleOf(e), Elements(e.names), user);
    Assigned(Apply(Apply(Empty(now), e), NewUser(user)), e.id, RoleOf(e), Elements(e.names), user);
  }

  /** It is expanded, and some time passes. */
  ghost function Waited(w: World, user: string, ms: nat): World {
    Apply(Apply(w, ExpandFor(user)), Pass(ms))
  }

  lemma Served(w: World, id: string, role: Role, names: set<string>, user: string, ms: nat)
    requires OneRole(w, id, role, names, {user}, {(user, id)}) && w.s.cache == map[]
    ensures var w' := Waited(w, user, ms);
      && UserScopes(w'.s.t, user) == names
      && (Get(w'.s.cache, user, w'.s.now) == Some(Join(Listing(names), ' ')) <==> ms <= 60_000)
      && user !in Apply(w', Evict(user)).s.cache
  {
    ExpandedFor(w, id, role, names, user);
    var w1 := Apply(w, ExpandFor(user));
    OnlyRole(w1.s.t, user, id);
    assert Waited(w, user, ms).s == w1.s.(now := w.s.now + ms);
  }

  lemma WaitedKeeps(w: World, id: string, role: Role, names: set<string>, user: string, ms: nat)
    requires OneRole(w, id, role, names, {user}, {(user, id)}) && w.s.cache == map[]
    ensures OneRole(Waited(w, user, ms), id, role, names, {user}, {(user, id)})
  {
    ExpandedFor(w, id, role, names, user);
    EventKeeps(Apply(w, ExpandFor(user)), Pass(ms));
  }

  /** From the empty service on: one who is given a new role has exactly its scopes, served from the cache for exactly 60
    * seconds; an evicted entry is gone. */
  lemma RoleIsHeld(now: int, e: Event, user: string, ms: nat)
    requires GoodCreate(e)
    ensures var w := Waited(Given(now, e, user), user, ms);
      && OneRole(w, e.id, RoleOf(e), Elements(e.names), {user}, {(user, e.id)})
      && UserScopes(w.s.t, user) == Elements(e.names)
      && (Get(w.s.cache, user, w.s.now) == Some(Join(Listing(Elements(e.names)), ' ')) <==> ms <= 60_000)
      && user !in Apply(w, Evict(user)).s.cache
  {
    GivenIs(now, e, user);
    Served(Given(now, e, user), e.id, RoleOf(e), Elements(e.names), user, ms);
    WaitedKeeps(Given(now, e, user), e.id, RoleOf(e), Elements(e.names), user, ms);
  }

  lemma RewriteIsUpdate(w: World, f: Event)
    requires f.Rewrite? && |f.names| == |f.drawn| && Drawn(f.drawn, w.s.t.scopes)
    ensures Apply(w, f).s == Update(w.s, f.id, f.description, f.kind, f.names, f.drawn).0
  {
  }

  lemma StaysOneRole(t: Tables, t': Tables, o: Outcome, id: string, names: seq<string>, before: Role, after: Role)
    requires t.roles == map[id := before] && Roles.Rewritten(t, t', o, id, names) && t'.roles == t.roles[id := after]
    ensures o.Detail? && t'.roles == map[id := after] && RoleScopes(t'.scopes, t'.rolesScopes, id) == Elements(names)
    ensures t'.users == t.users && t'.usersRoles == t.usersRoles
  {
  }

  lemma Rewritten(w: World, role: Role, names: set<string>, user: string, f: Event)
    requires f.Rewrite? && |f.names| == |f.drawn| && Drawn(f.drawn, w.s.t.scopes) && GoodScopes(f.names) && f.kind in TYPES
    requires OneRole(w, f.id, role, names, {user}, {(user, f.id)}) && !role.isSystem
    ensures var w' := Apply(w, f);
      && OneRole(w', f.id, role.(description := f.description, kind := TYPES[f.kind]), Elements(f.names), {user}, {(user, f.id)})
      && user !in w'.s.cache
  {
    RewriteIsUpdate(w, f);
    var (t', o) := UpdateRole(w.s.t, f.id, f.description, f.kind, f.names, f.drawn);
    UpdateRewrites(w.s.t, f.id, f.description, f.kind, f.names, f.drawn);
    StaysOneRole(w.s.t, t', o, f.id, f.names, role, role.(description := f.description, kind := TYPES[f.kind]));
    RewriteEffect(w.s, f.id, f.description, f.kind, f.names, f.drawn);
    EventKeeps(w, f);
  }

  lemma Taken(w: World, id: string, role: Role, names: set<string>, user: string)
    requires OneRole(w, id, role, names, {user}, {(user, id)})
    ensures OneRole(Apply(w, RemoveFrom(user, id)), id, role, names, {user}, {})
  {
    RemoveIff(w.s.t, user, id);
    EventKeeps(w, RemoveFrom(user, id));
    assert RemoveRole(w.s.t, user, id).0.usersRoles == {};
  }

  /** A held role is rewritten: its holder has exactly the new scopes, and the entry is gone. It cannot be deleted while
    * it is held; it is taken away, its holder has no scopes, and it can. */
  lemma RoleEnds(w: World, role: Role, names: set<string>, user: string, f: Event)
    requires f.Rewrite? && |f.names| == |f.drawn| && Drawn(f.drawn, w.s.t.scopes) && GoodScopes(f.names) && f.kind in TYPES
    requires OneRole(w, f.id, role, names, {user}, {(user, f.id)}) && !role.isSystem
    ensures var rewritten := Apply(w, f);
      var taken := Apply(rewritten, RemoveFrom(user, f.id));
      && UserScopes(rewritten.s.t, user) == Elements(f.names) && user !in rewritten.s.cache
      && f.id in Apply(rewritten, Delete(f.id)).s.t.roles
      && UserScopes(taken.s.t, user) == {}
      && f.id !in Apply(taken, Delete(f.id)).s.t.roles
  {
    var rewritten := Apply(w, f);
    Rewritten(w, role, names, user, f);
    OnlyRole(rewritten.s.t, user, f.id);
    var role' := role.(description := f.description, kind := TYPES[f.kind]);
    Taken(rewritten, f.id, role', Elements(f.names), user);
    assert (user, f.id) in rewritten.s.t.usersRoles;
    DeleteIff(rewritten.s.t, f.id);
    DeleteIff(Apply(rewritten, RemoveFrom(user, f.id)).s.t, f.id);
  }
}
