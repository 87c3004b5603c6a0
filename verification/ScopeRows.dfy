/** The rows behind scope expansion while the role handlers interleave: constraints and system roles. */
module ScopeRows {
  import opened Basics
  import opened Roles
  import opened ScopeStaleness
  import KeyIssuing

  /** A request grants default roles only to a user whose row it has inserted. */
  ghost predicate PcOk(t: Tables, pc: Pc) {
    (pc.DefaultRoles? || pc.GrantRoles?) ==> pc.user in t.users
  }

  ghost predicate Sound(s: Sys) {
    WellFormed(s.t) && forall q :: q in s.reqs ==> PcOk(s.t, s.reqs[q])
  }

  lemma ScopeAdded(t: Tables, role: string, name: string, drawn: string)
    requires WellFormed(t) && role in t.roles && drawn !in t.scopes
    ensures WellFormed(AddScope(t, role, name, drawn))
  {
    AddScopeGrants(t, role, name, drawn);
    var t' := AddScope(t, role, name, drawn);
    forall q | q in t'.rolesScopes ensures q.0 in t'.roles && q.1 in t'.scopes {
      if q.0 != role { assert q in t.rolesScopes; }
    }
  }

  lemma RoleDeleted(t: Tables, role: string)
    requires WellFormed(t)
    ensures WellFormed(DeleteRole(t, role).0)
  {
    if DeleteRole(t, role).1.Done? {
      forall p | p in t.usersRoles ensures p.1 != role {
        assert p.1 == role ==> p.0 in Holders(t.usersRoles, role);
      }
    }
  }

  lemma TablesKeep(t: Tables, pc: Pc, choice: string)
    requires WellFormed(t) && PcOk(t, pc)
    ensures var (t', pc') := StepTables(t, pc, choice);
      WellFormed(t') && PcOk(t', pc') && t.users <= t'.users
  {
    if pc.InsertScope? {
      if pc.names != [] && pc.role in t.roles && choice !in t.scopes {
        ScopeAdded(t, pc.role, pc.names[0], choice);
        AddScopeGrants(t, pc.role, pc.names[0], choice);
      }
    } else if pc.DeleteRow? {
      RoleDeleted(t, pc.role);
    } else if pc.ClearPairs? {
      assert forall q :: q in WithoutRole(t.rolesScopes, pc.role) ==> q in t.rolesScopes;
    }
  }

  lemma EventKeeps(s: Sys, e: Event)
    requires Sound(s)
    ensures Sound(Apply(s, e))
  {
    if e.Run? && e.q in s.reqs {
      assert PcOk(s.t, s.reqs[e.q]);
      TablesKeep(s.t, s.reqs[e.q], e.choice);
    }
    forall q | q in Apply(s, e).reqs ensures PcOk(Apply(s, e).t, Apply(s, e).reqs[q]) {
      if q in s.reqs { assert PcOk(s.t, s.reqs[q]); }
    }
  }

  lemma {:induction false} RunKeeps(s: Sys, es: seq<Event>)
    requires Sound(s)
    ensures Sound(Exec(s, es))
    decreases |es|
  {
    if es != [] {
      EventKeeps(s, es[0]);
      RunKeeps(Apply(s, es[0]), es[1..]);
    }
  }

  /** Over every interleaving the constraints of the tables hold: names of scopes and of roles are unique, and pairs join
    * rows that exist. */
  lemma ConstraintsHold(now: int, t: Tables, es: seq<Event>)
    requires WellFormed(t)
    ensures WellFormed(Exec(Init(now, t), es).t)
  {
    RunKeeps(Init(now, t), es);
  }

  // System roles

  /** The handler is past the check that refuses system roles. */
  predicate Rewrites(pc: Pc, id: string) {
    (pc.ClearPairs? || pc.InsertScope?) && pc.role == id
  }

  /** The row and the scopes of a system role that no request is rewriting. */
  ghost predicate Fixed(s: Sys, id: string, role: Role, names: set<string>) {
    && id in s.t.roles && s.t.roles[id] == role && role.isSystem
    && RoleScopes(s.t.scopes, s.t.rolesScopes, id) == names
    && forall q :: q in s.reqs ==> !Rewrites(s.reqs[q], id)
  }

  lemma TablesKeepSystem(t: Tables, pc: Pc, choice: string, id: string)
    requires WellFormed(t) && id in t.roles && t.roles[id].isSystem && !Rewrites(pc, id)
    ensures var (t', pc') := StepTables(t, pc, choice);
      && id in t'.roles && t'.roles[id] == t.roles[id] && !Rewrites(pc', id)
      && RoleScopes(t'.scopes, t'.rolesScopes, id) == RoleScopes(t.scopes, t.rolesScopes, id)
  {
    var t' := StepTables(t, pc, choice).0;
    if pc.InsertScope? {
      if pc.names != [] && pc.role in t.roles && choice !in t.scopes {
        AddScopeGrants(t, pc.role, pc.names[0], choice);
        SameRoleScopes(t, t', id);
      }
    } else if pc.DeleteRow? || pc.ClearPairs? {
      SameRoleScopes(t, t', id);
    }
  }

  lemma EventKeepsSystem(s: Sys, e: Event, id: string, role: Role, names: set<string>)
    requires Sound(s) && Fixed(s, id, role, names)
    ensures Fixed(Apply(s, e), id, role, names)
  {
    if e.Run? && e.q in s.reqs {
      assert !Rewrites(s.reqs[e.q], id);
      TablesKeepSystem(s.t, s.reqs[e.q], e.choice, id);
    }
    forall q | q in Apply(s, e).reqs ensures !Rewrites(Apply(s, e).reqs[q], id) {
      if q in s.reqs { assert !Rewrites(s.reqs[q], id); }
    }
  }

  lemma {:induction false} RunKeepsSystem(s: Sys, es: seq<Event>, id: string, role: Role, names: set<string>)
    requires Sound(s) && Fixed(s, id, role, names)
    ensures Fixed(Exec(s, es), id, role, names)
    decreases |es|
  {
    if es != [] {
      EventKeeps(s, es[0]);
      EventKeepsSystem(s, es[0], id, role, names);
      RunKeepsSystem(Apply(s, es[0]), es[1..], id, role, names);
    }
  }

  /** Over every interleaving a system role keeps its row and its scopes, and is never deleted. */
  lemma SystemRolesAreFixed(now: int, t: Tables, es: seq<Event>, id: string)
    requires WellFormed(t) && id in t.roles && t.roles[id].isSystem
    ensures var t' := Exec(Init(now, t), es).t;
      && id in t'.roles && t'.roles[id] == t.roles[id]
      && RoleScopes(t'.scopes, t'.rolesScopes, id) == RoleScopes(t.scopes, t.rolesScopes, id)
  {
    RunKeepsSystem(Init(now, t), es, id, t.roles[id], RoleScopes(t.scopes, t.rolesScopes, id));
  }
}
