/** The role handlers and the scope expander as they run: loops over rows, tables changed in place, and the
  * cache entries they delete. Each is proved against the table functions of Roles and ScopeCache. */
module RoleService {
  import opened Basics
  import opened Redis
  import opened Roles
  import opened Text
  import KeyIssuing
  import ScopeCache

  class RoleService {
    var users: set<string>
    var roles: map<string, Role>
    var scopes: map<string, string>
    var rolesScopes: set<(string, string)>
    var usersRoles: set<(string, string)>
    const cache: Cache<string, string>

    constructor (cache: Cache<string, string>, roles: map<string, Role>, scopes: map<string, string>,
                 rolesScopes: set<(string, string)>)
      ensures this.cache == cache && Contents() == Tables({}, roles, scopes, rolesScopes, {})
    {
      this.cache := cache;
      this.roles, this.scopes, this.rolesScopes := roles, scopes, rolesScopes;
      users, usersRoles := {}, {};
    }

    ghost function Contents(): Tables
      reads this
    {
      Tables(users, roles, scopes, rolesScopes, usersRoles)
    }

    ghost function Whole(now: int): ScopeCache.Sys
      reads this, cache
    {
      ScopeCache.Sys(now, Contents(), cache.entries)
    }

    method LookUpScope(name: string) returns (found: Option<string>)
      requires KeyIssuing.UniqueNames(scopes)
      ensures found == FindScope(scopes, name)
    {
      if id :| id in scopes && scopes[id] == name {
        return Some(id);
      }
      return None;
    }

    method InsertRoleScopes(role: string, names: seq<string>, drawn: seq<string>)
      requires |names| == |drawn| && Sound(Contents()) && Drawn(drawn, scopes)
      modifies this`scopes, this`rolesScopes
      ensures Contents() == AddScopes(old(Contents()), role, names, drawn)
    {
      assert names[..0] == [] && drawn[..0] == [];
      for i := 0 to |names|
        invariant Contents() == AddScopes(old(Contents()), role, names[..i], drawn[..i])
      {
        AddScopesGrants(old(Contents()), role, names[..i], drawn[..i]);
        AddScopesStep(old(Contents()), role, names, drawn, i);
        var found := LookUpScope(names[i]);
        if found.Some? {
          rolesScopes := rolesScopes + {(role, found.value)};
        } else {
          scopes := scopes[drawn[i] := names[i]];
          rolesScopes := rolesScopes + {(role, drawn[i])};
        }
      }
      assert names[..|names|] == names && drawn[..|drawn|] == drawn;
    }

    method Sorted(names: set<string>) returns (xs: seq<string>)
      ensures xs == Listing(names)
    {
      var rest := names;
      xs := [];
      while rest != {}
        invariant rest <= names && Lists(xs, names - rest)
        decreases |rest|
      {
        var x :| x in rest;
        InsertLists(x, xs);
        xs := Insert(x, xs);
        assert names - (rest - {x}) == (names - rest) + {x};
        rest := rest - {x};
      }
      ListsUnique(xs, Listing(names));
    }

    method InvalidateUsersWithRole(role: string)
      modifies cache
      ensures cache.entries == old(cache.entries) - Holders(usersRoles, role)
    {
      var holders := Holders(usersRoles, role);
      var rest := holders;
      while rest != {}
        invariant rest <= holders && cache.entries == old(cache.entries) - (holders - rest)
        decreases |rest|
      {
        var user :| user in rest;
        cache.Delete(user);
        rest := rest - {user};
      }
    }

    method Create(id: string, name: string, description: Option<string>, kind: string, names: seq<string>,
                  drawn: seq<string>) returns (o: Outcome)
      requires WellFormed(Contents()) && |names| == |drawn| && id !in roles && Drawn(drawn, scopes)
      modifies this
      ensures (Contents(), o) == CreateRole(old(Contents()), id, name, description, kind, names, drawn)
    {
      if !ValidRoleName(name) || !ValidRoleScopes(names) {
        return Invalid;
      }
      var parsed := ParseType(kind);
      if parsed.None? {
        return Invalid;
      }
      if NameInUse(roles, name) {
        return NameTaken;
      }
      roles := roles[id := Role(name, description, parsed.value, false, false)];
      InsertRoleScopes(id, names, drawn);
      var listed := Sorted(RoleScopes(scopes, rolesScopes, id));
      return Detail(listed);
    }

    method Update(id: string, description: Option<string>, kind: string, names: seq<string>, drawn: seq<string>,
                  ghost now: int) returns (o: Outcome)
      requires WellFormed(Contents()) && |names| == |drawn| && Drawn(drawn, scopes)
      modifies this, cache
      ensures (Whole(now), o) == ScopeCache.Update(old(Whole(now)), id, description, kind, names, drawn)
    {
      if !ValidRoleScopes(names) {
        return Invalid;
      }
      var parsed := ParseType(kind);
      if parsed.None? {
        return Invalid;
      }
      if id !in roles {
        return NotFound;
      }
      if roles[id].isSystem {
        return SystemRole;
      }
      roles := roles[id := roles[id].(description := description, kind := parsed.value)];
      rolesScopes := WithoutRole(rolesScopes, id);
      InsertRoleScopes(id, names, drawn);
      InvalidateUsersWithRole(id);
      var listed := Sorted(RoleScopes(scopes, rolesScopes, id));
      return Detail(listed);
    }

    method Delete(id: string) returns (o: Outcome)
      modifies this
      ensures (Contents(), o) == DeleteRole(old(Contents()), id)
    {
      if id !in roles {
        return NotFound;
      }
      if roles[id].isSystem {
        return SystemRole;
      }
      if Holders(usersRoles, id) != {} {
        return StillAssigned;
      }
      rolesScopes := WithoutRole(rolesScopes, id);
      roles := roles - {id};
      return Done;
    }

    method Assign(user: string, role: string, ghost now: int) returns (o: Outcome)
      modifies this, cache
      ensures (Whole(now), o) == ScopeCache.Assign(old(Whole(now)), user, role)
    {
      if user !in users {
        return NotFound;
      }
      if role !in roles {
        return NoSuchRole;
      }
      if roles[role].kind == ForServiceAccounts {
        return TypeMismatch;
      }
      if (user, role) in usersRoles {
        return AlreadyAssigned;
      }
      usersRoles := usersRoles + {(user, role)};
      cache.Delete(user);
      return Done;
    }

    method Remove(user: string, role: string, ghost now: int) returns (o: Outcome)
      modifies this, cache
      ensures (Whole(now), o) == ScopeCache.Remove(old(Whole(now)), user, role)
    {
      if user !in users || (user, role) !in usersRoles {
        return NotFound;
      }
      usersRoles := usersRoles - {(user, role)};
      cache.Delete(user);
      return Done;
    }

    /** The administrator's user creation: a loop over the default roles. */
    method NewUser(user: string)
      modifies this
      ensures Contents() == CreateUser(old(Contents()), user)
    {
      users := users + {user};
      var given := set r | r in roles && IsDefaultRole(roles, r);
      var rest := given;
      while rest != {}
        invariant rest <= given && Contents() == old(Contents()).(users := users, usersRoles := usersRoles)
        invariant users == old(users) + {user}
        invariant usersRoles == old(usersRoles) + set r | r in given - rest :: (user, r)
        decreases |rest|
      {
        var r :| r in rest;
        usersRoles := usersRoles + {(user, r)};
        assert given - (rest - {r}) == (given - rest) + {r};
        rest := rest - {r};
      }
      assert given - rest == given;
    }

    method SelfRegister(user: string, role: string, ghost now: int)
      modifies this, cache
      ensures Whole(now) == ScopeCache.SelfRegister(old(Whole(now)), user, role)
    {
      users := users + {user};
      if IsDefaultRole(roles, role) {
        usersRoles := usersRoles + {(user, role)};
        cache.Delete(user);
      }
    }

    method Expand(user: string, now: int) returns (joined: string)
      modifies cache
      ensures (Whole(now), joined) == ScopeCache.Expand(old(Whole(now)), user)
    {
      var cached := cache.Read(user, now);
      if cached.Some? {
        return cached.value;
      }
      var listed := Sorted(UserScopes(Tables(users, roles, scopes, rolesScopes, usersRoles), user));
      joined := Join(listed, ' ');
      cache.Write(user, joined, ScopeCache.CACHE_TTL, now);
    }
  }
}
