/** Roles, the scopes they grant and the users that hold them.
  *
  * Tables are relations over ids; the scope table maps ids to names, so that names being unique is a
  * property to keep and not an encoding. Ids of new rows are drawn by the caller. */
module Roles {
  import opened Basics
  import opened Scopes
  import opened Text
  import KeyIssuing

  datatype RoleType = ForUsers | ForServiceAccounts | ForBoth

  datatype Role = Role(name: string, description: Option<string>, kind: RoleType, isDefault: bool, isSystem: bool)

  /** `rolesScopes` pairs role and scope ids, `usersRoles` user and role ids. */
  datatype Tables = Tables(users: set<string>, roles: map<string, Role>, scopes: map<string, string>,
                           rolesScopes: set<(string, string)>, usersRoles: set<(string, string)>)

  datatype Outcome = Detail(scopes: seq<string>) | Done | Invalid | NotFound | NameTaken | SystemRole
                   | StillAssigned | TypeMismatch | AlreadyAssigned | NoSuchRole

  function ParseType(s: string): Option<RoleType> {
    match s
    case "user" => Some(ForUsers)
    case "service_account" => Some(ForServiceAccounts)
    case "both" => Some(ForBoth)
    case _ => None
  }

  predicate ValidRoleName(name: string) {
    1 <= |name| <= 128 && forall c :: c in name ==> IsSegmentChar(c)
  }

  predicate ValidRoleScopes(names: seq<string>) {
    names != [] && forall w :: w in names ==> Validate(w).Ok?
  }

  /** The names a role grants. */
  function RoleScopes(scopes: map<string, string>, rolesScopes: set<(string, string)>, role: string): set<string> {
    set q | q in rolesScopes && q.0 == role && q.1 in scopes :: scopes[q.1]
  }

  /** The names a user holds through roles: the join behind scope expansion. */
  function UserScopes(t: Tables, user: string): set<string> {
    set p, q | p in t.usersRoles && q in t.rolesScopes && p.0 == user && p.1 == q.0 && q.1 in t.scopes :: t.scopes[q.1]
  }

  /** The strictly increasing listing of a set of names. */
  ghost function Listing(names: set<string>): (xs: seq<string>)
    ensures Lists(xs, names)
  {
    if names == {} then []
    else
      var x :| x in names;
      var rest := Listing(names - {x});
      InsertLists(x, rest);
      assert names == (names - {x}) + {x};
      Insert(x, rest)
  }

  /** The id under which a name is stored. */
  ghost function FindScope(scopes: map<string, string>, name: string): Option<string> {
    if exists id :: id in scopes && scopes[id] == name
    then var id :| id in scopes && scopes[id] == name; Some(id)
    else None
  }

  /** One pass of `insert_role_scopes`: an unknown scope is created under the drawn id. */
  ghost function AddScope(t: Tables, role: string, name: string, drawn: string): Tables {
    match FindScope(t.scopes, name)
    case Some(id) => t.(rolesScopes := t.rolesScopes + {(role, id)})
    case None => t.(scopes := t.scopes[drawn := name], rolesScopes := t.rolesScopes + {(role, drawn)})
  }

  ghost function AddScopes(t: Tables, role: string, names: seq<string>, drawn: seq<string>): Tables
    requires |names| == |drawn|
  {
    if names == [] then t
    else
      var n := |names| - 1;
      AddScope(AddScopes(t, role, names[..n], drawn[..n]), role, names[n], drawn[n])
  }

  lemma AddScopesStep(t: Tables, role: string, names: seq<string>, drawn: seq<string>, i: nat)
    requires |names| == |drawn| && i < |names|
    ensures AddScopes(t, role, names[..i + 1], drawn[..i + 1])
         == AddScope(AddScopes(t, role, names[..i], drawn[..i]), role, names[i], drawn[i])
  {
    assert names[..i + 1][..i] == names[..i] && drawn[..i + 1][..i] == drawn[..i];
  }

  predicate NameInUse(roles: map<string, Role>, name: string) {
    exists r :: r in roles && roles[r].name == name
  }

  ghost function CreateRole(t: Tables, id: string, name: string, description: Option<string>, kind: string,
                            names: seq<string>, drawn: seq<string>): (Tables, Outcome)
    requires |names| == |drawn|
  {
    if !ValidRoleName(name) || !ValidRoleScopes(names) || ParseType(kind).None? then (t, Invalid)
    else if NameInUse(t.roles, name) then (t, NameTaken)
    else
      var role := Role(name, description, ParseType(kind).value, false, false);
      var t' := AddScopes(t.(roles := t.roles[id := role]), id, names, drawn);
      (t', Detail(Listing(RoleScopes(t'.scopes, t'.rolesScopes, id))))
  }

  function WithoutRole(rolesScopes: set<(string, string)>, role: string): set<(string, string)> {
    set q | q in rolesScopes && q.0 != role
  }

  ghost function UpdateRole(t: Tables, id: string, description: Option<string>, kind: string,
                            names: seq<string>, drawn: seq<string>): (Tables, Outcome)
    requires |names| == |drawn|
  {
    if !ValidRoleScopes(names) || ParseType(kind).None? then (t, Invalid)
    else if id !in t.roles then (t, NotFound)
    else if t.roles[id].isSystem then (t, SystemRole)
    else
      var role := t.roles[id].(description := description, kind := ParseType(kind).value);
      var cleared := t.(roles := t.roles[id := role], rolesScopes := WithoutRole(t.rolesScopes, id));
      var t' := AddScopes(cleared, id, names, drawn);
      (t', Detail(Listing(RoleScopes(t'.scopes, t'.rolesScopes, id))))
  }

  function Holders(usersRoles: set<(string, string)>, role: string): set<string> {
    set p | p in usersRoles && p.1 == role :: p.0
  }

  function DeleteRole(t: Tables, id: string): (Tables, Outcome) {
    if id !in t.roles then (t, NotFound)
    else if t.roles[id].isSystem then (t, SystemRole)
    else if Holders(t.usersRoles, id) != {} then (t, StillAssigned)
    else (t.(roles := t.roles - {id}, rolesScopes := WithoutRole(t.rolesScopes, id)), Done)
  }

  /** A role of type service_account violates the table's check constraint, an unknown one its foreign key. */
  function AssignRole(t: Tables, user: string, role: string): (Tables, Outcome) {
    if user !in t.users then (t, NotFound)
    else if role !in t.roles then (t, NoSuchRole)
    else if t.roles[role].kind == ForServiceAccounts then (t, TypeMismatch)
    else if (user, role) in t.usersRoles then (t, AlreadyAssigned)
    else (t.(usersRoles := t.usersRoles + {(user, role)}), Done)
  }

  function RemoveRole(t: Tables, user: string, role: string): (Tables, Outcome) {
    if user !in t.users || (user, role) !in t.usersRoles then (t, NotFound)
    else (t.(usersRoles := t.usersRoles - {(user, role)}), Done)
  }

  predicate IsDefaultRole(roles: map<string, Role>, role: string) {
    role in roles && roles[role].isDefault && roles[role].kind != ForServiceAccounts
  }

  /** An administrator creates a user, who gets every default role. */
  function CreateUser(t: Tables, user: string): Tables {
    t.(users := t.users + {user},
       usersRoles := t.usersRoles + set r | r in t.roles && IsDefaultRole(t.roles, r) :: (user, r))
  }

  /** Self-registration gives one default role, the one the query happened to return, if there is any. */
  function Register(t: Tables, user: string, role: string): Tables {
    t.(users := t.users + {user},
       usersRoles := if IsDefaultRole(t.roles, role) then t.usersRoles + {(user, role)} else t.usersRoles)
  }

  /** Foreign keys and the two uniqueness constraints. */
  ghost predicate WellFormed(t: Tables) {
    && KeyIssuing.UniqueNames(t.scopes)
    && (forall q :: q in t.rolesScopes ==> q.0 in t.roles && q.1 in t.scopes)
    && (forall p :: p in t.usersRoles ==> p.0 in t.users && p.1 in t.roles)
    && UniqueRoleNames(t.roles)
  }

  ghost predicate UniqueRoleNames(roles: map<string, Role>) {
    forall r, s :: r in roles && s in roles && roles[r].name == roles[s].name ==> r == s
  }

  /** Ids drawn for new scopes are new and distinct. */
  ghost predicate Drawn(drawn: seq<string>, scopes: map<string, string>) {
    && (forall i :: 0 <= i < |drawn| ==> drawn[i] !in scopes)
    && (forall i, j :: 0 <= i < j < |drawn| ==> drawn[i] != drawn[j])
  }

  // The rewrite

  /** The effect of giving `role` the scopes `names` on top of what it had. */
  ghost predicate Granted(t: Tables, t': Tables, role: string, names: set<string>) {
    && t' == t.(scopes := t'.scopes, rolesScopes := t'.rolesScopes)
    && KeyIssuing.UniqueNames(t'.scopes)
    && (forall id :: id in t.scopes ==> id in t'.scopes && t'.scopes[id] == t.scopes[id])
    && t'.scopes.Values == t.scopes.Values + names
    && (forall q :: q in t'.rolesScopes ==> q.1 in t'.scopes)
    && (forall q: (string, string) :: q.0 != role ==> (q in t'.rolesScopes <==> q in t.rolesScopes))
    && RoleScopes(t'.scopes, t'.rolesScopes, role) == RoleScopes(t.scopes, t.rolesScopes, role) + names
  }

  ghost predicate Sound(t: Tables) {
    KeyIssuing.UniqueNames(t.scopes) && forall q :: q in t.rolesScopes ==> q.1 in t.scopes
  }

  lemma ValuesGrow(m: map<string, string>, k: string, v: string)
    requires k !in m
    ensures m[k := v].Values == m.Values + {v}
  {
    var n := m[k := v];
    assert k in n;
    forall x | x in m.Values ensures x in n.Values {
      var i :| i in m && m[i] == x;
      assert n[i] == x;
    }
  }

  lemma AddScopeGrants(t: Tables, role: string, name: string, drawn: string)
    requires Sound(t) && drawn !in t.scopes
    ensures Granted(t, AddScope(t, role, name, drawn), role, {name})
    ensures AddScope(t, role, name, drawn).scopes.Keys <= t.scopes.Keys + {drawn}
  {
    var t' := AddScope(t, role, name, drawn);
    var before := RoleScopes(t.scopes, t.rolesScopes, role);
    var after := RoleScopes(t'.scopes, t'.rolesScopes, role);
    var id := if FindScope(t.scopes, name).Some? then FindScope(t.scopes, name).value else drawn;
    assert t'.rolesScopes == t.rolesScopes + {(role, id)} && t'.scopes[id] == name;
    assert name in after by { assert (role, id) in t'.rolesScopes; }
    forall n | n in before ensures n in after {
      var q :| q in t.rolesScopes && q.0 == role && q.1 in t.scopes && t.scopes[q.1] == n;
      assert q in t'.rolesScopes && t'.scopes[q.1] == n;
    }
    assert after == before + {name};
    if FindScope(t.scopes, name).None? {
      ValuesGrow(t.scopes, drawn, name);
    }
  }

  lemma LastElement<T>(xs: seq<T>, n: nat)
    requires |xs| == n + 1
    ensures Elements(xs) == Elements(xs[..n]) + {xs[n]}
  {
    assert xs == xs[..n] + [xs[n]];
  }

  lemma DrawnLast(drawn: seq<string>, n: nat, scopes: map<string, string>, grown: map<string, string>)
    requires |drawn| == n + 1 && Drawn(drawn, scopes) && grown.Keys <= scopes.Keys + Elements(drawn[..n])
    ensures drawn[n] !in grown
  {
    assert drawn[n] !in Elements(drawn[..n]);
  }

  /** After the loop the role grants what it granted plus exactly the requested names, repeated or unknown
    * as they may be; every other role is untouched, names stay unique and the scope table only grows. */
  lemma {:induction false} AddScopesGrants(t: Tables, role: string, names: seq<string>, drawn: seq<string>)
    requires |names| == |drawn| && Sound(t) && Drawn(drawn, t.scopes)
    ensures Granted(t, AddScopes(t, role, names, drawn), role, Elements(names))
    ensures AddScopes(t, role, names, drawn).scopes.Keys <= t.scopes.Keys + Elements(drawn)
    decreases |names|
  {
    if names != [] {
      var n := |names| - 1;
      var front := AddScopes(t, role, names[..n], drawn[..n]);
      AddScopesGrants(t, role, names[..n], drawn[..n]);
      DrawnLast(drawn, n, t.scopes, front.scopes);
      AddScopeGrants(front, role, names[n], drawn[n]);
      GrantedTwice(t, front, AddScope(front, role, names[n], drawn[n]), role, Elements(names[..n]), {names[n]});
      LastElement(names, n);
      LastElement(drawn, n);
    } else {
      assert t.scopes.Values + Elements(names) == t.scopes.Values;
    }
  }

  lemma GrantedTwice(t: Tables, u: Tables, v: Tables, role: string, first: set<string>, second: set<string>)
    requires Granted(t, u, role, first) && Granted(u, v, role, second)
    ensures Granted(t, v, role, first + second)
  {
  }

  lemma SameRoleScopes(t: Tables, t': Tables, role: string)
    requires forall id :: id in t.scopes ==> id in t'.scopes && t'.scopes[id] == t.scopes[id]
    requires forall q :: q in t.rolesScopes ==> q.1 in t.scopes
    requires forall q: (string, string) :: q.0 == role ==> (q in t'.rolesScopes <==> q in t.rolesScopes)
    ensures RoleScopes(t'.scopes, t'.rolesScopes, role) == RoleScopes(t.scopes, t.rolesScopes, role)
  {
    var before := RoleScopes(t.scopes, t.rolesScopes, role);
    var after := RoleScopes(t'.scopes, t'.rolesScopes, role);
    forall n | n in before ensures n in after {
      var q :| q in t.rolesScopes && q.0 == role && q.1 in t.scopes && t.scopes[q.1] == n;
      assert q in t'.rolesScopes && t'.scopes[q.1] == n;
    }
    forall n | n in after ensures n in before {
      var q :| q in t'.rolesScopes && q.0 == role && q.1 in t'.scopes && t'.scopes[q.1] == n;
      assert q in t.rolesScopes && t.scopes[q.1] == n;
    }
  }

  /** What a successful create or update leaves behind. */
  ghost predicate Rewritten(t: Tables, t': Tables, o: Outcome, id: string, names: seq<string>) {
    && o.Detail? && Lists(o.scopes, Elements(names))
    && RoleScopes(t'.scopes, t'.rolesScopes, id) == Elements(names)
    && (forall r :: r != id ==> RoleScopes(t'.scopes, t'.rolesScopes, r) == RoleScopes(t.scopes, t.rolesScopes, r))
    && (forall r :: r in t.roles && r != id ==> r in t'.roles && t'.roles[r] == t.roles[r])
    && (forall s :: s in t.scopes ==> s in t'.scopes && t'.scopes[s] == t.scopes[s])
    && t'.scopes.Values == t.scopes.Values + Elements(names)
    && t'.users == t.users && t'.usersRoles == t.usersRoles
    && WellFormed(t')
  }

  lemma OthersKeep(t: Tables, start: Tables, t': Tables, id: string, names: set<string>)
    requires Sound(t) && start.scopes == t.scopes && Granted(start, t', id, names)
    requires forall q: (string, string) :: q.0 != id ==> (q in start.rolesScopes <==> q in t.rolesScopes)
    ensures forall r :: r != id ==> RoleScopes(t'.scopes, t'.rolesScopes, r) == RoleScopes(t.scopes, t.rolesScopes, r)
  {
    forall r | r != id ensures RoleScopes(t'.scopes, t'.rolesScopes, r) == RoleScopes(t.scopes, t.rolesScopes, r) {
      SameRoleScopes(t, t', r);
    }
  }

  /** From a state in which the role grants nothing, the loop completes the rewrite. */
  lemma LoopRewrites(t: Tables, start: Tables, id: string, names: seq<string>, drawn: seq<string>, xs: seq<string>)
    requires |names| == |drawn| && WellFormed(t) && Drawn(drawn, t.scopes)
    requires start == t.(roles := start.roles, rolesScopes := WithoutRole(t.rolesScopes, id))
    requires start.roles.Keys == t.roles.Keys + {id} && UniqueRoleNames(start.roles)
    requires forall r :: r in t.roles && r != id ==> r in start.roles && start.roles[r] == t.roles[r]
    requires var t' := AddScopes(start, id, names, drawn); xs == Listing(RoleScopes(t'.scopes, t'.rolesScopes, id))
    ensures Rewritten(t, AddScopes(start, id, names, drawn), Detail(xs), id, names)
    ensures AddScopes(start, id, names, drawn).roles == start.roles
  {
    AddScopesGrants(start, id, names, drawn);
    var t' := AddScopes(start, id, names, drawn);
    assert RoleScopes(start.scopes, start.rolesScopes, id) == {};
    assert {} + Elements(names) == Elements(names);
    OthersKeep(t, start, t', id, Elements(names));
    StaysWellFormed(t, t', id);
  }

  lemma StaysWellFormed(t: Tables, t': Tables, id: string)
    requires WellFormed(t) && t'.users == t.users && t'.usersRoles == t.usersRoles
    requires KeyIssuing.UniqueNames(t'.scopes) && UniqueRoleNames(t'.roles) && t'.roles.Keys == t.roles.Keys + {id}
    requires forall q :: q in t'.rolesScopes ==> q.1 in t'.scopes
    requires forall q: (string, string) :: q.0 != id ==> (q in t'.rolesScopes <==> q in t.rolesScopes)
    ensures WellFormed(t')
  {
    forall q | q in t'.rolesScopes ensures q.0 in t'.roles && q.1 in t'.scopes {
      if q.0 != id { assert q in t.rolesScopes; }
    }
  }

  ghost predicate GoodName(name: string) {
    1 <= |name| <= 128 && forall c :: c in name ==> InAlphabet(c)
  }

  /** At least one scope, each in the grammar. */
  ghost predicate GoodScopes(names: seq<string>) {
    names != [] && forall w :: w in names ==> InGrammar(w)
  }

  /** The types a role may have, by name. */
  ghost const TYPES: map<string, RoleType> := map["user" := ForUsers, "service_account" := ForServiceAccounts, "both" := ForBoth]

  lemma InputIff(name: string, names: seq<string>, kind: string)
    ensures ValidRoleName(name) <==> GoodName(name)
    ensures ValidRoleScopes(names) <==> GoodScopes(names)
    ensures ParseType(kind).Some? <==> kind in TYPES
    ensures kind in TYPES ==> ParseType(kind) == Some(TYPES[kind])
  {
    assert forall c :: InAlphabet(c) <==> IsSegmentChar(c);
    forall w ensures Validate(w).Ok? <==> InGrammar(w) {
      ValidateIffScope(w);
    }
  }

  /** Creating a role, on the rows: done exactly for a name of up to 128 letters, digits, hyphens and underscores that
    * no role has, a known type, and scopes of the grammar; the role then grants exactly those, and is neither default
    * nor system. */
  lemma CreateRewrites(t: Tables, id: string, name: string, description: Option<string>, kind: string,
                       names: seq<string>, drawn: seq<string>)
    requires |names| == |drawn| && WellFormed(t) && id !in t.roles && Drawn(drawn, t.scopes)
    ensures var (t', o) := CreateRole(t, id, name, description, kind, names, drawn);
      var good := GoodName(name) && GoodScopes(names) && kind in TYPES;
      var taken := exists r :: r in t.roles && t.roles[r].name == name;
      if good && !taken
      then Rewritten(t, t', o, id, names)
        && t'.roles == t.roles[id := Role(name, description, TYPES[kind], false, false)]
      else t' == t && o == if good then NameTaken else Invalid
  {
    var (t', o) := CreateRole(t, id, name, description, kind, names, drawn);
    InputIff(name, names, kind);
    if o.Detail? {
      var start := t.(roles := t.roles[id := Role(name, description, ParseType(kind).value, false, false)]);
      assert WithoutRole(t.rolesScopes, id) == t.rolesScopes;
      LoopRewrites(t, start, id, names, drawn, o.scopes);
    }
  }

  /** Rewriting a role, on the rows. */
  lemma UpdateRewrites(t: Tables, id: string, description: Option<string>, kind: string,
                       names: seq<string>, drawn: seq<string>)
    requires |names| == |drawn| && WellFormed(t) && Drawn(drawn, t.scopes)
    ensures var (t', o) := UpdateRole(t, id, description, kind, names, drawn);
      var good := GoodScopes(names) && kind in TYPES;
      if good && id in t.roles && !t.roles[id].isSystem
      then Rewritten(t, t', o, id, names)
        && t'.roles == t.roles[id := t.roles[id].(description := description, kind := TYPES[kind])]
      else t' == t && o == if !good then Invalid else if id !in t.roles then NotFound else SystemRole
  {
    var (t', o) := UpdateRole(t, id, description, kind, names, drawn);
    InputIff("", names, kind);
    if o.Detail? {
      var role := t.roles[id].(description := description, kind := ParseType(kind).value);
      var start := t.(roles := t.roles[id := role], rolesScopes := WithoutRole(t.rolesScopes, id));
      LoopRewrites(t, start, id, names, drawn, o.scopes);
    }
  }

  /** Deleting a role, on the rows: refused for an unknown role, a system role and one that somebody holds; else its row
    * and its scope pairs go, and nothing else. */
  lemma DeleteIff(t: Tables, id: string)
    ensures var (t', o) := DeleteRole(t, id);
      var held := exists u :: (u, id) in t.usersRoles;
      && (o == NotFound <==> id !in t.roles)
      && (o == SystemRole <==> id in t.roles && t.roles[id].isSystem)
      && (o == StillAssigned <==> id in t.roles && !t.roles[id].isSystem && held)
      && (o == Done <==> id in t.roles && !t.roles[id].isSystem && !held)
      && (o != Done ==> t' == t)
      && (o == Done ==>
            && t' == t.(roles := t'.roles, rolesScopes := t'.rolesScopes)
            && t'.roles.Keys == t.roles.Keys - {id} && (forall r :: r in t'.roles ==> t'.roles[r] == t.roles[r])
            && forall r, s :: (r, s) in t'.rolesScopes <==> (r, s) in t.rolesScopes && r != id)
  {
    forall u ensures (u, id) in t.usersRoles <==> u in Holders(t.usersRoles, id) {
      assert (u, id).0 == u && (u, id).1 == id;
    }
    forall r, s ensures (r, s) in WithoutRole(t.rolesScopes, id) <==> (r, s) in t.rolesScopes && r != id {
      assert (r, s).0 == r;
    }
  }

  /** Assigning a role, on the rows. */
  lemma AssignIff(t: Tables, user: string, role: string)
    ensures var (t', o) := AssignRole(t, user, role);
      var holdable := user in t.users && role in t.roles && t.roles[role].kind in {ForUsers, ForBoth};
      && (o == NotFound <==> user !in t.users)
      && (o == NoSuchRole <==> user in t.users && role !in t.roles)
      && (o == TypeMismatch <==> user in t.users && role in t.roles && t.roles[role].kind == ForServiceAccounts)
      && (o == AlreadyAssigned <==> holdable && (user, role) in t.usersRoles)
      && (o == Done <==> holdable && (user, role) !in t.usersRoles)
      && t' == t.(usersRoles := t'.usersRoles)
      && forall u, r :: (u, r) in t'.usersRoles <==> (u, r) in t.usersRoles || ((u, r) == (user, role) && holdable)
  {
  }

  /** Removing a role, on the rows. */
  lemma RemoveIff(t: Tables, user: string, role: string)
    ensures var (t', o) := RemoveRole(t, user, role);
      var held := user in t.users && (user, role) in t.usersRoles;
      && (o == Done <==> held) && (o == NotFound <==> !held)
      && t' == t.(usersRoles := t'.usersRoles)
      && forall u, r :: (u, r) in t'.usersRoles <==> (u, r) in t.usersRoles && !((u, r) == (user, role) && held)
  {
  }

  /** A role every new user gets. */
  ghost predicate GivenToAll(t: Tables, r: string) {
    r in t.roles && t.roles[r].isDefault && t.roles[r].kind in {ForUsers, ForBoth}
  }

  /** The administrator's user creation, on the rows: the user gets exactly the default roles that users may hold. */
  lemma CreateUserIff(t: Tables, user: string)
    ensures var t' := CreateUser(t, user);
      && t' == t.(users := t.users + {user}, usersRoles := t'.usersRoles)
      && forall u, r :: (u, r) in t'.usersRoles <==> (u, r) in t.usersRoles || (u == user && GivenToAll(t, r))
  {
  }

  /** Self-registration, on the rows: at most the one default role that was found. */
  lemma RegisterIff(t: Tables, user: string, role: string)
    ensures var t' := Register(t, user, role);
      && t' == t.(users := t.users + {user}, usersRoles := t'.usersRoles)
      && forall u, r :: (u, r) in t'.usersRoles <==>
           (u, r) in t.usersRoles || (u == user && r == role && GivenToAll(t, r))
  {
  }
}
