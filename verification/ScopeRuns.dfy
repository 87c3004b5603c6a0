/** The interleaved role handlers of ScopeStaleness, run alone: they are the operations of ScopeCache. */
module ScopeRuns {
  import opened Basics
  import opened Redis
  import opened Roles
  import opened Text
  import opened ScopeStaleness
  import KeyIssuing
  import ScopeCache

  /** The statements of request q, one for each choice. */
  ghost function Steps(s: Sys, q: nat, choices: seq<string>): Sys
    decreases |choices|
  {
    if choices == [] then s else Steps(Apply(s, Run(q, choices[0])), q, choices[1..])
  }

  /** Request q arrives with `pc` and runs alone. */
  ghost function Alone(s: Sys, q: nat, pc: Pc, choices: seq<string>): Sys {
    Steps(Apply(s, Arrive(q, pc)), q, choices)
  }

  /** The state s with these tables and this cache, and request q there. */
  ghost function With(s: Sys, q: nat, t: Tables, cache: Store<string, string>, pc: Pc): Sys {
    Sys(s.now, t, cache, s.reqs[q := pc])
  }

  /** What ScopeCache sees of a state. */
  ghost function Whole(s: Sys): ScopeCache.Sys {
    ScopeCache.Sys(s.now, s.t, s.cache)
  }

  /** Run alone, the handler that arrives as `pc` ends like this. */
  ghost predicate Ends(s: Sys, q: nat, pc: Pc, choices: seq<string>, whole: ScopeCache.Sys, end: Pc) {
    Alone(s, q, pc, choices) == Sys(whole.now, whole.t, whole.cache, s.reqs[q := end])
  }

  /** Taking the choices, request q gets from one point to another. */
  ghost predicate Goes(s: Sys, q: nat, t: Tables, c: Store<string, string>, pc: Pc, choices: seq<string>,
                       t': Tables, c': Store<string, string>, pc': Pc)
  {
    Steps(With(s, q, t, c, pc), q, choices) == With(s, q, t', c', pc')
  }

  lemma {:induction false} StepsAppend(s: Sys, q: nat, cs: seq<string>, ds: seq<string>)
    ensures Steps(s, q, cs + ds) == Steps(Steps(s, q, cs), q, ds)
    decreases |cs|
  {
    if cs == [] {
      assert cs + ds == ds;
    } else {
      assert (cs + ds)[1..] == cs[1..] + ds;
      StepsAppend(Apply(s, Run(q, cs[0])), q, cs[1..], ds);
    }
  }

  lemma GoesThen(s: Sys, q: nat, t: Tables, c: Store<string, string>, pc: Pc, cs: seq<string>,
                 t': Tables, c': Store<string, string>, pc': Pc, ds: seq<string>,
                 t'': Tables, c'': Store<string, string>, pc'': Pc)
    requires Goes(s, q, t, c, pc, cs, t', c', pc') && Goes(s, q, t', c', pc', ds, t'', c'', pc'')
    ensures Goes(s, q, t, c, pc, cs + ds, t'', c'', pc'')
  {
    StepsAppend(With(s, q, t, c, pc), q, cs, ds);
  }

  lemma GoesOne(s: Sys, q: nat, t: Tables, c: Store<string, string>, pc: Pc, choice: string)
    requires !Expanding(pc) && !pc.Invalidate?
    ensures Goes(s, q, t, c, pc, [choice], StepTables(t, pc, choice).0, c, StepTables(t, pc, choice).1)
  {
    var u := With(s, q, t, c, pc);
    assert [choice][1..] == [];
    assert Steps(u, q, [choice]) == Apply(u, Run(q, choice));
    assert Apply(u, Run(q, choice)).reqs == s.reqs[q := StepTables(t, pc, choice).1];
  }

  lemma {:induction false} GoesNowhere(s: Sys, q: nat, t: Tables, c: Store<string, string>, choices: seq<string>)
    ensures Goes(s, q, t, c, Finished, choices, t, c, Finished)
    decreases |choices|
  {
    if choices != [] {
      GoesOne(s, q, t, c, Finished, choices[0]);
      GoesNowhere(s, q, t, c, choices[1..]);
      GoesThen(s, q, t, c, Finished, [choices[0]], t, c, Finished, choices[1..], t, c, Finished);
      assert choices == [choices[0]] + choices[1..];
    }
  }

  lemma Arrives(s: Sys, q: nat, pc: Pc, choices: seq<string>, whole: ScopeCache.Sys, end: Pc)
    requires q !in s.reqs && IsStart(pc) && whole.now == s.now
    requires Goes(s, q, s.t, s.cache, pc, choices, whole.t, whole.cache, end)
    ensures Ends(s, q, pc, choices, whole, end)
  {
    assert Apply(s, Arrive(q, pc)) == With(s, q, s.t, s.cache, pc);
  }

  /** An expansion run alone. */
  lemma ExpandIsRun(s: Sys, q: nat, user: string)
    requires q !in s.reqs
    ensures var (whole, v) := ScopeCache.Expand(Whole(s), user);
      Ends(s, q, ExpandGet(user), ["", "", ""], whole, Expanded(user, v))
  {
    var s0 := Apply(s, Arrive(q, ExpandGet(user)));
    var s1 := Apply(s0, Run(q, ""));
    var s2 := Apply(s1, Run(q, ""));
    ThreeSteps(s0, q);
    match Get(s.cache, user, s.now)
    case Some(v) =>
      assert s1.reqs == s.reqs[q := Expanded(user, v)];
    case None =>
      assert s2.reqs == s.reqs[q := ExpandSet(user, ScopeCache.Expansion(s.t, user))];
  }

  lemma ThreeSteps(s: Sys, q: nat)
    ensures Steps(s, q, ["", "", ""]) == Apply(Apply(Apply(s, Run(q, "")), Run(q, "")), Run(q, ""))
  {
    var s1 := Apply(s, Run(q, ""));
    assert ["", "", ""][1..] == ["", ""] && ["", ""][1..] == [""] && [""][1..] == [];
    assert Steps(s1, q, ["", ""]) == Steps(Apply(s1, Run(q, "")), q, [""]);
  }

  // Deleting entries

  lemma GoesDelete(s: Sys, q: nat, t: Tables, c: Store<string, string>, users: set<string>, user: string)
    requires user in users
    ensures Goes(s, q, t, c, Invalidate(users), [user], t, c - {user}, Invalidate(users - {user}))
  {
    var u := With(s, q, t, c, Invalidate(users));
    assert [user][1..] == [];
    assert Steps(u, q, [user]) == Apply(u, Run(q, user));
    assert Apply(u, Run(q, user)).reqs == s.reqs[q := Invalidate(users - {user})];
  }

  lemma GoesDone(s: Sys, q: nat, t: Tables, c: Store<string, string>)
    ensures Goes(s, q, t, c, Invalidate({}), [""], t, c, Finished)
  {
    var u := With(s, q, t, c, Invalidate({}));
    assert [""][1..] == [];
    assert Steps(u, q, [""]) == Apply(u, Run(q, ""));
    assert Apply(u, Run(q, "")).reqs == s.reqs[q := Finished];
  }

  /** A listing of a set, in any order. */
  ghost predicate Orders(order: seq<string>, xs: set<string>) {
    KeyIssuing.Distinct(order) && Elements(order) == xs
  }

  lemma RestOrders(order: seq<string>, xs: set<string>)
    requires order != [] && Orders(order, xs)
    ensures order[0] in xs && Orders(order[1..], xs - {order[0]}) && order == [order[0]] + order[1..]
  {
    var rest := order[1..];
    assert forall i :: 0 <= i < |rest| ==> rest[i] == order[i + 1] && rest[i] != order[0];
    forall x | x in order && x != order[0] ensures x in rest {
      var i :| 0 <= i < |order| && order[i] == x;
      assert rest[i - 1] == x;
    }
  }

  lemma {:induction false} InvalidateIsRun(s: Sys, q: nat, t: Tables, c: Store<string, string>, users: set<string>,
                                           order: seq<string>)
    requires Orders(order, users)
    ensures Goes(s, q, t, c, Invalidate(users), order + [""], t, c - users, Finished)
    decreases |order|
  {
    if order == [] {
      GoesDone(s, q, t, c);
      assert users == {} && order + [""] == [""] && c - users == c;
    } else {
      var u := order[0];
      RestOrders(order, users);
      InvalidateIsRun(s, q, t, c - {u}, users - {u}, order[1..]);
      GoesDelete(s, q, t, c, users, u);
      GoesThen(s, q, t, c, Invalidate(users), [u], t, c - {u}, Invalidate(users - {u}), order[1..] + [""],
               t, c - {u} - (users - {u}), Finished);
      assert order + [""] == [u] + (order[1..] + [""]);
      assert c - {u} - (users - {u}) == c - users;
    }
  }

  lemma OneInvalidated(s: Sys, q: nat, t: Tables, c: Store<string, string>, user: string)
    ensures Goes(s, q, t, c, Invalidate({user}), [user, ""], t, c - {user}, Finished)
  {
    assert [user, ""] == [user] + [""];
    assert Elements([user]) == {user};
    InvalidateIsRun(s, q, t, c, {user}, [user]);
  }

  lemma RowThenEntry(s: Sys, q: nat, pc: Pc, t': Tables, user: string, changed: bool)
    requires q !in s.reqs && IsStart(pc) && !Expanding(pc)
    requires StepTables(s.t, pc, "") == (t', if changed then Invalidate({user}) else Finished)
    ensures Ends(s, q, pc, ["", user, ""], ScopeCache.Sys(s.now, t', if changed then s.cache - {user} else s.cache), Finished)
  {
    var next := if changed then Invalidate({user}) else Finished;
    GoesOne(s, q, s.t, s.cache, pc, "");
    var cache := if changed then s.cache - {user} else s.cache;
    if changed {
      OneInvalidated(s, q, t', s.cache, user);
    } else {
      GoesNowhere(s, q, t', s.cache, [user, ""]);
    }
    GoesThen(s, q, s.t, s.cache, pc, [""], t', s.cache, next, [user, ""], t', cache, Finished);
    assert ["", user, ""] == [""] + [user, ""];
    Arrives(s, q, pc, ["", user, ""], ScopeCache.Sys(s.now, t', cache), Finished);
  }

  /** An assignment and a removal run alone. */
  lemma AssignIsRun(s: Sys, q: nat, user: string, role: string)
    requires q !in s.reqs
    ensures Ends(s, q, AssignRow(user, role), ["", user, ""], ScopeCache.Assign(Whole(s), user, role).0, Finished)
    ensures Ends(s, q, RemoveRow(user, role), ["", user, ""], ScopeCache.Remove(Whole(s), user, role).0, Finished)
  {
    var (t, o) := AssignRole(s.t, user, role);
    RowThenEntry(s, q, AssignRow(user, role), t, user, o.Done?);
    var (t', o') := RemoveRole(s.t, user, role);
    RowThenEntry(s, q, RemoveRow(user, role), t', user, o'.Done?);
  }

  /** A deletion run alone. */
  lemma DeleteIsRun(s: Sys, q: nat, role: string)
    requires q !in s.reqs
    ensures Ends(s, q, DeleteRow(role), [""], Whole(s).(t := DeleteRole(s.t, role).0), Finished)
  {
    GoesOne(s, q, s.t, s.cache, DeleteRow(role), "");
    Arrives(s, q, DeleteRow(role), [""], Whole(s).(t := DeleteRole(s.t, role).0), Finished);
  }

  // The loop over requested scopes

  /** The tables allow the loop for this role. */
  ghost predicate Ready(t: Tables, role: string, names: seq<string>, drawn: seq<string>) {
    role in t.roles && |names| == |drawn| && Roles.Sound(t) && Drawn(drawn, t.scopes)
  }

  lemma {:induction false} InsertsAre(s: Sys, q: nat, t: Tables, c: Store<string, string>, role: string, names: seq<string>,
                                      drawn: seq<string>, updating: bool, i: nat)
    requires Ready(t, role, names, drawn) && i <= |names|
    ensures Goes(s, q, t, c, InsertScope(role, names, updating), drawn[..i],
                 AddScopes(t, role, names[..i], drawn[..i]), c, InsertScope(role, names[i..], updating))
    decreases i
  {
    if i == 0 {
      assert names[0..] == names;
    } else {
      var j := i - 1;
      var t' := AddScopes(t, role, names[..j], drawn[..j]);
      InsertsAre(s, q, t, c, role, names, drawn, updating, j);
      InsertStep(t, role, names, drawn, updating, j);
      GoesOne(s, q, t', c, InsertScope(role, names[j..], updating), drawn[j]);
      GoesThen(s, q, t, c, InsertScope(role, names, updating), drawn[..j], t', c, InsertScope(role, names[j..], updating),
               [drawn[j]], AddScopes(t, role, names[..i], drawn[..i]), c, InsertScope(role, names[i..], updating));
      assert drawn[..i] == drawn[..j] + [drawn[j]];
    }
  }

  lemma DrawnIsNew(t: Tables, role: string, names: seq<string>, drawn: seq<string>, i: nat)
    requires Ready(t, role, names, drawn) && i < |names|
    ensures var t' := AddScopes(t, role, names[..i], drawn[..i]);
      drawn[i] !in t'.scopes && t'.roles == t.roles && t'.usersRoles == t.usersRoles
  {
    assert drawn[..i + 1][..i] == drawn[..i] && Drawn(drawn[..i], t.scopes) && Drawn(drawn[..i + 1], t.scopes);
    AddScopesGrants(t, role, names[..i], drawn[..i]);
    DrawnLast(drawn[..i + 1], i, t.scopes, AddScopes(t, role, names[..i], drawn[..i]).scopes);
  }

  lemma InsertStep(t: Tables, role: string, names: seq<string>, drawn: seq<string>, updating: bool, i: nat)
    requires Ready(t, role, names, drawn) && i < |names|
    ensures StepTables(AddScopes(t, role, names[..i], drawn[..i]), InsertScope(role, names[i..], updating), drawn[i])
         == (AddScopes(t, role, names[..i + 1], drawn[..i + 1]), InsertScope(role, names[i + 1..], updating))
  {
    DrawnIsNew(t, role, names, drawn, i);
    AddScopesStep(t, role, names, drawn, i);
    assert names[i..][1..] == names[i + 1..];
  }

  lemma LoopIsRun(s: Sys, q: nat, t: Tables, c: Store<string, string>, role: string, names: seq<string>,
                  drawn: seq<string>, updating: bool)
    requires Ready(t, role, names, drawn)
    ensures Goes(s, q, t, c, InsertScope(role, names, updating), drawn + [""], AddScopes(t, role, names, drawn), c,
                 if updating then ListHolders(role) else Finished)
  {
    var t' := AddScopes(t, role, names, drawn);
    InsertsAre(s, q, t, c, role, names, drawn, updating, |names|);
    assert names[..|names|] == names && drawn[..|drawn|] == drawn && names[|names|..] == [];
    GoesOne(s, q, t', c, InsertScope(role, [], updating), "");
    GoesThen(s, q, t, c, InsertScope(role, names, updating), drawn, t', c, InsertScope(role, [], updating), [""], t', c,
             if updating then ListHolders(role) else Finished);
  }

  /** Creating a role run alone. */
  lemma CreateIsRun(s: Sys, q: nat, id: string, name: string, description: Option<string>, kind: string,
                    names: seq<string>, drawn: seq<string>)
    requires q !in s.reqs && |names| == |drawn| && WellFormed(s.t) && id !in s.t.roles && Drawn(drawn, s.t.scopes)
    ensures Ends(s, q, CreateRow(name, description, kind, names), [id] + (drawn + [""]),
                 Whole(s).(t := CreateRole(s.t, id, name, description, kind, names, drawn).0), Finished)
  {
    var pc, t' := CreateRow(name, description, kind, names), CreateRole(s.t, id, name, description, kind, names, drawn).0;
    var (t, next) := StepTables(s.t, pc, id);
    GoesOne(s, q, s.t, s.cache, pc, id);
    if next.Finished? {
      GoesNowhere(s, q, t, s.cache, drawn + [""]);
    } else {
      LoopIsRun(s, q, t, s.cache, id, names, drawn, false);
    }
    GoesThen(s, q, s.t, s.cache, pc, [id], t, s.cache, next, drawn + [""], t', s.cache, Finished);
    Arrives(s, q, pc, [id] + (drawn + [""]), Whole(s).(t := t'), Finished);
  }

  /** Rewriting a role run alone, whatever the order in which its holders' entries go. */
  lemma UpdateIsRun(s: Sys, q: nat, id: string, description: Option<string>, kind: string, names: seq<string>,
                    drawn: seq<string>, order: seq<string>)
    requires q !in s.reqs && |names| == |drawn| && WellFormed(s.t) && Drawn(drawn, s.t.scopes)
    requires Orders(order, Holders(s.t.usersRoles, id))
    ensures Ends(s, q, UpdateRow(id, description, kind, names), [""] + RewriteChoices(drawn, order),
                 ScopeCache.Update(Whole(s), id, description, kind, names, drawn).0, Finished)
  {
    var pc, whole := UpdateRow(id, description, kind, names), ScopeCache.Update(Whole(s), id, description, kind, names, drawn).0;
    var (t, next) := StepTables(s.t, pc, "");
    GoesOne(s, q, s.t, s.cache, pc, "");
    if next.Finished? {
      GoesNowhere(s, q, t, s.cache, RewriteChoices(drawn, order));
    } else {
      RewriteIsRun(s, q, t, s.cache, id, names, drawn, order);
    }
    GoesThen(s, q, s.t, s.cache, pc, [""], t, s.cache, next, RewriteChoices(drawn, order), whole.t, whole.cache, Finished);
    Arrives(s, q, pc, [""] + RewriteChoices(drawn, order), whole, Finished);
  }

  /** Clear, insert each scope, list the holders, delete each entry. */
  ghost function RewriteChoices(drawn: seq<string>, order: seq<string>): seq<string> {
    [""] + ((drawn + [""]) + ([""] + (order + [""])))
  }

  lemma RewriteIsRun(s: Sys, q: nat, t: Tables, c: Store<string, string>, id: string, names: seq<string>,
                     drawn: seq<string>, order: seq<string>)
    requires Ready(t, id, names, drawn) && Orders(order, Holders(t.usersRoles, id))
    ensures Goes(s, q, t, c, ClearPairs(id, names), RewriteChoices(drawn, order),
                 AddScopes(t.(rolesScopes := WithoutRole(t.rolesScopes, id)), id, names, drawn),
                 c - Holders(t.usersRoles, id), Finished)
  {
    var cleared := t.(rolesScopes := WithoutRole(t.rolesScopes, id));
    GoesOne(s, q, t, c, ClearPairs(id, names), "");
    ClearedIsRun(s, q, cleared, c, id, names, drawn, order);
    GoesThen(s, q, t, c, ClearPairs(id, names), [""], cleared, c, InsertScope(id, names, true),
             (drawn + [""]) + ([""] + (order + [""])), AddScopes(cleared, id, names, drawn), c - Holders(t.usersRoles, id), Finished);
  }

  lemma ClearedIsRun(s: Sys, q: nat, t: Tables, c: Store<string, string>, id: string, names: seq<string>,
                     drawn: seq<string>, order: seq<string>)
    requires Ready(t, id, names, drawn) && Orders(order, Holders(t.usersRoles, id))
    ensures Goes(s, q, t, c, InsertScope(id, names, true), (drawn + [""]) + ([""] + (order + [""])),
                 AddScopes(t, id, names, drawn), c - Holders(t.usersRoles, id), Finished)
  {
    var t' := AddScopes(t, id, names, drawn);
    LoopIsRun(s, q, t, c, id, names, drawn, true);
    SameHolders(t, id, names, drawn);
    EntriesGo(s, q, t', c, id, order);
    GoesThen(s, q, t, c, InsertScope(id, names, true), drawn + [""], t', c, ListHolders(id), [""] + (order + [""]),
             t', c - Holders(t.usersRoles, id), Finished);
  }

  lemma EntriesGo(s: Sys, q: nat, t: Tables, c: Store<string, string>, id: string, order: seq<string>)
    requires Orders(order, Holders(t.usersRoles, id))
    ensures Goes(s, q, t, c, ListHolders(id), [""] + (order + [""]), t, c - Holders(t.usersRoles, id), Finished)
  {
    var holders := Holders(t.usersRoles, id);
    GoesOne(s, q, t, c, ListHolders(id), "");
    InvalidateIsRun(s, q, t, c, holders, order);
    GoesThen(s, q, t, c, ListHolders(id), [""], t, c, Invalidate(holders), order + [""], t, c - holders, Finished);
  }

  lemma SameHolders(t: Tables, id: string, names: seq<string>, drawn: seq<string>)
    requires Ready(t, id, names, drawn)
    ensures AddScopes(t, id, names, drawn).usersRoles == t.usersRoles
  {
    AddScopesGrants(t, id, names, drawn);
  }

  // New users

  function Pairs(user: string, roles: set<string>): set<(string, string)> {
    set r | r in roles :: (user, r)
  }

  lemma {:induction false} GrantsAre(s: Sys, q: nat, t: Tables, c: Store<string, string>, user: string, roles: set<string>,
                                     order: seq<string>, registering: bool)
    requires roles <= t.roles.Keys && Orders(order, roles)
    ensures Goes(s, q, t, c, GrantRoles(user, roles, registering), order,
                 t.(usersRoles := t.usersRoles + Pairs(user, roles)), c, GrantRoles(user, {}, registering))
    decreases |order|
  {
    if order == [] {
      assert roles == {} && t.usersRoles + Pairs(user, {}) == t.usersRoles;
    } else {
      var r0 := order[0];
      var t' := t.(usersRoles := t.usersRoles + {(user, r0)});
      RestOrders(order, roles);
      GoesOne(s, q, t, c, GrantRoles(user, roles, registering), r0);
      GrantsAre(s, q, t', c, user, roles - {r0}, order[1..], registering);
      assert t'.usersRoles + Pairs(user, roles - {r0}) == t.usersRoles + Pairs(user, roles);
      GoesThen(s, q, t, c, GrantRoles(user, roles, registering), [r0], t', c, GrantRoles(user, roles - {r0}, registering),
               order[1..], t.(usersRoles := t.usersRoles + Pairs(user, roles)), c, GrantRoles(user, {}, registering));
    }
  }

  /** The administrator's user creation run alone, whatever the order of the default roles. */
  lemma NewUserIsRun(s: Sys, q: nat, user: string, given: set<string>, order: seq<string>)
    requires q !in s.reqs && user !in s.t.users && Orders(order, given)
    requires forall r :: r in given <==> GivenToAll(s.t, r)
    ensures Ends(s, q, UserRow(user, false), ["", ""] + (order + [""]), Whole(s).(t := CreateUser(s.t, user)), Finished)
  {
    var t := s.t.(users := s.t.users + {user});
    var t' := t.(usersRoles := t.usersRoles + Pairs(user, given));
    Listed(s, q, user, false, "", given);
    GrantsAre(s, q, t, s.cache, user, given, order, false);
    GoesOne(s, q, t', s.cache, GrantRoles(user, {}, false), "");
    GoesThen(s, q, t, s.cache, GrantRoles(user, given, false), order, t', s.cache, GrantRoles(user, {}, false), [""],
             t', s.cache, Finished);
    GoesThen(s, q, s.t, s.cache, UserRow(user, false), ["", ""], t, s.cache, GrantRoles(user, given, false), order + [""],
             t', s.cache, Finished);
    CreatedPairs(s.t, user, given);
    Arrives(s, q, UserRow(user, false), ["", ""] + (order + [""]), Whole(s).(t := t'), Finished);
  }

  lemma CreatedPairs(t: Tables, user: string, given: set<string>)
    requires forall r :: r in given <==> GivenToAll(t, r)
    ensures CreateUser(t, user) == t.(users := t.users + {user}, usersRoles := t.usersRoles + Pairs(user, given))
  {
    assert CreateUser(t, user).usersRoles == t.usersRoles + Pairs(user, given);
  }

  /** The user's row is inserted and the query for default roles has answered. */
  lemma Listed(s: Sys, q: nat, user: string, registering: bool, role: string, given: set<string>)
    requires user !in s.t.users
    requires if registering then given == {role} && GivenToAll(s.t, role) else forall r :: r in given <==> GivenToAll(s.t, r)
    ensures Goes(s, q, s.t, s.cache, UserRow(user, registering), ["", role], s.t.(users := s.t.users + {user}), s.cache,
                 GrantRoles(user, given, registering))
  {
    var t := s.t.(users := s.t.users + {user});
    GoesOne(s, q, s.t, s.cache, UserRow(user, registering), "");
    GoesOne(s, q, t, s.cache, DefaultRoles(user, registering), role);
    if !registering {
      assert given == set r | r in s.t.roles && IsDefaultRole(s.t.roles, r);
    }
    GoesThen(s, q, s.t, s.cache, UserRow(user, registering), [""], t, s.cache, DefaultRoles(user, registering), [role],
             t, s.cache, GrantRoles(user, given, registering));
    assert ["", role] == [""] + [role];
  }

  /** Self-registration run alone; `role` is what the query for a default role returned. */
  lemma RegisterIsRun(s: Sys, q: nat, user: string, role: string)
    requires q !in s.reqs && user !in s.t.users
    ensures Ends(s, q, UserRow(user, true), ["", role] + [role, "", user, ""], ScopeCache.SelfRegister(Whole(s), user, role), Finished)
  {
    var t, whole := s.t.(users := s.t.users + {user}), ScopeCache.SelfRegister(Whole(s), user, role);
    if GivenToAll(s.t, role) {
      Listed(s, q, user, true, role, {role});
      GrantedIsRun(s, q, t, s.cache, user, role);
      GoesThen(s, q, s.t, s.cache, UserRow(user, true), ["", role], t, s.cache, GrantRoles(user, {role}, true),
               [role, "", user, ""], whole.t, whole.cache, Finished);
    } else {
      GoesOne(s, q, s.t, s.cache, UserRow(user, true), "");
      GoesOne(s, q, t, s.cache, DefaultRoles(user, true), role);
      GoesThen(s, q, s.t, s.cache, UserRow(user, true), [""], t, s.cache, DefaultRoles(user, true), [role], t, s.cache, Finished);
      assert ["", role] == [""] + [role];
      GoesNowhere(s, q, t, s.cache, [role, "", user, ""]);
      GoesThen(s, q, s.t, s.cache, UserRow(user, true), ["", role], t, s.cache, Finished,
               [role, "", user, ""], t, s.cache, Finished);
    }
    Arrives(s, q, UserRow(user, true), ["", role] + [role, "", user, ""], whole, Finished);
  }

  lemma GrantedIsRun(s: Sys, q: nat, t: Tables, c: Store<string, string>, user: string, role: string)
    requires role in t.roles
    ensures Goes(s, q, t, c, GrantRoles(user, {role}, true), [role, "", user, ""],
                 t.(usersRoles := t.usersRoles + {(user, role)}), c - {user}, Finished)
  {
    var t' := t.(usersRoles := t.usersRoles + {(user, role)});
    assert Elements([role]) == {role} && Pairs(user, {role}) == {(user, role)};
    GrantsAre(s, q, t, c, user, {role}, [role], true);
    GoesOne(s, q, t', c, GrantRoles(user, {}, true), "");
    OneInvalidated(s, q, t', c, user);
    GoesThen(s, q, t, c, GrantRoles(user, {role}, true), [role], t', c, GrantRoles(user, {}, true), [""], t', c, Invalidate({user}));
    GoesThen(s, q, t, c, GrantRoles(user, {role}, true), [role] + [""], t', c, Invalidate({user}), [user, ""], t', c - {user}, Finished);
    assert [role, "", user, ""] == [role] + [""] + [user, ""];
  }
}
