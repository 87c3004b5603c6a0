/** What `/authorize`, `/login` and `/register` have checked, over every interleaving, and the handlers run alone. */
module OAuthChecks {
  import opened Basics
  import opened OAuthStore
  import opened Baton
  import opened OAuthProtocol
  import opened OAuthLineage
  import opened OAuthCodes
  import opened OAuthHandlers

  /** A registered redirect URI, and a challenge only with S256. */
  ghost predicate Formed(s: Sys, r: AuthorizeRequest) {
    && r.client in s.db.clients && r.redirectUri in s.db.clients[r.client].redirectUris
    && (r.challenge.Some? ==> r.methodIsS256)
  }

  /** ... and the right password of a known user. */
  ghost predicate Identified(s: Sys, r: AuthorizeRequest) {
    Formed(s, r) && r.passwordOk && r.user in s.db.users
  }

  ghost predicate LoginOk(s: Sys, q: nat, login: Login) {
    && login.user in s.db.users
    && (login.SignedIn? ==> login.passwordOk)
    && q in s.h.roots && s.h.roots[q] == Owner(login.user, login.client)
  }

  ghost predicate PcChecked(s: Sys, pc: Pc) {
    match pc
    case AuthorizeUser(r) => Formed(s, r)
    case AuthorizeSuspended(r) => Identified(s, r)
    case AuthorizeInsert(r) => Identified(s, r)
    case _ => true
  }

  ghost predicate Checked(s: Sys) {
    && (forall q :: q in s.reqs ==> PcChecked(s, s.reqs[q]))
    && (forall c :: c in s.h.origins ==> Identified(s, s.h.origins[c].authorize))
    && (forall q :: q in s.h.logins ==> LoginOk(s, q, s.h.logins[q]))
  }

  /** Clients, users and started lineages are only added. */
  ghost predicate Added(s: Sys, t: Sys) {
    && SubMap(s.db.clients, t.db.clients) && s.db.users.Keys <= t.db.users.Keys && SubMap(s.h.roots, t.h.roots)
  }

  lemma StaysChecked(s: Sys, t: Sys, q: nat)
    requires Checked(s) && Added(s, t) && q in t.reqs && t.reqs == s.reqs[q := t.reqs[q]] && PcChecked(t, t.reqs[q])
    requires forall c :: c in t.h.origins ==>
      if c in s.h.origins then t.h.origins[c] == s.h.origins[c] else Identified(t, t.h.origins[c].authorize)
    requires forall p :: p in t.h.logins ==>
      if p in s.h.logins then t.h.logins[p] == s.h.logins[p] else LoginOk(t, p, t.h.logins[p])
    ensures Checked(t)
  {
    forall p | p in t.reqs ensures PcChecked(t, t.reqs[p]) {
      if p != q { assert PcChecked(s, s.reqs[p]); }
    }
    forall c | c in t.h.origins ensures Identified(t, t.h.origins[c].authorize) {
      if c in s.h.origins { assert Identified(s, s.h.origins[c].authorize); }
    }
    forall p | p in t.h.logins ensures LoginOk(t, p, t.h.logins[p]) {
      if p in s.h.logins { assert LoginOk(s, p, s.h.logins[p]); }
    }
  }

  lemma AuthorizeStaysChecked(s: Sys, q: nat, drawn: string)
    requires Checked(s) && q in s.reqs
    requires s.reqs[q].AuthorizeClient? || s.reqs[q].AuthorizeUser? || s.reqs[q].AuthorizeSuspended?
    ensures Checked(Step(s, q, drawn))
  {
    assert PcChecked(s, s.reqs[q]);
    StaysChecked(s, Step(s, q, drawn), q);
  }

  lemma InsertStaysChecked(s: Sys, q: nat, drawn: string)
    requires Checked(s) && q in s.reqs && (s.reqs[q].AuthorizeInsert? || s.reqs[q].AuthorizeChallenge?)
    ensures Checked(Step(s, q, drawn))
  {
    var t := Step(s, q, drawn);
    assert PcChecked(s, s.reqs[q]);
    if t != s {
      StaysChecked(s, t, q);
    }
  }

  lemma CodeStaysChecked(s: Sys, q: nat, drawn: string)
    requires Bookkept(s) && Checked(s) && q in s.reqs
    requires s.reqs[q].CodeSecret? || s.reqs[q].CodeChallenge? || s.reqs[q].CodeTenant?
    ensures Checked(Step(s, q, drawn))
  {
    StaysChecked(s, Step(s, q, drawn), q);
  }

  lemma ExchangeAdds(s: Sys, q: nat, r: CodeRequest)
    requires Bookkept(s) && q in s.reqs && s.reqs[q] == CodeExchange(r)
    ensures var t := StepCodeExchange(s, q, r);
      && Added(s, t) && q in t.reqs && t.reqs == s.reqs[q := t.reqs[q]] && PcChecked(t, t.reqs[q])
      && t.h.origins == s.h.origins && t.h.logins == s.h.logins
  {
    if Exchangeable(s.db, r.code) {
      var claimed := s.(db := ExchangeCode(s.db, r.code).0,
                        h := s.h.(claims := s.h.claims[r.code := Claim(q, s.db.now)]));
      ClaimedFramed(claimed, q, r, s.db.codes[r.code]);
    }
  }

  lemma ExchangeStaysChecked(s: Sys, q: nat, r: CodeRequest)
    requires Bookkept(s) && Checked(s) && q in s.reqs && s.reqs[q] == CodeExchange(r)
    ensures Checked(StepCodeExchange(s, q, r))
  {
    ExchangeAdds(s, q, r);
    StaysChecked(s, StepCodeExchange(s, q, r), q);
  }

  lemma RefreshStaysChecked(s: Sys, q: nat, drawn: string)
    requires Checked(s) && q in s.reqs
    requires s.reqs[q].RefreshSecret? || s.reqs[q].RefreshRotate? || s.reqs[q].RefreshUser? || s.reqs[q].ReplayLookup?
             || s.reqs[q].ReplayWipe? || s.reqs[q].LogoutRotate?
    ensures Checked(Step(s, q, drawn))
  {
    StaysChecked(s, Step(s, q, drawn), q);
  }

  lemma LoginStaysChecked(s: Sys, q: nat, drawn: string)
    requires Bookkept(s) && Checked(s) && q in s.reqs && s.reqs[q].LoginUser?
    ensures Checked(Step(s, q, drawn))
  {
    StaysChecked(s, Step(s, q, drawn), q);
  }

  lemma RegisterStaysChecked(s: Sys, q: nat, drawn: string)
    requires Bookkept(s) && Checked(s) && q in s.reqs && s.reqs[q].RegisterUser?
    ensures Checked(Step(s, q, drawn))
  {
    StaysChecked(s, Step(s, q, drawn), q);
  }

  lemma IssueStaysChecked(s: Sys, q: nat, drawn: string)
    requires Checked(s) && q in s.reqs && (s.reqs[q].Issue? || s.reqs[q].Done?)
    ensures Checked(Step(s, q, drawn))
  {
    var t := Step(s, q, drawn);
    if t != s {
      StaysChecked(s, t, q);
    }
  }

  lemma StepStaysChecked(s: Sys, q: nat, drawn: string)
    requires Bookkept(s) && Checked(s) && q in s.reqs
    ensures Checked(Step(s, q, drawn))
  {
    var pc := s.reqs[q];
    if pc.AuthorizeClient? || pc.AuthorizeUser? || pc.AuthorizeSuspended? {
      AuthorizeStaysChecked(s, q, drawn);
    } else if pc.AuthorizeInsert? || pc.AuthorizeChallenge? {
      InsertStaysChecked(s, q, drawn);
    } else if pc.CodeSecret? || pc.CodeChallenge? || pc.CodeTenant? {
      CodeStaysChecked(s, q, drawn);
    } else if pc.CodeExchange? {
      ExchangeStaysChecked(s, q, pc.request);
    } else if pc.LoginUser? {
      LoginStaysChecked(s, q, drawn);
    } else if pc.RegisterUser? {
      RegisterStaysChecked(s, q, drawn);
    } else if pc.Issue? || pc.Done? {
      IssueStaysChecked(s, q, drawn);
    } else {
      RefreshStaysChecked(s, q, drawn);
    }
  }

  lemma OtherStaysChecked(s: Sys, e: Event)
    requires Checked(s) && !e.Run?
    ensures Checked(Apply(s, e))
  {
    var t := Apply(s, e);
    if e.Arrive? || e.Abort? {
      if t != s { StaysChecked(s, t, e.q); }
    } else {
      forall q | q in t.reqs ensures PcChecked(t, t.reqs[q]) { assert PcChecked(s, s.reqs[q]); }
      forall c | c in t.h.origins ensures Identified(t, t.h.origins[c].authorize) {
        assert Identified(s, s.h.origins[c].authorize);
      }
      forall q | q in t.h.logins ensures LoginOk(t, q, t.h.logins[q]) { assert LoginOk(s, q, s.h.logins[q]); }
    }
  }

  lemma EventStaysChecked(s: Sys, e: Event)
    requires Bookkept(s) && Checked(s)
    ensures Checked(Apply(s, e))
  {
    if e.Run? {
      if e.q in s.reqs { StepStaysChecked(s, e.q, e.drawn); }
    } else {
      OtherStaysChecked(s, e);
    }
  }

  lemma {:induction false} RunStaysChecked(s: Sys, es: seq<Event>)
    requires Bookkept(s) && Checked(s)
    ensures Bookkept(Exec(s, es)) && Checked(Exec(s, es))
    decreases |es|
  {
    if es != [] {
      EventRefines(s, es[0]);
      EventStaysChecked(s, es[0]);
      RunStaysChecked(Apply(s, es[0]), es[1..]);
    }
  }

  /** Over every interleaving: each code ever issued was asked for with a registered redirect URI, S256 if at all, and
    * the right password of a known user; each lineage not rooted at a code was started by the right password of its
    * owner or by the registration of its owner. */
  lemma CodesAndLoginsAreChecked(now: int, es: seq<Event>)
    ensures var s := Exec(Init(now), es);
      && (forall c :: c in s.h.origins ==>
            var r := s.h.origins[c].authorize;
            && r.client in s.db.clients && r.redirectUri in s.db.clients[r.client].redirectUris
            && (r.challenge.Some? ==> r.methodIsS256) && r.passwordOk && r.user in s.db.users)
      && (forall q :: q in s.h.logins ==>
            var login := s.h.logins[q];
            && (login.SignedIn? ==> login.passwordOk)
            && login.user in s.db.users && q in s.h.roots && s.h.roots[q] == Owner(login.user, login.client))
  {
    RunStaysChecked(Init(now), es);
  }

  // Suspension

  /** Past the check that a suspended user fails: about to get a code, or a token in exchange for another. */
  predicate PastCheck(pc: Pc, user: string) {
    || (pc.AuthorizeInsert? && pc.authorize.user == user)
    || (pc.Issue? && pc.lineage.parent.Some? && pc.lineage.owner.user == user)
  }

  /** The user is suspended and no request is past the check. */
  ghost predicate Barred(s: Sys, user: string) {
    && user in s.db.users && s.db.users[user].suspended
    && forall q :: q in s.reqs ==> !PastCheck(s.reqs[q], user)
  }

  /** Nothing is given to the user but by a code issued before. */
  ghost predicate GivesNothing(s: Sys, t: Sys, user: string) {
    && (forall c :: c in t.h.origins && t.h.origins[c].authorize.user == user ==> c in s.h.origins)
    && (forall q :: q in t.h.logins && t.h.logins[q].user == user ==> q in s.h.logins)
    && (forall d :: d in t.h.parent && Owns(t.h, user, d) ==> d in s.h.parent)
    && SubMap(s.h.origins, t.h.origins) && SubMap(s.h.logins, t.h.logins)
    && SubMap(s.h.roots, t.h.roots) && SubMap(s.h.rootOf, t.h.rootOf)
  }

  /** The token belongs to a lineage of the user. */
  predicate Owns(h: History, user: string, d: Digest) {
    d in h.rootOf && h.rootOf[d] in h.roots && h.roots[h.rootOf[d]].user == user
  }

  /** What every reachable state satisfies. */
  ghost predicate Sound(s: Sys) {
    LineageInv(s) && CodeInv(s) && Checked(s)
  }

  predicate Lifts(e: Event, user: string) {
    e.SetSuspended? && e.user == user && !e.suspended
  }

  /** One statement of q: its own program counter moves on, and what it records. */
  ghost predicate StillBarred(s: Sys, t: Sys, q: nat, user: string) {
    && user in s.db.users && user in t.db.users && t.db.users[user] == s.db.users[user]
    && q in t.reqs && t.reqs == s.reqs[q := t.reqs[q]] && !PastCheck(t.reqs[q], user)
    && GivesNothing(s, t, user)
  }

  lemma AuthorizeBarred(s: Sys, q: nat, drawn: string, user: string)
    requires Barred(s, user) && q in s.reqs
    requires s.reqs[q].AuthorizeClient? || s.reqs[q].AuthorizeUser? || s.reqs[q].AuthorizeSuspended? || s.reqs[q].AuthorizeChallenge?
    ensures StillBarred(s, Step(s, q, drawn), q, user)
  {
  }

  lemma InsertBarred(s: Sys, q: nat, drawn: string, user: string)
    requires Barred(s, user) && q in s.reqs && s.reqs[q].AuthorizeInsert?
    ensures Step(s, q, drawn) == s || StillBarred(s, Step(s, q, drawn), q, user)
  {
    assert !PastCheck(s.reqs[q], user);
  }

  lemma CodeBarred(s: Sys, q: nat, drawn: string, user: string)
    requires Barred(s, user) && q in s.reqs
    requires s.reqs[q].CodeSecret? || s.reqs[q].CodeChallenge? || (s.reqs[q].CodeTenant? && s.reqs[q].lineage.parent.None?)
    ensures StillBarred(s, Step(s, q, drawn), q, user)
  {
  }

  lemma ExchangeBarred(s: Sys, q: nat, r: CodeRequest, user: string)
    requires Barred(s, user) && q in s.reqs && s.reqs[q] == CodeExchange(r) && q !in s.h.roots
    ensures StillBarred(s, StepCodeExchange(s, q, r), q, user)
  {
    if Exchangeable(s.db, r.code) {
      var claimed := s.(db := ExchangeCode(s.db, r.code).0,
                        h := s.h.(claims := s.h.claims[r.code := Claim(q, s.db.now)]));
      ClaimedFramed(claimed, q, r, s.db.codes[r.code]);
    }
  }

  lemma RefreshBarred(s: Sys, q: nat, drawn: string, user: string)
    requires Barred(s, user) && q in s.reqs && (s.reqs[q].RefreshSecret? || s.reqs[q].RefreshRotate? || s.reqs[q].RefreshUser?)
    ensures StillBarred(s, Step(s, q, drawn), q, user)
  {
  }

  lemma RevokeBarred(s: Sys, q: nat, drawn: string, user: string)
    requires Barred(s, user) && q in s.reqs && (s.reqs[q].ReplayLookup? || s.reqs[q].ReplayWipe? || s.reqs[q].LogoutRotate?)
    ensures StillBarred(s, Step(s, q, drawn), q, user)
  {
  }

  lemma LoginGivesNothing(s: Sys, t: Sys, q: nat, owner: Owner, login: Login, user: string)
    requires q !in s.h.roots && q !in s.h.logins && owner.user != user && login.user != user
    requires t.h == s.h.(roots := s.h.roots[q := owner], logins := s.h.logins[q := login])
    ensures GivesNothing(s, t, user)
  {
  }

  lemma RefusedBarred(s: Sys, q: nat, o: Outcome, user: string)
    requires Barred(s, user) && q in s.reqs
    ensures StillBarred(s, At(s, q, Done(o)), q, user)
  {
  }

  lemma LogInBarred(s: Sys, t: Sys, q: nat, owner: Owner, login: Login, user: string)
    requires user in s.db.users && user in t.db.users && t.db.users[user] == s.db.users[user]
    requires q !in s.h.roots && q !in s.h.logins && owner.user != user && login.user != user
    requires t.reqs == s.reqs && t.h == s.h
    ensures StillBarred(s, LogIn(t, q, owner, login), q, user)
  {
    LoginGivesNothing(s, LogIn(t, q, owner, login), q, owner, login, user);
  }

  lemma LoginBarred(s: Sys, q: nat, pc: Pc, user: string)
    requires Barred(s, user) && q in s.reqs && pc.LoginUser? && q !in s.h.roots && q !in s.h.logins
    ensures StillBarred(s, StepLoginUser(s, q, pc.user, pc.client, pc.passwordOk), q, user)
  {
    if pc.user !in s.db.users || !pc.passwordOk || s.db.users[pc.user].suspended {
      RefusedBarred(s, q, Unauthorized, user);
    } else {
      LogInBarred(s, s, q, Owner(pc.user, pc.client), SignedIn(pc.user, pc.client, pc.passwordOk), user);
    }
  }

  lemma RegisterBarred(s: Sys, q: nat, pc: Pc, user: string)
    requires Barred(s, user) && q in s.reqs && pc.RegisterUser? && q !in s.h.roots && q !in s.h.logins
    ensures StillBarred(s, StepRegisterUser(s, q, pc.user, pc.tenant, pc.client), q, user)
  {
    if pc.user in s.db.users {
      RefusedBarred(s, q, ServerError, user);
    } else {
      var added := s.(db := s.db.(users := s.db.users[pc.user := UserRow(pc.tenant, false)]));
      LogInBarred(s, added, q, Owner(pc.user, pc.client), Registered(pc.user, pc.client), user);
    }
  }

  lemma IssueBarred(s: Sys, q: nat, drawn: string, user: string)
    requires Barred(s, user) && q in s.reqs && s.reqs[q].Issue?
    requires s.reqs[q].lineage.root in s.h.roots && s.h.roots[s.reqs[q].lineage.root] == s.reqs[q].lineage.owner
    ensures Step(s, q, drawn) == s || StillBarred(s, Step(s, q, drawn), q, user)
  {
    assert !PastCheck(s.reqs[q], user);
  }

  /** What the steps below need of a reachable state. */
  ghost predicate Placed(s: Sys, q: nat) {
    && q in s.reqs
    && (s.reqs[q].CodeExchange? || s.reqs[q].LoginUser? || s.reqs[q].RegisterUser? ==> q !in s.h.roots && q !in s.h.logins)
    && (s.reqs[q].CodeTenant? ==> s.reqs[q].lineage.parent.None?)
    && (s.reqs[q].Issue? ==>
          s.reqs[q].lineage.root in s.h.roots && s.h.roots[s.reqs[q].lineage.root] == s.reqs[q].lineage.owner)
  }

  lemma SoundPlaces(s: Sys, q: nat)
    requires Sound(s) && q in s.reqs
    ensures Placed(s, q)
  {
    if s.reqs[q].Issue? {
      IssuePlaced(s, q);
    } else if s.reqs[q].CodeTenant? {
      assert PcOk(s, q, s.reqs[q]);
    } else if q in s.h.logins {
      assert LoginOk(s, q, s.h.logins[q]);
    }
  }

  lemma IssuePlaced(s: Sys, q: nat)
    requires Owned(View(s)) && q in s.reqs && s.reqs[q].Issue?
    ensures Placed(s, q)
  {
    assert q in View(s).hold && View(s).hold[q] == s.reqs[q].lineage;
  }

  lemma StepBarred(s: Sys, q: nat, drawn: string, user: string)
    requires Placed(s, q) && Barred(s, user)
    ensures Step(s, q, drawn) == s || StillBarred(s, Step(s, q, drawn), q, user)
  {
    var pc := s.reqs[q];
    if pc.AuthorizeClient? || pc.AuthorizeUser? || pc.AuthorizeSuspended? || pc.AuthorizeChallenge? {
      AuthorizeBarred(s, q, drawn, user);
    } else if pc.AuthorizeInsert? {
      InsertBarred(s, q, drawn, user);
    } else if pc.CodeSecret? || pc.CodeChallenge? || pc.CodeTenant? {
      CodeBarred(s, q, drawn, user);
    } else if pc.CodeExchange? {
      ExchangeBarred(s, q, pc.request, user);
    } else if pc.RefreshSecret? || pc.RefreshRotate? || pc.RefreshUser? {
      RefreshBarred(s, q, drawn, user);
    } else if pc.LoginUser? {
      LoginBarred(s, q, pc, user);
    } else if pc.RegisterUser? {
      RegisterBarred(s, q, pc, user);
    } else if pc.Issue? {
      IssueBarred(s, q, drawn, user);
    } else if !pc.Done? {
      RevokeBarred(s, q, drawn, user);
    }
  }

  lemma StaysBarred(s: Sys, t: Sys, q: nat, user: string)
    requires Barred(s, user) && StillBarred(s, t, q, user)
    ensures Barred(t, user)
  {
    forall p | p in t.reqs ensures !PastCheck(t.reqs[p], user) {
      if p != q { assert !PastCheck(s.reqs[p], user); }
    }
  }

  lemma OtherBarred(s: Sys, e: Event, user: string)
    requires Barred(s, user) && !e.Run? && !Lifts(e, user)
    ensures Barred(Apply(s, e), user) && GivesNothing(s, Apply(s, e), user)
  {
    forall p | p in Apply(s, e).reqs ensures !PastCheck(Apply(s, e).reqs[p], user) {
      if p in s.reqs { assert !PastCheck(s.reqs[p], user); }
    }
  }

  lemma EventBarred(s: Sys, e: Event, user: string)
    requires Sound(s) && Barred(s, user) && !Lifts(e, user)
    ensures Barred(Apply(s, e), user) && GivesNothing(s, Apply(s, e), user)
  {
    if e.Run? {
      if e.q in s.reqs {
        SoundPlaces(s, e.q);
        StepBarred(s, e.q, e.drawn, user);
        if Apply(s, e) != s { StaysBarred(s, Apply(s, e), e.q, user); }
      }
    } else {
      OtherBarred(s, e, user);
    }
  }

  lemma GivesNothingTwice(s: Sys, t: Sys, u: Sys, user: string)
    requires Sound(t) && GivesNothing(s, t, user) && GivesNothing(t, u, user)
    ensures GivesNothing(s, u, user)
  {
    forall d | d in u.h.parent && Owns(u.h, user, d) ensures d in s.h.parent {
      assert d in View(t).parent && View(t).parent == t.h.parent;
      assert Owns(t.h, user, d);
    }
  }

  lemma EventKeepsSound(s: Sys, e: Event)
    requires Sound(s)
    ensures Sound(Apply(s, e))
  {
    OAuthLineage.EventKeeps(s, e);
    EventKeepsCodes(s, e);
    EventStaysChecked(s, e);
  }

  lemma {:induction false} RunBarred(s: Sys, es: seq<Event>, user: string)
    requires Sound(s) && Barred(s, user) && forall e :: e in es ==> !Lifts(e, user)
    ensures GivesNothing(s, Exec(s, es), user)
    decreases |es|
  {
    if es != [] {
      assert es[0] in es;
      EventBarred(s, es[0], user);
      EventKeepsSound(s, es[0]);
      RunBarred(Apply(s, es[0]), es[1..], user);
      GivesNothingTwice(s, Apply(s, es[0]), Exec(s, es), user);
    }
  }

  lemma {:induction false} RunKeepsSound(s: Sys, es: seq<Event>)
    requires Sound(s)
    ensures Sound(Exec(s, es))
    decreases |es|
  {
    if es != [] {
      EventKeepsSound(s, es[0]);
      RunKeepsSound(Apply(s, es[0]), es[1..]);
    }
  }

  /** Over every interleaving: while a user stays suspended, and none of the user's requests is past the check, no code
    * is issued for the user, no login of the user succeeds and no token of the user is exchanged for another. */
  lemma SuspendedGetNothing(now: int, before: seq<Event>, user: string, after: seq<Event>)
    requires Barred(Exec(Init(now), before), user) && forall e :: e in after ==> !Lifts(e, user)
    ensures GivesNothing(Exec(Init(now), before), Exec(Exec(Init(now), before), after), user)
  {
    RunKeepsSound(Init(now), before);
    RunBarred(Exec(Init(now), before), after, user);
  }

  // The handlers run alone

  /** A value never drawn for a code, and that no token request in flight presents. */
  ghost predicate Unguessed(s: Sys, drawn: string) {
    && drawn !in s.h.origins
    && (forall p :: p in s.reqs && s.reqs[p].CodeSecret? ==> s.reqs[p].request.code != drawn)
    && (forall p :: p in s.reqs && s.reqs[p].CodeExchange? ==> s.reqs[p].request.code != drawn)
  }

  /** What an authorize request leaves of the history: the code it drew, if any, is released. */
  ghost predicate Released(s: Sys, t: Sys, drawn: string) {
    t.h.rootOf == s.h.rootOf && (drawn in t.h.origins ==> drawn in t.h.released)
  }

  /** From s to t only request q ran; it ended with this result. */
  ghost predicate Ended(s: Sys, t: Sys, q: nat, result: (Db, Outcome), drawn: string) {
    t.db == result.0 && t.reqs == s.reqs[q := Done(result.1)] && Released(s, t, drawn)
  }

  /** The authorize handler is the interleaved protocol run without interference. */
  lemma AuthorizeIsRun(s: Sys, q: nat, r: AuthorizeRequest, drawn: string)
    requires q !in s.reqs && Unguessed(s, drawn)
    ensures var t := Alone(s, q, AuthorizeClient(r), drawn);
            var (db, o) := AuthorizeEndpoint(s.db, r, drawn);
            t.db == db && t.reqs == s.reqs[q := Done(o)] && Released(s, t, drawn)
  {
    var s0 := At(s, q, AuthorizeClient(r));
    assert Apply(s, Arrive(q, AuthorizeClient(r))) == s0;
    ClientIsRun(s0, q, r, drawn);
    assert s0.reqs[q := Done(AuthorizeEndpoint(s.db, r, drawn).1)] == s.reqs[q := Done(AuthorizeEndpoint(s.db, r, drawn).1)];
  }

  /** One statement that only moves q on, then the rest. */
  lemma MovesOn(s: Sys, q: nat, pc: Pc, drawn: string, n: nat, result: (Db, Outcome))
    requires q in s.reqs && Apply(s, Run(q, drawn)) == At(s, q, pc)
    requires Ended(At(s, q, pc), Steps(At(s, q, pc), q, drawn, n), q, result, drawn)
    ensures Ended(s, Steps(s, q, drawn, n + 1), q, result, drawn)
  {
    assert s.reqs[q := pc][q := Done(result.1)] == s.reqs[q := Done(result.1)];
  }

  lemma Refused(s: Sys, q: nat, o: Outcome, drawn: string, n: nat)
    requires q in s.reqs && Apply(s, Run(q, drawn)) == At(s, q, Done(o)) && drawn !in s.h.origins
    ensures Ended(s, Steps(s, q, drawn, n + 1), q, (s.db, o), drawn)
  {
    DoneSteps(At(s, q, Done(o)), q, drawn, n);
  }

  lemma ClientIsRun(s: Sys, q: nat, r: AuthorizeRequest, drawn: string)
    requires q in s.reqs && s.reqs[q] == AuthorizeClient(r) && Unguessed(s, drawn)
    ensures Ended(s, Steps(s, q, drawn, 5), q, AuthorizeEndpoint(s.db, r, drawn), drawn)
  {
    var s1 := StepAuthorizeClient(s, q, r);
    assert s1 == Apply(s, Run(q, drawn));
    if s1.reqs[q].Done? {
      Refused(s, q, s1.reqs[q].outcome, drawn, 4);
    } else {
      UserIsRun(s1, q, r, drawn);
      MovesOn(s, q, AuthorizeUser(r), drawn, 4, Authenticated(s.db, r, drawn));
    }
  }

  /** The handler from the user lookup on. */
  function Authenticated(db: Db, r: AuthorizeRequest, drawn: string): (Db, Outcome) {
    if r.user !in db.users || !r.passwordOk || db.users[r.user].suspended then (db, Unauthorized)
    else (Stored(db, r, drawn), CodeIssued(drawn))
  }

  function Stored(db: Db, r: AuthorizeRequest, drawn: string): Db {
    var db' := CreateCode(db, drawn, r.user, r.client, r.redirectUri, db.now + CODE_LIFETIME_MS);
    if r.challenge.Some? then StoreChallenge(db', drawn, r.challenge.value) else db'
  }

  lemma UserIsRun(s: Sys, q: nat, r: AuthorizeRequest, drawn: string)
    requires q in s.reqs && s.reqs[q] == AuthorizeUser(r) && Unguessed(s, drawn)
    ensures Ended(s, Steps(s, q, drawn, 4), q, Authenticated(s.db, r, drawn), drawn)
  {
    var s1 := StepAuthorizeUser(s, q, r);
    assert s1 == Apply(s, Run(q, drawn));
    if s1.reqs[q].Done? {
      Refused(s, q, s1.reqs[q].outcome, drawn, 3);
    } else {
      SuspendedIsRun(s1, q, r, drawn);
      MovesOn(s, q, AuthorizeSuspended(r), drawn, 3, Authenticated(s.db, r, drawn));
    }
  }

  lemma SuspendedIsRun(s: Sys, q: nat, r: AuthorizeRequest, drawn: string)
    requires q in s.reqs && s.reqs[q] == AuthorizeSuspended(r) && Unguessed(s, drawn) && r.user in s.db.users && r.passwordOk
    ensures Ended(s, Steps(s, q, drawn, 3), q, Authenticated(s.db, r, drawn), drawn)
  {
    var s1 := StepAuthorizeSuspended(s, q, r);
    assert s1 == Apply(s, Run(q, drawn));
    if s1.reqs[q].Done? {
      Refused(s, q, s1.reqs[q].outcome, drawn, 2);
    } else {
      InsertIsRun(s1, q, r, drawn);
      MovesOn(s, q, AuthorizeInsert(r), drawn, 2, Authenticated(s.db, r, drawn));
    }
  }

  lemma InsertIsRun(s: Sys, q: nat, r: AuthorizeRequest, drawn: string)
    requires q in s.reqs && s.reqs[q] == AuthorizeInsert(r) && Unguessed(s, drawn)
    ensures Ended(s, Steps(s, q, drawn, 2), q, (Stored(s.db, r, drawn), CodeIssued(drawn)), drawn)
  {
    var s1 := StepAuthorizeInsert(s, q, r, drawn);
    assert s1 == Apply(s, Run(q, drawn));
    if s1.reqs[q].Done? {
      DoneSteps(s1, q, drawn, 1);
    }
  }

  /** A login run alone gives a token exactly to the right password of a known user who is not suspended. */
  lemma LoginIsRun(s: Sys, q: nat, user: string, client: string, passwordOk: bool, drawn: string)
    requires q !in s.reqs && Sha256(drawn) !in s.h.rootOf
    ensures var t := Alone(s, q, LoginUser(user, client, passwordOk), drawn);
            var ok := passwordOk && user in s.db.users && !s.db.users[user].suspended;
            && t.reqs == s.reqs[q := Done(if ok then Issued(Sha256(drawn)) else Unauthorized)]
            && t.db == if ok then IssueTokens(s.db, user, client, drawn).0 else s.db
  {
    var s1 := Apply(Apply(s, Arrive(q, LoginUser(user, client, passwordOk))), Run(q, drawn));
    IssueOrDone(s1, q, drawn);
  }

  /** A registration run alone creates the user, active, and gives a token; a name in use is refused. */
  lemma RegisterIsRun(s: Sys, q: nat, user: string, tenant: string, client: string, drawn: string)
    requires q !in s.reqs && Sha256(drawn) !in s.h.rootOf
    ensures var t := Alone(s, q, RegisterUser(user, tenant, client), drawn);
            var added := s.db.(users := s.db.users[user := UserRow(tenant, false)]);
            && t.reqs == s.reqs[q := Done(if user in s.db.users then ServerError else Issued(Sha256(drawn)))]
            && t.db == if user in s.db.users then s.db else IssueTokens(added, user, client, drawn).0
  {
    var s1 := Apply(Apply(s, Arrive(q, RegisterUser(user, tenant, client))), Run(q, drawn));
    IssueOrDone(s1, q, drawn);
  }

  lemma IssueOrDone(s: Sys, q: nat, drawn: string)
    requires q in s.reqs && (s.reqs[q].Issue? || s.reqs[q].Done?) && Sha256(drawn) !in s.h.rootOf
    ensures var t := Steps(s, q, drawn, 4);
            if s.reqs[q].Done? then t == s
            else
              var l := s.reqs[q].lineage;
              t.db == IssueTokens(s.db, l.owner.user, l.owner.client, drawn).0
              && t.reqs == s.reqs[q := Done(Issued(Sha256(drawn)))]
  {
    if s.reqs[q].Done? {
      DoneSteps(s, q, drawn, 4);
    } else {
      DoneSteps(Apply(s, Run(q, drawn)), q, drawn, 3);
    }
  }

  /** A logout run alone revokes the presented token if it is acceptable, and touches no other. */
  lemma LogoutIsRun(s: Sys, q: nat, token: Digest, drawn: string)
    requires q !in s.reqs
    ensures var t := Alone(s, q, LogoutRotate(token), drawn);
            && t.reqs == s.reqs[q := Done(LoggedOut)] && t.db == s.db.(refresh := t.db.refresh)
            && t.db.refresh.Keys == s.db.refresh.Keys
            && forall d :: d in s.db.refresh ==>
                 RowAfter(s.db.refresh[d], t.db.refresh[d],
                          d == token && s.db.refresh[d].revokedAt.None? && s.db.now < s.db.refresh[d].expiresAt, s.db.now)
  {
    var s1 := Apply(Apply(s, Arrive(q, LogoutRotate(token))), Run(q, drawn));
    DoneSteps(s1, q, drawn, 4);
  }

  // The life of a code

  /** Whether `/authorize` gives a code, on the rows. */
  ghost predicate MayAuthorize(db: Db, r: AuthorizeRequest) {
    && r.client in db.clients && r.redirectUri in db.clients[r.client].redirectUris && (r.challenge.Some? ==> r.methodIsS256)
    && r.passwordOk && r.user in db.users && !db.users[r.user].suspended
  }

  /** Whether a token request fits the authorize request of its code. */
  ghost predicate Fits(db: Db, r: AuthorizeRequest, request: CodeRequest) {
    && r.client in db.clients && request.client == r.client
    && (db.clients[r.client].secretHash == None || db.clients[r.client].secretHash == Some(Sha256(request.secret)))
    && request.redirectUri == r.redirectUri != ""
    && match r.challenge
       case None => request.verifier == None
       case Some(c) => request.verifier.Some? && c == HexDigest(Sha256(request.verifier.value))
  }

  /** An authorize request, some time, and a token request for its code, each undisturbed. */
  function RoundTrip(s: Sys, r: AuthorizeRequest, code: string, wait: nat, request: CodeRequest, drawn: string): Sys {
    Alone(Apply(Alone(s, 0, AuthorizeClient(r), code), Tick(wait)), 1, CodeSecret(request), drawn)
  }

  lemma GrantFits(db: Db, r: AuthorizeRequest, code: string, wait: nat, request: CodeRequest, drawn: string)
    requires MayAuthorize(db, r) && request.code == code
    ensures AuthorizeEndpoint(db, r, code).1 == CodeIssued(code)
    ensures var (db', o) := CodeGrant(AuthorizeEndpoint(db, r, code).0.(now := db.now + wait), request, drawn);
      && (o == Issued(Sha256(drawn)) <==> wait < 300_000 && Fits(db, r, request))
      && (o == Issued(Sha256(drawn)) ==>
            Sha256(drawn) in db'.refresh && db'.refresh[Sha256(drawn)].expiresAt == db'.now + 30 * 24 * 3600 * 1000)
  {
    AuthorizeIff(db, r, code);
    AuthorizeThenToken(db, r, code, wait, request, drawn);
    CodeGrantIff(AuthorizeEndpoint(db, r, code).0.(now := db.now + wait), request, drawn);
  }

  lemma RoundTripIff(s: Sys, r: AuthorizeRequest, code: string, wait: nat, request: CodeRequest, drawn: string)
    requires 0 !in s.reqs && 1 !in s.reqs && Unguessed(s, code) && Sha256(drawn) !in s.h.rootOf && request.code == code
    requires MayAuthorize(s.db, r)
    ensures var t := RoundTrip(s, r, code, wait, request, drawn);
      && 0 in t.reqs && t.reqs[0] == Done(CodeIssued(code)) && 1 in t.reqs
      && (t.reqs[1] == Done(Issued(Sha256(drawn))) <==> wait < 300_000 && Fits(s.db, r, request))
      && (t.reqs[1] == Done(Issued(Sha256(drawn))) ==>
            Sha256(drawn) in t.db.refresh && t.db.refresh[Sha256(drawn)].expiresAt == t.db.now + 30 * 24 * 3600 * 1000)
  {
    GrantFits(s.db, r, code, wait, request, drawn);
    AuthorizeIsRun(s, 0, r, code);
    CodeIsRun(Apply(Alone(s, 0, AuthorizeClient(r), code), Tick(wait)), 1, request, drawn);
  }

  /** A service with one client and one user. */
  function SetUp(now: int, client: string, row: ClientRow, user: string, tenant: string, suspended: bool): Sys {
    Apply(Apply(Apply(Init(now), AddClient(client, row)), AddUser(user, tenant)), SetSuspended(user, suspended))
  }

  /** The life of a code from the empty service on: it is issued exactly when the authorize request passes its checks,
    * buys a refresh token exactly within 300 seconds by a request that fits, and the cleanup deletes that token's row
    * exactly when its 30 days are over. */
  lemma CodeLife(now: int, row: ClientRow, tenant: string, suspended: bool, r: AuthorizeRequest, code: string, wait: nat,
                 request: CodeRequest, drawn: string, later: nat)
    requires request.code == code
    ensures var s := SetUp(now, r.client, row, r.user, tenant, suspended);
      var t := RoundTrip(s, r, code, wait, request, drawn);
      var u := Apply(Apply(t, Tick(later)), Cleanup);
      var issued := r.redirectUri in row.redirectUris && (r.challenge.Some? ==> r.methodIsS256) && r.passwordOk && !suspended;
      && 0 in t.reqs && 1 in t.reqs && (t.reqs[0] == Done(CodeIssued(code)) <==> issued)
      && (issued ==> (t.reqs[1] == Done(Issued(Sha256(drawn))) <==> wait < 300_000 && Fits(s.db, r, request)))
      && (issued && t.reqs[1] == Done(Issued(Sha256(drawn))) ==>
            (Sha256(drawn) in u.db.refresh <==> later <= 30 * 24 * 3600 * 1000))
  {
    var s := SetUp(now, r.client, row, r.user, tenant, suspended);
    SetUpIs(now, r.client, row, r.user, tenant, suspended);
    if MayAuthorize(s.db, r) {
      RoundTripIff(s, r, code, wait, request, drawn);
      var t := RoundTrip(s, r, code, wait, request, drawn);
      if t.reqs[1] == Done(Issued(Sha256(drawn))) { RowGoes(t, Sha256(drawn), later); }
    } else {
      RefusedRoundTrip(s, r, code, wait, request, drawn);
    }
  }

  lemma RowGoes(s: Sys, token: Digest, later: nat)
    requires token in s.db.refresh && s.db.refresh[token].expiresAt == s.db.now + 30 * 24 * 3600 * 1000
    ensures token in Apply(Apply(s, Tick(later)), Cleanup).db.refresh <==> later <= 30 * 24 * 3600 * 1000
  {
  }

  lemma RefusedRoundTrip(s: Sys, r: AuthorizeRequest, code: string, wait: nat, request: CodeRequest, drawn: string)
    requires 0 !in s.reqs && 1 !in s.reqs && Unguessed(s, code) && Sha256(drawn) !in s.h.rootOf && request.code == code
    requires !MayAuthorize(s.db, r)
    ensures var t := RoundTrip(s, r, code, wait, request, drawn);
      0 in t.reqs && t.reqs[0] != Done(CodeIssued(code)) && 1 in t.reqs
  {
    var a := Alone(s, 0, AuthorizeClient(r), code);
    AuthorizeIsRun(s, 0, r, code);
    AuthorizeIff(s.db, r, code);
    CodeIsRun(Apply(a, Tick(wait)), 1, request, drawn);
  }

  lemma SetUpIs(now: int, client: string, row: ClientRow, user: string, tenant: string, suspended: bool)
    ensures SetUp(now, client, row, user, tenant, suspended)
         == Sys(Db(now, map[client := row], map[user := UserRow(tenant, suspended)], map[], map[]), map[], EMPTY_HISTORY)
  {
  }
}
