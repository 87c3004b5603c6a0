/** Refresh-token safety over every run: every event of the protocol is a baton move, so lineages
  * never fork, keep their owner, and a replay wipe stays wiped. */
module OAuthLineage {
  import opened Basics
  import opened OAuthStore
  import opened Baton
  import opened OAuthProtocol

  /** The baton move a step of request q makes, read off its program counter before and after. */
  function MoveBetween(q: nat, before: Pc, after: Pc): Move {
    match (Carried(before), Carried(after))
    case (None, Some(l)) => if l.parent.Some? then Take(q, l.parent.value) else Start(q, l.owner)
    case (Some(_), None) =>
      if after.Done? && after.outcome.Issued? then Mint(q, after.outcome.token) else Drop
    case _ => Drop
  }

  function MoveOf(s: Sys, e: Event): Move {
    if e.Run? && e.q in s.reqs then
      var t := Apply(s, e);
      if e.q in t.reqs then MoveBetween(e.q, s.reqs[e.q], t.reqs[e.q]) else Drop
    else Drop
  }

  /** Rows were issued by the protocol, and a request that started a lineage is past its first statements. */
  ghost predicate Bookkept(s: Sys) {
    && (forall t :: t in s.db.refresh ==> t in s.h.rootOf)
    && (forall q :: q in s.h.roots ==> q in s.reqs && (Carried(s.reqs[q]).Some? || s.reqs[q].Done?))
  }

  lemma HoldAt(reqs: map<nat, Pc>, q: nat, pc: Pc)
    ensures Carried(pc).Some? ==> Hold(reqs[q := pc]) == Hold(reqs)[q := Carried(pc).value]
    ensures Carried(pc).None? ==> Hold(reqs[q := pc]) == Hold(reqs) - {q}
  {
  }

  /** Only the program counter of q moves, and q keeps or loses its baton without minting. */
  ghost predicate Passes(s: Sys, t: Sys, q: nat) {
    && q in s.reqs && q in t.reqs && t.reqs == s.reqs[q := t.reqs[q]]
    && (Carried(t.reqs[q]).None? || Carried(t.reqs[q]) == Carried(s.reqs[q]))
    && (Carried(s.reqs[q]).Some? ==> Carried(t.reqs[q]).Some? || t.reqs[q].Done?)
    && (s.reqs[q].Done? ==> t.reqs[q].Done?)
    && (t.reqs[q].Done? && t.reqs[q].outcome.Issued? ==> Carried(s.reqs[q]).None?)
    && t.h.roots == s.h.roots && t.h.rootOf == s.h.rootOf && t.h.parent == s.h.parent
  }

  /** A step of q that touches no lineage: rows are at most revoked. */
  ghost predicate Quiet(s: Sys, t: Sys, q: nat) {
    && Passes(s, t, q)
    && (t.db.refresh == s.db.refresh ||
        (SubMap(Live(t.db.refresh), Live(s.db.refresh)) && t.db.refresh.Keys <= s.db.refresh.Keys))
  }

  lemma QuietDrops(s: Sys, t: Sys, q: nat)
    requires Bookkept(s) && Quiet(s, t, q)
    ensures Drops(View(s), View(t)) && Bookkept(t)
  {
    HoldAt(s.reqs, q, t.reqs[q]);
  }

  lemma AuthorizeReadQuiet(s: Sys, q: nat, drawn: string)
    requires q in s.reqs
    requires s.reqs[q].AuthorizeClient? || s.reqs[q].AuthorizeUser? || s.reqs[q].AuthorizeSuspended?
    ensures Quiet(s, Step(s, q, drawn), q)
  {
  }

  lemma AuthorizeInsertQuiet(s: Sys, q: nat, drawn: string)
    requires q in s.reqs && s.reqs[q].AuthorizeInsert?
    ensures Quiet(s, Step(s, q, drawn), q)
  {
  }

  lemma AuthorizeChallengeQuiet(s: Sys, q: nat, drawn: string)
    requires q in s.reqs && s.reqs[q].AuthorizeChallenge?
    ensures Quiet(s, Step(s, q, drawn), q)
  {
  }

  lemma CodeQuiet(s: Sys, q: nat, drawn: string)
    requires q in s.reqs && (s.reqs[q].CodeSecret? || s.reqs[q].CodeChallenge? || s.reqs[q].CodeTenant?)
    ensures Quiet(s, Step(s, q, drawn), q)
  {
  }

  lemma RefreshQuiet(s: Sys, q: nat, drawn: string)
    requires q in s.reqs
    requires s.reqs[q].RefreshSecret? || s.reqs[q].RefreshUser? || s.reqs[q].ReplayLookup? || s.reqs[q].Done?
    ensures Quiet(s, Step(s, q, drawn), q)
  {
  }

  lemma RevocationQuiet(s: Sys, q: nat, drawn: string)
    requires q in s.reqs && (s.reqs[q].ReplayWipe? || s.reqs[q].LogoutRotate?)
    ensures Quiet(s, Step(s, q, drawn), q)
  {
  }

  /** A step of q refines the baton race. */
  ghost predicate Refines(s: Sys, t: Sys, q: nat) {
    && q in s.reqs && q in t.reqs && Bookkept(t)
    && Next(View(s), View(t), MoveBetween(q, s.reqs[q], t.reqs[q]))
  }

  lemma QuietRefines(s: Sys, t: Sys, q: nat)
    requires Bookkept(s) && Quiet(s, t, q)
    ensures Refines(s, t, q)
  {
    QuietDrops(s, t, q);
  }

  /** Rotating an acceptable token takes it from the live tokens; the lineage continues in the request. */
  lemma TakeRefines(s: Sys, t: Sys, q: nat, token: Digest)
    requires Bookkept(s) && q in s.reqs && s.reqs[q].RefreshRotate?
    requires Acceptable(s.db, token) && t.db == Rotate(s.db, token).0 && t.h == s.h
    requires t.reqs == s.reqs[q := RefreshUser(Lineage(RootOf(s, token, q), Some(token),
                                                       Owner(s.db.refresh[token].user, s.db.refresh[token].client)))]
    ensures Refines(s, t, q)
  {
    HoldAt(s.reqs, q, t.reqs[q]);
    LiveRevoke(s.db, token);
    assert Takes(View(s), View(t), q, token);
  }

  lemma LiveRevoke(db: Db, token: Digest)
    requires Acceptable(db, token)
    ensures Live(Rotate(db, token).0.refresh) == Live(db.refresh) - {token}
  {
  }

  lemma RotateRefines(s: Sys, q: nat, drawn: string)
    requires Bookkept(s) && q in s.reqs && s.reqs[q].RefreshRotate?
    ensures Refines(s, Step(s, q, drawn), q)
  {
    var token, client := s.reqs[q].token, s.reqs[q].client;
    var t := StepRefreshRotate(s, q, token, client);
    if Acceptable(s.db, token) && s.db.refresh[token].client == client {
      TakeRefines(s, t, q, token);
    } else {
      QuietRefines(s, t, q);
    }
  }

  lemma LiveInsert(refresh: map<Digest, RefreshRow>, token: Digest, row: RefreshRow)
    requires row.revokedAt.None?
    ensures Live(refresh[token := row]) == Live(refresh)[token := Owner(row.user, row.client)]
  {
  }

  lemma IssueMints(s: Sys, q: nat, drawn: string)
    requires Bookkept(s) && q in s.reqs && s.reqs[q].Issue? && Sha256(drawn) !in s.h.rootOf
    ensures Mints(View(s), View(StepIssue(s, q, s.reqs[q].lineage, drawn)), q, Sha256(drawn))
  {
    var token := Sha256(drawn);
    var t := StepIssue(s, q, s.reqs[q].lineage, drawn);
    HoldAt(s.reqs, q, Done(Issued(token)));
    LiveInsert(s.db.refresh, token, t.db.refresh[token]);
  }

  lemma IssueRefines(s: Sys, q: nat, drawn: string)
    requires Bookkept(s) && q in s.reqs && s.reqs[q].Issue?
    ensures Refines(s, Step(s, q, drawn), q)
  {
    var token, l := Sha256(drawn), s.reqs[q].lineage;
    var t := StepIssue(s, q, l, drawn);
    if token !in s.h.rootOf {
      IssueMints(s, q, drawn);
    }
  }

  /** A step of q that starts the lineage rooted at q. */
  ghost predicate Begins(s: Sys, t: Sys, q: nat, owner: Owner) {
    && q in s.reqs && q in t.reqs && Carried(s.reqs[q]).None? && !s.reqs[q].Done?
    && Carried(t.reqs[q]) == Some(Lineage(q, None, owner))
    && t.reqs == s.reqs[q := t.reqs[q]] && t.db.refresh == s.db.refresh
    && t.h.roots == s.h.roots[q := owner] && t.h.rootOf == s.h.rootOf && t.h.parent == s.h.parent
  }

  lemma BeginRefines(s: Sys, t: Sys, q: nat, owner: Owner)
    requires Bookkept(s) && Begins(s, t, q, owner)
    ensures Refines(s, t, q)
  {
    HoldAt(s.reqs, q, t.reqs[q]);
  }

  lemma ExchangeShape(s: Sys, q: nat)
    requires q in s.reqs && s.reqs[q].CodeExchange?
    ensures var t := StepCodeExchange(s, q, s.reqs[q].request);
            Quiet(s, t, q) || exists owner :: Begins(s, t, q, owner)
  {
    var t := StepCodeExchange(s, q, s.reqs[q].request);
    if t.reqs[q].CodeChallenge? {
      assert Begins(s, t, q, t.reqs[q].lineage.owner);
    }
  }

  lemma ExchangeRefines(s: Sys, q: nat, drawn: string)
    requires Bookkept(s) && q in s.reqs && s.reqs[q].CodeExchange?
    ensures Refines(s, Step(s, q, drawn), q)
  {
    var t := StepCodeExchange(s, q, s.reqs[q].request);
    ExchangeShape(s, q);
    if owner :| Begins(s, t, q, owner) {
      BeginRefines(s, t, q, owner);
    } else {
      QuietRefines(s, t, q);
    }
  }

  lemma LoginRefines(s: Sys, q: nat, drawn: string)
    requires Bookkept(s) && q in s.reqs && (s.reqs[q].LoginUser? || s.reqs[q].RegisterUser?)
    ensures Refines(s, Step(s, q, drawn), q)
  {
    var t := Step(s, q, drawn);
    if t.reqs[q].Issue? {
      BeginRefines(s, t, q, t.reqs[q].lineage.owner);
    } else {
      QuietRefines(s, t, q);
    }
  }

  lemma StepRefines(s: Sys, q: nat, drawn: string)
    requires Bookkept(s) && q in s.reqs
    ensures Refines(s, Step(s, q, drawn), q)
  {
    var pc := s.reqs[q];
    if pc.RefreshRotate? {
      RotateRefines(s, q, drawn);
    } else if pc.Issue? {
      IssueRefines(s, q, drawn);
    } else if pc.CodeExchange? {
      ExchangeRefines(s, q, drawn);
    } else if pc.LoginUser? || pc.RegisterUser? {
      LoginRefines(s, q, drawn);
    } else {
      if pc.AuthorizeClient? || pc.AuthorizeUser? || pc.AuthorizeSuspended? {
        AuthorizeReadQuiet(s, q, drawn);
      } else if pc.AuthorizeInsert? {
        AuthorizeInsertQuiet(s, q, drawn);
      } else if pc.AuthorizeChallenge? {
        AuthorizeChallengeQuiet(s, q, drawn);
      } else if pc.CodeSecret? || pc.CodeChallenge? || pc.CodeTenant? {
        CodeQuiet(s, q, drawn);
      } else if pc.ReplayWipe? || pc.LogoutRotate? {
        RevocationQuiet(s, q, drawn);
      } else {
        RefreshQuiet(s, q, drawn);
      }
      QuietRefines(s, Step(s, q, drawn), q);
    }
  }

  lemma RequestEventsDrop(s: Sys, e: Event)
    requires Bookkept(s) && (e.Arrive? || e.Abort?)
    ensures Bookkept(Apply(s, e)) && Drops(View(s), View(Apply(s, e)))
  {
    match e
    case Arrive(q, pc) => HoldAt(s.reqs, q, pc);
    case Abort(q) => HoldAt(s.reqs, q, Done(ServerError));
  }

  lemma TableEventsDrop(s: Sys, e: Event)
    requires Bookkept(s) && !e.Run? && !e.Arrive? && !e.Abort?
    ensures Bookkept(Apply(s, e)) && Drops(View(s), View(Apply(s, e)))
  {
  }

  /** An event that runs no statement of a request only drops. */
  lemma OtherEventsDrop(s: Sys, e: Event)
    requires Bookkept(s) && !e.Run?
    ensures Bookkept(Apply(s, e)) && Drops(View(s), View(Apply(s, e)))
  {
    if e.Arrive? || e.Abort? {
      RequestEventsDrop(s, e);
    } else {
      TableEventsDrop(s, e);
    }
  }

  /** Refinement: whatever the event, the protocol makes a baton move. */
  lemma EventRefines(s: Sys, e: Event)
    requires Bookkept(s)
    ensures Bookkept(Apply(s, e))
    ensures Next(View(s), View(Apply(s, e)), MoveOf(s, e))
  {
    if e.Run? {
      if e.q in s.reqs {
        StepRefines(s, e.q, e.drawn);
      }
    } else {
      OtherEventsDrop(s, e);
    }
  }

  ghost predicate LineageInv(s: Sys) {
    Bookkept(s) && Baton.Inv(View(s))
  }

  lemma EventKeeps(s: Sys, e: Event)
    requires LineageInv(s)
    ensures LineageInv(Apply(s, e))
  {
    EventRefines(s, e);
    InvKept(View(s), View(Apply(s, e)), MoveOf(s, e));
  }

  lemma {:induction false} RunKeeps(s: Sys, es: seq<Event>)
    requires LineageInv(s)
    ensures LineageInv(Exec(s, es))
    decreases |es|
  {
    if es != [] {
      EventKeeps(s, es[0]);
      RunKeeps(Apply(s, es[0]), es[1..]);
    }
  }

  /** The tokens of a lineage that `rotate` would accept, and the requests carrying its baton. */
  function AcceptableIn(s: Sys, root: nat): set<Digest> {
    set t | t in s.db.refresh && Acceptable(s.db, t) && t in s.h.rootOf && s.h.rootOf[t] == root
  }

  function CarryingIn(s: Sys, root: nat): set<nat> {
    set q | q in s.reqs && Carried(s.reqs[q]).Some? && Carried(s.reqs[q]).value.root == root
  }

  /** Over every run, a lineage never forks: at most one acceptable token or request in flight, and
    * no refresh token is ever replaced by two. */
  lemma LineageNeverForks(now: int, es: seq<Event>, root: nat)
    ensures var s := Exec(Init(now), es);
            && |AcceptableIn(s, root)| + |CarryingIn(s, root)| <= 1
            && forall c, d :: c in s.h.parent && d in s.h.parent && s.h.parent[c] == s.h.parent[d] ==> c == d
  {
    RunKeeps(Init(now), es);
    NeverForks(Exec(Init(now), es), root);
  }

  lemma NeverForks(s: Sys, root: nat)
    requires LineageInv(s)
    ensures |AcceptableIn(s, root)| + |CarryingIn(s, root)| <= 1
    ensures forall c, d :: c in s.h.parent && d in s.h.parent && s.h.parent[c] == s.h.parent[d] ==> c == d
  {
    OneHolderPerLineage(View(s), root);
    SubsetCard(AcceptableIn(s, root), LiveIn(View(s), root));
    assert CarryingIn(s, root) == HoldIn(View(s), root);
  }

  /** Over every run, each acceptable token belongs to the user and client its lineage started with,
    * and so does the token it replaced. */
  lemma LineageKeepsOwner(now: int, es: seq<Event>, token: Digest)
    requires Acceptable(Exec(Init(now), es).db, token)
    ensures var s := Exec(Init(now), es);
            && token in s.h.rootOf && s.h.rootOf[token] in s.h.roots
            && s.h.roots[s.h.rootOf[token]] == Owner(s.db.refresh[token].user, s.db.refresh[token].client)
            && (token in s.h.parent ==>
                  s.h.parent[token] in s.h.rootOf && s.h.rootOf[s.h.parent[token]] == s.h.rootOf[token]
                  && !Acceptable(s.db, s.h.parent[token]))
  {
    var s := Exec(Init(now), es);
    RunKeeps(Init(now), es);
    assert token in View(s).live;
    assert token in s.h.parent && s.h.parent[token] in s.db.refresh ==> s.db.refresh[s.h.parent[token]].revokedAt.Some?;
  }

  /** How many lineages a run starts for a user: successful logins, registrations and code exchanges. */
  function LineagesStarted(s: Sys, es: seq<Event>, user: string): nat
    decreases |es|
  {
    if es == [] then 0 else NewHolders(MoveOf(s, es[0]), user) + LineagesStarted(Apply(s, es[0]), es[1..], user)
  }

  function AcceptableOf(s: Sys, user: string): set<Digest> {
    set t | t in s.db.refresh && Acceptable(s.db, t) && s.db.refresh[t].user == user
  }

  function InFlight(s: Sys, user: string): set<nat> {
    set q | q in s.reqs && Carried(s.reqs[q]).Some? && Carried(s.reqs[q]).value.owner.user == user
  }

  function LiveTokens(s: Sys, user: string): set<Digest> {
    set t | t in s.db.refresh && s.db.refresh[t].revokedAt.None? && s.db.refresh[t].user == user
  }

  lemma HoldersAre(s: Sys, user: string)
    ensures HoldersOf(View(s), user) == |LiveTokens(s, user)| + |InFlight(s, user)|
    ensures AcceptableOf(s, user) <= LiveTokens(s, user)
  {
    assert LiveOf(View(s).live, user) == LiveTokens(s, user);
    assert HoldOf(View(s).hold, user) == InFlight(s, user);
  }

  /** Conservation: unrevoked tokens plus requests in flight of a user grow only by lineages started. */
  lemma {:induction false} HoldersConserved(s: Sys, es: seq<Event>, user: string)
    requires Bookkept(s)
    ensures var t := Exec(s, es);
            |LiveTokens(t, user)| + |InFlight(t, user)|
            <= |LiveTokens(s, user)| + |InFlight(s, user)| + LineagesStarted(s, es, user)
    decreases |es|
  {
    if es != [] {
      var t := Apply(s, es[0]);
      EventRefines(s, es[0]);
      HoldersBounded(View(s), View(t), MoveOf(s, es[0]), user);
      HoldersAre(s, user);
      HoldersAre(t, user);
      HoldersConserved(t, es[1..], user);
    }
  }

  lemma WipeClears(s: Sys, q: nat, drawn: string)
    requires q in s.reqs && s.reqs[q].ReplayWipe?
    ensures LiveTokens(Step(s, q, drawn), s.reqs[q].user) == {}
    ensures InFlight(Step(s, q, drawn), s.reqs[q].user) == InFlight(s, s.reqs[q].user)
  {
  }

  lemma WipeHoldsFrom(s: Sys, q: nat, drawn: string, after: seq<Event>)
    requires Bookkept(s) && q in s.reqs && s.reqs[q].ReplayWipe?
    ensures var user := s.reqs[q].user;
            var wiped := Step(s, q, drawn);
            var t := Exec(wiped, after);
            && LiveTokens(wiped, user) == {}
            && |AcceptableOf(t, user)| + |InFlight(t, user)| <= |InFlight(s, user)| + LineagesStarted(wiped, after, user)
  {
    var user, wiped := s.reqs[q].user, Step(s, q, drawn);
    var t := Exec(wiped, after);
    StepRefines(s, q, drawn);
    WipeClears(s, q, drawn);
    HoldersConserved(wiped, after, user);
    HoldersAre(t, user);
    SubsetCard(AcceptableOf(t, user), LiveTokens(t, user));
  }

  /** The wipe leaves the user no unrevoked token, and whatever runs afterwards, each usable token comes
    * from a request that was in flight at the wipe or from a lineage started later. */
  lemma ReplayWipeHolds(now: int, before: seq<Event>, q: nat, drawn: string, after: seq<Event>)
    requires var s := Exec(Init(now), before); q in s.reqs && s.reqs[q].ReplayWipe?
    ensures var s := Exec(Init(now), before);
            var user := s.reqs[q].user;
            var wiped := Step(s, q, drawn);
            var t := Exec(wiped, after);
            && LiveTokens(wiped, user) == {}
            && |AcceptableOf(t, user)| + |InFlight(t, user)| <= |InFlight(s, user)| + LineagesStarted(wiped, after, user)
  {
    RunKeeps(Init(now), before);
    WipeHoldsFrom(Exec(Init(now), before), q, drawn, after);
  }
}
