/** Authorization codes over every run: single use, bound to client, redirect URI and PKCE challenge,
  * and every refresh token descends from a checked grant. */
module OAuthCodes {
  import opened Basics
  import opened OAuthStore
  import opened Baton
  import opened OAuthProtocol
  import opened OAuthLineage

  /** q exchanged the code in time, for the client and redirect URI it was issued to. */
  ghost predicate Bound(s: Sys, q: nat, r: CodeRequest) {
    && r.code in s.h.claims && r.code in s.h.origins
    && s.h.claims[r.code].q == q
    && s.h.claims[r.code].at < s.h.origins[r.code].issuedAt + CODE_LIFETIME_MS
    && r.client == s.h.origins[r.code].authorize.client
    && r.redirectUri == s.h.origins[r.code].authorize.redirectUri && r.redirectUri != ""
    && ValidClientSecret(s.db, r.client, r.secret)
  }

  /** ... and its verifier answers the challenge of the authorize request. */
  ghost predicate Passed(s: Sys, q: nat, r: CodeRequest) {
    Bound(s, q, r) && VerifierMatches(s.h.origins[r.code].authorize.challenge, r.verifier)
  }

  ghost predicate Granted(s: Sys, root: nat) {
    root in s.h.logins || root in s.h.reached
  }

  function CodeLineage(s: Sys, q: nat, r: CodeRequest): Lineage
    requires r.code in s.h.origins
  {
    Lineage(q, None, Owner(s.h.origins[r.code].authorize.user, r.client))
  }

  ghost predicate Presentable(s: Sys, r: CodeRequest) {
    r.code in s.h.origins ==> r.code in s.h.released
  }

  ghost predicate PcOk(s: Sys, q: nat, pc: Pc) {
    match pc
    case AuthorizeChallenge(code, challenge) =>
      code in s.h.origins && s.h.origins[code].authorize.challenge == Some(challenge)
    case CodeSecret(r) => Presentable(s, r)
    case CodeExchange(r) => Presentable(s, r) && ValidClientSecret(s.db, r.client, r.secret)
    case CodeChallenge(r, l) => Bound(s, q, r) && l == CodeLineage(s, q, r)
    case CodeTenant(r, l) => Passed(s, q, r) && l == CodeLineage(s, q, r)
    case RefreshUser(l) => Granted(s, l.root)
    case Issue(l) => Granted(s, l.root)
    case _ => true
  }

  /** The row of a code agrees with the authorize request and with the history. */
  ghost predicate RowOk(row: CodeRow, o: CodeOrigin, claimed: bool, released: bool) {
    && row.user == o.authorize.user
    && row.client == o.authorize.client
    && row.redirectUri == o.authorize.redirectUri
    && row.expiresAt == o.issuedAt + CODE_LIFETIME_MS
    && row.used == claimed
    && (released ==> row.challenge == o.authorize.challenge)
  }

  ghost predicate RowsOk(codes: map<string, CodeRow>, h: History) {
    && codes.Keys == h.origins.Keys
    && h.claims.Keys <= h.released <= h.origins.Keys
    && (forall c :: c in codes ==> RowOk(codes[c], h.origins[c], c in h.claims, c in h.released))
  }

  ghost predicate CodeInv(s: Sys) {
    && RowsOk(s.db.codes, s.h)
    && (forall q :: q in s.reqs ==> PcOk(s, q, s.reqs[q]))
    && (forall q :: q in s.h.reached ==> Passed(s, q, s.h.reached[q]))
    && (forall q :: q in s.h.reached ==> q in s.reqs && (s.reqs[q].Issue? || s.reqs[q].Done?))
    && (forall t :: t in s.h.rootOf ==> Granted(s, s.h.rootOf[t]))
  }

  /** What PcOk reads only grows. A released code keeps its origin. */
  ghost predicate Grows(s: Sys, t: Sys) {
    && SubMap(s.db.clients, t.db.clients) && SubMap(s.h.origins, t.h.origins) && SubMap(s.h.claims, t.h.claims)
    && SubMap(s.h.reached, t.h.reached) && s.h.released <= t.h.released && s.h.logins.Keys <= t.h.logins.Keys
  }

  /** Statements of one request: only its own program counter may change. */
  ghost predicate OneMoves(s: Sys, t: Sys, q: nat) {
    q in t.reqs && t.reqs == s.reqs[q := t.reqs[q]]
  }

  /** Codes issued between s and t were in nobody's hands. */
  ghost predicate NewCodesSecret(s: Sys, t: Sys) {
    forall p, c :: p in s.reqs && c in t.h.origins && Presents(s.reqs[p], c) ==> c in s.h.origins
  }

  lemma PcOkGrows(s: Sys, t: Sys, q: nat)
    requires Grows(s, t) && NewCodesSecret(s, t) && q in s.reqs && PcOk(s, q, s.reqs[q])
    ensures PcOk(t, q, s.reqs[q])
  {
    if s.reqs[q].CodeSecret? || s.reqs[q].CodeExchange? {
      assert Presents(s.reqs[q], s.reqs[q].request.code);
    }
  }

  lemma ReachedStays(s: Sys, t: Sys, q: nat)
    requires CodeInv(s) && Grows(s, t)
    requires forall p :: p in t.h.reached && p !in s.h.reached ==> p == q && Passed(t, q, t.h.reached[q])
    ensures forall p :: p in t.h.reached ==> Passed(t, p, t.h.reached[p])
  {
    forall p | p in t.h.reached ensures Passed(t, p, t.h.reached[p]) {
      if p in s.h.reached {
        assert Passed(s, p, s.h.reached[p]);
      }
    }
  }

  lemma PcsStayOk(s: Sys, t: Sys, q: nat)
    requires CodeInv(s) && Grows(s, t) && NewCodesSecret(s, t) && OneMoves(s, t, q) && PcOk(t, q, t.reqs[q])
    ensures forall p :: p in t.reqs ==> PcOk(t, p, t.reqs[p])
  {
    forall p | p in t.reqs ensures PcOk(t, p, t.reqs[p]) {
      if p != q {
        PcOkGrows(s, t, p);
      }
    }
  }

  lemma GrantsStay(s: Sys, t: Sys)
    requires CodeInv(s) && Grows(s, t) && SubMap(s.h.rootOf, t.h.rootOf)
    requires forall d :: d in t.h.rootOf && d !in s.h.rootOf ==> Granted(t, t.h.rootOf[d])
    ensures forall d :: d in t.h.rootOf ==> Granted(t, t.h.rootOf[d])
  {
    forall d | d in t.h.rootOf ensures Granted(t, t.h.rootOf[d]) {
      if d in s.h.rootOf {
        assert Granted(s, s.h.rootOf[d]);
      }
    }
  }

  /** Enough to keep the invariant: history grows, the mover is fine, and rows agree with the history. */
  lemma InvFromParts(s: Sys, t: Sys, q: nat)
    requires CodeInv(s) && Grows(s, t) && NewCodesSecret(s, t) && OneMoves(s, t, q)
    requires PcOk(t, q, t.reqs[q]) && RowsOk(t.db.codes, t.h)
    requires forall p :: p in t.h.reached && p !in s.h.reached ==> p == q && Passed(t, q, t.h.reached[q])
    requires q in t.h.reached ==> t.reqs[q].Issue? || t.reqs[q].Done?
    requires forall d :: d in t.h.rootOf && d !in s.h.rootOf ==> Granted(t, t.h.rootOf[d])
    requires SubMap(s.h.rootOf, t.h.rootOf)
    ensures CodeInv(t)
  {
    PcsStayOk(s, t, q);
    ReachedStays(s, t, q);
    GrantsStay(s, t);
  }

  /** A step that writes neither codes nor history. */
  lemma InvFromPc(s: Sys, t: Sys, q: nat)
    requires CodeInv(s) && OneMoves(s, t, q) && q in s.reqs
    requires t.db.clients == s.db.clients && t.db.codes == s.db.codes
    requires t.h == s.h
    requires PcOk(t, q, t.reqs[q])
    requires s.reqs[q].Issue? || s.reqs[q].Done? ==> t.reqs[q].Issue? || t.reqs[q].Done?
    ensures CodeInv(t)
  {
    InvFromParts(s, t, q);
  }

  lemma InvFromTables(s: Sys, t: Sys)
    requires CodeInv(s) && t.h == s.h && t.reqs == s.reqs
    requires t.db.codes == s.db.codes && SubMap(s.db.clients, t.db.clients)
    ensures CodeInv(t)
  {
    forall q | q in s.reqs ensures PcOk(t, q, t.reqs[q]) { PcOkGrows(s, t, q); }
    forall q | q in s.h.reached ensures Passed(t, q, t.h.reached[q]) { assert Passed(s, q, s.h.reached[q]); }
    forall d | d in s.h.rootOf ensures Granted(t, t.h.rootOf[d]) { assert Granted(s, s.h.rootOf[d]); }
  }

  lemma InsertRows(codes: map<string, CodeRow>, h: History, h': History, code: string, row: CodeRow, o: CodeOrigin)
    requires RowsOk(codes, h) && code !in h.origins
    requires h'.origins == h.origins[code := o] && h'.claims == h.claims
    requires h'.released == h.released || (h'.released == h.released + {code} && row.challenge == o.authorize.challenge)
    requires RowOk(row, o, false, false)
    ensures RowsOk(codes[code := row], h')
  {
  }

  /** What inserting the code `drawn` changes. */
  ghost predicate Inserts(s: Sys, t: Sys, q: nat, r: AuthorizeRequest, drawn: string) {
    && OneMoves(s, t, q) && t.db.clients == s.db.clients
    && t.db.codes == s.db.codes[drawn := CodeRow(r.user, r.client, r.redirectUri, s.db.now + CODE_LIFETIME_MS, false, None)]
    && t.h == s.h.(origins := s.h.origins[drawn := CodeOrigin(r, s.db.now)], released := t.h.released)
    && if r.challenge.Some? then t.h.released == s.h.released && t.reqs[q] == AuthorizeChallenge(drawn, r.challenge.value)
       else t.h.released == s.h.released + {drawn} && t.reqs[q] == Done(CodeIssued(drawn))
  }

  lemma StepInserts(s: Sys, q: nat, r: AuthorizeRequest, drawn: string)
    requires q in s.reqs && StepAuthorizeInsert(s, q, r, drawn) != s
    ensures Inserts(s, StepAuthorizeInsert(s, q, r, drawn), q, r, drawn)
    ensures drawn !in s.h.origins && forall p :: p in s.reqs ==> !Presents(s.reqs[p], drawn)
  {
  }

  lemma InsertGrows(s: Sys, t: Sys, q: nat, r: AuthorizeRequest, drawn: string)
    requires drawn !in s.h.origins && Inserts(s, t, q, r, drawn)
    requires forall p :: p in s.reqs ==> !Presents(s.reqs[p], drawn)
    ensures Grows(s, t) && NewCodesSecret(s, t) && PcOk(t, q, t.reqs[q])
  {
  }

  lemma InsertRowsOk(s: Sys, t: Sys, q: nat, r: AuthorizeRequest, drawn: string)
    requires RowsOk(s.db.codes, s.h) && drawn !in s.h.origins && Inserts(s, t, q, r, drawn)
    ensures RowsOk(t.db.codes, t.h)
  {
    InsertRows(s.db.codes, s.h, t.h, drawn, t.db.codes[drawn], t.h.origins[drawn]);
  }

  lemma InsertKeeps(s: Sys, q: nat, r: AuthorizeRequest, drawn: string)
    requires CodeInv(s) && q in s.reqs && s.reqs[q] == AuthorizeInsert(r)
    ensures CodeInv(StepAuthorizeInsert(s, q, r, drawn))
  {
    var t := StepAuthorizeInsert(s, q, r, drawn);
    if t != s {
      StepInserts(s, q, r, drawn);
      InsertGrows(s, t, q, r, drawn);
      InsertRowsOk(s, t, q, r, drawn);
      InvFromParts(s, t, q);
    }
  }

  lemma ChallengeRows(codes: map<string, CodeRow>, h: History, h': History, code: string)
    requires RowsOk(codes, h) && code in h.origins
    requires h'.origins == h.origins && h'.claims == h.claims && h'.released == h.released + {code}
    ensures RowsOk(codes[code := codes[code].(challenge := h.origins[code].authorize.challenge)], h')
  {
  }

  lemma ChallengeStoredKeeps(s: Sys, q: nat, code: string, challenge: Challenge)
    requires CodeInv(s) && q in s.reqs && s.reqs[q] == AuthorizeChallenge(code, challenge)
    ensures CodeInv(StepAuthorizeChallenge(s, q, code, challenge))
  {
    var t := StepAuthorizeChallenge(s, q, code, challenge);
    assert PcOk(s, q, s.reqs[q]);
    ChallengeRows(s.db.codes, s.h, t.h, code);
    InvFromParts(s, t, q);
  }

  lemma ClaimRows(codes: map<string, CodeRow>, h: History, h': History, code: string, claim: Claim)
    requires RowsOk(codes, h) && code in codes && code in h.released
    requires h'.origins == h.origins && h'.released == h.released && h'.claims == h.claims[code := claim]
    ensures RowsOk(codes[code := codes[code].(used := true)], h')
  {
  }

  lemma ClaimGrows(s: Sys, t: Sys, q: nat, r: CodeRequest)
    requires CodeInv(s) && q in s.reqs && s.reqs[q] == CodeExchange(r) && Exchangeable(s.db, r.code)
    requires t.db == ExchangeCode(s.db, r.code).0
    requires t.h == s.h.(claims := s.h.claims[r.code := Claim(q, s.db.now)], roots := t.h.roots)
    ensures Grows(s, t) && NewCodesSecret(s, t) && RowsOk(t.db.codes, t.h)
  {
    assert PcOk(s, q, s.reqs[q]);
    assert RowOk(s.db.codes[r.code], s.h.origins[r.code], r.code in s.h.claims, r.code in s.h.released);
    ClaimRows(s.db.codes, s.h, t.h, r.code, Claim(q, s.db.now));
  }

  /** A request that has just exchanged the code, with whatever the checks on the row decide. */
  lemma ClaimKeeps(s: Sys, t: Sys, q: nat, r: CodeRequest)
    requires CodeInv(s) && q in s.reqs && s.reqs[q] == CodeExchange(r) && Exchangeable(s.db, r.code)
    requires OneMoves(s, t, q) && t.db == ExchangeCode(s.db, r.code).0
    requires t.h == s.h.(claims := s.h.claims[r.code := Claim(q, s.db.now)], roots := t.h.roots)
    requires PcOk(t, q, t.reqs[q])
    ensures CodeInv(t)
  {
    ClaimGrows(s, t, q, r);
    InvFromParts(s, t, q);
  }

  lemma ExchangeKeeps(s: Sys, q: nat, r: CodeRequest)
    requires CodeInv(s) && q in s.reqs && s.reqs[q] == CodeExchange(r)
    ensures CodeInv(StepCodeExchange(s, q, r))
  {
    var t := StepCodeExchange(s, q, r);
    assert PcOk(s, q, s.reqs[q]);
    if Exchangeable(s.db, r.code) {
      assert RowOk(s.db.codes[r.code], s.h.origins[r.code], false, true);
      ClaimKeeps(s, t, q, r);
    } else {
      InvFromPc(s, t, q);
    }
  }

  lemma TenantKeeps(s: Sys, q: nat, r: CodeRequest, l: Lineage)
    requires CodeInv(s) && q in s.reqs && s.reqs[q] == CodeTenant(r, l)
    ensures CodeInv(StepCodeTenant(s, q, r, l))
  {
    assert PcOk(s, q, s.reqs[q]);
    InvFromParts(s, StepCodeTenant(s, q, r, l), q);
  }

  lemma RotateKeeps(s: Sys, q: nat, drawn: string)
    requires CodeInv(s) && Bookkept(s) && q in s.reqs && s.reqs[q].RefreshRotate?
    ensures CodeInv(Step(s, q, drawn))
  {
    var t := StepRefreshRotate(s, q, s.reqs[q].token, s.reqs[q].client);
    InvFromPc(s, t, q);
  }

  lemma LogInKeeps(s: Sys, q: nat, owner: Owner, login: Login)
    requires CodeInv(s) && q in s.reqs && (s.reqs[q].LoginUser? || s.reqs[q].RegisterUser?)
    ensures CodeInv(LogIn(s, q, owner, login))
  {
    InvFromParts(s, LogIn(s, q, owner, login), q);
  }

  lemma IssueKeeps(s: Sys, q: nat, drawn: string)
    requires CodeInv(s) && q in s.reqs && s.reqs[q].Issue?
    ensures CodeInv(Step(s, q, drawn))
  {
    var t := StepIssue(s, q, s.reqs[q].lineage, drawn);
    assert PcOk(s, q, s.reqs[q]);
    if t != s {
      InvFromParts(s, t, q);
    }
  }

  lemma LoginKeeps(s: Sys, q: nat, drawn: string)
    requires CodeInv(s) && q in s.reqs && s.reqs[q].LoginUser?
    ensures CodeInv(Step(s, q, drawn))
  {
    var t := StepLoginUser(s, q, s.reqs[q].user, s.reqs[q].client, s.reqs[q].passwordOk);
    if t.reqs[q].Done? {
      InvFromPc(s, t, q);
    } else {
      LogInKeeps(s, q, Owner(s.reqs[q].user, s.reqs[q].client), t.h.logins[q]);
    }
  }

  lemma RegisterKeeps(s: Sys, q: nat, drawn: string)
    requires CodeInv(s) && q in s.reqs && s.reqs[q].RegisterUser?
    ensures CodeInv(Step(s, q, drawn))
  {
    var user, tenant, client := s.reqs[q].user, s.reqs[q].tenant, s.reqs[q].client;
    if user in s.db.users {
      InvFromPc(s, At(s, q, Done(ServerError)), q);
    } else {
      var t := s.(db := s.db.(users := s.db.users[user := UserRow(tenant, false)]));
      InvFromTables(s, t);
      LogInKeeps(t, q, Owner(user, client), Registered(user, client));
    }
  }

  lemma CodeReadsKeep(s: Sys, q: nat, drawn: string)
    requires CodeInv(s) && q in s.reqs
    requires var pc := s.reqs[q];
             pc.AuthorizeClient? || pc.AuthorizeUser? || pc.AuthorizeSuspended? || pc.CodeSecret? || pc.CodeChallenge?
    ensures CodeInv(Step(s, q, drawn))
  {
    assert PcOk(s, q, s.reqs[q]);
    InvFromPc(s, Step(s, q, drawn), q);
  }

  lemma RefreshReadsKeep(s: Sys, q: nat, drawn: string)
    requires CodeInv(s) && q in s.reqs
    requires var pc := s.reqs[q];
             pc.RefreshSecret? || pc.RefreshUser? || pc.ReplayLookup? || pc.ReplayWipe? || pc.LogoutRotate? || pc.Done?
    ensures CodeInv(Step(s, q, drawn))
  {
    assert PcOk(s, q, s.reqs[q]);
    InvFromPc(s, Step(s, q, drawn), q);
  }

  lemma StepKeeps(s: Sys, q: nat, drawn: string)
    requires CodeInv(s) && Bookkept(s) && q in s.reqs
    ensures CodeInv(Step(s, q, drawn))
  {
    match s.reqs[q]
    case AuthorizeInsert(r) => InsertKeeps(s, q, r, drawn);
    case AuthorizeChallenge(code, challenge) => ChallengeStoredKeeps(s, q, code, challenge);
    case CodeExchange(r) => ExchangeKeeps(s, q, r);
    case CodeTenant(r, l) => TenantKeeps(s, q, r, l);
    case RefreshRotate(_, _) => RotateKeeps(s, q, drawn);
    case LoginUser(_, _, _) => LoginKeeps(s, q, drawn);
    case RegisterUser(_, _, _) => RegisterKeeps(s, q, drawn);
    case Issue(_) => IssueKeeps(s, q, drawn);
    case RefreshSecret(_, _, _) => RefreshReadsKeep(s, q, drawn);
    case RefreshUser(_) => RefreshReadsKeep(s, q, drawn);
    case ReplayLookup(_) => RefreshReadsKeep(s, q, drawn);
    case ReplayWipe(_) => RefreshReadsKeep(s, q, drawn);
    case LogoutRotate(_) => RefreshReadsKeep(s, q, drawn);
    case Done(_) => RefreshReadsKeep(s, q, drawn);
    case _ => CodeReadsKeep(s, q, drawn);
  }

  lemma RequestEventsKeep(s: Sys, e: Event)
    requires CodeInv(s) && (e.Arrive? || e.Abort?)
    ensures CodeInv(Apply(s, e))
  {
    var t := Apply(s, e);
    if t != s {
      InvFromParts(s, t, e.q);
    }
  }

  lemma TableEventsKeep(s: Sys, e: Event)
    requires CodeInv(s) && (e.Tick? || e.Cleanup? || e.SetSuspended? || e.AddUser? || e.AddClient?)
    ensures CodeInv(Apply(s, e))
  {
    InvFromTables(s, Apply(s, e));
  }

  lemma EventKeepsCodes(s: Sys, e: Event)
    requires CodeInv(s) && Bookkept(s)
    ensures CodeInv(Apply(s, e)) && Bookkept(Apply(s, e))
  {
    EventRefines(s, e);
    if e.Run? {
      if e.q in s.reqs { StepKeeps(s, e.q, e.drawn); }
    } else if e.Arrive? || e.Abort? {
      RequestEventsKeep(s, e);
    } else {
      TableEventsKeep(s, e);
    }
  }

  lemma {:induction false} CodeRunKeeps(s: Sys, es: seq<Event>)
    requires CodeInv(s) && Bookkept(s)
    ensures CodeInv(Exec(s, es)) && Bookkept(Exec(s, es))
    decreases |es|
  {
    if es != [] {
      EventKeepsCodes(s, es[0]);
      CodeRunKeeps(Apply(s, es[0]), es[1..]);
    }
  }

  /** A token request that reached issue_tokens: its code was issued by `/authorize`, exchanged before its
    * 300 s were over, by an authenticated client, with the client, redirect URI and PKCE proof of the
    * authorize request. */
  ghost predicate CheckedGrant(s: Sys, q: nat) {
    q in s.h.reached &&
    var r := s.h.reached[q];
    && r.code in s.h.origins && r.code in s.h.claims
    && var o := s.h.origins[r.code];
    && s.h.claims[r.code].q == q && s.h.claims[r.code].at < o.issuedAt + 300_000
    && r.client in s.db.clients
    && (s.db.clients[r.client].secretHash == None || s.db.clients[r.client].secretHash == Some(Sha256(r.secret)))
    && r.client == o.authorize.client
    && r.redirectUri == o.authorize.redirectUri != ""
    && match o.authorize.challenge
       case None => r.verifier == None
       case Some(c) => r.verifier.Some? && c == HexDigest(Sha256(r.verifier.value))
  }

  /** Over every interleaving: each code reaches issue_tokens at most once and only as a checked grant, and
    * every refresh token ever issued descends from a successful login or registration or a checked grant. */
  lemma CodesAreSingleUseAndBound(now: int, es: seq<Event>)
    ensures var s := Exec(Init(now), es);
            && (forall q :: q in s.h.reached ==> CheckedGrant(s, q))
            && (forall p, q | p in s.h.reached && q in s.h.reached :: s.h.reached[p].code == s.h.reached[q].code ==> p == q)
            && (forall t :: t in s.db.refresh ==>
                  t in s.h.rootOf && (s.h.rootOf[t] in s.h.logins || CheckedGrant(s, s.h.rootOf[t])))
  {
    CodeRunKeeps(Init(now), es);
    AllChecked(Exec(Init(now), es));
  }

  lemma AllChecked(s: Sys)
    requires CodeInv(s) && Bookkept(s)
    ensures forall q :: q in s.h.reached ==> CheckedGrant(s, q)
    ensures forall p, q | p in s.h.reached && q in s.h.reached :: s.h.reached[p].code == s.h.reached[q].code ==> p == q
    ensures forall t :: t in s.db.refresh ==>
              t in s.h.rootOf && (s.h.rootOf[t] in s.h.logins || CheckedGrant(s, s.h.rootOf[t]))
  {
    forall q | q in s.h.reached ensures CheckedGrant(s, q) {
      assert Passed(s, q, s.h.reached[q]);
    }
    forall t | t in s.db.refresh ensures s.h.rootOf[t] in s.h.logins || CheckedGrant(s, s.h.rootOf[t]) {
      assert Granted(s, s.h.rootOf[t]);
    }
  }

  /** What later runs cannot undo. */
  ghost predicate Persists(s: Sys, t: Sys) {
    && SubMap(s.h.claims, t.h.claims) && SubMap(s.h.reached, t.h.reached)
    && (forall q :: q in s.reqs && s.reqs[q].Done? ==> q in t.reqs && t.reqs[q] == s.reqs[q])
    && (forall q :: q in t.h.reached && q in s.reqs && s.reqs[q].Done? ==> q in s.h.reached)
  }

  /** What a step may write of the program counters, claims and grants. */
  ghost predicate Framed(s: Sys, t: Sys, q: nat) {
    && q in s.reqs
    && (t == s || (q in t.reqs && t.reqs == s.reqs[q := t.reqs[q]] && !s.reqs[q].Done?))
    && (t.h.claims == s.h.claims ||
        (s.reqs[q].CodeExchange? && Exchangeable(s.db, s.reqs[q].request.code)
         && t.h.claims == s.h.claims[s.reqs[q].request.code := Claim(q, s.db.now)]))
    && (t.h.reached == s.h.reached ||
        (s.reqs[q].CodeTenant? && t.h.reached == s.h.reached[q := s.reqs[q].request]))
  }

  lemma AuthorizeFramed(s: Sys, q: nat, drawn: string)
    requires q in s.reqs
    requires s.reqs[q].AuthorizeClient? || s.reqs[q].AuthorizeUser? || s.reqs[q].AuthorizeSuspended?
             || s.reqs[q].AuthorizeInsert? || s.reqs[q].AuthorizeChallenge?
    ensures Framed(s, Step(s, q, drawn), q)
  {
  }

  lemma ClaimedFramed(s: Sys, q: nat, r: CodeRequest, row: CodeRow)
    ensures var t := StepClaimed(s, q, r, row);
      && q in t.reqs && t.reqs == s.reqs[q := t.reqs[q]] && t.h.reached == s.h.reached && t.h.claims == s.h.claims
      && t.h.logins == s.h.logins && t.h.origins == s.h.origins && t.db == s.db
      && (t.h.roots == s.h.roots || t.h.roots == s.h.roots[q := Owner(row.user, row.client)])
      && (t.reqs[q].Done? || t.reqs[q].CodeChallenge?)
  {
  }

  lemma ClaimFramed(s: Sys, q: nat, r: CodeRequest)
    requires q in s.reqs && s.reqs[q] == CodeExchange(r) && Exchangeable(s.db, r.code)
    ensures var t := StepCodeExchange(s, q, r);
      && q in t.reqs && t.reqs == s.reqs[q := t.reqs[q]] && t.h.reached == s.h.reached
      && t.h.claims == s.h.claims[r.code := Claim(q, s.db.now)]
  {
    var claimed := s.(db := ExchangeCode(s.db, r.code).0, h := s.h.(claims := s.h.claims[r.code := Claim(q, s.db.now)]));
    ClaimedFramed(claimed, q, r, s.db.codes[r.code]);
  }

  lemma ExchangeFramed(s: Sys, q: nat, drawn: string)
    requires q in s.reqs && s.reqs[q].CodeExchange?
    ensures Framed(s, Step(s, q, drawn), q)
  {
    if Exchangeable(s.db, s.reqs[q].request.code) {
      ClaimFramed(s, q, s.reqs[q].request);
    }
  }

  lemma CodeFramed(s: Sys, q: nat, drawn: string)
    requires q in s.reqs && (s.reqs[q].CodeSecret? || s.reqs[q].CodeChallenge? || s.reqs[q].CodeTenant?)
    ensures Framed(s, Step(s, q, drawn), q)
  {
  }

  lemma RefreshFramed(s: Sys, q: nat, drawn: string)
    requires q in s.reqs
    requires s.reqs[q].RefreshSecret? || s.reqs[q].RefreshRotate? || s.reqs[q].RefreshUser? || s.reqs[q].ReplayLookup?
             || s.reqs[q].ReplayWipe? || s.reqs[q].LogoutRotate? || s.reqs[q].Done?
    ensures Framed(s, Step(s, q, drawn), q)
  {
  }

  lemma StepPersists(s: Sys, q: nat, drawn: string)
    requires CodeInv(s) && q in s.reqs
    ensures Persists(s, Step(s, q, drawn))
  {
    match s.reqs[q] {
      case AuthorizeClient(_) => AuthorizeFramed(s, q, drawn);
      case AuthorizeUser(_) => AuthorizeFramed(s, q, drawn);
      case AuthorizeSuspended(_) => AuthorizeFramed(s, q, drawn);
      case AuthorizeInsert(_) => AuthorizeFramed(s, q, drawn);
      case AuthorizeChallenge(_, _) => AuthorizeFramed(s, q, drawn);
      case CodeSecret(_) => CodeFramed(s, q, drawn);
      case CodeExchange(_) => ExchangeFramed(s, q, drawn);
      case CodeChallenge(_, _) => CodeFramed(s, q, drawn);
      case CodeTenant(_, _) => CodeFramed(s, q, drawn);
      case LoginUser(_, _, _) =>
      case RegisterUser(_, _, _) =>
      case Issue(_) =>
      case _ => RefreshFramed(s, q, drawn);
    }
    PersistsFromFrame(s, Step(s, q, drawn), q);
  }

  lemma PersistsFromFrame(s: Sys, t: Sys, q: nat)
    requires RowsOk(s.db.codes, s.h) && Framed(s, t, q)
    requires q in s.h.reached ==> s.reqs[q].Issue? || s.reqs[q].Done?
    ensures Persists(s, t)
  {
    if s.reqs[q].CodeExchange? && Exchangeable(s.db, s.reqs[q].request.code) {
      var c := s.reqs[q].request.code;
      assert RowOk(s.db.codes[c], s.h.origins[c], c in s.h.claims, c in s.h.released);
    }
  }

  lemma OtherPersists(s: Sys, e: Event)
    requires !e.Run?
    ensures Persists(s, Apply(s, e))
  {
  }

  lemma EventPersists(s: Sys, e: Event)
    requires CodeInv(s)
    ensures Persists(s, Apply(s, e))
  {
    if e.Run? {
      if e.q in s.reqs { StepPersists(s, e.q, e.drawn); }
    } else {
      OtherPersists(s, e);
    }
  }

  lemma PersistsTransitive(s: Sys, t: Sys, u: Sys)
    requires Persists(s, t) && Persists(t, u)
    ensures Persists(s, u)
  {
  }

  lemma {:induction false} RunPersists(s: Sys, es: seq<Event>)
    requires CodeInv(s) && Bookkept(s)
    ensures Persists(s, Exec(s, es))
    decreases |es|
  {
    if es != [] {
      EventPersists(s, es[0]);
      EventKeepsCodes(s, es[0]);
      RunPersists(Apply(s, es[0]), es[1..]);
      PersistsTransitive(s, Apply(s, es[0]), Exec(s, es));
    }
  }

  /** Once a code is exchanged it never exchanges again; only the request that exchanged it can reach
    * issue_tokens with it, and if that request has ended without getting there, nothing ever will. */
  lemma BurnedForever(now: int, before: seq<Event>, code: string, after: seq<Event>)
    requires code in Exec(Init(now), before).h.claims
    ensures var s, t := Exec(Init(now), before), Exec(Exec(Init(now), before), after);
            var claimant := s.h.claims[code].q;
            && ExchangeCode(t.db, code).1 == None
            && (forall p | p in t.h.reached :: t.h.reached[p].code == code ==> p == claimant)
            && (claimant in s.reqs && s.reqs[claimant].Done? && claimant !in s.h.reached ==>
                  forall p | p in t.h.reached :: t.h.reached[p].code != code)
  {
    var s := Exec(Init(now), before);
    var t := Exec(s, after);
    CodeRunKeeps(Init(now), before);
    CodeRunKeeps(s, after);
    RunPersists(s, after);
    assert t.h.claims[code] == s.h.claims[code];
    forall p | p in t.h.reached ensures t.h.reached[p].code == code ==> p == s.h.claims[code].q {
      assert Passed(t, p, t.h.reached[p]);
    }
  }
}
