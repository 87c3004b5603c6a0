/** Creating API keys and exchanging them for opaque tokens. */
module KeyIssuing {
  import opened Basics
  import opened Text
  import opened Scopes
  import opened ApiKeys
  import opened Redis

  const MAX_SCOPES_PER_KEY: nat := 100

  datatype Problem = TooMany(count: nat) | Malformed(scope: string, error: ScopeError)
                   | Foreign(scope: string, owner: Project)

  /** The first scope that is malformed or belongs to another project. */
  function FirstProblem(scopes: seq<string>, project: Project): Option<Problem> {
    if scopes == [] then None
    else match ScopeProject(scopes[0])
         case Err(e) => Some(Malformed(scopes[0], e))
         case Ok(p) => if p != project then Some(Foreign(scopes[0], p)) else FirstProblem(scopes[1..], project)
  }

  /** `ApiKey::validate_scopes`. */
  function ScopesProblem(scopes: seq<string>, project: Project): Option<Problem> {
    if |scopes| > MAX_SCOPES_PER_KEY then Some(TooMany(|scopes|)) else FirstProblem(scopes, project)
  }

  /** The scope is in the grammar and names this project. */
  ghost predicate Belongs(w: string, project: Project) {
    exists r, a :: IsScope(w, project, r, a)
  }

  ghost predicate AllBelong(scopes: seq<string>, project: Project) {
    forall w :: w in scopes ==> Belongs(w, project)
  }

  lemma BelongsIff(w: string, project: Project)
    ensures Belongs(w, project) <==> ScopeProject(w) == Ok(project)
  {
    ValidateIffScope(w);
    if ScopeProject(w) == Ok(project) {
      var p, r, a :| IsScope(w, p, r, a);
      assert p == project;
    }
  }

  /** What is wrong with one scope. */
  ghost predicate IsProblem(p: Problem, w: string, project: Project) {
    match p
    case TooMany(_) => false
    case Malformed(scope, e) => scope == w && !InGrammar(w) && Validate(w) == Err(e)
    case Foreign(scope, owner) => scope == w && owner != project && Belongs(w, owner)
  }

  /** The k-th scope is the first that does not belong. */
  ghost predicate FirstAt(scopes: seq<string>, project: Project, problem: Problem, k: nat) {
    k < |scopes| && AllBelong(scopes[..k], project) && IsProblem(problem, scopes[k], project)
  }

  lemma HeadProblem(scopes: seq<string>, project: Project)
    requires scopes != [] && ScopeProject(scopes[0]) != Ok(project)
    ensures FirstProblem(scopes, project).Some? && FirstAt(scopes, project, FirstProblem(scopes, project).value, 0)
    ensures !Belongs(scopes[0], project)
  {
    ValidateIffScope(scopes[0]);
    BelongsIff(scopes[0], project);
    if ScopeProject(scopes[0]).Ok? { BelongsIff(scopes[0], ScopeProject(scopes[0]).value); }
  }

  lemma LaterProblem(scopes: seq<string>, project: Project, problem: Problem, k: nat)
    requires scopes != [] && Belongs(scopes[0], project) && FirstAt(scopes[1..], project, problem, k)
    ensures FirstAt(scopes, project, problem, k + 1)
  {
    assert scopes[..k + 1] == [scopes[0]] + scopes[1..][..k];
  }

  /** No problem is found exactly when every scope belongs to the project; otherwise the first that does not is
    * reported, with what is wrong with it. */
  lemma {:induction false} FirstProblemIff(scopes: seq<string>, project: Project)
    ensures FirstProblem(scopes, project).None? <==> AllBelong(scopes, project)
    ensures FirstProblem(scopes, project).Some? ==>
      exists k :: FirstAt(scopes, project, FirstProblem(scopes, project).value, k)
  {
    if scopes == [] {
    } else if ScopeProject(scopes[0]) != Ok(project) {
      HeadProblem(scopes, project);
    } else {
      BelongsIff(scopes[0], project);
      FirstProblemIff(scopes[1..], project);
      assert scopes == [scopes[0]] + scopes[1..];
      if k :| FirstProblem(scopes, project).Some? && FirstAt(scopes[1..], project, FirstProblem(scopes, project).value, k) {
        LaterProblem(scopes, project, FirstProblem(scopes, project).value, k);
      }
    }
  }

  /** `validate_scopes` accepts exactly lists of at most 100 scopes of the project. */
  lemma ScopesProblemIff(scopes: seq<string>, project: Project)
    ensures ScopesProblem(scopes, project) == None <==> |scopes| <= 100 && AllBelong(scopes, project)
    ensures |scopes| > 100 ==> ScopesProblem(scopes, project) == Some(TooMany(|scopes|))
    ensures |scopes| <= 100 ==> ScopesProblem(scopes, project) == FirstProblem(scopes, project)
  {
    FirstProblemIff(scopes, project);
  }

  /** How many rows of the scope table (id to name) carry one of the names. */
  function CountMatching(table: map<string, string>, names: seq<string>): nat {
    |set id | id in table && table[id] in names|
  }

  ghost predicate UniqueNames(table: map<string, string>) {
    forall i, j :: i in table && j in table && table[i] == table[j] ==> i == j
  }

  ghost predicate Distinct(xs: seq<string>) {
    forall i, j :: 0 <= i < j < |xs| ==> xs[i] != xs[j]
  }

  lemma DistinctHead(xs: seq<string>)
    requires xs != []
    ensures Distinct(xs) <==> Distinct(xs[1..]) && xs[0] !in xs[1..]
  {
    var tail := xs[1..];
    assert forall i :: 0 <= i < |tail| ==> tail[i] == xs[i + 1];
    if Distinct(tail) && xs[0] !in tail {
      forall i, j | 0 <= i < j < |xs| ensures xs[i] != xs[j] {
        assert xs[j] == tail[j - 1];
        if i > 0 { assert xs[i] == tail[i - 1]; }
      }
    }
  }

  lemma {:induction false} ElementsCard(xs: seq<string>)
    ensures |Elements(xs)| <= |xs|
    ensures |Elements(xs)| == |xs| <==> Distinct(xs)
  {
    if xs != [] {
      var tail := xs[1..];
      ElementsCard(tail);
      DistinctHead(xs);
      assert Elements(xs) == Elements(tail) + {xs[0]};
    }
  }

  /** With unique names, ids and names of a set of rows are equally many. */
  lemma {:induction false} NamesCard(table: map<string, string>, ids: set<string>)
    requires UniqueNames(table) && ids <= table.Keys
    ensures |set id | id in ids :: table[id]| == |ids|
    decreases |ids|
  {
    var names := set id | id in ids :: table[id];
    if ids != {} {
      var x :| x in ids;
      var rest := set id | id in ids - {x} :: table[id];
      NamesCard(table, ids - {x});
      assert names == rest + {table[x]};
      assert table[x] !in rest;
    } else {
      assert names == {};
    }
  }

  /** The counting test accepts a list exactly when every name exists and no name is repeated. */
  lemma CountAcceptsIff(table: map<string, string>, names: seq<string>)
    requires UniqueNames(table)
    ensures CountMatching(table, names) == |names| <==> (forall w :: w in names ==> w in table.Values) && Distinct(names)
  {
    var ids := set id | id in table && table[id] in names;
    var found := set id | id in ids :: table[id];
    NamesCard(table, ids);
    ElementsCard(names);
    assert found <= Elements(names);
    SubsetCard(found, Elements(names));
    forall w | w in names ensures w in found <==> w in table.Values {
      if w in table.Values {
        var id :| id in table && table[id] == w;
        assert id in ids;
      }
    }
    assert found == Elements(names) <==> forall w :: w in names ==> w in table.Values;
  }

  datatype CreateOutcome = Created(hash: Digest) | BadProject | NoOwner | BadScopes(problem: Problem)
                         | UnknownScopes | OwnerNotFound

  datatype CreateRequest = CreateRequest(project: string, owner: Option<string>, scopes: seq<string>,
                                         expiresAt: Option<int>)

  /** The scopes a request must carry to be accepted: well formed for the project, at most 100, all stored, none twice. */
  ghost predicate AcceptableScopes(table: map<string, string>, scopes: seq<string>, project: Project) {
    && |scopes| <= 100 && AllBelong(scopes, project)
    && (forall w :: w in scopes ==> w in table.Values) && Distinct(scopes)
  }

  class ApiKeyCreator {
    var keys: Keys
    var scopeTable: map<string, string>
    var accounts: map<string, string>  // service account -> tenant

    constructor (scopeTable: map<string, string>, accounts: map<string, string>)
      ensures keys == map[] && this.scopeTable == scopeTable && this.accounts == accounts
    {
      keys := map[];
      this.scopeTable, this.accounts := scopeTable, accounts;
    }

    /** The syntactic loop over the requested scopes. */
    method CheckScopes(scopes: seq<string>, project: Project) returns (problem: Option<Problem>)
      ensures problem == ScopesProblem(scopes, project)
    {
      if |scopes| > MAX_SCOPES_PER_KEY {
        return Some(TooMany(|scopes|));
      }
      assert scopes[0..] == scopes;
      for i := 0 to |scopes|
        invariant FirstProblem(scopes, project) == FirstProblem(scopes[i..], project)
      {
        match ScopeProject(scopes[i])
        case Err(e) => return Some(Malformed(scopes[i], e));
        case Ok(p) =>
          if p != project {
            return Some(Foreign(scopes[i], p));
          }
      }
      return None;
    }

    /** A key is inserted exactly for a known project, an existing owner and acceptable scopes, and the
      * inserted row satisfies `validate_scopes`; otherwise nothing changes. */
    method Create(req: CreateRequest, hash: Digest) returns (o: CreateOutcome)
      requires hash !in keys && UniqueNames(scopeTable)
      modifies this`keys
      ensures o.Created? <==>
                && ParseProject(req.project).Some? && req.owner.Some? && req.owner.value in accounts
                && AcceptableScopes(scopeTable, req.scopes, ParseProject(req.project).value)
      ensures o == BadProject <==> req.project !in NAMES.Values
      ensures o == NoOwner <==> req.project in NAMES.Values && req.owner.None?
      ensures o.BadScopes? <==>
                && req.project in NAMES.Values && req.owner.Some?
                && !(|req.scopes| <= 100 && AllBelong(req.scopes, ParseProject(req.project).value))
      ensures o.BadScopes? ==> Some(o.problem) == ScopesProblem(req.scopes, ParseProject(req.project).value)
      ensures o == OwnerNotFound <==>
                && ParseProject(req.project).Some? && req.owner.Some? && req.owner.value !in accounts
                && AcceptableScopes(scopeTable, req.scopes, ParseProject(req.project).value)
      ensures !o.Created? ==> keys == old(keys)
      ensures o.Created? ==>
                && o.hash == hash
                && keys == old(keys)[hash := ApiKey(accounts[req.owner.value], req.owner.value,
                                                    ParseProject(req.project).value, hash, req.scopes, req.expiresAt, None)]
                && ScopesProblem(keys[hash].scopes, keys[hash].project) == None
    {
      var project := ParseProject(req.project);
      ProjectNames(req.project);
      if project.None? {
        return BadProject;
      }
      if req.owner.None? {
        return NoOwner;
      }
      var problem := CheckScopes(req.scopes, project.value);
      ScopesProblemIff(req.scopes, project.value);
      if problem.Some? {
        return BadScopes(problem.value);
      }
      CountAcceptsIff(scopeTable, req.scopes);
      if req.scopes != [] && CountMatching(scopeTable, req.scopes) != |req.scopes| {
        return UnknownScopes;
      }
      if req.owner.value !in accounts {
        return OwnerNotFound;
      }
      keys := keys[hash := ApiKey(accounts[req.owner.value], req.owner.value, project.value, hash,
                                   req.scopes, req.expiresAt, None)];
      return Created(hash);
    }
  }

  // ---- client_credentials: an API key or opaque token buys an opaque token ----

  datatype IssueOutcome = InvalidSecret | UnknownClient | ClientMismatch | Minted(hash: Digest)

  function OrEmpty(o: Option<string>): string {
    match o case Some(x) => x case None => ""
  }

  /** The project an answer names, with the fallback for an answer that names none. */
  function ProjectOf(clientId: Option<string>): Project {
    match clientId
    case None => Pandaria
    case Some(c) => match ParseProject(c) case Some(p) => p case None => Pandaria
  }

  /** The row `create_opaque` inserts for an introspection answer. */
  function OpaqueRow(r: Response, ttl: nat, now: int, hash: Digest): ApiKey {
    ApiKey(OrEmpty(r.tenantId), OrEmpty(r.userId), ProjectOf(r.clientId), hash, Words(OrEmpty(r.scope)),
           Some(now + 1000 * ttl), None)
  }

  /** Exchange the credential behind `secret` for an opaque token behind `hash`. */
  function Exchange(s: State, secret: Digest, client: string, ttl: nat, hash: Digest): (State, IssueOutcome) {
    var (t, r) := Verify(s, secret);
    if !r.active then (t, InvalidSecret)
    else match ParseProject(client)
         case None => (t, UnknownClient)
         case Some(p) =>
           if p != ProjectOf(r.clientId) then (t, ClientMismatch)
           else (t.(keys := t.keys[hash := OpaqueRow(r, ttl, t.now, hash)]), Minted(hash))
  }

  ghost predicate SameAuthority(a: ApiKey, b: ApiKey) {
    a.tenant == b.tenant && a.serviceAccount == b.serviceAccount && a.project == b.project && a.scopes == b.scopes
  }

  /** The scopes of a row are words, as validated scopes are. */
  ghost predicate WordScopes(key: ApiKey) {
    forall w :: w in key.scopes ==> IsWord(w)
  }

  /** One exchange: it succeeds exactly for its own project's client id and a credential that is active or whose
    * revocation lags behind a live entry; the new row has the authority of the old one, and the Pandaria fallback
    * is never taken. */
  lemma ExchangePreservesAuthority(s: State, secret: Digest, client: string, ttl: nat, hash: Digest)
    requires CacheInv(s) && hash !in s.keys && (secret in s.keys ==> WordScopes(s.keys[secret]))
    ensures var (t, o) := Exchange(s, secret, client, ttl, hash);
            && CacheInv(t) && t == Verify(s, secret).0.(keys := t.keys)
            && (o.Minted? <==> Answerable(s, secret) && client == NAMES[s.keys[secret].project])
            && (o == InvalidSecret <==> !Answerable(s, secret))
            && (o == UnknownClient <==> Answerable(s, secret) && client !in NAMES.Values)
            && (o.Minted? ==>
                  && o.hash == hash && t.keys == s.keys[hash := t.keys[hash]]
                  && SameAuthority(t.keys[hash], s.keys[secret]) && t.keys[hash].keyHash == hash
                  && t.keys[hash].expiresAt == Some(s.now + 1000 * ttl) && t.keys[hash].revokedAt.None?)
            && (!o.Minted? ==> t.keys == s.keys)
  {
    VerifyIff(s, secret);
    VerifyIsPlainIff(s, secret);
    VerifyKeeps(s, secret);
    ProjectNames(client);
    if Verify(s, secret).1.active {
      ParseDisplay(client, s.keys[secret].project);
      RowOfAnswer(s.keys[secret], ttl, s.now, hash);
    }
  }

  /** The row made from a key's answer repeats the key. */
  lemma RowOfAnswer(key: ApiKey, ttl: nat, now: int, hash: Digest)
    requires WordScopes(key)
    ensures SameAuthority(OpaqueRow(BuildResponse(key), ttl, now, hash), key)
    ensures ProjectOf(BuildResponse(key).clientId) == key.project
  {
    ParseDisplay(Display(key.project), key.project);
    WordsOfJoin(key.scopes);
  }

  /** Revoking a key through `/token/revoke` while an entry is live does not end its authority: the revoked key
    * still buys a token, and that token is active in the tables for its whole lifetime. */
  lemma RevokedKeyBuysToken(s: State, secret: Digest, ttl: nat, hash: Digest, later: nat)
    requires CacheInv(s) && hash !in s.keys && Get(s.cache, secret, s.now).Some?
    requires secret in s.keys ==> WordScopes(s.keys[secret])
    requires later <= 1000 * ttl
    ensures secret in s.keys
    ensures var revoked := TokenRevoke(s, secret);
      var (t, o) := Exchange(revoked, secret, Display(s.keys[secret].project), ttl, hash);
      && PlainVerify(revoked.keys, secret, s.now) == INACTIVE
      && o == Minted(hash) && SameAuthority(t.keys[hash], s.keys[secret])
      && PlainVerify(t.keys, hash, s.now + later).active
  {
    assert EntryOk(s.keys, secret, s.cache[secret]);
    TokenRevokeVisibleIff(s, secret);
    ExchangePreservesAuthority(TokenRevoke(s, secret), secret, Display(s.keys[secret].project), ttl, hash);
  }

  /** One link of a chain: what the service does first, the client id presented, the lifetime and the drawn token. */
  datatype Link = Link(before: seq<Event>, client: string, ttl: nat, hash: Digest)

  /** Present `secret` after the link's events; a token ever issued is not drawn again. */
  function Follow(s: State, secret: Digest, l: Link): (State, Option<Digest>) {
    var s' := Exec(s, l.before);
    if l.hash in s'.keys then (s', None) else
    var (t, o) := Exchange(s', secret, l.client, l.ttl, l.hash);
    (t, if o.Minted? then Some(o.hash) else None)
  }

  /** Exchange along a chain, each link presenting the token the previous one minted. Stops at a failure. */
  function Chain(s: State, secret: Digest, links: seq<Link>): (State, Option<Digest>)
    decreases |links|
  {
    if links == [] then (s, Some(secret)) else
    var (t, minted) := Follow(s, secret, links[0]);
    if minted.Some? then Chain(t, minted.value, links[1..]) else (t, None)
  }

  /** A link succeeds exactly when its token is new and, after its events, the credential still answers and the client
    * id is that of its project. */
  lemma FollowIff(s: State, secret: Digest, l: Link)
    requires CacheInv(Exec(s, l.before)) && (secret in Exec(s, l.before).keys ==> WordScopes(Exec(s, l.before).keys[secret]))
    ensures var s' := Exec(s, l.before);
      var (t, minted) := Follow(s, secret, l);
      && (minted.Some? <==> l.hash !in s'.keys && Answerable(s', secret) && l.client == NAMES[s'.keys[secret].project])
      && (minted.Some? ==> minted.value == l.hash && l.hash in t.keys && SameAuthority(t.keys[l.hash], s'.keys[secret]))
      && (minted.None? ==> t.keys == s'.keys)
  {
    if l.hash !in Exec(s, l.before).keys {
      ExchangePreservesAuthority(Exec(s, l.before), secret, l.client, l.ttl, l.hash);
    }
  }

  /** A chain is its links, one after the other, up to the first that fails. */
  lemma {:induction false} ChainAppend(s: State, secret: Digest, links: seq<Link>, l: Link)
    ensures Chain(s, secret, []) == (s, Some(secret))
    ensures var (t, last) := Chain(s, secret, links);
      Chain(s, secret, links + [l]) == if last.Some? then Follow(t, last.value, l) else (t, None)
    decreases |links|
  {
    if links == [] {
      assert [] + [l] == [l] && [l][1..] == [];
    } else {
      var (t, minted) := Follow(s, secret, links[0]);
      assert (links + [l])[1..] == links[1..] + [l];
      if minted.Some? {
        ChainAppend(t, minted.value, links[1..], l);
      }
    }
  }

  lemma EventKeepsAuthority(s: State, e: Event, hash: Digest)
    requires CacheInv(s) && hash in s.keys
    ensures CacheInv(Apply(s, e)) && hash in Apply(s, e).keys && SameAuthority(Apply(s, e).keys[hash], s.keys[hash])
  {
    ApplyKeeps(s, e);
  }

  /** No event changes what a row stands for, or removes it. */
  lemma {:induction false} EventsKeepAuthority(s: State, es: seq<Event>, hash: Digest)
    requires CacheInv(s) && hash in s.keys
    ensures CacheInv(Exec(s, es)) && hash in Exec(s, es).keys && SameAuthority(Exec(s, es).keys[hash], s.keys[hash])
    decreases |es|
  {
    if es != [] {
      EventKeepsAuthority(s, es[0], hash);
      EventsKeepAuthority(Apply(s, es[0]), es[1..], hash);
    }
  }

  /** A state a chain can go on from, with a credential of the authority of `first`. */
  ghost predicate Ready(s: State, secret: Digest, first: ApiKey) {
    CacheInv(s) && secret in s.keys && SameAuthority(s.keys[secret], first)
  }

  lemma LinkKeepsAuthority(s: State, secret: Digest, l: Link, first: ApiKey)
    requires Ready(s, secret, first) && WordScopes(first)
    ensures var (t, minted) := Follow(s, secret, l); minted.Some? ==> Ready(t, minted.value, first)
  {
    EventsKeepAuthority(s, l.before, secret);
    var s' := Exec(s, l.before);
    if l.hash !in s'.keys {
      ExchangePreservesAuthority(s', secret, l.client, l.ttl, l.hash);
    }
  }

  lemma {:induction false} ChainKeepsAuthority(s: State, secret: Digest, links: seq<Link>, first: ApiKey)
    requires Ready(s, secret, first) && WordScopes(first)
    ensures var (t, last) := Chain(s, secret, links); last.Some? ==> Ready(t, last.value, first)
    decreases |links|
  {
    if links != [] {
      LinkKeepsAuthority(s, secret, links[0], first);
      var (t, minted) := Follow(s, secret, links[0]);
      if minted.Some? {
        ChainKeepsAuthority(t, minted.value, links[1..], first);
      }
    }
  }

  /** Along any chain of exchanges, whatever the service does between them, each minted token has the tenant, service
    * account, project and scope list of the key the chain started from; so it introspects with the same ones. */
  lemma ChainPreservesAuthority(s: State, secret: Digest, links: seq<Link>)
    requires CacheInv(s) && secret in s.keys && WordScopes(s.keys[secret])
    ensures var (t, last) := Chain(s, secret, links);
      last.Some? ==>
        && last.value in t.keys && SameAuthority(t.keys[last.value], s.keys[secret])
        && var r := BuildResponse(t.keys[last.value]);
           r == BuildResponse(s.keys[secret]).(exp := r.exp)
  {
    ChainKeepsAuthority(s, secret, links, s.keys[secret]);
  }

  /** Rows inserted by the create handler have word scopes. */
  lemma AcceptedScopesAreWords(scopes: seq<string>, project: Project)
    requires ScopesProblem(scopes, project).None?
    ensures |scopes| <= 100 && forall w :: w in scopes ==> IsWord(w) && ScopeProject(w) == Ok(project)
  {
    FirstProblemIff(scopes, project);
    forall w | w in scopes ensures IsWord(w) && ScopeProject(w) == Ok(project) {
      BelongsIff(w, project);
      ScopeIsWord(w);
    }
  }
}
