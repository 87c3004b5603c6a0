/** `/authorize`, `/oauth/token`, `/login`, `/register`, `/logout` and the cleanup task as programs of
  * atomic SQL statements, interleaved in any order.
  *
  * A request is a program counter; one event runs one statement of one request. A request may also
  * be aborted anywhere, which covers database errors, signing errors and crashes. The history
  * fields record what has happened; no step reads them except `rootOf` when a lineage continues,
  * and the two freshness guards on random values. */
module OAuthProtocol {
  import opened Basics
  import opened OAuthStore
  import opened Baton

  datatype AuthorizeRequest = AuthorizeRequest(user: string, passwordOk: bool, client: string, redirectUri: string,
                                               challenge: Option<Challenge>, methodIsS256: bool)

  datatype CodeRequest = CodeRequest(code: string, client: string, secret: string,
                                     redirectUri: string, verifier: Option<string>)

  datatype Outcome = Issued(token: Digest) | CodeIssued(code: string) | LoggedOut
                   | Unauthorized | Unprocessable | ServerError

  /** The statement a request is about to run. */
  datatype Pc =
    | AuthorizeClient(authorize: AuthorizeRequest)
    | AuthorizeUser(authorize: AuthorizeRequest)
    | AuthorizeSuspended(authorize: AuthorizeRequest)
    | AuthorizeInsert(authorize: AuthorizeRequest)
    | AuthorizeChallenge(code: string, challenge: Challenge)
    | CodeSecret(request: CodeRequest)
    | CodeExchange(request: CodeRequest)
    | CodeChallenge(request: CodeRequest, lineage: Lineage)
    | CodeTenant(request: CodeRequest, lineage: Lineage)
    | RefreshSecret(refresh: string, client: string, secret: string)
    | RefreshRotate(token: Digest, client: string)
    | RefreshUser(lineage: Lineage)
    | ReplayLookup(token: Digest)
    | ReplayWipe(user: string)
    | LoginUser(user: string, client: string, passwordOk: bool)
    | RegisterUser(user: string, tenant: string, client: string)
    | LogoutRotate(token: Digest)
    | Issue(lineage: Lineage)
    | Done(outcome: Outcome)

  /** A request before its first statement. */
  predicate IsStart(pc: Pc) {
    pc.AuthorizeClient? || pc.CodeSecret? || pc.RefreshSecret? || pc.LoginUser? || pc.RegisterUser? || pc.LogoutRotate?
  }

  /** The baton a request carries: from the statement that took it until the INSERT of the next token. */
  function Carried(pc: Pc): Option<Lineage> {
    match pc
    case CodeChallenge(_, l) => Some(l)
    case CodeTenant(_, l) => Some(l)
    case RefreshUser(l) => Some(l)
    case Issue(l) => Some(l)
    case _ => None
  }

  datatype CodeOrigin = CodeOrigin(authorize: AuthorizeRequest, issuedAt: int)

  datatype Claim = Claim(q: nat, at: int)

  datatype Login = SignedIn(user: string, client: string, passwordOk: bool) | Registered(user: string, client: string)

  datatype History = History(
    roots: map<nat, Owner>,            // requests that started a lineage
    rootOf: map<Digest, nat>,          // every refresh token ever issued, and its lineage
    parent: map<Digest, Digest>,       // the token a token replaced
    origins: map<string, CodeOrigin>,  // every code ever issued
    released: set<string>,             // codes returned to a caller
    claims: map<string, Claim>,        // who exchanged a code, and when
    reached: map<nat, CodeRequest>,    // code requests that got as far as issue_tokens
    logins: map<nat, Login>)           // logins and registrations that got as far as issue_tokens

  datatype Sys = Sys(db: Db, reqs: map<nat, Pc>, h: History)

  const EMPTY_HISTORY := History(map[], map[], map[], map[], {}, map[], map[], map[])

  function Init(now: int): Sys {
    Sys(Db(now, map[], map[], map[], map[]), map[], EMPTY_HISTORY)
  }

  function At(s: Sys, q: nat, pc: Pc): Sys {
    s.(reqs := s.reqs[q := pc])
  }

  function Begin(s: Sys, q: nat, owner: Owner, pc: Pc): Sys {
    At(s.(h := s.h.(roots := s.h.roots[q := owner])), q, pc)
  }

  /** A login or registration that passed its checks and goes on to issue_tokens. */
  function LogIn(s: Sys, q: nat, owner: Owner, login: Login): Sys {
    Begin(s.(h := s.h.(logins := s.h.logins[q := login])), q, owner, Issue(Lineage(q, None, owner)))
  }

  function StepAuthorizeClient(s: Sys, q: nat, r: AuthorizeRequest): Sys {
    if !ValidRedirectUri(s.db, r.client, r.redirectUri) then At(s, q, Done(Unprocessable))
    else if r.challenge.Some? && !r.methodIsS256 then At(s, q, Done(Unprocessable))
    else At(s, q, AuthorizeUser(r))
  }

  function StepAuthorizeUser(s: Sys, q: nat, r: AuthorizeRequest): Sys {
    At(s, q, if r.user in s.db.users && r.passwordOk then AuthorizeSuspended(r) else Done(Unauthorized))
  }

  function StepAuthorizeSuspended(s: Sys, q: nat, r: AuthorizeRequest): Sys {
    At(s, q, if r.user !in s.db.users then Done(ServerError)
             else if s.db.users[r.user].suspended then Done(Unauthorized)
             else AuthorizeInsert(r))
  }

  predicate Presents(pc: Pc, code: string) {
    (pc.CodeSecret? || pc.CodeExchange?) && pc.request.code == code
  }

  /** Codes are 32 random bytes: a value ever used for a code, or already guessed by a caller, is not drawn. */
  function StepAuthorizeInsert(s: Sys, q: nat, r: AuthorizeRequest, drawn: string): Sys {
    if drawn in s.h.origins || (exists p :: p in s.reqs && Presents(s.reqs[p], drawn)) then s else
    var t := s.(db := CreateCode(s.db, drawn, r.user, r.client, r.redirectUri, s.db.now + CODE_LIFETIME_MS),
                h := s.h.(origins := s.h.origins[drawn := CodeOrigin(r, s.db.now)]));
    match r.challenge
    case Some(challenge) => At(t, q, AuthorizeChallenge(drawn, challenge))
    case None => At(t.(h := t.h.(released := t.h.released + {drawn})), q, Done(CodeIssued(drawn)))
  }

  function StepAuthorizeChallenge(s: Sys, q: nat, code: string, challenge: Challenge): Sys {
    At(s.(db := StoreChallenge(s.db, code, challenge), h := s.h.(released := s.h.released + {code})),
       q, Done(CodeIssued(code)))
  }

  function StepCodeSecret(s: Sys, q: nat, r: CodeRequest): Sys {
    At(s, q, if ValidClientSecret(s.db, r.client, r.secret) then CodeExchange(r) else Done(Unauthorized))
  }

  /** The checks on the claimed row, which involve no further statement. */
  function StepClaimed(s: Sys, q: nat, r: CodeRequest, row: CodeRow): Sys {
    if row.client != r.client then At(s, q, Done(Unauthorized))
    else if r.redirectUri == "" then At(s, q, Done(Unprocessable))
    else if r.redirectUri != row.redirectUri then At(s, q, Done(Unauthorized))
    else
      var owner := Owner(row.user, row.client);
      Begin(s, q, owner, CodeChallenge(r, Lineage(q, None, owner)))
  }

  function StepCodeExchange(s: Sys, q: nat, r: CodeRequest): Sys {
    var (db, row) := ExchangeCode(s.db, r.code);
    match row
    case None => At(s, q, Done(Unauthorized))
    case Some(row) =>
      StepClaimed(s.(db := db, h := s.h.(claims := s.h.claims[r.code := Claim(q, s.db.now)])), q, r, row)
  }

  /** A verifier must be present exactly when a challenge is stored, and must hash to it. */
  predicate VerifierMatches(challenge: Option<Challenge>, verifier: Option<string>) {
    match (challenge, verifier)
    case (Some(c), Some(v)) => c == HexDigest(Sha256(v))
    case (None, None) => true
    case _ => false
  }

  function StepCodeChallenge(s: Sys, q: nat, r: CodeRequest, l: Lineage): Sys {
    At(s, q, if VerifierMatches(ReadChallenge(s.db, r.code), r.verifier) then CodeTenant(r, l) else Done(Unauthorized))
  }

  function StepCodeTenant(s: Sys, q: nat, r: CodeRequest, l: Lineage): Sys {
    if l.owner.user in s.db.users then
      At(s.(h := s.h.(reached := s.h.reached[q := r])), q, Issue(l))
    else
      At(s, q, Done(ServerError))
  }

  function StepRefreshSecret(s: Sys, q: nat, refresh: string, client: string, secret: string): Sys {
    At(s, q, if ValidClientSecret(s.db, client, secret) then RefreshRotate(Sha256(refresh), client) else Done(Unauthorized))
  }

  function RootOf(s: Sys, token: Digest, q: nat): nat {
    if token in s.h.rootOf then s.h.rootOf[token] else q
  }

  function StepRefreshRotate(s: Sys, q: nat, token: Digest, client: string): Sys {
    var (db, row) := Rotate(s.db, token);
    match row
    case None => At(s, q, ReplayLookup(token))
    case Some(row) =>
      At(s.(db := db), q,
         if row.client != client then Done(Unauthorized)
         else RefreshUser(Lineage(RootOf(s, token, q), Some(token), Owner(row.user, row.client))))
  }

  function StepRefreshUser(s: Sys, q: nat, l: Lineage): Sys {
    At(s, q, if l.owner.user !in s.db.users then Done(ServerError)
             else if s.db.users[l.owner.user].suspended then Done(Unauthorized)
             else Issue(l))
  }

  function StepReplayLookup(s: Sys, q: nat, token: Digest): Sys {
    match FindByHashAny(s.db, token)
    case Some((user, true)) => At(s, q, ReplayWipe(user))
    case _ => At(s, q, Done(Unauthorized))
  }

  function StepReplayWipe(s: Sys, q: nat, user: string): Sys {
    At(s.(db := RevokeAllForUser(s.db, user)), q, Done(Unauthorized))
  }

  function StepLoginUser(s: Sys, q: nat, user: string, client: string, passwordOk: bool): Sys {
    if user !in s.db.users || !passwordOk || s.db.users[user].suspended then At(s, q, Done(Unauthorized))
    else LogIn(s, q, Owner(user, client), SignedIn(user, client, passwordOk))
  }

  function StepRegisterUser(s: Sys, q: nat, user: string, tenant: string, client: string): Sys {
    if user in s.db.users then At(s, q, Done(ServerError))
    else LogIn(s.(db := s.db.(users := s.db.users[user := UserRow(tenant, false)])), q, Owner(user, client),
               Registered(user, client))
  }

  function StepLogout(s: Sys, q: nat, token: Digest): Sys {
    At(s.(db := Rotate(s.db, token).0), q, Done(LoggedOut))
  }

  /** Refresh tokens are 32 random bytes: a value ever issued is not drawn again. */
  function StepIssue(s: Sys, q: nat, l: Lineage, drawn: string): Sys {
    var token := Sha256(drawn);
    if token in s.h.rootOf then s else
    var h := s.h.(rootOf := s.h.rootOf[token := l.root],
                  parent := if l.parent.Some? then s.h.parent[token := l.parent.value] else s.h.parent);
    At(Sys(CreateRefresh(s.db, token, l.owner.user, l.owner.client, s.db.now + REFRESH_LIFETIME_MS), s.reqs, h),
       q, Done(Issued(token)))
  }

  /** Run the next statement of request q; `drawn` is the random value it draws. */
  function Step(s: Sys, q: nat, drawn: string): Sys
    requires q in s.reqs
  {
    match s.reqs[q]
    case AuthorizeClient(r) => StepAuthorizeClient(s, q, r)
    case AuthorizeUser(r) => StepAuthorizeUser(s, q, r)
    case AuthorizeSuspended(r) => StepAuthorizeSuspended(s, q, r)
    case AuthorizeInsert(r) => StepAuthorizeInsert(s, q, r, drawn)
    case AuthorizeChallenge(code, challenge) => StepAuthorizeChallenge(s, q, code, challenge)
    case CodeSecret(r) => StepCodeSecret(s, q, r)
    case CodeExchange(r) => StepCodeExchange(s, q, r)
    case CodeChallenge(r, l) => StepCodeChallenge(s, q, r, l)
    case CodeTenant(r, l) => StepCodeTenant(s, q, r, l)
    case RefreshSecret(refresh, client, secret) => StepRefreshSecret(s, q, refresh, client, secret)
    case RefreshRotate(token, client) => StepRefreshRotate(s, q, token, client)
    case RefreshUser(l) => StepRefreshUser(s, q, l)
    case ReplayLookup(token) => StepReplayLookup(s, q, token)
    case ReplayWipe(user) => StepReplayWipe(s, q, user)
    case LoginUser(user, client, passwordOk) => StepLoginUser(s, q, user, client, passwordOk)
    case RegisterUser(user, tenant, client) => StepRegisterUser(s, q, user, tenant, client)
    case LogoutRotate(token) => StepLogout(s, q, token)
    case Issue(l) => StepIssue(s, q, l, drawn)
    case Done(_) => s
  }

  datatype Event =
    | Tick(ms: nat)
    | Arrive(q: nat, pc: Pc)
    | Run(q: nat, drawn: string)
    | Abort(q: nat)
    | Cleanup
    | SetSuspended(user: string, suspended: bool)
    | AddUser(user: string, tenant: string)
    | AddClient(client: string, row: ClientRow)

  /** A code drawn by the server is a secret until `/authorize` returns it. */
  predicate MayPresent(s: Sys, pc: Pc) {
    IsStart(pc) && (pc.CodeSecret? && pc.request.code in s.h.origins ==> pc.request.code in s.h.released)
  }

  /** One event. Events whose guard fails change nothing. */
  function Apply(s: Sys, e: Event): Sys {
    match e
    case Tick(ms) => s.(db := s.db.(now := s.db.now + ms))
    case Arrive(q, pc) => if q !in s.reqs && MayPresent(s, pc) then At(s, q, pc) else s
    case Run(q, drawn) => if q in s.reqs then Step(s, q, drawn) else s
    case Abort(q) => if q in s.reqs && !s.reqs[q].Done? then At(s, q, Done(ServerError)) else s
    case Cleanup => s.(db := DeleteExpiredRefresh(s.db))
    case SetSuspended(user, suspended) =>
      if user in s.db.users then
        s.(db := s.db.(users := s.db.users[user := s.db.users[user].(suspended := suspended)]))
      else s
    case AddUser(user, tenant) =>
      if user in s.db.users then s else s.(db := s.db.(users := s.db.users[user := UserRow(tenant, false)]))
    case AddClient(client, row) =>
      if client in s.db.clients then s else s.(db := s.db.(clients := s.db.clients[client := row]))
  }

  function Exec(s: Sys, es: seq<Event>): Sys
    decreases |es|
  {
    if es == [] then s else Exec(Apply(s, es[0]), es[1..])
  }

  /** The unrevoked rows and their owners. */
  function Live(refresh: map<Digest, RefreshRow>): map<Digest, Owner> {
    map t | t in refresh && refresh[t].revokedAt.None? :: Owner(refresh[t].user, refresh[t].client)
  }

  function Hold(reqs: map<nat, Pc>): map<nat, Lineage> {
    map q | q in reqs && Carried(reqs[q]).Some? :: Carried(reqs[q]).value
  }

  /** What the protocol state looks like as a baton race. */
  function View(s: Sys): Race {
    Race(Live(s.db.refresh), Hold(s.reqs), s.h.roots, s.h.rootOf, s.h.parent)
  }
}
