/** Background deletion of refresh tokens: what it leaves unchanged and what it does not. */
module Cleanup {
  import opened Basics
  import opened OAuthStore
  import OAuthProtocol
  import opened OAuthHandlers

  /** The statements that touch refresh tokens, and time. */
  datatype Event = Pass(ms: nat) | Insert(token: Digest, user: string, client: string) | Present(token: Digest)
                 | RevokeUser(user: string) | DeleteExpired

  /** `issued` collects every token ever drawn. */
  datatype World = World(db: Db, issued: set<Digest>)

  function Apply(w: World, e: Event): World {
    match e
    case Pass(ms) => w.(db := w.db.(now := w.db.now + ms))
    case Insert(t, user, client) =>
      if t in w.issued then w
      else World(CreateRefresh(w.db, t, user, client, w.db.now + REFRESH_LIFETIME_MS), w.issued + {t})
    case Present(t) => w.(db := Rotate(w.db, t).0)
    case RevokeUser(user) => w.(db := RevokeAllForUser(w.db, user))
    case DeleteExpired => w.(db := DeleteExpiredRefresh(w.db))
  }

  function Exec(w: World, es: seq<Event>): World
    decreases |es|
  {
    if es == [] then w else Exec(Apply(w, es[0]), es[1..])
  }

  /** What `rotate` returns for the tokens presented along a run. */
  function Answers(w: World, es: seq<Event>): seq<Option<RefreshRow>>
    decreases |es|
  {
    if es == [] then []
    else (if es[0].Present? then [Rotate(w.db, es[0].token).1] else []) + Answers(Apply(w, es[0]), es[1..])
  }

  function WithoutCleanup(es: seq<Event>): seq<Event> {
    if es == [] then []
    else if es[0].DeleteExpired? then WithoutCleanup(es[1..])
    else [es[0]] + WithoutCleanup(es[1..])
  }

  /** `w` is `v` with some expired rows deleted. */
  ghost predicate Trimmed(w: World, v: World) {
    && w.db.now == v.db.now && w.issued == v.issued && v.db.refresh.Keys <= v.issued
    && (forall t :: t in w.db.refresh ==> t in v.db.refresh && w.db.refresh[t] == v.db.refresh[t])
    && (forall t :: t in v.db.refresh && t !in w.db.refresh ==> v.db.refresh[t].expiresAt < v.db.now)
  }

  lemma EventTrims(w: World, v: World, e: Event)
    requires Trimmed(w, v)
    ensures Trimmed(Apply(w, e), if e.DeleteExpired? then v else Apply(v, e))
    ensures forall t :: Rotate(w.db, t).1 == Rotate(v.db, t).1
  {
  }

  lemma {:induction false} TrimmedAnswers(w: World, v: World, es: seq<Event>)
    requires Trimmed(w, v)
    ensures Answers(w, es) == Answers(v, WithoutCleanup(es))
    decreases |es|
  {
    if es != [] {
      EventTrims(w, v, es[0]);
      TrimmedAnswers(Apply(w, es[0]), if es[0].DeleteExpired? then v else Apply(v, es[0]), es[1..]);
      if es[0].DeleteExpired? {
        assert [] + Answers(Apply(w, es[0]), es[1..]) == Answers(w, es);
      } else {
        assert ([es[0]] + WithoutCleanup(es[1..]))[1..] == WithoutCleanup(es[1..]);
      }
    }
  }

  lemma {:induction false} NoneLeft(es: seq<Event>)
    ensures forall e :: e in WithoutCleanup(es) <==> e in es && !e.DeleteExpired?
  {
    if es != [] {
      NoneLeft(es[1..]);
      assert es == [es[0]] + es[1..];
    }
  }

  /** Cleanup at any points of any run of statements changes no result of `rotate`, then or later. */
  lemma RotateNeverNotices(w: World, es: seq<Event>)
    requires w.db.refresh.Keys <= w.issued
    ensures Answers(w, es) == Answers(w, WithoutCleanup(es))
    ensures forall e :: e in WithoutCleanup(es) <==> e in es && !e.DeleteExpired?
  {
    NoneLeft(es);
    TrimmedAnswers(w, w, es);
  }

  // What the answers are

  datatype Grant = Grant(user: string, client: string, at: int)

  /** Who each refresh token was given to and when, and which tokens have been presented or revoked; nothing is ever
    * deleted. */
  datatype Ledger = Ledger(now: int, given: map<Digest, Grant>, ended: set<Digest>)

  const DAYS_30: int := 2_592_000_000

  function Accepts(l: Ledger, t: Digest): Option<RefreshRow> {
    if t in l.given && t !in l.ended && l.now < l.given[t].at + DAYS_30
    then Some(RefreshRow(l.given[t].user, l.given[t].client, l.given[t].at + DAYS_30, None)) else None
  }

  function Record(l: Ledger, e: Event): Ledger {
    match e
    case Pass(ms) => l.(now := l.now + ms)
    case Insert(t, user, client) => if t in l.given then l else l.(given := l.given[t := Grant(user, client, l.now)])
    case Present(t) => if Accepts(l, t).Some? then l.(ended := l.ended + {t}) else l
    case RevokeUser(user) => l.(ended := l.ended + set t | t in l.given && l.given[t].user == user)
    case DeleteExpired => l
  }

  function LedgerAnswers(l: Ledger, es: seq<Event>): seq<Option<RefreshRow>>
    decreases |es|
  {
    if es == [] then []
    else (if es[0].Present? then [Accepts(l, es[0].token)] else []) + LedgerAnswers(Record(l, es[0]), es[1..])
  }

  /** The rows agree with the ledger: a row is missing only when its 30 days are over. */
  ghost predicate Agrees(w: World, l: Ledger) {
    && w.db.now == l.now && w.issued == l.given.Keys
    && (forall t :: t in w.db.refresh ==>
          && t in l.given && w.db.refresh[t].user == l.given[t].user && w.db.refresh[t].client == l.given[t].client
          && w.db.refresh[t].expiresAt == l.given[t].at + DAYS_30
          && (w.db.refresh[t].revokedAt.Some? <==> t in l.ended))
    && (forall t :: t in l.given && t !in w.db.refresh ==> l.given[t].at + DAYS_30 < l.now)
    && l.ended <= l.given.Keys
  }

  lemma EventAgrees(w: World, l: Ledger, e: Event)
    requires Agrees(w, l)
    ensures Agrees(Apply(w, e), Record(l, e))
    ensures e.Present? ==> Rotate(w.db, e.token).1 == Accepts(l, e.token)
    ensures e.DeleteExpired? ==> forall t :: t in Apply(w, e).db.refresh ==> l.now <= l.given[t].at + DAYS_30
  {
  }

  /** Over every run of the statements on refresh tokens, cleanup among them, `rotate` returns a token's row exactly
    * when it was given less than 30 days ago and has neither been rotated nor revoked with its user's since. */
  lemma {:induction false} RowsAnswerAsLedger(w: World, l: Ledger, es: seq<Event>)
    requires Agrees(w, l)
    ensures Answers(w, es) == LedgerAnswers(l, es) && Agrees(Exec(w, es), RecordAll(l, es))
    decreases |es|
  {
    if es != [] {
      EventAgrees(w, l, es[0]);
      RowsAnswerAsLedger(Apply(w, es[0]), Record(l, es[0]), es[1..]);
    }
  }

  function RecordAll(l: Ledger, es: seq<Event>): Ledger
    decreases |es|
  {
    if es == [] then l else RecordAll(Record(l, es[0]), es[1..])
  }

  /** The replay lookup does notice, for exactly the tokens whose rows cleanup deletes. */
  lemma ReplayLookupNoticesIff(db: Db, token: Digest)
    ensures FindByHashAny(DeleteExpiredRefresh(db), token) != FindByHashAny(db, token)
       <==> token in db.refresh && db.refresh[token].expiresAt < db.now
  {
  }

  /** Cleanup commutes with every other statement on refresh tokens. */
  lemma CleanupCommutes(db: Db, token: Digest, user: string, client: string)
    requires token !in db.refresh
    ensures CreateRefresh(DeleteExpiredRefresh(db), token, user, client, db.now + REFRESH_LIFETIME_MS)
         == DeleteExpiredRefresh(CreateRefresh(db, token, user, client, db.now + REFRESH_LIFETIME_MS))
    ensures RevokeAllForUser(DeleteExpiredRefresh(db), user) == DeleteExpiredRefresh(RevokeAllForUser(db, user))
  {
  }

  lemma RotateCommutes(db: Db, token: Digest)
    ensures Rotate(DeleteExpiredRefresh(db), token) == (DeleteExpiredRefresh(Rotate(db, token).0), Rotate(db, token).1)
  {
    assert Rotate(DeleteExpiredRefresh(db), token).0.refresh == DeleteExpiredRefresh(Rotate(db, token).0).refresh;
  }

  /** For a token whose row stays, or that has none, the refresh grant does the same on cleaned tables. */
  lemma GrantCommutes(db: Db, refresh: string, client: string, secret: string, drawn: string)
    requires Sha256(drawn) !in db.refresh
    requires Sha256(refresh) in db.refresh ==> !(db.refresh[Sha256(refresh)].expiresAt < db.now)
    ensures RefreshGrant(DeleteExpiredRefresh(db), refresh, client, secret, drawn)
         == (DeleteExpiredRefresh(RefreshGrant(db, refresh, client, secret, drawn).0),
             RefreshGrant(db, refresh, client, secret, drawn).1)
  {
    var presented := Sha256(refresh);
    RotateCommutes(db, presented);
    var (db', row) := Rotate(db, presented);
    match row
    case Some(row) => CleanupCommutes(db', Sha256(drawn), row.user, row.client);
    case None =>
      ReplayLookupNoticesIff(db, presented);
      if presented in db.refresh {
        CleanupCommutes(db, Sha256(drawn), db.refresh[presented].user, client);
      }
  }

  /** For a token whose row cleanup deletes, the grant is refused either way, but a revoked one presented
    * before cleanup ends all of its user's tokens, and presented after it ends none. */
  lemma DeletedGrant(db: Db, refresh: string, client: string, secret: string, drawn: string)
    requires Sha256(refresh) in db.refresh && db.refresh[Sha256(refresh)].expiresAt < db.now
    requires ValidClientSecret(db, client, secret)
    ensures var presented := db.refresh[Sha256(refresh)];
      var (before, o) := RefreshGrant(db, refresh, client, secret, drawn);
      var (after, o') := RefreshGrant(DeleteExpiredRefresh(db), refresh, client, secret, drawn);
      && o == o' == OAuthProtocol.Unauthorized
      && (forall t :: Acceptable(before, t) <==>
            Acceptable(db, t) && !(presented.revokedAt.Some? && db.refresh[t].user == presented.user))
      && (forall t :: Acceptable(after, t) <==> Acceptable(db, t))
  {
  }

  /** A user with an expired revoked token and a live one: the replay wipes before cleanup and not after it. */
  lemma MissedReplay(clients: map<string, ClientRow>, users: map<string, UserRow>, client: string, secret: string)
    requires client in clients && clients[client].secretHash.None?
    ensures var stale, live := RefreshRow("u", client, 0, Some(0)), RefreshRow("u", client, 10, None);
      var db := Db(5, clients, users, map[], map[Sha256("stale") := stale, Sha256("live") := live]);
      && !Acceptable(RefreshGrant(db, "stale", client, secret, "drawn").0, Sha256("live"))
      && Acceptable(RefreshGrant(DeleteExpiredRefresh(db), "stale", client, secret, "drawn").0, Sha256("live"))
  {
    var stale, live := RefreshRow("u", client, 0, Some(0)), RefreshRow("u", client, 10, None);
    var db := Db(5, clients, users, map[], map[Sha256("stale") := stale, Sha256("live") := live]);
    assert Sha256("stale") != Sha256("live");
    DeletedGrant(db, "stale", client, secret, "drawn");
  }
}
