/** Password-reset tokens: issued for an hour, claimed by one UPDATE, deleted in the background. */
module PasswordReset {
  import opened Basics

  const LIFETIME_MS: int := 3600 * 1000

  datatype Row = Row(user: string, expiresAt: int, used: bool)

  type Rows = map<Digest, Row>

  /** Mark an unused, unexpired token used, in one statement, and say whose it is. */
  function Claim(rows: Rows, token: Digest, now: int): (Rows, Option<string>) {
    if token in rows && !rows[token].used && rows[token].expiresAt > now
    then (rows[token := rows[token].(used := true)], Some(rows[token].user))
    else (rows, None)
  }

  /** Used rows and rows past their expiry are deleted. */
  function CleanedUp(rows: Rows, now: int): Rows {
    map t | t in rows && !(rows[t].used || rows[t].expiresAt < now) :: rows[t]
  }

  lemma ClaimIff(rows: Rows, token: Digest, now: int)
    ensures var (rows', whose) := Claim(rows, token, now);
      var good := token in rows && !rows[token].used && now < rows[token].expiresAt;
      && whose == (if good then Some(rows[token].user) else None)
      && rows' == if good then rows[token := Row(rows[token].user, rows[token].expiresAt, true)] else rows
  {
  }

  /** Exactly used rows and rows past their expiry go. */
  lemma CleanupDeletesIff(rows: Rows, now: int, token: Digest)
    ensures var left := CleanedUp(rows, now);
      && (token in left <==> token in rows && !rows[token].used && now <= rows[token].expiresAt)
      && (token in left ==> left[token] == rows[token])
  {
  }

  datatype Outcome = WeakPassword | InvalidToken | Changed(user: string)

  class PasswordResets {
    var rows: Rows
    var passwords: map<string, string>  // user to the stored hash

    constructor (passwords: map<string, string>)
      ensures rows == map[] && this.passwords == passwords
    {
      rows, this.passwords := map[], passwords;
    }

    /** Known or not, the caller is told the same; only a known user gets a token. */
    method ForgotPassword(user: string, token: Digest, now: int)
      modifies this`rows
      ensures rows == if user in passwords then old(rows)[token := Row(user, now + LIFETIME_MS, false)] else old(rows)
    {
      if user in passwords {
        rows := rows[token := Row(user, now + LIFETIME_MS, false)];
      }
    }

    /** The password changes exactly for the user of a token that can be claimed now, and the token is spent. */
    method ResetPassword(token: string, strong: bool, newHash: string, now: int) returns (o: Outcome)
      modifies this
      ensures !strong ==> o == WeakPassword && rows == old(rows)
      ensures strong ==>
        && rows == Claim(old(rows), Sha256(token), now).0
        && o == match Claim(old(rows), Sha256(token), now).1 case Some(user) => Changed(user) case None => InvalidToken
      ensures o.Changed? ==> Claim(rows, Sha256(token), now).1 == None
      ensures passwords == if o.Changed? && o.user in old(passwords)
                           then old(passwords)[o.user := newHash] else old(passwords)
    {
      if !strong {
        return WeakPassword;
      }
      var hash := Sha256(token);
      if hash !in rows || rows[hash].used || rows[hash].expiresAt <= now {
        return InvalidToken;
      }
      var user := rows[hash].user;
      rows := rows[hash := rows[hash].(used := true)];
      if user in passwords {
        passwords := passwords[user := newHash];
      }
      return Changed(user);
    }

    method Cleanup(now: int)
      modifies this`rows
      ensures rows == CleanedUp(old(rows), now)
    {
      rows := map t | t in rows && !(rows[t].used || rows[t].expiresAt < now) :: rows[t];
    }
  }

  // Runs, statement by statement

  datatype Event = Pass(ms: nat) | Issue(token: Digest, user: string) | Present(token: Digest) | Cleanup

  /** `issued` collects every token ever drawn; 32 random bytes are never drawn twice. */
  datatype World = World(now: int, rows: Rows, issued: set<Digest>)

  function Apply(w: World, e: Event): World {
    match e
    case Pass(ms) => w.(now := w.now + ms)
    case Issue(t, user) =>
      if t in w.issued then w
      else w.(rows := w.rows[t := Row(user, w.now + LIFETIME_MS, false)], issued := w.issued + {t})
    case Present(t) => w.(rows := Claim(w.rows, t, w.now).0)
    case Cleanup => w.(rows := CleanedUp(w.rows, w.now))
  }

  /** The answers to the tokens presented along a run. */
  function Answers(w: World, es: seq<Event>): seq<Option<string>>
    decreases |es|
  {
    if es == [] then []
    else (if es[0].Present? then [Claim(w.rows, es[0].token, w.now).1] else []) + Answers(Apply(w, es[0]), es[1..])
  }

  /** What a reset token is meant to be, with no rows to clean up: who it was issued to and when, and which
    * tokens have been accepted. */
  datatype Ledger = Ledger(now: int, issued: map<Digest, (string, int)>, accepted: set<Digest>)

  function Accepts(l: Ledger, token: Digest): Option<string> {
    if token in l.issued && token !in l.accepted && l.now < l.issued[token].1 + 3_600_000
    then Some(l.issued[token].0) else None
  }

  function Record(l: Ledger, e: Event): Ledger {
    match e
    case Pass(ms) => l.(now := l.now + ms)
    case Issue(t, user) => if t in l.issued then l else l.(issued := l.issued[t := (user, l.now)])
    case Present(t) => if Accepts(l, t).Some? then l.(accepted := l.accepted + {t}) else l
    case Cleanup => l
  }

  function LedgerAnswers(l: Ledger, es: seq<Event>): seq<Option<string>>
    decreases |es|
  {
    if es == [] then []
    else (if es[0].Present? then [Accepts(l, es[0].token)] else []) + LedgerAnswers(Record(l, es[0]), es[1..])
  }

  /** The rows agree with the ledger: a row is missing only when its token is past use. */
  ghost predicate Agrees(w: World, l: Ledger) {
    && w.now == l.now && w.issued == l.issued.Keys && l.accepted <= l.issued.Keys
    && (forall t :: t in w.rows ==>
         t in l.issued && w.rows[t] == Row(l.issued[t].0, l.issued[t].1 + 3_600_000, t in l.accepted))
    && (forall t :: t in l.issued && t !in w.rows ==> t in l.accepted || l.issued[t].1 + 3_600_000 <= l.now)
  }

  lemma EventAgrees(w: World, l: Ledger, e: Event)
    requires Agrees(w, l)
    ensures Agrees(Apply(w, e), Record(l, e))
    ensures e.Present? ==> Claim(w.rows, e.token, w.now).1 == Accepts(l, e.token)
    ensures e.Cleanup? ==> forall t :: t in Apply(w, e).rows ==> t !in l.accepted && l.now <= l.issued[t].1 + 3_600_000
  {
  }

  /** Over every run, with cleanup at any points, the rows answer as the ledger does. */
  lemma {:induction false} RowsAnswerAsLedger(w: World, l: Ledger, es: seq<Event>)
    requires Agrees(w, l)
    ensures Answers(w, es) == LedgerAnswers(l, es)
    decreases |es|
  {
    if es != [] {
      EventAgrees(w, l, es[0]);
      RowsAnswerAsLedger(Apply(w, es[0]), Record(l, es[0]), es[1..]);
    }
  }

  function WithoutCleanup(es: seq<Event>): seq<Event> {
    if es == [] then []
    else if es[0].Cleanup? then WithoutCleanup(es[1..])
    else [es[0]] + WithoutCleanup(es[1..])
  }

  lemma {:induction false} LedgerIgnoresCleanup(l: Ledger, es: seq<Event>)
    ensures LedgerAnswers(l, WithoutCleanup(es)) == LedgerAnswers(l, es)
    decreases |es|
  {
    if es != [] {
      LedgerIgnoresCleanup(Record(l, es[0]), es[1..]);
      assert es[0].Cleanup? ==> [] + LedgerAnswers(l, es[1..]) == LedgerAnswers(l, es[1..]);
      if !es[0].Cleanup? {
        assert ([es[0]] + WithoutCleanup(es[1..]))[1..] == WithoutCleanup(es[1..]);
      }
    }
  }

  lemma {:induction false} NoneLeft(es: seq<Event>)
    ensures forall e :: e in WithoutCleanup(es) <==> e in es && !e.Cleanup?
  {
    if es != [] {
      NoneLeft(es[1..]);
      assert es == [es[0]] + es[1..];
    }
  }

  /** Cleanup is invisible: inserted anywhere into a run, it changes no answer. */
  lemma CleanupIsInvisible(w: World, l: Ledger, es: seq<Event>)
    requires Agrees(w, l)
    ensures Answers(w, es) == Answers(w, WithoutCleanup(es))
    ensures forall e :: e in WithoutCleanup(es) <==> e in es && !e.Cleanup?
  {
    NoneLeft(es);
    RowsAnswerAsLedger(w, l, es);
    RowsAnswerAsLedger(w, l, WithoutCleanup(es));
    LedgerIgnoresCleanup(l, es);
  }

  /** How often a run accepts a token. */
  function TimesAccepted(w: World, es: seq<Event>, token: Digest): nat
    decreases |es|
  {
    if es == [] then 0
    else (if es[0] == Present(token) && Claim(w.rows, token, w.now).1.Some? then 1 else 0)
         + TimesAccepted(Apply(w, es[0]), es[1..], token)
  }

  /** A token still good for one use: not drawn yet, or drawn, unused and within its hour. */
  predicate MayBeAccepted(w: World, token: Digest) {
    token !in w.issued || Claim(w.rows, token, w.now).1.Some?
  }

  /** At most one acceptance per token in any run, and none once it was used or an hour has passed. */
  lemma {:induction false} AcceptedAtMostOnce(w: World, l: Ledger, es: seq<Event>, token: Digest)
    requires Agrees(w, l)
    ensures TimesAccepted(w, es, token) <= if MayBeAccepted(w, token) then 1 else 0
    ensures token in l.issued && l.now >= l.issued[token].1 + 3_600_000 ==> TimesAccepted(w, es, token) == 0
    decreases |es|
  {
    if es != [] {
      EventAgrees(w, l, es[0]);
      AcceptedAtMostOnce(Apply(w, es[0]), Record(l, es[0]), es[1..], token);
    }
  }

  /** A new token presented after a while, twice: accepted once, exactly within its hour. */
  lemma IssuedIsAcceptedOnce(w: World, l: Ledger, token: Digest, user: string, ms: nat)
    requires Agrees(w, l) && token !in w.issued
    ensures var issued := Apply(w, Issue(token, user));
      TimesAccepted(issued, [Pass(ms), Present(token), Present(token)], token) == if ms < 3_600_000 then 1 else 0
  {
    var w1 := Apply(w, Issue(token, user));
    var w2 := Apply(w1, Pass(ms));
    var w3 := Apply(w2, Present(token));
    assert [Pass(ms), Present(token), Present(token)][1..] == [Present(token), Present(token)];
    assert [Present(token), Present(token)][1..] == [Present(token)] && [Present(token)][1..] == [];
    assert TimesAccepted(w3, [Present(token)], token) == 0;
    assert TimesAccepted(w2, [Present(token), Present(token)], token) == if ms < 3_600_000 then 1 else 0;
  }
}
