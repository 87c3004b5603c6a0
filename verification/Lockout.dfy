/** Account lockout: the failure counter and lock of a user row, and the login handler that consults them.
  *
  * The handler touches the row in two statements, a read (with the lock check) and, once the password has
  * been compared, a write. Whether a password is right is an input. */
module Lockout {
  import opened Basics

  datatype Policy = Policy(threshold: int, durationSecs: int)

  datatype Account = Account(attempts: nat, lockedUntil: Option<int>, suspended: bool)

  /** One more failure; from the threshold on, each failure sets the lock anew. */
  function RecordFailure(a: Account, p: Policy, now: int): Account {
    a.(attempts := a.attempts + 1,
       lockedUntil := if a.attempts + 1 >= p.threshold then Some(now + 1000 * p.durationSecs) else a.lockedUntil)
  }

  function Clear(a: Account): Account {
    a.(attempts := 0, lockedUntil := None)
  }

  predicate Locked(a: Account, now: int) {
    a.lockedUntil.Some? && a.lockedUntil.value > now
  }

  datatype Answer = Blocked | NowLocked | BadCredentials | Suspended | SignedIn

  /** What follows the password comparison; `suspended` is the flag as the handler read it. */
  function Settle(a: Account, p: Policy, suspended: bool, correct: bool, now: int): (Account, Answer) {
    if correct then (Clear(a), if suspended then Suspended else SignedIn)
    else
      var failed := RecordFailure(a, p, now);
      (failed, if failed.lockedUntil.Some? then NowLocked else BadCredentials)
  }

  function Login(a: Account, p: Policy, correct: bool, now: int): (Account, Answer) {
    if Locked(a, now) then (a, Blocked) else Settle(a, p, a.suspended, correct, now)
  }

  class UserStore {
    var users: map<string, Account>

    constructor ()
      ensures users == map[]
    {
      users := map[];
    }

    method SetSuspended(id: string, suspended: bool) returns (updated: bool)
      modifies this
      ensures updated == (id in old(users))
      ensures users == if updated then old(users)[id := old(users)[id].(suspended := suspended)] else old(users)
    {
      updated := id in users;
      if updated {
        users := users[id := users[id].(suspended := suspended)];
      }
    }

    /** None when there is no such row. */
    method RecordFailedLogin(id: string, p: Policy, now: int) returns (r: Option<(nat, Option<int>)>)
      modifies this
      ensures r.Some? <==> id in old(users)
      ensures users == if r.Some? then old(users)[id := RecordFailure(old(users)[id], p, now)] else old(users)
      ensures r.Some? ==> r.value == (users[id].attempts, users[id].lockedUntil)
    {
      if id !in users {
        return None;
      }
      var attempts := users[id].attempts + 1;
      var lockedUntil := users[id].lockedUntil;
      if attempts >= p.threshold {
        lockedUntil := Some(now + 1000 * p.durationSecs);
      }
      users := users[id := users[id].(attempts := attempts, lockedUntil := lockedUntil)];
      return Some((attempts, lockedUntil));
    }

    method ClearFailedLogins(id: string) returns (updated: bool)
      modifies this
      ensures updated == (id in old(users))
      ensures users == if updated then old(users)[id := Clear(old(users)[id])] else old(users)
    {
      updated := id in users;
      if updated {
        users := users[id := users[id].(attempts := 0, lockedUntil := None)];
      }
    }
  }

  class LoginHandler {
    const store: UserStore
    const policy: Policy

    constructor (store: UserStore, policy: Policy)
      ensures this.store == store && this.policy == policy
    {
      this.store, this.policy := store, policy;
    }

    /** An unknown user gets the same answer as a wrong password and changes nothing. */
    method SignIn(id: string, correct: bool, now: int) returns (r: Answer)
      modifies store
      ensures id !in old(store.users) ==> r == BadCredentials && store.users == old(store.users)
      ensures id in old(store.users) ==>
        id in store.users && (store.users[id], r) == Login(old(store.users)[id], policy, correct, now)
        && store.users == old(store.users)[id := store.users[id]]
    {
      if id !in store.users {
        return BadCredentials;
      }
      var row := store.users[id];
      if row.lockedUntil.Some? && row.lockedUntil.value > now {
        assert store.users == store.users[id := row];
        return Blocked;
      }
      if !correct {
        var recorded := store.RecordFailedLogin(id, policy, now);
        if recorded.value.1.Some? {
          return NowLocked;
        }
        return BadCredentials;
      }
      var _ := store.ClearFailedLogins(id);
      if row.suspended {
        return Suspended;
      }
      return SignedIn;
    }

    /** The administrator's unlock: false is a 404. */
    method Unlock(id: string) returns (found: bool)
      modifies store
      ensures found == (id in old(store.users))
      ensures store.users == if found then old(store.users)[id := Clear(old(store.users)[id])] else old(store.users)
    {
      if id !in store.users {
        return false;
      }
      found := store.ClearFailedLogins(id);
    }
  }

  // One account, with logins interleaved statement by statement

  /** A login that has read an unlocked row and not yet written its outcome. */
  datatype Reading = Reading(since: int, suspended: bool)

  datatype State = State(now: int, account: Account, readings: map<nat, Reading>)

  /** `failures`: when each wrong password since the last clear was recorded. `peak`: the largest number of
    * logins that were ever between their read and their write at once. */
  datatype World = World(s: State, failures: seq<int>, peak: nat)

  datatype Event = Pass(ms: nat) | Read(login: nat) | Write(login: nat, correct: bool) | Unlocked | Suspend(flag: bool)

  function Apply(w: World, p: Policy, e: Event): World {
    var s := w.s;
    match e
    case Pass(ms) => w.(s := s.(now := s.now + ms))
    case Read(login) =>
      if login in s.readings || Locked(s.account, s.now) then w
      else
        var readings := s.readings[login := Reading(s.now, s.account.suspended)];
        World(s.(readings := readings), w.failures, if |readings| > w.peak then |readings| else w.peak)
    case Write(login, correct) =>
      if login !in s.readings then w
      else
        var account := Settle(s.account, p, s.readings[login].suspended, correct, s.now).0;
        w.(s := s.(account := account, readings := s.readings - {login}),
           failures := if correct then [] else w.failures + [s.now])
    case Unlocked => w.(s := s.(account := Clear(s.account)), failures := [])
    case Suspend(flag) => w.(s := s.(account := s.account.(suspended := flag)))
  }

  function Exec(w: World, p: Policy, es: seq<Event>): World
    decreases |es|
  {
    if es == [] then w else Exec(Apply(w, p, es[0]), p, es[1..])
  }

  /** A new user row, before any login. */
  function Start(now: int): World {
    World(State(now, Account(0, None, false), map[]), [], 0)
  }

  /** A threshold below one locks on the first failure, as one does. */
  function FirstLocking(p: Policy): nat
    ensures FirstLocking(p) >= 1
  {
    if p.threshold < 1 then 1 else p.threshold
  }

  function LockOf(p: Policy, failures: seq<int>): Option<int> {
    if |failures| >= FirstLocking(p) then Some(failures[|failures| - 1] + 1000 * p.durationSecs) else None
  }

  ghost predicate Sorted(failures: seq<int>, now: int) {
    && (forall i, j :: 0 <= i <= j < |failures| ==> failures[i] <= failures[j])
    && (forall i :: 0 <= i < |failures| ==> failures[i] <= now)
  }

  /** Logins that read the row before `bound` and have not written yet. */
  function Early(readings: map<nat, Reading>, bound: int): set<nat> {
    set r | r in readings && readings[r].since < bound
  }

  /** From the locking failure on: the failures recorded while the lock set by failure `i` still stood, and
    * the logins that can still add one, were all in flight together when it was set. */
  ghost predicate Spaced(f: seq<int>, readings: map<nat, Reading>, first: nat, d: int, peak: nat)
    requires first >= 1
  {
    forall i, j :: first - 1 <= i <= j < |f| && f[j] < f[i] + d ==> j - i + |Early(readings, f[i] + d)| + 1 <= peak
  }

  ghost predicate Inv(w: World, p: Policy) {
    && w.s.account.attempts == |w.failures|
    && w.s.account.lockedUntil == LockOf(p, w.failures)
    && Sorted(w.failures, w.s.now)
    && |w.s.readings| <= w.peak
    && (forall r :: r in w.s.readings ==> w.s.readings[r].since <= w.s.now)
    && (p.durationSecs > 0 ==> Spaced(w.failures, w.s.readings, FirstLocking(p), 1000 * p.durationSecs, w.peak))
  }

  lemma SpacedOnRead(f: seq<int>, readings: map<nat, Reading>, first: nat, d: int, peak: nat, peak': nat,
                     login: nat, reading: Reading)
    requires first >= 1 && peak <= peak' && Sorted(f, reading.since) && login !in readings
    requires Spaced(f, readings, first, d, peak)
    requires |f| >= first ==> f[|f| - 1] + d <= reading.since
    ensures Spaced(f, readings[login := reading], first, d, peak')
  {
    forall i, j | first - 1 <= i <= j < |f| && f[j] < f[i] + d
      ensures j - i + |Early(readings[login := reading], f[i] + d)| + 1 <= peak'
    {
      assert Early(readings[login := reading], f[i] + d) == Early(readings, f[i] + d);
    }
  }

  lemma SpacedOnFailure(f: seq<int>, readings: map<nat, Reading>, first: nat, d: int, peak: nat, login: nat, now: int)
    requires first >= 1 && d > 0 && Sorted(f, now) && login in readings && readings[login].since <= now
    requires |readings| <= peak && Spaced(f, readings, first, d, peak)
    ensures Spaced(f + [now], readings - {login}, first, d, peak)
  {
    var g, left := f + [now], readings - {login};
    forall i, j | first - 1 <= i <= j < |g| && g[j] < g[i] + d
      ensures j - i + |Early(left, g[i] + d)| + 1 <= peak
    {
      var bound := g[i] + d;
      if j < |f| {
        SubsetCard(Early(left, bound), Early(readings, bound));
      } else if i == j {
        assert Early(left, bound) <= left.Keys && left.Keys == readings.Keys - {login};
        SubsetCard(Early(left, bound), left.Keys);
      } else {
        assert f[j - 1] < f[i] + d;
        assert Early(left, bound) == Early(readings, bound) - {login};
      }
    }
  }

  lemma WriteKeeps(w: World, p: Policy, login: nat, correct: bool)
    requires Inv(w, p) && login in w.s.readings
    ensures Inv(Apply(w, p, Write(login, correct)), p)
  {
    var left := w.s.readings - {login};
    assert left.Keys == w.s.readings.Keys - {login};
    if !correct && p.durationSecs > 0 {
      SpacedOnFailure(w.failures, w.s.readings, FirstLocking(p), 1000 * p.durationSecs, w.peak, login, w.s.now);
    }
  }

  lemma ReadKeeps(w: World, p: Policy, login: nat)
    requires Inv(w, p)
    ensures Inv(Apply(w, p, Read(login)), p)
  {
    var w' := Apply(w, p, Read(login));
    if p.durationSecs > 0 && w' != w {
      SpacedOnRead(w.failures, w.s.readings, FirstLocking(p), 1000 * p.durationSecs, w.peak, w'.peak,
                   login, w'.s.readings[login]);
    }
  }

  lemma EventKeeps(w: World, p: Policy, e: Event)
    requires Inv(w, p)
    ensures Inv(Apply(w, p, e), p)
  {
    match e
    case Read(login) => ReadKeeps(w, p, login);
    case Write(login, correct) => if login in w.s.readings { WriteKeeps(w, p, login, correct); }
    case _ =>
  }

  lemma {:induction false} RunKeeps(w: World, p: Policy, es: seq<Event>)
    requires Inv(w, p)
    ensures Inv(Exec(w, p, es), p)
    decreases |es|
  {
    if es != [] {
      EventKeeps(w, p, es[0]);
      RunKeeps(Apply(w, p, es[0]), p, es[1..]);
    }
  }

  /** In every reachable state a lock is set exactly when the counter has reached the threshold, and it runs
    * for the lock duration from the latest failure. So the answer to a wrong password says the account is
    * locked exactly when, for a positive duration, it is locked at that moment. */
  lemma LockedIffThreshold(p: Policy, es: seq<Event>, start: int)
    ensures var w := Exec(Start(start), p, es);
      && w.s.account.attempts == |w.failures|
      && (w.s.account.lockedUntil.Some? <==> w.s.account.attempts >= FirstLocking(p))
      && (w.s.account.lockedUntil.Some? ==>
           w.s.account.lockedUntil.value == w.failures[|w.failures| - 1] + 1000 * p.durationSecs)
    ensures var a := Exec(Start(start), p, es).s.account;
      forall now, flag :: p.durationSecs > 0 ==>
        (Settle(a, p, flag, false, now).1 == NowLocked <==> Locked(Settle(a, p, flag, false, now).0, now))
  {
    RunKeeps(Start(start), p, es);
  }

  /** The flag the administrator set last. */
  function LatestFlag(es: seq<Event>, flag: bool): bool {
    if es == [] then flag else LatestFlag(es[1..], if es[0].Suspend? then es[0].flag else flag)
  }

  lemma {:induction false} SuspendedIsLatest(w: World, p: Policy, es: seq<Event>)
    ensures Exec(w, p, es).s.account.suspended == LatestFlag(es, w.s.account.suspended)
    decreases |es|
  {
    if es != [] {
      SuspendedIsLatest(Apply(w, p, es[0]), p, es[1..]);
    }
  }

  /** In every reachable state, what a login that read the flag `suspended` answers and leaves behind: the right
    * password clears the row; the n-th wrong one since the last clear counts, and from the threshold on says so. */
  lemma SettleAnswers(p: Policy, es: seq<Event>, start: int, suspended: bool, correct: bool)
    ensures var w := Exec(Start(start), p, es);
      var (after, answer) := Settle(w.s.account, p, suspended, correct, w.s.now);
      var n := |w.failures| + 1;
      && (answer == SignedIn <==> correct && !suspended)
      && (answer == Suspended <==> correct && suspended)
      && (answer == NowLocked <==> !correct && n >= p.threshold)
      && (answer == BadCredentials <==> !correct && n < p.threshold)
      && after == if correct then Account(0, None, LatestFlag(es, false))
                  else Account(n, if n >= p.threshold then Some(w.s.now + 1000 * p.durationSecs) else None,
                               LatestFlag(es, false))
  {
    RunKeeps(Start(start), p, es);
    SuspendedIsLatest(Start(start), p, es);
  }

  /** The answers of the handler in every reachable state. The account is locked from the threshold on, for one
    * duration after the latest wrong password since the last clear, and a locked one refuses every password. */
  lemma LoginAnswers(p: Policy, es: seq<Event>, start: int, correct: bool)
    ensures var w := Exec(Start(start), p, es);
      var (after, answer) := Login(w.s.account, p, correct, w.s.now);
      var n := |w.failures|;
      var locked := n >= 1 && n >= p.threshold && w.s.now < w.failures[n - 1] + 1000 * p.durationSecs;
      && (answer == Blocked <==> locked)
      && (answer == SignedIn <==> !locked && correct && !LatestFlag(es, false))
      && (answer == Suspended <==> !locked && correct && LatestFlag(es, false))
      && (answer == NowLocked <==> !locked && !correct && n + 1 >= p.threshold)
      && (answer == BadCredentials <==> !locked && !correct && n + 1 < p.threshold)
      && (locked ==> after == w.s.account)
      && (!locked && correct ==> after == Account(0, None, LatestFlag(es, false)))
      && (!locked && !correct ==> after.attempts == n + 1 && after.suspended == LatestFlag(es, false))
  {
    RunKeeps(Start(start), p, es);
    SuspendedIsLatest(Start(start), p, es);
    SettleAnswers(p, es, start, LatestFlag(es, false), correct);
  }

  /** A duration that is not positive never refuses a login. */
  lemma NoLockWithoutDuration(p: Policy, es: seq<Event>, start: int)
    requires p.durationSecs <= 0
    ensures var s := Exec(Start(start), p, es).s; !Locked(s.account, s.now)
  {
    RunKeeps(Start(start), p, es);
  }

  /** Once the account is locking, `peak` further failures take at least one lock duration. */
  ghost predicate FarApart(f: seq<int>, first: nat, d: int, peak: nat) {
    forall i, j :: first - 1 <= i && 0 <= i && j == i + peak && j < |f| ==> f[i] + d <= f[j]
  }

  lemma FailuresAreFarApart(w: World, p: Policy)
    requires Inv(w, p) && p.durationSecs > 0
    ensures FarApart(w.failures, FirstLocking(p), 1000 * p.durationSecs, w.peak)
  {
  }

  lemma OneMore(a: int, k: int)
    ensures a * k == a * (k - 1) + a
  {
  }

  lemma {:induction false} Hops(f: seq<int>, first: nat, d: int, peak: nat, i: nat, k: nat)
    requires FarApart(f, first, d, peak) && first - 1 <= i && 0 <= i + peak * k < |f|
    ensures f[i] + d * k <= f[i + peak * k]
    decreases k
  {
    if k == 0 {
      assert peak * k == 0 && d * k == 0;
    } else {
      OneMore(peak, k);
      OneMore(d, k);
      assert peak * (k - 1) >= 0;
      Hops(f, first, d, peak, i, k - 1);
    }
  }

  /** The failures recorded from `from` to `from + span`, both included, by index. */
  function FailuresIn(failures: seq<int>, from: int, span: nat): set<nat> {
    set i: nat | i < |failures| && from <= failures[i] <= from + span
  }

  lemma {:induction false} RangeSize(s: set<nat>, lo: nat, n: nat)
    requires forall i :: i in s ==> lo <= i < lo + n
    ensures |s| <= n
    decreases n
  {
    if n == 0 {
      assert s == {};
    } else {
      var t := s - {lo + n - 1};
      RangeSize(t, lo, n - 1);
      assert s <= t + {lo + n - 1};
      SubsetCard(s, t + {lo + n - 1});
    }
  }

  function FirstAtLeast(failures: seq<int>, from: int): (k: nat)
    ensures k <= |failures|
    ensures forall i :: 0 <= i < k ==> failures[i] < from
    ensures k < |failures| ==> failures[k] >= from
  {
    if failures == [] || failures[0] >= from then 0 else 1 + FirstAtLeast(failures[1..], from)
  }

  /** How many failures the policy lets through in a span of milliseconds with so many logins in flight. */
  function Allowance(p: Policy, span: nat, inFlight: nat): nat
    requires p.durationSecs > 0
  {
    FirstLocking(p) - 1 + inFlight * (span / (1000 * p.durationSecs) + 1)
  }

  /** An index past the allowance would lie more than `span` after the first failure of the interval. */
  lemma LatestInSpan(f: seq<int>, first: nat, d: int, peak: nat, from: int, lo: nat, span: nat, k: nat, i: nat)
    requires FarApart(f, first, d, peak) && first >= 1
    requires (forall a, b :: 0 <= a <= b < |f| ==> f[a] <= f[b]) && d * k > span
    requires lo <= i < |f| && f[lo] >= from && f[i] <= from + span && peak * k >= 0
    ensures i < lo + first - 1 + peak * k
  {
    var base := if lo < first - 1 then first - 1 else lo;
    if base + peak * k <= i {
      Hops(f, first, d, peak, base, k);
    }
  }

  lemma SpanLocks(span: nat, d: nat)
    requires d > 0
    ensures d * (span / d + 1) > span
  {
    assert span == d * (span / d) + span % d;
    OneMore(d, span / d + 1);
  }

  /** For all runs, however logins interleave: between two clears, the wrong passwords that `login` compares
    * and records within any closed interval number at most threshold - 1, plus, for each lock duration the
    * interval begins, the number of logins that were ever in flight together. */
  lemma FailuresAreBounded(p: Policy, es: seq<Event>, start: int, from: int, span: nat)
    requires p.durationSecs > 0
    ensures var w := Exec(Start(start), p, es);
      |FailuresIn(w.failures, from, span)| <= Allowance(p, span, w.peak)
  {
    RunKeeps(Start(start), p, es);
    FailuresWithin(Exec(Start(start), p, es), p, from, span);
  }

  lemma FailuresWithin(w: World, p: Policy, from: int, span: nat)
    requires Inv(w, p) && p.durationSecs > 0
    ensures |FailuresIn(w.failures, from, span)| <= Allowance(p, span, w.peak)
  {
    var f, first, d := w.failures, FirstLocking(p), 1000 * p.durationSecs;
    var k, lo := span / d + 1, FirstAtLeast(w.failures, from);
    FailuresAreFarApart(w, p);
    SpanLocks(span, d);
    Product(w.peak, k);
    forall i | i in FailuresIn(f, from, span) ensures lo <= i < lo + (first - 1 + w.peak * k) {
      LatestInSpan(f, first, d, w.peak, from, lo, span, k, i);
    }
    RangeSize(FailuresIn(f, from, span), lo, first - 1 + w.peak * k);
  }

  lemma Product(a: nat, b: nat)
    ensures a * b >= 0
    ensures a <= 1 ==> a * b <= b
  {
    if a == 1 { assert a * b == b; }
  }

  // The bound is reached

  function Reads(n: nat): seq<Event> {
    if n == 0 then [] else Reads(n - 1) + [Read(n - 1)]
  }

  function Failures(n: nat): seq<Event> {
    if n == 0 then [] else Failures(n - 1) + [Write(n - 1, false)]
  }

  function UpTo(n: nat): (s: set<nat>)
    ensures forall i: nat :: i in s <==> i < n
    ensures |s| == n
  {
    if n == 0 then {} else UpTo(n - 1) + {n - 1}
  }

  lemma ReadOne(w: World, p: Policy, n: nat)
    requires w.s.readings.Keys == UpTo(n) && !Locked(w.s.account, w.s.now)
    ensures var t := Apply(w, p, Read(n));
      && t == World(w.s.(readings := t.s.readings), w.failures, t.peak)
      && t.s.readings.Keys == UpTo(n + 1)
      && t.peak == if w.peak > n + 1 then w.peak else n + 1
  {
    OneMoreReading(w.s.readings, n, Reading(w.s.now, w.s.account.suspended));
  }

  lemma OneMoreReading(readings: map<nat, Reading>, n: nat, reading: Reading)
    requires readings.Keys == UpTo(n)
    ensures n !in readings && readings[n := reading].Keys == UpTo(n + 1) && |readings[n := reading]| == n + 1
  {
    assert readings[n := reading].Keys == UpTo(n + 1);
    assert |readings[n := reading]| == |readings[n := reading].Keys|;
  }

  /** The logins 0 to n - 1 all read an unlocked row. */
  lemma {:induction false} ReadAll(w: World, p: Policy, n: nat)
    requires w.s.readings == map[] && !Locked(w.s.account, w.s.now)
    ensures var t := Exec(w, p, Reads(n));
      && t == World(w.s.(readings := t.s.readings), w.failures, t.peak)
      && t.s.readings.Keys == UpTo(n)
      && t.peak == if w.peak > n then w.peak else n
  {
    if n > 0 {
      ReadAll(w, p, n - 1);
      ReadOne(Exec(w, p, Reads(n - 1)), p, n - 1);
      ExecOneMore(w, p, Reads(n - 1), Read(n - 1));
    }
  }

  function Times(now: int, n: nat): seq<int> {
    seq(n, i => now)
  }

  lemma FailOne(w: World, p: Policy, login: nat)
    requires login in w.s.readings
    ensures var t := Apply(w, p, Write(login, false));
      && t == World(w.s.(account := t.s.account, readings := t.s.readings), t.failures, w.peak)
      && t.s.readings.Keys == w.s.readings.Keys - {login}
      && t.failures == w.failures + [w.s.now]
  {
  }

  /** From w to t the logins 0 to n - 1 have each recorded a wrong password. */
  ghost predicate AllFailed(w: World, t: World, n: nat) {
    && t == World(w.s.(account := t.s.account, readings := t.s.readings), t.failures, w.peak)
    && t.s.readings.Keys == w.s.readings.Keys - UpTo(n)
    && t.failures == w.failures + Times(w.s.now, n)
  }

  lemma OneMoreFailed(w: World, p: Policy, u: World, n: nat)
    requires AllFailed(w, u, n) && UpTo(n + 1) <= w.s.readings.Keys
    ensures AllFailed(w, Apply(u, p, Write(n, false)), n + 1)
  {
    assert n in UpTo(n + 1);
    FailOne(u, p, n);
    assert UpTo(n + 1) == UpTo(n) + {n};
    assert Times(w.s.now, n + 1) == Times(w.s.now, n) + [w.s.now];
  }

  /** They then all record a wrong password. */
  lemma {:induction false} FailAll(w: World, p: Policy, n: nat)
    requires UpTo(n) <= w.s.readings.Keys
    ensures AllFailed(w, Exec(w, p, Failures(n)), n)
  {
    if n > 0 {
      var u := Exec(w, p, Failures(n - 1));
      FailAll(w, p, n - 1);
      OneMoreFailed(w, p, u, n - 1);
      ExecOneMore(w, p, Failures(n - 1), Write(n - 1, false));
    } else {
      assert w.failures + Times(w.s.now, 0) == w.failures;
    }
  }

  lemma ExecOneMore(w: World, p: Policy, es: seq<Event>, e: Event)
    ensures Exec(w, p, es + [e]) == Apply(Exec(w, p, es), p, e)
  {
    ExecAppend(w, p, es, [e]);
    assert [e][1..] == [];
  }

  /** So many logins read together and fail together. */
  function Volley(n: nat): seq<Event> {
    Reads(n) + Failures(n)
  }

  lemma VolleyFails(w: World, p: Policy, n: nat)
    requires Inv(w, p) && w.s.readings == map[] && !Locked(w.s.account, w.s.now)
    ensures var t := Exec(w, p, Volley(n));
      && Inv(t, p) && t.s.now == w.s.now && t.s.readings == map[]
      && t.failures == w.failures + Times(w.s.now, n)
      && t.peak == if w.peak > n then w.peak else n
  {
    ReadAll(w, p, n);
    ExecAppend(w, p, Reads(n), Failures(n));
    FailAll(Exec(w, p, Reads(n)), p, n);
    RunKeeps(w, p, Volley(n));
    assert Exec(w, p, Volley(n)).s.readings.Keys == {};
  }

  function Repeated(es: seq<Event>, n: nat): seq<Event> {
    if n == 0 then [] else Repeated(es, n - 1) + es
  }

  lemma ExecRepeated(w: World, p: Policy, es: seq<Event>, n: nat)
    ensures Exec(w, p, Repeated(es, n + 1)) == Exec(Exec(w, p, Repeated(es, n)), p, es)
  {
    ExecAppend(w, p, Repeated(es, n), es);
  }

  lemma {:induction false} RepeatedKeeps(w: World, p: Policy, es: seq<Event>, n: nat, inv: (World, nat) -> bool)
    requires inv(w, 0) && forall u, m: nat :: m < n && inv(u, m) ==> inv(Exec(u, p, es), m + 1)
    ensures inv(Exec(w, p, Repeated(es, n)), n)
    decreases n
  {
    if n > 0 {
      RepeatedKeeps(w, p, es, n - 1, inv);
      ExecRepeated(w, p, es, n - 1);
    }
  }

  /** One login after the other fails, as long as the threshold is not reached. */
  function OneByOne(n: nat): seq<Event> {
    Repeated(Volley(1), n)
  }

  ghost predicate FailedOneByOne(w: World, p: Policy, start: int, n: nat) {
    && Inv(w, p) && w.s.now == start && w.s.readings == map[]
    && w.failures == Times(start, n) && w.peak <= 1
  }

  lemma OneMoreByOne(w: World, p: Policy, start: int, n: nat)
    requires FailedOneByOne(w, p, start, n) && n < FirstLocking(p)
    ensures FailedOneByOne(Exec(w, p, Volley(1)), p, start, n + 1)
  {
    assert |Times(start, n)| == n;
    VolleyFails(w, p, 1);
    assert Times(start, n + 1) == Times(start, n) + Times(start, 1);
  }

  lemma BelowThreshold(p: Policy, start: int, n: nat)
    requires n <= FirstLocking(p)
    ensures FailedOneByOne(Exec(Start(start), p, OneByOne(n)), p, start, n)
  {
    forall w, m: nat | m < n && FailedOneByOne(w, p, start, m)
      ensures FailedOneByOne(Exec(w, p, Volley(1)), p, start, m + 1)
    {
      OneMoreByOne(w, p, start, m);
    }
    RepeatedKeeps(Start(start), p, Volley(1), n, (w: World, m: nat) => FailedOneByOne(w, p, start, m));
  }

  /** A volley as soon as the account locks, and another whenever a lock has run out. */
  function Volleys(p: Policy, c: nat, k: nat): seq<Event>
    requires p.durationSecs > 0
  {
    if k == 0 then OneByOne(FirstLocking(p) - 1) + Volley(c)
    else Volleys(p, c, k - 1) + ([Pass(1000 * p.durationSecs)] + Volley(c))
  }

  ghost predicate WithinSpan(failures: seq<int>, from: int, to: int) {
    forall i :: 0 <= i < |failures| ==> from <= failures[i] <= to
  }

  /** The state after k further volleys. */
  ghost predicate AfterVolleys(w: World, p: Policy, start: int, c: nat, count: nat, now: int) {
    && Inv(w, p) && w.s.readings == map[] && w.peak == c && w.s.now == now
    && |w.failures| == count && WithinSpan(w.failures, start, now)
  }

  lemma FirstVolley(p: Policy, start: int, c: nat)
    requires p.durationSecs > 0 && c >= 1
    ensures AfterVolleys(Exec(Start(start), p, Volleys(p, c, 0)), p, start, c, FirstLocking(p) - 1 + c, start)
  {
    var n := FirstLocking(p) - 1;
    BelowThreshold(p, start, n);
    ExecAppend(Start(start), p, OneByOne(n), Volley(c));
    LockingVolley(Exec(Start(start), p, OneByOne(n)), p, start, c);
  }

  lemma LockingVolley(w: World, p: Policy, start: int, c: nat)
    requires c >= 1 && FailedOneByOne(w, p, start, FirstLocking(p) - 1)
    ensures AfterVolleys(Exec(w, p, Volley(c)), p, start, c, FirstLocking(p) - 1 + c, start)
  {
    assert |Times(start, FirstLocking(p) - 1)| == FirstLocking(p) - 1;
    VolleyFails(w, p, c);
  }

  lemma NextVolley(w: World, p: Policy, start: int, c: nat, count: nat, now: int)
    requires p.durationSecs > 0 && start <= now && AfterVolleys(w, p, start, c, count, now)
    ensures AfterVolleys(Exec(w, p, [Pass(1000 * p.durationSecs)] + Volley(c)), p, start, c, count + c,
                         now + 1000 * p.durationSecs)
  {
    var d := 1000 * p.durationSecs;
    var u := Apply(w, p, Pass(d));
    EventKeeps(w, p, Pass(d));
    ExecAppend(w, p, [Pass(d)], Volley(c));
    assert Exec(w, p, [Pass(d)]) == u;
    assert !Locked(u.s.account, u.s.now);
    VolleyFails(u, p, c);
  }

  lemma {:induction false} AllVolleys(p: Policy, start: int, c: nat, k: nat)
    requires p.durationSecs > 0 && c >= 1
    ensures AfterVolleys(Exec(Start(start), p, Volleys(p, c, k)), p, start, c, FirstLocking(p) - 1 + c * (k + 1),
                         start + 1000 * p.durationSecs * k)
  {
    if k == 0 {
      FirstVolley(p, start, c);
    } else {
      AllVolleys(p, start, c, k - 1);
      Totals(c, 1000 * p.durationSecs, k);
      OneMoreVolley(p, start, c, k, FirstLocking(p) - 1 + c * k, start + 1000 * p.durationSecs * (k - 1));
    }
  }

  lemma Totals(c: nat, d: nat, k: nat)
    requires k > 0
    ensures c * k + c == c * (k + 1) && d * (k - 1) + d == d * k && d * (k - 1) >= 0
  {
    Product(d, k - 1);
  }

  lemma OneMoreVolley(p: Policy, start: int, c: nat, k: nat, count: nat, now: int)
    requires p.durationSecs > 0 && k > 0 && start <= now
    requires AfterVolleys(Exec(Start(start), p, Volleys(p, c, k - 1)), p, start, c, count, now)
    ensures AfterVolleys(Exec(Start(start), p, Volleys(p, c, k)), p, start, c, count + c, now + 1000 * p.durationSecs)
  {
    ExecAppend(Start(start), p, Volleys(p, c, k - 1), [Pass(1000 * p.durationSecs)] + Volley(c));
    NextVolley(Exec(Start(start), p, Volleys(p, c, k - 1)), p, start, c, count, now);
  }

  lemma AllWithin(failures: seq<int>, from: int, span: nat)
    requires WithinSpan(failures, from, from + span)
    ensures |FailuresIn(failures, from, span)| == |failures|
  {
    assert FailuresIn(failures, from, span) == UpTo(|failures|);
  }

  /** The bound is reached: for every threshold, positive duration, number c of logins in flight and number k of lock
    * durations, some run with that peak records exactly the allowance within k durations. */
  lemma BoundIsReached(p: Policy, start: int, c: nat, k: nat)
    requires p.durationSecs > 0 && c >= 1
    ensures var span := 1000 * p.durationSecs * k;
      exists es :: Exec(Start(start), p, es).peak == c
                   && |FailuresIn(Exec(Start(start), p, es).failures, start, span)| == Allowance(p, span, c)
  {
    var d := 1000 * p.durationSecs;
    var es := Volleys(p, c, k);
    AllVolleys(p, start, c, k);
    Product(d, k);
    AllWithin(Exec(Start(start), p, es).failures, start, d * k);
    WholeSpan(d, k);
    assert Exec(Start(start), p, es).peak == c
           && |FailuresIn(Exec(Start(start), p, es).failures, start, d * k)| == Allowance(p, d * k, c);
  }

  lemma WholeSpan(d: nat, k: nat)
    requires d > 0
    ensures d * k / d == k
  {
    var q := d * k / d;
    assert d * k == d * q + d * k % d;
    assert d * (k - q) == d * k - d * q;
    Grows(d, k - q);
  }

  lemma Grows(d: nat, m: int)
    ensures m >= 1 ==> d * m >= d
    ensures m <= -1 ==> d * m + d <= 0
  {
    OneMore(d, m);
    if m >= 1 { Product(d, m - 1); }
    if m <= -1 { Product(d, -1 - m); }
    assert d * (-1 - m) + d + d * m == 0;
  }

  /** So with overlapping logins the account can record more than threshold + T / duration failures, for every policy
    * that locks at all: two logins in flight exceed it within a single instant. */
  lemma OverlapExceedsSerialBound(p: Policy, start: int)
    requires p.durationSecs > 0
    ensures exists es :: Exec(Start(start), p, es).peak == 2
                         && |FailuresIn(Exec(Start(start), p, es).failures, start, 0)| == FirstLocking(p) + 1
  {
    BoundIsReached(p, start, 2, 0);
    assert 1000 * p.durationSecs * 0 == 0;
    assert Allowance(p, 0, 2) == FirstLocking(p) + 1;
  }

  // Handlers that do not overlap

  datatype Request = Wait(ms: nat) | Attempt(correct: bool) | AdminUnlock | AdminSuspend(flag: bool)

  function Statements(r: Request): seq<Event> {
    match r
    case Wait(ms) => [Pass(ms)]
    case Attempt(correct) => [Read(0), Write(0, correct)]
    case AdminUnlock => [Unlocked]
    case AdminSuspend(flag) => [Suspend(flag)]
  }

  function Serial(rs: seq<Request>): seq<Event> {
    if rs == [] then [] else Statements(rs[0]) + Serial(rs[1..])
  }

  lemma {:induction false} ExecAppend(w: World, p: Policy, es: seq<Event>, fs: seq<Event>)
    ensures Exec(w, p, es + fs) == Exec(Exec(w, p, es), p, fs)
    decreases |es|
  {
    if es == [] {
      assert es + fs == fs;
    } else {
      assert (es + fs)[1..] == es[1..] + fs;
      ExecAppend(Apply(w, p, es[0]), p, es[1..], fs);
    }
  }

  /** The answer a login in flight gives when its password has been compared now. */
  function AnswerOf(w: World, p: Policy, login: nat, correct: bool): Option<Answer> {
    if login in w.s.readings
    then Some(Settle(w.s.account, p, w.s.readings[login].suspended, correct, w.s.now).1)
    else None
  }

  /** With no other login in flight, the two statements of a login are the handler: same account, same answer. */
  lemma AttemptIsLogin(w: World, p: Policy, correct: bool)
    requires w.s.readings == map[]
    ensures var w' := Exec(w, p, Statements(Attempt(correct)));
      var (account, answer) := Login(w.s.account, p, correct, w.s.now);
      && w'.s == w.s.(account := account)
      && w'.peak <= (if w.peak > 1 then w.peak else 1)
      && AnswerOf(Apply(w, p, Read(0)), p, 0, correct) == if answer == Blocked then None else Some(answer)
  {
    var read := Apply(w, p, Read(0));
    var es := Statements(Attempt(correct));
    assert es[1..] == [Write(0, correct)] && es[1..][1..] == [];
    assert Exec(w, p, es) == Exec(read, p, es[1..]) == Apply(read, p, Write(0, correct));
    if !Locked(w.s.account, w.s.now) {
      assert read.s.readings.Keys == {0};
      assert read.s.readings - {0} == map[];
    }
  }

  lemma {:induction false} SerialPeak(w: World, p: Policy, rs: seq<Request>)
    requires w.s.readings == map[] && w.peak <= 1
    ensures Exec(w, p, Serial(rs)).peak <= 1
    decreases |rs|
  {
    if rs != [] {
      var es := Statements(rs[0]);
      ExecAppend(w, p, es, Serial(rs[1..]));
      if rs[0].Attempt? {
        AttemptIsLogin(w, p, rs[0].correct);
      } else {
        assert Exec(w, p, es) == Apply(w, p, es[0]);
      }
      SerialPeak(Exec(w, p, es), p, rs[1..]);
    }
  }

  /** One login at a time: at most threshold + T / duration failures in any closed interval of length T. */
  lemma SerialFailuresAreBounded(p: Policy, rs: seq<Request>, start: int, from: int, span: nat)
    requires p.durationSecs > 0
    ensures var w := Exec(Start(start), p, Serial(rs));
      |FailuresIn(w.failures, from, span)| <= FirstLocking(p) + span / (1000 * p.durationSecs)
  {
    SerialPeak(Start(start), p, rs);
    FailuresAreBounded(p, Serial(rs), start, from, span);
    Product(Exec(Start(start), p, Serial(rs)).peak, span / (1000 * p.durationSecs) + 1);
  }
}
