/** The fixed-window rate limiter: one Redis counter per request key and time bucket, shared by every
  * limiter of the deployment. All limiters are built with the same window and differ in their maxima. */
module RateLimiter {
  import opened Basics

  /** A Redis counter; INCR creates it without an expiry. */
  datatype Counter = Counter(count: nat, expires: Option<nat>)

  type Counters = map<string, Counter>

  predicate Alive(m: Counters, k: string, now: nat) {
    k in m && (m[k].expires.Some? ==> now <= m[k].expires.value)
  }

  function Incr(m: Counters, k: string, now: nat): Counters {
    m[k := if Alive(m, k, now) then m[k].(count := m[k].count + 1) else Counter(1, None)]
  }

  /** EXPIRE with a time to live of zero deletes the key. */
  function Expire(m: Counters, k: string, ttl: nat, now: nat): Counters {
    if k !in m then m else if ttl == 0 then m - {k} else m[k := m[k].(expires := Some(now + 1000 * ttl))]
  }

  function Decimal(n: nat): string {
    var digit := ["0123456789"[n % 10]];
    if n < 10 then digit else Decimal(n / 10) + digit
  }

  function RedisKey(key: string, bucket: nat): string {
    "aspectus:rate_limit:" + key + ":" + Decimal(bucket)
  }

  function Bucket(now: nat, window: nat): nat {
    Seconds(now) / if window == 0 then 1 else window
  }

  /** The script of one request: count it, start the expiry on the first, compare with the maximum. */
  function Check(m: Counters, key: string, max: nat, window: nat, now: nat): (Counters, bool) {
    var k := RedisKey(key, Bucket(now, window));
    var counted := Incr(m, k, now);
    var current := counted[k].count;
    (if current == 1 then Expire(counted, k, window, now) else counted, current <= max)
  }

  class CounterStore {
    var counters: Counters

    constructor ()
      ensures counters == map[]
    {
      counters := map[];
    }
  }

  class RateLimiter {
    const store: CounterStore
    const maxRequests: nat
    const windowSecs: nat

    constructor (store: CounterStore, maxRequests: nat, windowSecs: nat)
      ensures this.store == store && this.maxRequests == maxRequests && this.windowSecs == windowSecs
    {
      this.store, this.maxRequests, this.windowSecs := store, maxRequests, windowSecs;
    }

    method Allow(key: string, now: nat) returns (allowed: bool)
      modifies store
      ensures (store.counters, allowed) == Check(old(store.counters), key, maxRequests, windowSecs, now)
    {
      var k := RedisKey(key, Bucket(now, windowSecs));
      store.counters := Incr(store.counters, k, now);
      var current := store.counters[k].count;
      if current == 1 {
        store.counters := Expire(store.counters, k, windowSecs, now);
      }
      return current <= maxRequests;
    }
  }

  /** One request through a limiter of the given maximum. */
  datatype Hit = Hit(key: string, max: nat, at: nat)

  /** The counters after a history of requests, oldest first. */
  function Exec(hits: seq<Hit>, window: nat): Counters {
    if hits == [] then map[]
    else
      var last := hits[|hits| - 1];
      Check(Exec(hits[..|hits| - 1], window), last.key, last.max, window, last.at).0
  }

  /** The answer to the last request of a history. */
  predicate Granted(hits: seq<Hit>, window: nat)
    requires hits != []
  {
    var last := hits[|hits| - 1];
    Check(Exec(hits[..|hits| - 1], window), last.key, last.max, window, last.at).1
  }

  /** How many requests of the history fall under this key and bucket. */
  function Seen(hits: seq<Hit>, key: string, bucket: nat, window: nat): nat {
    if hits == [] then 0
    else
      var last := hits[|hits| - 1];
      Seen(hits[..|hits| - 1], key, bucket, window)
        + if last.key == key && Bucket(last.at, window) == bucket then 1 else 0
  }

  // Counter names

  lemma {:induction false} DecimalDigits(n: nat)
    ensures ':' !in Decimal(n) && |Decimal(n)| > 0
    ensures n >= 10 ==> |Decimal(n)| > 1
  {
    if n >= 10 {
      DecimalDigits(n / 10);
    }
  }

  /** The number a string of decimal digits stands for. */
  function Value(s: string): int {
    if s == "" then 0 else 10 * Value(s[..|s| - 1]) + (s[|s| - 1] as int - '0' as int)
  }

  predicate IsDigit(c: char) {
    '0' <= c <= '9'
  }

  lemma LastDigit(n: nat)
    ensures var s := Decimal(n);
      && s != "" && IsDigit(s[|s| - 1]) && s[|s| - 1] as int - '0' as int == n % 10
      && s[..|s| - 1] == if n < 10 then "" else Decimal(n / 10)
  {
    assert Decimal(n) == (if n < 10 then "" else Decimal(n / 10)) + ["0123456789"[n % 10]];
  }

  lemma {:induction false} ValueOfDecimal(n: nat)
    ensures Value(Decimal(n)) == n
  {
    LastDigit(n);
    if n >= 10 {
      ValueOfDecimal(n / 10);
    }
  }

  lemma {:induction false} DecimalIsDigits(n: nat)
    ensures var s := Decimal(n); s != "" && (forall i :: 0 <= i < |s| ==> IsDigit(s[i])) && (s[0] == '0' ==> n == 0)
  {
    LastDigit(n);
    var s := Decimal(n);
    if n >= 10 {
      DecimalIsDigits(n / 10);
      assert forall i :: 0 <= i < |s| - 1 ==> s[i] == s[..|s| - 1][i];
    }
  }

  /** The decimal notation of a number stands for it, in digits, without a leading zero. */
  lemma DecimalStandsFor(n: nat)
    ensures var s := Decimal(n);
      && Value(s) == n && s != "" && (forall i :: 0 <= i < |s| ==> IsDigit(s[i]))
      && (s[0] == '0' ==> n == 0)
  {
    ValueOfDecimal(n);
    DecimalIsDigits(n);
  }

  lemma {:induction false} DecimalInjective(m: nat, n: nat)
    requires Decimal(m) == Decimal(n)
    ensures m == n
  {
    DecimalDigits(m);
    DecimalDigits(n);
    var a, b := Decimal(m), Decimal(n);
    assert a[|a| - 1] == "0123456789"[m % 10] && b[|b| - 1] == "0123456789"[n % 10];
    assert m % 10 == n % 10;
    if m >= 10 && n >= 10 {
      assert a[..|a| - 1] == Decimal(m / 10) && b[..|b| - 1] == Decimal(n / 10);
      DecimalInjective(m / 10, n / 10);
    }
  }

  lemma LongerTailHasColon(a: string, d: string, b: string, e: string)
    requires a + ":" + d == b + ":" + e && |d| < |e|
    ensures ':' in e
  {
    assert (a + ":" + d)[|a|] == ':';
    assert (b + ":" + e)[|a|] == e[|a| - |b| - 1];
  }

  /** The part after the last colon is determined by the whole. */
  lemma LastColon(a: string, d: string, b: string, e: string)
    requires a + ":" + d == b + ":" + e && ':' !in d && ':' !in e
    ensures a == b && d == e
  {
    if |d| < |e| {
      LongerTailHasColon(a, d, b, e);
    } else if |e| < |d| {
      LongerTailHasColon(b, e, a, d);
    } else {
      var s, t := a + ":" + d, b + ":" + e;
      assert a == s[..|a|] && b == t[..|b|] && d == s[|a| + 1..] && e == t[|b| + 1..];
    }
  }

  /** Keys may contain colons, as IPv6 addresses do; two requests still share a counter only if they have
    * the same key and the same bucket. */
  lemma CounterNamesDistinct(key: string, bucket: nat, key': string, bucket': nat)
    requires RedisKey(key, bucket) == RedisKey(key', bucket')
    ensures key == key' && bucket == bucket'
  {
    DecimalDigits(bucket);
    DecimalDigits(bucket');
    var prefix := "aspectus:rate_limit:";
    LastColon(prefix + key, Decimal(bucket), prefix + key', Decimal(bucket'));
    assert (prefix + key)[|prefix|..] == key && (prefix + key')[|prefix|..] == key';
    DecimalInjective(bucket, bucket');
  }

  // What the counters hold

  lemma BucketBounds(now: nat, window: nat)
    ensures var w := if window == 0 then 1 else window;
      1000 * w * Bucket(now, window) <= now < 1000 * w * (Bucket(now, window) + 1)
  {
    var w := if window == 0 then 1 else window;
    var s, b := Seconds(now), Bucket(now, window);
    assert w * b <= s < w * b + w;
    assert w * (b + 1) == w * b + w;
    assert 1000 * s <= now < 1000 * s + 1000;
  }

  /** The counter of a key and bucket holds the number of requests seen there, and outlives its bucket. */
  ghost predicate Holds(m: Counters, key: string, bucket: nat, window: nat, n: nat) {
    var k := RedisKey(key, bucket);
    if n == 0 then k !in m
    else k in m && m[k].count == n && m[k].expires.Some? && m[k].expires.value >= 1000 * window * (bucket + 1)
  }

  lemma CheckCounts(m: Counters, key: string, max: nat, window: nat, now: nat, n: nat)
    requires window >= 1 && Holds(m, key, Bucket(now, window), window, n)
    ensures Check(m, key, max, window, now).1 <==> n + 1 <= max
    ensures Holds(Check(m, key, max, window, now).0, key, Bucket(now, window), window, n + 1)
  {
    var b := Bucket(now, window);
    BucketBounds(now, window);
    assert 1000 * window * (b + 1) == 1000 * window * b + 1000 * window;
    assert n > 0 ==> Alive(m, RedisKey(key, b), now);
  }

  lemma CheckElsewhere(m: Counters, key: string, max: nat, window: nat, now: nat, key': string, b': nat, n: nat)
    requires Holds(m, key', b', window, n) && (key' != key || b' != Bucket(now, window))
    ensures Holds(Check(m, key, max, window, now).0, key', b', window, n)
  {
    if RedisKey(key', b') == RedisKey(key, Bucket(now, window)) {
      CounterNamesDistinct(key', b', key, Bucket(now, window));
    }
  }

  /** No counter created in a bucket expires before that bucket ends, and none is ever miscounted: after any
    * history the store holds exactly the number of requests seen under each key and bucket. */
  lemma {:induction false} CountersAreExact(hits: seq<Hit>, window: nat, key: string, bucket: nat)
    requires window >= 1
    ensures Holds(Exec(hits, window), key, bucket, window, Seen(hits, key, bucket, window))
    decreases |hits|
  {
    if hits != [] {
      var front, last := hits[..|hits| - 1], hits[|hits| - 1];
      CountersAreExact(front, window, key, bucket);
      var m, n := Exec(front, window), Seen(front, key, bucket, window);
      if last.key == key && Bucket(last.at, window) == bucket {
        CheckCounts(m, key, last.max, window, last.at, n);
      } else {
        CheckElsewhere(m, last.key, last.max, window, last.at, key, bucket, n);
      }
    }
  }

  /** When the key's first request of the bucket came. */
  function FirstSeen(hits: seq<Hit>, key: string, bucket: nat, window: nat): nat
    requires Seen(hits, key, bucket, window) > 0
  {
    var front, last := hits[..|hits| - 1], hits[|hits| - 1];
    if Seen(front, key, bucket, window) > 0 then FirstSeen(front, key, bucket, window) else last.at
  }

  /** The first request of a bucket starts the expiry of its counter, one window long, and no later one moves it. */
  lemma {:induction false} ExpiryFollowsFirst(hits: seq<Hit>, window: nat, key: string, bucket: nat)
    requires window >= 1 && Seen(hits, key, bucket, window) > 0
    ensures var m, k := Exec(hits, window), RedisKey(key, bucket);
      k in m && m[k].expires == Some(FirstSeen(hits, key, bucket, window) + 1000 * window)
    decreases |hits|
  {
    var front, last := hits[..|hits| - 1], hits[|hits| - 1];
    CountersAreExact(front, window, key, bucket);
    if Seen(front, key, bucket, window) > 0 {
      ExpiryFollowsFirst(front, window, key, bucket);
    }
    if last.key == key && Bucket(last.at, window) == bucket {
      BucketBounds(last.at, window);
    } else if RedisKey(key, bucket) == RedisKey(last.key, Bucket(last.at, window)) {
      CounterNamesDistinct(key, bucket, last.key, Bucket(last.at, window));
    }
  }

  /** A request passes exactly when, itself included, its bucket has seen no more than its limiter's maximum,
    * whichever limiters counted the others. */
  lemma GrantedIff(hits: seq<Hit>, window: nat)
    requires hits != [] && window >= 1
    ensures var last := hits[|hits| - 1];
      Granted(hits, window) <==> Seen(hits, last.key, Bucket(last.at, window), window) <= last.max
  {
    var front, last := hits[..|hits| - 1], hits[|hits| - 1];
    var b := Bucket(last.at, window);
    CountersAreExact(front, window, last.key, b);
    CheckCounts(Exec(front, window), last.key, last.max, window, last.at, Seen(front, last.key, b, window));
  }

  // Bounds

  /** Requests granted under `key` in buckets `lo` up to `hi`, by limiters with a maximum of at most `max`. */
  function GrantedIn(hits: seq<Hit>, key: string, max: nat, lo: nat, hi: nat, window: nat): nat {
    if hits == [] then 0
    else
      var last := hits[|hits| - 1];
      GrantedIn(hits[..|hits| - 1], key, max, lo, hi, window)
        + if Granted(hits, window) && last.key == key && last.max <= max && lo <= Bucket(last.at, window) < hi then 1 else 0
  }

  lemma {:induction false} GrantedInBucket(hits: seq<Hit>, key: string, max: nat, bucket: nat, window: nat)
    requires window >= 1
    ensures GrantedIn(hits, key, max, bucket, bucket + 1, window) <= Seen(hits, key, bucket, window)
    ensures GrantedIn(hits, key, max, bucket, bucket + 1, window) <= max
    decreases |hits|
  {
    if hits != [] {
      GrantedInBucket(hits[..|hits| - 1], key, max, bucket, window);
      GrantedIff(hits, window);
    }
  }

  lemma {:induction false} GrantedSplits(hits: seq<Hit>, key: string, max: nat, lo: nat, mid: nat, hi: nat, window: nat)
    requires lo <= mid <= hi
    ensures GrantedIn(hits, key, max, lo, hi, window)
         == GrantedIn(hits, key, max, lo, mid, window) + GrantedIn(hits, key, max, mid, hi, window)
    decreases |hits|
  {
    if hits != [] {
      GrantedSplits(hits[..|hits| - 1], key, max, lo, mid, hi, window);
    }
  }

  lemma {:induction false} GrantedNowhere(hits: seq<Hit>, key: string, max: nat, lo: nat, window: nat)
    ensures GrantedIn(hits, key, max, lo, lo, window) == 0
    decreases |hits|
  {
    if hits != [] {
      GrantedNowhere(hits[..|hits| - 1], key, max, lo, window);
    }
  }

  /** At most `max` per bucket: over any history, a limiter of that maximum, even together with every stricter
    * limiter sharing the key, grants at most `max` requests for each bucket in a stretch of buckets. */
  lemma {:induction false} GrantedPerBucket(hits: seq<Hit>, key: string, max: nat, lo: nat, n: nat, window: nat)
    requires window >= 1
    ensures GrantedIn(hits, key, max, lo, lo + n, window) <= n * max
    decreases n
  {
    if n == 0 {
      GrantedNowhere(hits, key, max, lo, window);
    } else {
      GrantedPerBucket(hits, key, max, lo, n - 1, window);
      GrantedSplits(hits, key, max, lo, lo + n - 1, lo + n, window);
      GrantedInBucket(hits, key, max, lo + n - 1, window);
      assert n * max == (n - 1) * max + max;
    }
  }

  /** Requests granted under `key` at times `from` up to `to`. */
  function GrantedWithin(hits: seq<Hit>, key: string, max: nat, from: nat, to: nat, window: nat): nat {
    if hits == [] then 0
    else
      var last := hits[|hits| - 1];
      GrantedWithin(hits[..|hits| - 1], key, max, from, to, window)
        + if Granted(hits, window) && last.key == key && last.max <= max && from <= last.at < to then 1 else 0
  }

  /** A half-open span of `n` windows touches at most `n + 1` buckets. */
  lemma SpanBuckets(from: nat, at: nat, n: nat, window: nat)
    requires window >= 1 && from <= at < from + 1000 * window * n
    ensures Bucket(from, window) <= Bucket(at, window) < Bucket(from, window) + n + 1
  {
    var a, b, w := Bucket(from, window), Bucket(at, window), 1000 * window;
    BucketBounds(from, window);
    BucketBounds(at, window);
    Cancel(w, a, b + 1);
    assert w * (a + 1) + w * n == w * (a + 1 + n);
    Cancel(w, b, a + 1 + n);
  }

  lemma Cancel(w: nat, x: nat, y: nat)
    requires w * x < w * y
    ensures x < y
  {
    assert x >= y ==> w * x == w * y + w * (x - y);
  }

  lemma {:induction false} SpanInBuckets(hits: seq<Hit>, key: string, max: nat, from: nat, n: nat, window: nat)
    requires window >= 1
    ensures GrantedWithin(hits, key, max, from, from + 1000 * window * n, window)
         <= GrantedIn(hits, key, max, Bucket(from, window), Bucket(from, window) + n + 1, window)
    decreases |hits|
  {
    if hits != [] {
      var last := hits[|hits| - 1];
      SpanInBuckets(hits[..|hits| - 1], key, max, from, n, window);
      if from <= last.at < from + 1000 * window * n {
        SpanBuckets(from, last.at, n, window);
      }
    }
  }

  /** Over any history, at most (n + 1) times the maximum in any half-open span of n windows; for a single
    * window that is twice the maximum. */
  lemma GrantedPerSpan(hits: seq<Hit>, key: string, max: nat, from: nat, n: nat, window: nat)
    requires window >= 1
    ensures GrantedWithin(hits, key, max, from, from + 1000 * window * n, window) <= (n + 1) * max
  {
    SpanInBuckets(hits, key, max, from, n, window);
    GrantedPerBucket(hits, key, max, Bucket(from, window), n + 1, window);
  }

  // Exactness

  /** Every request under the key and bucket went through limiters of this one maximum. */
  ghost predicate Alone(hits: seq<Hit>, key: string, max: nat, bucket: nat, window: nat) {
    forall h :: h in hits && h.key == key && Bucket(h.at, window) == bucket ==> h.max == max
  }

  /** A limiter alone on its key grants exactly the first `max` requests of a bucket. */
  lemma {:induction false} AloneGrantsExactly(hits: seq<Hit>, key: string, max: nat, bucket: nat, window: nat)
    requires window >= 1 && Alone(hits, key, max, bucket, window)
    ensures var n := Seen(hits, key, bucket, window);
      GrantedIn(hits, key, max, bucket, bucket + 1, window) == if n <= max then n else max
    decreases |hits|
  {
    if hits != [] {
      assert hits[|hits| - 1] in hits;
      AloneGrantsExactly(hits[..|hits| - 1], key, max, bucket, window);
      GrantedIff(hits, window);
    }
  }

  function Burst(key: string, max: nat, at: nat, n: nat): seq<Hit> {
    seq(n, i => Hit(key, max, at))
  }

  lemma SeenOneMore(before: seq<Hit>, h: Hit, key: string, bucket: nat, window: nat)
    ensures Seen(before + [h], key, bucket, window)
         == Seen(before, key, bucket, window) + if h.key == key && Bucket(h.at, window) == bucket then 1 else 0
  {
    assert (before + [h])[..|before|] == before;
  }

  lemma {:induction false} SeenInBurst(before: seq<Hit>, key: string, max: nat, at: nat, n: nat, window: nat, bucket: nat)
    requires bucket == Bucket(at, window)
    ensures Seen(before + Burst(key, max, at, n), key, bucket, window) == Seen(before, key, bucket, window) + n
    decreases n
  {
    if n == 0 {
      assert before + Burst(key, max, at, n) == before;
    } else {
      var front := before + Burst(key, max, at, n - 1);
      assert before + Burst(key, max, at, n) == front + [Hit(key, max, at)];
      SeenInBurst(before, key, max, at, n - 1, window, bucket);
      SeenOneMore(front, Hit(key, max, at), key, bucket, window);
    }
  }

  lemma OneMorePasses(before: seq<Hit>, h: Hit, window: nat, from: nat, to: nat)
    requires window >= 1 && from <= h.at < to && Seen(before, h.key, Bucket(h.at, window), window) < h.max
    ensures GrantedWithin(before + [h], h.key, h.max, from, to, window)
         == GrantedWithin(before, h.key, h.max, from, to, window) + 1
  {
    var hits := before + [h];
    assert hits[..|hits| - 1] == before && hits[|hits| - 1] == h;
    GrantedIff(hits, window);
  }

  lemma {:induction false} BurstPasses(before: seq<Hit>, key: string, max: nat, at: nat, n: nat, window: nat,
                                       from: nat, to: nat)
    requires window >= 1 && n <= max && from <= at < to
    requires Seen(before, key, Bucket(at, window), window) == 0
    ensures GrantedWithin(before + Burst(key, max, at, n), key, max, from, to, window)
         == GrantedWithin(before, key, max, from, to, window) + n
    decreases n
  {
    var hits := before + Burst(key, max, at, n);
    if n == 0 {
      assert hits == before;
    } else {
      var front, h := before + Burst(key, max, at, n - 1), Hit(key, max, at);
      BurstPasses(before, key, max, at, n - 1, window, from, to);
      assert hits == front + [h];
      SeenInBurst(before, key, max, at, n - 1, window, Bucket(at, window));
      OneMorePasses(front, h, window, from, to);
    }
  }

  lemma {:induction false} SeenOnlyIn(key: string, max: nat, at: nat, n: nat, bucket: nat, window: nat)
    requires Bucket(at, window) != bucket
    ensures Seen(Burst(key, max, at, n), key, bucket, window) == 0
    decreases n
  {
    if n > 0 {
      SeenOnlyIn(key, max, at, n - 1, bucket, window);
      assert Burst(key, max, at, n) == Burst(key, max, at, n - 1) + [Hit(key, max, at)];
      SeenOneMore(Burst(key, max, at, n - 1), Hit(key, max, at), key, bucket, window);
    }
  }

  /** The bound for one window is reached: a burst at the last instant of a bucket and another at the first
    * instant of the next are granted in full, one millisecond apart. */
  lemma TwiceTheMaximum(key: string, max: nat, window: nat)
    requires window >= 1
    ensures var edge := 1000 * window;
      GrantedWithin(Burst(key, max, edge - 1, max) + Burst(key, max, edge, max),
                    key, max, edge - 1, edge - 1 + edge, window)
        == 2 * max
  {
    var edge := 1000 * window;
    EdgeBuckets(window);
    TwoBursts(key, max, edge - 1, edge, edge - 1 + edge, window);
  }

  lemma EdgeBuckets(window: nat)
    requires window >= 1
    ensures Bucket(1000 * window - 1, window) == 0 && Bucket(1000 * window, window) == 1
  {
    assert Seconds(1000 * window - 1) == window - 1 && Seconds(1000 * window) == window;
  }

  lemma TwoBursts(key: string, max: nat, from: nat, at: nat, to: nat, window: nat)
    requires window >= 1 && from < at < to && Bucket(from, window) != Bucket(at, window)
    ensures GrantedWithin(Burst(key, max, from, max) + Burst(key, max, at, max), key, max, from, to, window) == 2 * max
  {
    var first := Burst(key, max, from, max);
    BurstPasses([], key, max, from, max, window, from, to);
    assert [] + first == first;
    SeenOnlyIn(key, max, from, max, Bucket(at, window), window);
    BurstPasses(first, key, max, at, max, window, from, to);
  }

  /** A window of zero seconds expires each counter at once: nothing is ever limited but a maximum of zero. */
  lemma {:induction false} ZeroWindowLimitsNothing(hits: seq<Hit>)
    ensures Exec(hits, 0) == map[]
    ensures hits != [] ==> (Granted(hits, 0) <==> hits[|hits| - 1].max >= 1)
    decreases |hits|
  {
    if hits != [] {
      ZeroWindowLimitsNothing(hits[..|hits| - 1]);
    }
  }
}
