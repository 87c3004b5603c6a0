/** Shared vocabulary: optional values and the symbolic hash.
  *
  * SHA-256 is modelled symbolically: a digest remembers what it is the digest of, so hashing is
  * injective by construction. */
module Basics {

  datatype Option<+T> = None | Some(value: T)

  datatype Digest = Sha256(preimage: string)

  /** Whole seconds of a millisecond timestamp, as chrono's `timestamp()` and `as_secs()` give it. */
  function Seconds(ms: int): int {
    ms / 1000
  }

  /** A set of naturals or other values in which any two elements coincide has at most one element. */
  lemma AtMostOne<T>(s: set<T>)
    requires forall x, y :: x in s && y in s ==> x == y
    ensures |s| <= 1
  {
    if s != {} {
      var x :| x in s;
      assert s == {x};
    }
  }

  lemma SubsetCard<T>(small: set<T>, big: set<T>)
    requires small <= big
    ensures |small| <= |big| && (|small| == |big| <==> small == big)
  {
    assert big == small + (big - small);
  }
}
