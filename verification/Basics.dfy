/** What several components share: optional values, ring indices, and the pigeonhole principle. */
module Basics {

  datatype Option<T> = None | Some(value: T)

  /** A ring index that may have run past the end once. */
  function Wrap(i: nat, size: nat): (r: nat) { if i >= size then i - size else i }

  ghost predicate Distinct(q: seq<nat>) { forall a, b :: 0 <= a < b < |q| ==> q[a] != q[b] }

  /** Distinct numbers below n are at most n many. */
  lemma {:induction false} Pigeonhole(q: seq<nat>, n: nat)
    requires Distinct(q) && forall k :: 0 <= k < |q| ==> q[k] < n
    ensures |q| <= n
    decreases n
  {
    if |q| > 0 {
      assert n > 0 by { assert q[0] < n; }
      if m :| 0 <= m < |q| && q[m] == n - 1 {
        Pigeonhole(q[..m] + q[m + 1..], n - 1);
      } else {
        Pigeonhole(q, n - 1);
      }
    }
  }
}
