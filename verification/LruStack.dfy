/**
 Least-recently-used ranks kept as a permutation and updated in place, as in lru_update and
 lru_victim (replacement/base_replacement.cc) and in the SPP signature table
 (prefetcher/spp_dev2_helper.cc). Rank 0 is the most recent way.
 */
module LruStack {

  ghost predicate IsStack(r: seq<nat>) {
    && (forall i :: 0 <= i < |r| ==> r[i] < |r|)
    && (forall i, j :: 0 <= i < j < |r| ==> r[i] != r[j])
  }

  function Initial(n: nat): (r: seq<nat>)
    ensures |r| == n && forall i :: 0 <= i < n ==> r[i] == i
  {
    seq<nat>(n, i => i)
  }

  /** lru_update: everything more recent than `way` ages by one, `way` becomes the most recent. */
  function Promote(r: seq<nat>, way: nat): (t: seq<nat>)
    requires way < |r|
    ensures |t| == |r|
  {
    seq<nat>(|r|, i requires 0 <= i < |r| => if i == way then 0 else if r[i] < r[way] then r[i] + 1 else r[i])
  }

  lemma PromoteKeeps(r: seq<nat>, way: nat)
    requires IsStack(r) && way < |r|
    ensures IsStack(Promote(r, way))
  {
  }

  /** Promotion is move-to-front: `way` comes first and all others keep their order. */
  lemma PromoteIsMoveToFront(r: seq<nat>, way: nat, a: nat, b: nat)
    requires IsStack(r) && way < |r| && a < |r| && b < |r| && a != b
    ensures Promote(r, way)[a] < Promote(r, way)[b] <==> (a == way || (b != way && r[a] < r[b]))
  {
  }

  lemma {:induction false} RankBelow(r: seq<nat>, n: nat)
    requires (forall i, j :: 0 <= i < j < |r| ==> r[i] != r[j]) && |r| > n
    ensures exists i :: 0 <= i < |r| && r[i] >= n
    decreases n
  {
    if n == 0 {
      assert r[0] >= 0;
    } else if k :| 0 <= k < |r| && r[k] == n - 1 {
      var s := r[..k] + r[k + 1..];
      RankBelow(s, n - 1);
      var i :| 0 <= i < |s| && s[i] >= n - 1;
      assert r[if i < k then i else i + 1] >= n;
    } else {
      RankBelow(r, n - 1);
    }
  }

  /** A full stack always has a way of the last rank, so a victim is always found. */
  lemma VictimExists(r: seq<nat>)
    requires IsStack(r) && |r| > 0
    ensures exists i :: 0 <= i < |r| && r[i] == |r| - 1
  {
    RankBelow(r, |r| - 1);
  }

  // ---------------------------------------------------------------------------------------------
  // Ranks are recency

  function After(n: nat, touches: seq<nat>): (r: seq<nat>)
    requires forall k :: 0 <= k < |touches| ==> touches[k] < n
    ensures |r| == n
  {
    if touches == [] then Initial(n) else Promote(After(n, touches[..|touches| - 1]), touches[|touches| - 1])
  }

  /** The last time a way was touched; untouched ways rank by index, all before any touch. */
  function Recency(touches: seq<nat>, way: nat): int {
    if touches == [] then -1 - way
    else if touches[|touches| - 1] == way then |touches| - 1
    else Recency(touches[..|touches| - 1], way)
  }

  lemma {:induction false} RecencyBound(touches: seq<nat>, way: nat)
    ensures Recency(touches, way) < |touches|
  {
    if touches != [] { RecencyBound(touches[..|touches| - 1], way); }
  }

  /** After any history of touches the ranks order the ways by recency. */
  lemma {:induction false} RankIsRecency(n: nat, touches: seq<nat>, a: nat, b: nat)
    requires forall k :: 0 <= k < |touches| ==> touches[k] < n
    requires a < n && b < n && a != b
    ensures IsStack(After(n, touches))
    ensures After(n, touches)[a] < After(n, touches)[b] <==> Recency(touches, a) > Recency(touches, b)
  {
    if touches != [] {
      var rest, way := touches[..|touches| - 1], touches[|touches| - 1];
      RankIsRecency(n, rest, a, b);
      PromoteKeeps(After(n, rest), way);
      PromoteIsMoveToFront(After(n, rest), way, a, b);
      RecencyBound(rest, a);
      RecencyBound(rest, b);
    }
  }

  /** The way of the last rank is the least recently touched one. */
  lemma VictimIsLeastRecent(n: nat, touches: seq<nat>, v: nat, a: nat)
    requires forall k :: 0 <= k < |touches| ==> touches[k] < n
    requires v < n && a < n && a != v && After(n, touches)[v] == n - 1
    ensures Recency(touches, v) < Recency(touches, a)
  {
    RankIsRecency(n, touches, a, v);
  }

  // ---------------------------------------------------------------------------------------------
  // In place

  /** The update loop, on an array of ranks. */
  method LruUpdate(lru: array<nat>, way: nat)
    requires way < lru.Length && IsStack(lru[..])
    modifies lru
    ensures lru[..] == Promote(old(lru[..]), way) && IsStack(lru[..])
  {
    ghost var r := lru[..];
    PromoteKeeps(r, way);
    for i := 0 to lru.Length
      invariant forall k :: 0 <= k < lru.Length ==>
        lru[k] == if k < i && r[k] < r[way] then r[k] + 1 else r[k]
    {
      if lru[i] < lru[way] { lru[i] := lru[i] + 1; }
    }
    lru[way] := 0;
    assert lru[..] == Promote(r, way);
  }

  /** lru_victim: the first invalid way, else the way of the last rank. */
  method LruVictim(valid: seq<bool>, lru: seq<nat>) returns (way: nat)
    requires |valid| == |lru| > 0 && IsStack(lru)
    ensures way < |lru|
    ensures !valid[way] ==> forall k :: 0 <= k < way ==> valid[k]
    ensures valid[way] ==> (forall k :: 0 <= k < |valid| ==> valid[k]) && lru[way] == |lru| - 1
  {
    way := 0;
    while way < |valid|
      invariant way <= |valid| && forall k :: 0 <= k < way ==> valid[k]
    {
      if !valid[way] { return; }
      way := way + 1;
    }
    VictimExists(lru);
    way := 0;
    while lru[way] != |lru| - 1
      invariant way < |lru| && exists i :: way <= i < |lru| && lru[i] == |lru| - 1
      decreases |lru| - way
    {
      way := way + 1;
    }
  }
}
