/**
 One level of the SPP lookahead (read_pattern in prefetcher/spp_dev2_helper.cc): which ways of a set
 reach the threshold, which of them the path follows, and what a level costs the path.
 */
module SppLevel {
  import opened SppPattern

  const QUEUE: nat := 48            // L2C_MSHR_SIZE

  /** One candidate: its delta and its confidence. */
  datatype Candidate = Candidate(delta: int, confidence: nat)

  /** The candidates the ways below n contribute to the queue, in scan order. */
  function Level(delta: seq<int>, conf: seq<nat>, threshold: nat, n: nat): (r: seq<Candidate>)
    requires n <= |delta| == |conf|
    ensures |r| <= n
  {
    if n == 0 then []
    else
      var rest := Level(delta, conf, threshold, n - 1);
      if conf[n - 1] >= threshold then rest + [Candidate(delta[n - 1], conf[n - 1])] else rest
  }

  /** The confidence of the best pushed way, 0 if none, and that way. */
  function Best(conf: seq<nat>, threshold: nat, n: nat): (r: (nat, nat))
    requires n <= |conf|
    ensures r.0 == 0 ==> r.1 == |conf|
    ensures r.0 > 0 ==> r.1 < n && conf[r.1] == r.0 >= threshold
  {
    if n == 0 then (0, |conf|)
    else
      var b := Best(conf, threshold, n - 1);
      if conf[n - 1] >= threshold && conf[n - 1] > b.0 then (conf[n - 1], n - 1) else b
  }

  /** What set s contributes to the queue at this level. */
  function SetLevel(s: PatternSet, depth: nat, accuracy: nat, path: nat, threshold: nat): seq<Candidate> {
    if s.cSig == 0 then [] else Level(s.delta, Confidences(s, depth, accuracy, path), threshold, WAYS)
  }

  /** The path confidence after this level, and the way it follows; an untrained set changes nothing. */
  function Follow(s: PatternSet, depth: nat, accuracy: nat, path: nat, threshold: nat): (r: (nat, nat))
    ensures r.1 <= WAYS
  {
    if s.cSig == 0 then (path, WAYS) else Best(Confidences(s, depth, accuracy, path), threshold, WAYS)
  }

  /** The queue gets exactly the ways whose confidence reaches the threshold, each with its own delta. */
  lemma {:induction false} LevelIff(delta: seq<int>, conf: seq<nat>, threshold: nat, n: nat, q: Candidate)
    requires n <= |delta| == |conf|
    ensures q in Level(delta, conf, threshold, n) <==>
      exists way :: 0 <= way < n && delta[way] == q.delta && conf[way] == q.confidence >= threshold
  {
    if n > 0 {
      LevelIff(delta, conf, threshold, n - 1, q);
      assert q == Candidate(q.delta, q.confidence);
    }
  }

  /** The first of the most confident candidates. */
  ghost predicate FirstBest(level: seq<Candidate>, k: nat) {
    && k < |level| && (forall j :: 0 <= j < |level| ==> level[j].confidence <= level[k].confidence)
    && forall j :: 0 <= j < k ==> level[j].confidence < level[k].confidence
  }

  lemma FirstBestUnique(level: seq<Candidate>, j: nat, k: nat)
    requires FirstBest(level, j) && FirstBest(level, k)
    ensures j == k
  {
    assert level[j].confidence == level[k].confidence;
  }

  /** The way that is followed is the first of the most confident candidates, if those have any confidence. */
  lemma {:induction false} FollowsFirstBest(delta: seq<int>, conf: seq<nat>, threshold: nat, n: nat) returns (k: nat)
    requires n <= |delta| == |conf|
    ensures var level, (most, way) := Level(delta, conf, threshold, n), Best(conf, threshold, n);
      if way < |conf| then FirstBest(level, k) && level[k] == Candidate(delta[way], conf[way])
      else forall j :: 0 <= j < |level| ==> level[j].confidence == 0
  {
    if n == 0 {
      k := 0;
    } else {
      k := FollowsFirstBest(delta, conf, threshold, n - 1);
      var b := Best(conf, threshold, n - 1);
      LevelRange(delta, conf, threshold, n - 1);
      if conf[n - 1] >= threshold && conf[n - 1] > b.0 { k := |Level(delta, conf, threshold, n - 1)|; }
    }
  }

  ghost predicate InRange(level: seq<Candidate>, least: nat, most: nat) {
    forall k :: 0 <= k < |level| ==> least <= level[k].confidence <= most
  }

  lemma {:induction false} LevelRange(delta: seq<int>, conf: seq<nat>, threshold: nat, n: nat)
    requires n <= |delta| == |conf|
    ensures InRange(Level(delta, conf, threshold, n), threshold, Best(conf, threshold, n).0)
  {
    if n > 0 { LevelRange(delta, conf, threshold, n - 1); }
  }

  lemma {:induction false} LevelMonotone(delta: seq<int>, conf: seq<nat>, threshold: nat, n: nat, m: nat)
    requires n <= m <= |delta| == |conf|
    ensures |Level(delta, conf, threshold, n)| <= |Level(delta, conf, threshold, m)|
  {
    if n < m { LevelMonotone(delta, conf, threshold, n, m - 1); }
  }

  /** The pushed confidences add up to the best one and at least the threshold for each other. */
  lemma {:induction false} PushedSum(delta: seq<int>, conf: seq<nat>, threshold: nat, n: nat)
    requires n <= |delta| == |conf| && threshold >= 25
    ensures var k, m := |Level(delta, conf, threshold, n)|, Best(conf, threshold, n).0;
      && (k == 0 <==> m == 0)
      && (k > 0 ==> m >= threshold && Sum(conf[..n]) >= m + 25 * (k - 1))
  {
    if n > 0 {
      PushedSum(delta, conf, threshold, n - 1);
      assert conf[..n][..n - 1] == conf[..n - 1];
    }
  }

  // ---------------------------------------------------------------------------------------------
  // What a level costs

  /** How many more candidates a path of confidence p can pay for up to an accuracy of 106 percent: one
      point each below 50, two points each above. */
  function Left(p: nat): nat { if p <= 25 then 0 else if p <= 50 then p - 25 else p / 2 }

  /** A level that queues k candidates with best confidence m, all within `cap` percent of the path. */
  predicate Paid(m: nat, k: nat, path: nat, cap: nat) { 25 <= m && 0 < k && 100 * (m + 25 * (k - 1)) <= cap * path }

  lemma PaidLeft(m: nat, k: nat, path: nat)
    requires Paid(m, k, path, 98)
    ensures Left(m) + k <= Left(path)
  {
  }

  lemma PaidTwice(m: nat, k: nat, path: nat)
    requires Paid(m, k, path, 93)
    ensures m + 2 * k <= path
  {
  }

  /** What a level of a strict set costs, for every accuracy: at the first level what is left pays for at
      most 47 candidates; beyond it, the accuracy decides. */
  lemma LevelCost(s: PatternSet, depth: nat, accuracy: nat, path: nat, threshold: nat, cap: nat)
    requires Strict(s) && threshold >= 25 && (depth == 0 ==> path == 100)
    requires 14 * Damping(depth, accuracy) < 15 * (cap + 1)
    ensures var level := SetLevel(s, depth, accuracy, path, threshold);
      var m := Follow(s, depth, accuracy, path, threshold).0;
      && InRange(level, threshold, m)
      && (s.cSig > 0 && level == [] ==> m == 0)
      && (level != [] ==> threshold <= m && Paid(m, |level|, path, cap))
  {
    if s.cSig > 0 {
      var conf := Confidences(s, depth, accuracy, path);
      LevelRange(s.delta, conf, threshold, WAYS);
      PushedSum(s.delta, conf, threshold, WAYS);
      ConfidencesAtMost(s, depth, accuracy, path, cap);
      assert conf[..WAYS] == conf;
    }
  }
}
