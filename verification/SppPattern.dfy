/**
 One set of the SPP pattern table (prefetcher/spp_dev2_helper.cc): four deltas with their counters
 and the counter of the signature, all saturating by halving, and the confidences read from it.
 */
module SppPattern {

  const WAYS: nat := 4
  const C_SIG_MAX: nat := 15

  datatype RawPatternSet = PatternSet(delta: seq<int>, cDelta: seq<nat>, cSig: nat)
  type PatternSet = s: RawPatternSet | |s.delta| == |s.cDelta| == WAYS witness EMPTY_SET

  const EMPTY_SET: RawPatternSet := RawPatternSet.PatternSet([0, 0, 0, 0], [0, 0, 0, 0], 0)

  function Sum(c: seq<nat>): nat { if c == [] then 0 else Sum(c[..|c| - 1]) + c[|c| - 1] }

  function Halve(c: seq<nat>): (r: seq<nat>)
    ensures |r| == |c|
  {
    seq<nat>(|c|, i requires 0 <= i < |c| => c[i] / 2)
  }

  /** The first way holding delta d, or their number. */
  function Match(delta: seq<int>, d: int): (r: nat)
    ensures r <= |delta| && (r < |delta| ==> delta[r] == d) && forall i :: 0 <= i < r ==> delta[i] != d
  {
    if delta == [] then 0
    else if delta[0] == d then 0
    else
      var r := 1 + Match(delta[1..], d);
      assert forall i :: 1 <= i < r ==> delta[i] == delta[1..][i - 1];
      r
  }

  /** The victim scan over the first n ways: least counter below C_SIG_MAX, first one on a tie. */
  function VictimScan(c: seq<nat>, n: nat): (nat, nat)
    requires n <= |c|
  {
    if n == 0 then (C_SIG_MAX, |c|)
    else
      var best := VictimScan(c, n - 1);
      if c[n - 1] < best.0 then (c[n - 1], n - 1) else best
  }

  function Victim(s: PatternSet): nat { VictimScan(s.cDelta, WAYS).1 }

  /** Halve every counter once the signature counter overflows. */
  function Saturated(s: PatternSet): PatternSet {
    if s.cSig > C_SIG_MAX then s.(cDelta := Halve(s.cDelta), cSig := s.cSig / 2) else s
  }

  function Update(s: PatternSet, d: int): PatternSet {
    var way := Match(s.delta, d);
    if way < WAYS then Saturated(s.(cDelta := s.cDelta[way := s.cDelta[way] + 1], cSig := s.cSig + 1))
    else
      var v := Victim(s);
      if v < WAYS then Saturated(s.(delta := s.delta[v := d], cDelta := s.cDelta[v := 0], cSig := s.cSig + 1)) else s
  }

  /** A trained signature counts strictly more often than its deltas together. */
  ghost predicate Strict(s: PatternSet) {
    s.cSig <= C_SIG_MAX && (if s.cSig == 0 then Sum(s.cDelta) == 0 else Sum(s.cDelta) < s.cSig)
  }

  ghost predicate DistinctDeltas(s: PatternSet) {
    forall i, j :: 0 <= i < j < WAYS && s.delta[i] != 0 ==> s.delta[i] != s.delta[j]
  }

  /** An untrained set holds no delta. */
  ghost predicate SetOk(s: PatternSet) {
    Strict(s) && DistinctDeltas(s) && (s.cSig == 0 ==> forall i :: 0 <= i < WAYS ==> s.delta[i] == 0)
  }

  // ---------------------------------------------------------------------------------------------

  lemma {:induction false} SumUpdate(c: seq<nat>, i: nat, v: nat)
    requires i < |c|
    ensures Sum(c[i := v]) == Sum(c) - c[i] + v
  {
    var n := |c| - 1;
    if i < n {
      SumUpdate(c[..n], i, v);
      assert c[i := v][..n] == c[..n][i := v];
    } else {
      assert c[i := v][..n] == c[..n];
    }
  }

  lemma {:induction false} SumZero(c: seq<nat>)
    requires forall i :: 0 <= i < |c| ==> c[i] == 0
    ensures Sum(c) == 0
  {
    if c != [] { SumZero(c[..|c| - 1]); }
  }

  lemma {:induction false} SumMember(c: seq<nat>, i: nat)
    requires i < |c|
    ensures c[i] <= Sum(c)
  {
    if i < |c| - 1 { SumMember(c[..|c| - 1], i); }
  }

  lemma {:induction false} SumHalve(c: seq<nat>)
    ensures 2 * Sum(Halve(c)) <= Sum(c)
  {
    if c != [] {
      SumHalve(c[..|c| - 1]);
      assert Halve(c)[..|c| - 1] == Halve(c[..|c| - 1]);
    }
  }

  lemma SaturatedStrict(s: PatternSet)
    requires 0 < s.cSig <= C_SIG_MAX + 1 && Sum(s.cDelta) < s.cSig
    ensures Strict(Saturated(s)) && Saturated(s).delta == s.delta && Saturated(s).cSig > 0
  {
    SumHalve(s.cDelta);
  }

  lemma {:induction false} VictimMeaning(c: seq<nat>, n: nat)
    requires n <= |c|
    ensures var (least, v) := VictimScan(c, n);
      && v <= |c| && least <= C_SIG_MAX
      && (v < |c| ==> v < n && c[v] == least < C_SIG_MAX)
      && (v == |c| <==> least == C_SIG_MAX)
      && (forall i :: 0 <= i < n ==> least <= c[i] || c[i] >= C_SIG_MAX)
      && forall i :: 0 <= i < v < |c| ==> least < c[i]
  {
    if n > 0 { VictimMeaning(c, n - 1); }
  }

  /** The replacement assertion cannot fire: there is a victim, and it is the first with the least counter. */
  lemma VictimExists(s: PatternSet)
    requires Strict(s)
    ensures Victim(s) < WAYS && forall i :: 0 <= i < WAYS ==> s.cDelta[Victim(s)] <= s.cDelta[i]
    ensures forall i :: 0 <= i < Victim(s) ==> s.cDelta[Victim(s)] < s.cDelta[i]
  {
    VictimMeaning(s.cDelta, WAYS);
    forall i | 0 <= i < WAYS ensures s.cDelta[i] < C_SIG_MAX { SumMember(s.cDelta, i); }
    assert s.cDelta[0] < C_SIG_MAX;
  }

  /** Training keeps a set consistent exactly when it does not start with the delta 0, which an
      untrained set already seems to hold. */
  lemma UpdateKeeps(s: PatternSet, d: int)
    requires SetOk(s)
    ensures SetOk(Update(s, d)) <==> !(s.cSig == 0 && d == 0)
    ensures Update(s, d).cSig > 0
  {
    var way := Match(s.delta, d);
    assert s.cSig == 0 ==> s.delta[0] == 0;
    if way < WAYS {
      var t := s.(cDelta := s.cDelta[way := s.cDelta[way] + 1], cSig := s.cSig + 1);
      SumUpdate(s.cDelta, way, s.cDelta[way] + 1);
      if s.cSig > 0 { SaturatedStrict(t); }
    } else {
      var v := Victim(s);
      VictimExists(s);
      var t := s.(delta := s.delta[v := d], cDelta := s.cDelta[v := 0], cSig := s.cSig + 1);
      SumUpdate(s.cDelta, v, 0);
      SaturatedStrict(t);
    }
  }

  /** Training an empty set with delta 0 breaks strictness. */
  lemma ZeroDeltaBreaksStrictness()
    ensures !Strict(Update(EMPTY_SET, 0))
  {
    var s: PatternSet := EMPTY_SET;
    assert Match(s.delta, 0) == 0;
    assert Update(s, 0).cDelta == [1, 0, 0, 0];
    SumMember([1, 0, 0, 0], 0);
  }

  /** Any sequence of nonzero deltas. */
  function Train(s: PatternSet, ds: seq<int>): PatternSet {
    if ds == [] then s else Update(Train(s, ds[..|ds| - 1]), ds[|ds| - 1])
  }

  lemma {:induction false} TrainedOk(ds: seq<int>)
    requires forall i :: 0 <= i < |ds| ==> ds[i] != 0
    ensures SetOk(Train(EMPTY_SET, ds))
  {
    if ds == [] {
      SumZero(EMPTY_SET.cDelta);
    } else {
      TrainedOk(ds[..|ds| - 1]);
      UpdateKeeps(Train(EMPTY_SET, ds[..|ds| - 1]), ds[|ds| - 1]);
    }
  }

  // ---------------------------------------------------------------------------------------------
  // Confidences

  /** The confidence of one way: local at depth 0, damped by accuracy and path beyond. */
  function Confidence(s: PatternSet, way: nat, depth: nat, accuracy: nat, path: nat): nat
    requires way < WAYS && s.cSig > 0
  {
    if depth == 0 then 100 * s.cDelta[way] / s.cSig
    else accuracy * s.cDelta[way] / s.cSig * path / 100
  }

  /** The confidences of all ways. */
  function Confidences(s: PatternSet, depth: nat, accuracy: nat, path: nat): (r: seq<nat>)
    requires s.cSig > 0
    ensures |r| == WAYS
  {
    seq<nat>(WAYS, i requires 0 <= i < WAYS => Confidence(s, i, depth, accuracy, path))
  }

  /** The shares accuracy * cDelta / cSig of all ways. */
  function Shares(s: PatternSet, accuracy: nat): (r: seq<nat>)
    requires s.cSig > 0
    ensures |r| == WAYS
  {
    seq<nat>(WAYS, i requires 0 <= i < WAYS => accuracy * s.cDelta[i] / s.cSig)
  }

  lemma ScaledShare(c: nat, cSig: nat, accuracy: nat)
    requires cSig > 0
    ensures accuracy * c / cSig * cSig <= c * accuracy
  {
  }

  lemma Distribute(a: nat, b: nat, n: nat)
    ensures (a + b) * n == a * n + b * n
  {
  }

  /** A bound on each weighted element is a bound on the weighted sums. */
  lemma {:induction false} WeightedSum(x: seq<nat>, n: nat, y: seq<nat>, m: nat)
    requires |x| == |y| && forall i :: 0 <= i < |x| ==> x[i] * n <= y[i] * m
    ensures Sum(x) * n <= Sum(y) * m
  {
    if x != [] {
      var k := |x| - 1;
      WeightedSum(x[..k], n, y[..k], m);
      assert x[k] * n <= y[k] * m;
      Distribute(Sum(x[..k]), x[k], n);
      Distribute(Sum(y[..k]), y[k], m);
    }
  }

  lemma MulMonotone(x: nat, y: nat, n: nat)
    requires x >= y
    ensures x * n >= y * n
  {
  }

  lemma Fifteenths(total: nat, cSig: nat, accuracy: nat)
    requires 0 < cSig <= C_SIG_MAX && total * cSig <= (cSig - 1) * accuracy
    ensures 15 * total <= 14 * accuracy
  {
  }

  /** The shares of a strict set add up to at most fourteen fifteenths of the accuracy. */
  lemma SharesBound(s: PatternSet, accuracy: nat)
    requires Strict(s) && s.cSig > 0
    ensures 15 * Sum(Shares(s, accuracy)) <= 14 * accuracy
  {
    var x := Shares(s, accuracy);
    forall i | 0 <= i < WAYS ensures x[i] * s.cSig <= s.cDelta[i] * accuracy {
      ScaledShare(s.cDelta[i], s.cSig, accuracy);
    }
    WeightedSum(x, s.cSig, s.cDelta, accuracy);
    MulMonotone(s.cSig - 1, Sum(s.cDelta), accuracy);
    Fifteenths(Sum(x), s.cSig, accuracy);
  }

  /** The accuracy that counts at a depth: at depth 0 confidences are local. */
  function Damping(depth: nat, accuracy: nat): nat { if depth == 0 then 100 else accuracy }

  lemma DampedShare(s: PatternSet, i: nat, depth: nat, accuracy: nat, path: nat)
    requires i < WAYS && s.cSig > 0 && (depth == 0 ==> path == 100)
    ensures Confidence(s, i, depth, accuracy, path) * 100 <= Shares(s, Damping(depth, accuracy))[i] * path
  {
  }

  /** Confidences on a path add up to at most that share of it which the accuracy allows: `cap` percent
      when fourteen fifteenths of the accuracy are below cap + 1. */
  lemma ConfidencesAtMost(s: PatternSet, depth: nat, accuracy: nat, path: nat, cap: nat)
    requires Strict(s) && s.cSig > 0 && (depth == 0 ==> path == 100)
    requires 14 * Damping(depth, accuracy) < 15 * (cap + 1)
    ensures 100 * Sum(Confidences(s, depth, accuracy, path)) <= cap * path
  {
    var share := Damping(depth, accuracy);
    var x, y := Confidences(s, depth, accuracy, path), Shares(s, share);
    SharesBound(s, share);
    forall i | 0 <= i < WAYS ensures x[i] * 100 <= y[i] * path {
      DampedShare(s, i, depth, accuracy, path);
    }
    WeightedSum(x, 100, y, path);
    MulMonotone(cap, Sum(y), path);
  }

  /** At depth 0 the confidences add up to at most 93. */
  lemma LocalConfidencesAtMost93(s: PatternSet, accuracy: nat)
    requires Strict(s) && s.cSig > 0
    ensures Sum(Confidences(s, 0, accuracy, 100)) <= 93
  {
    ConfidencesAtMost(s, 0, accuracy, 100, 93);
  }
}
