/**
 Whole runs of the SPP lookahead loop (prefetcher/spp_dev2.cc) over an arbitrary pattern table: the
 exact accuracies up to which the loop stays in its arrays, ends, and keeps confidences below 100.
 */
module SppRuns {
  import opened Bits
  import opened SppPattern
  import opened SppLevel
  import opened SppSignature

  /** The state of the do-while loop between passes: the signature, the path confidence, the depth, the
      number of candidates queued so far, the highest confidence queued, and whether it goes on. */
  datatype Look = Look(sig: nat, path: nat, depth: nat, queued: nat, top: nat, again: bool)

  /** A table: the pattern set that each signature reads. */
  type Table = nat -> PatternSet

  ghost predicate Consistent(t: Table) { forall sig :: SetOk(t(sig)) }

  function Max(a: nat, b: nat): nat { if a < b then b else a }

  /** One pass of the loop. `next` extends a signature by a delta. */
  function Pass(t: Table, next: (nat, int) -> nat, accuracy: nat, threshold: nat, l: Look): Look {
    if !l.again then l
    else
      var s := t(l.sig);
      var level := SetLevel(s, l.depth, accuracy, l.path, threshold);
      var (m, way) := Follow(s, l.depth, accuracy, l.path, threshold);
      Look(if way < WAYS then next(l.sig, s.delta[way]) else l.sig,
           m,
           if s.cSig > 0 && m >= threshold then l.depth + 1 else l.depth,
           l.queued + |level|,
           if level == [] then l.top else Max(l.top, m),
           level != [])
  }

  function Start(sig: nat): Look { Look(sig, 100, 0, 0, 0, true) }

  /** The state after n passes from signature sig. */
  function Passes(t: Table, next: (nat, int) -> nat, accuracy: nat, threshold: nat, sig: nat, n: nat): Look {
    if n == 0 then Start(sig) else Pass(t, next, accuracy, threshold, Passes(t, next, accuracy, threshold, sig, n - 1))
  }

  /** Every write of the run is inside the arrays. An untrained set writes one slot past the queue. */
  ghost predicate Fits(t: Table, next: (nat, int) -> nat, accuracy: nat, threshold: nat, sig: nat) {
    forall n: nat :: Within(t, Passes(t, next, accuracy, threshold, sig, n))
  }

  predicate Within(t: Table, l: Look) { l.queued <= QUEUE && (l.again && t(l.sig).cSig == 0 ==> l.queued < QUEUE) }

  ghost predicate Ends(t: Table, next: (nat, int) -> nat, accuracy: nat, threshold: nat, sig: nat) {
    exists n: nat :: !Passes(t, next, accuracy, threshold, sig, n).again
  }

  /** No candidate of the run reaches a confidence of 100. */
  ghost predicate Tame(t: Table, next: (nat, int) -> nat, accuracy: nat, threshold: nat, sig: nat) {
    forall n: nat :: Passes(t, next, accuracy, threshold, sig, n).top < 100
  }

  // ---------------------------------------------------------------------------------------------
  // How far the accuracy carries

  ghost predicate Bounded(l: Look, accuracy: nat) {
    && (l.depth == 0 ==> l.path == 100 || !l.again)
    && (l.depth == 0 && l.again ==> l.queued == 0)
    && (l.depth > 0 && l.again ==> l.path >= 25)
    && l.queued + (if l.again && l.depth > 0 then Left(l.path) else 0) <= 47
    && (accuracy <= 100 ==> 2 * l.queued + (if l.again then l.path else 25) <= 100)
  }

  /** Up to an accuracy of 106 percent a pass keeps what is queued and what the path can still pay for
      within 47; up to 100 percent within 37. */
  lemma PassBounded(t: Table, next: (nat, int) -> nat, accuracy: nat, threshold: nat, l: Look)
    requires Consistent(t) && accuracy <= 106 && threshold >= 25 && Bounded(l, accuracy)
    ensures Bounded(Pass(t, next, accuracy, threshold, l), accuracy)
  {
    if l.again {
      var s := t(l.sig);
      var cap := if l.depth == 0 || accuracy <= 100 then 93 else 98;
      LevelCost(s, l.depth, accuracy, l.path, threshold, cap);
      var m, k := Follow(s, l.depth, accuracy, l.path, threshold).0, |SetLevel(s, l.depth, accuracy, l.path, threshold)|;
      if k > 0 {
        if cap == 93 { PaidTwice(m, k, l.path); }
        if l.depth > 0 { PaidLeft(m, k, l.path); } else { FirstLeft(m, k); }
      }
    }
  }

  lemma FirstLeft(m: nat, k: nat)
    requires Paid(m, k, 100, 93)
    ensures Left(m) + k <= 47
  {
  }

  lemma {:induction false} RunBounded(t: Table, next: (nat, int) -> nat, accuracy: nat, threshold: nat, sig: nat, n: nat)
    requires Consistent(t) && accuracy <= 106 && threshold >= 25
    ensures Bounded(Passes(t, next, accuracy, threshold, sig, n), accuracy)
  {
    if n > 0 {
      RunBounded(t, next, accuracy, threshold, sig, n - 1);
      PassBounded(t, next, accuracy, threshold, Passes(t, next, accuracy, threshold, sig, n - 1));
    }
  }

  /** Up to 106 percent the loop stays in its arrays, whatever the table and the signatures. */
  lemma FitsTo106(t: Table, next: (nat, int) -> nat, accuracy: nat, threshold: nat, sig: nat)
    requires Consistent(t) && accuracy <= 106 && threshold >= 25
    ensures Fits(t, next, accuracy, threshold, sig)
  {
    forall n: nat ensures Within(t, Passes(t, next, accuracy, threshold, sig, n)) {
      RunBounded(t, next, accuracy, threshold, sig, n);
    }
  }

  /** Up to 107 percent the path confidence falls with every pass after the first. */
  lemma {:induction false} RunFalls(t: Table, next: (nat, int) -> nat, accuracy: nat, threshold: nat, sig: nat, n: nat)
    requires Consistent(t) && accuracy <= 107 && threshold >= 25
    ensures var l := Passes(t, next, accuracy, threshold, sig, n);
      && (n == 0 ==> l.depth == 0 && l.path == 100)
      && (n > 0 && l.again ==> l.depth > 0 && 25 <= l.path && l.path + n <= 94)
  {
    if n > 0 {
      RunFalls(t, next, accuracy, threshold, sig, n - 1);
      var l := Passes(t, next, accuracy, threshold, sig, n - 1);
      if l.again {
        var s, cap := t(l.sig), if l.depth == 0 then 93 else 99;
        LevelCost(s, l.depth, accuracy, l.path, threshold, cap);
        var m, k := Follow(s, l.depth, accuracy, l.path, threshold).0, |SetLevel(s, l.depth, accuracy, l.path, threshold)|;
        if k > 0 { FallsOnce(m, k, l.path, cap); }
      }
    }
  }

  lemma FallsOnce(m: nat, k: nat, path: nat, cap: nat)
    requires Paid(m, k, path, cap)
    ensures cap == 93 && path == 100 ==> m <= 93
    ensures cap == 99 ==> m < path
  {
  }

  lemma EndsTo107(t: Table, next: (nat, int) -> nat, accuracy: nat, threshold: nat, sig: nat)
    requires Consistent(t) && accuracy <= 107 && threshold >= 25
    ensures Ends(t, next, accuracy, threshold, sig)
  {
    RunFalls(t, next, accuracy, threshold, sig, 94);
    assert !Passes(t, next, accuracy, threshold, sig, 94).again;
  }

  /** Up to 109 percent no path climbs above 93. */
  lemma {:induction false} RunTame(t: Table, next: (nat, int) -> nat, accuracy: nat, threshold: nat, sig: nat, n: nat)
    requires Consistent(t) && accuracy <= 109 && threshold >= 25
    ensures var l := Passes(t, next, accuracy, threshold, sig, n);
      && l.top <= 93 && (n == 0 ==> l.depth == 0 && l.path == 100)
      && (n > 0 && l.again ==> l.depth > 0 && l.path <= 93)
  {
    if n > 0 {
      RunTame(t, next, accuracy, threshold, sig, n - 1);
      var l := Passes(t, next, accuracy, threshold, sig, n - 1);
      if l.again {
        var s, cap := t(l.sig), if l.depth == 0 then 93 else 101;
        LevelCost(s, l.depth, accuracy, l.path, threshold, cap);
        var m, k := Follow(s, l.depth, accuracy, l.path, threshold).0, |SetLevel(s, l.depth, accuracy, l.path, threshold)|;
        if k > 0 { StaysTame(m, k, l.path, cap); }
      }
    }
  }

  lemma StaysTame(m: nat, k: nat, path: nat, cap: nat)
    requires Paid(m, k, path, cap)
    ensures cap == 93 && path == 100 ==> m <= 93
    ensures cap == 101 && path <= 93 ==> m <= 93
  {
  }

  // ---------------------------------------------------------------------------------------------
  // And no further

  /** One delta seen 14 times out of 15: the most confident set there is. */
  const SURE: PatternSet := RawPatternSet.PatternSet([STEP, 0, 0, 0], [14, 0, 0, 0], 15)

  /** A signature and the delta that leaves it as it is. */
  const FIXED: nat := 1
  const STEP: int := 9

  lemma FixedSignature()
    ensures NewSig(FIXED, STEP) == FIXED && NewSig(0, 1) == FIXED
  {
    assert Join(1, 0, 3) == 8 && Join(0, 0, 3) == 0;
    assert Xor(8, 9) == 1;
    assert Xor(0, 1) == 1;
    assert SigDelta(STEP) == 9;
    LowOfOne(SIG_BIT);
  }

  lemma LowOfOne(n: nat)
    requires n > 0
    ensures Low(1, n) == 1
  {
    HighZero(n - 1);
    LowOfSmall(1, n);
  }

  function Seen(n: nat): PatternSet
    requires n > 0
  {
    RawPatternSet.PatternSet([STEP, 0, 0, 0], [n - 1, 0, 0, 0], n)
  }

  lemma FirstVictim(c: seq<nat>, n: nat)
    requires c == [0, 0, 0, 0] && 1 <= n <= 4
    ensures VictimScan(c, n) == (0, 0)
  {
  }

  lemma NoMatch(delta: seq<int>, d: int)
    requires forall i :: 0 <= i < |delta| ==> delta[i] != d
    ensures Match(delta, d) == |delta|
  {
  }

  lemma FirstSeen(s: PatternSet)
    requires s.cSig == 0 && s.delta == [0, 0, 0, 0] && s.cDelta == [0, 0, 0, 0]
    ensures Update(s, STEP) == Seen(1)
  {
    var d, c := s.delta, s.cDelta;
    NoMatch(d, STEP);
    FirstVictim(c, WAYS);
    var t: PatternSet := RawPatternSet.PatternSet(d[0 := STEP], c[0 := 0], 1);
    assert Update(s, STEP) == t;
    assert t.delta == [STEP, 0, 0, 0];
    assert t.cDelta == [0, 0, 0, 0];
  }

  lemma SeenAgain(n: nat)
    requires 0 < n < 15
    ensures Update(Seen(n), STEP) == Seen(n + 1)
  {
  }

  /** The set is what fifteen times that delta trains an empty set to. */
  lemma {:induction false} SureIsTrained(n: nat)
    requires 1 <= n <= 15
    ensures Train(EMPTY_SET, seq(n, _ => STEP)) == Seen(n)
  {
    var ds := seq(n, _ => STEP);
    assert ds[..n - 1] == seq(n - 1, _ => STEP);
    if n == 1 {
      FirstSeen(EMPTY_SET);
    } else {
      SureIsTrained(n - 1);
      SeenAgain(n - 1);
    }
  }

  lemma SureOk()
    ensures SetOk(SURE) && Train(EMPTY_SET, seq(15, _ => STEP)) == SURE
  {
    SureIsTrained(15);
    TrainedOk(seq(15, _ => STEP));
  }

  ghost function SureTable(): Table { _ => SURE }

  function SurePath(depth: nat, accuracy: nat, path: nat): nat {
    if depth == 0 then 93 else accuracy * 14 / 15 * path / 100
  }

  /** The confidences of that set: one way carries the path, the others nothing. */
  lemma SureLevel(depth: nat, accuracy: nat, path: nat, threshold: nat)
    requires 0 < threshold <= SurePath(depth, accuracy, path) && (depth == 0 ==> path == 100)
    ensures SetLevel(SURE, depth, accuracy, path, threshold) == [Candidate(STEP, SurePath(depth, accuracy, path))]
    ensures Follow(SURE, depth, accuracy, path, threshold) == (SurePath(depth, accuracy, path), 0)
  {
    var conf, c := Confidences(SURE, depth, accuracy, path), SurePath(depth, accuracy, path);
    assert conf == [c, 0, 0, 0];
    assert Level(SURE.delta, conf, threshold, 1) == [Candidate(STEP, c)];
    assert Level(SURE.delta, conf, threshold, 3) == [Candidate(STEP, c)];
    assert Best(conf, threshold, 1) == (c, 0);
    assert Best(conf, threshold, 3) == (c, 0);
  }

  /** One pass that reads such a set at the fixed signature queues one candidate and comes back to the
      signature, as long as the path stays above the threshold. */
  lemma SurePass(t: Table, accuracy: nat, threshold: nat, l: Look)
    requires l.again && l.sig == FIXED && t(FIXED) == SURE && (l.depth == 0 ==> l.path == 100)
    requires 0 < threshold <= SurePath(l.depth, accuracy, l.path)
    ensures var c := SurePath(l.depth, accuracy, l.path);
      Pass(t, NewSig, accuracy, threshold, l) == Look(FIXED, c, l.depth + 1, l.queued + 1, Max(l.top, c), true)
  {
    SureLevel(l.depth, accuracy, l.path, threshold);
    FixedSignature();
  }

  lemma Carried(accuracy: nat, path: nat, low: nat)
    requires path >= low
    ensures accuracy >= 107 && 1 <= low <= 100 ==> accuracy * 14 / 15 * path / 100 >= low - 1
    ensures accuracy >= 108 ==> accuracy * 14 / 15 * path / 100 >= low
    ensures accuracy >= 110 && 50 <= low ==> accuracy * 14 / 15 * path / 100 >= low + 1
  {
    var share := accuracy * 14 / 15;
    MulMonotone(path, low, share);
    if accuracy >= 107 { MulMonotone(share, 99, low); }
    if accuracy >= 108 { MulMonotone(share, 100, low); }
    if accuracy >= 110 { MulMonotone(share, 102, low); }
  }

  /** The confidence such a run is sure to keep after n passes. */
  function Floor(accuracy: nat, n: nat): nat {
    if accuracy >= 110 then (if n <= 8 then 92 + n else 100)
    else if accuracy >= 108 then 93
    else if n <= 94 then 94 - n else 0
  }

  lemma FloorKept(accuracy: nat, path: nat, n: nat)
    requires accuracy >= 107 && n > 1 && path >= Floor(accuracy, n - 1) && Floor(accuracy, n) > 0
    ensures SurePath(n - 1, accuracy, path) >= Floor(accuracy, n)
  {
    Carried(accuracy, path, Floor(accuracy, n - 1));
  }

  /** The run over any table that holds this set at the fixed signature. */
  lemma {:induction false} SureRun(t: Table, accuracy: nat, threshold: nat, n: nat)
    requires t(FIXED) == SURE && accuracy >= 107 && n >= 1 && 0 < threshold <= 45 && threshold <= Floor(accuracy, n)
    ensures var l := Passes(t, NewSig, accuracy, threshold, FIXED, n);
      l.again && l.sig == FIXED && l.depth == n && l.queued == n && l.path >= Floor(accuracy, n) && l.top >= l.path
  {
    var l := Passes(t, NewSig, accuracy, threshold, FIXED, n - 1);
    if n > 1 {
      SureRun(t, accuracy, threshold, n - 1);
      FloorKept(accuracy, l.path, n);
    }
    SurePass(t, accuracy, threshold, l);
  }

  /** Above 106 percent it leaves the arrays, above 107 percent it does not end. */
  lemma SureFails(t: Table, accuracy: nat, threshold: nat)
    requires t(FIXED) == SURE && accuracy >= 107 && 0 < threshold <= 45
    ensures !Fits(t, NewSig, accuracy, threshold, FIXED)
    ensures accuracy >= 108 ==> !Ends(t, NewSig, accuracy, threshold, FIXED)
    ensures accuracy >= 110 ==> !Tame(t, NewSig, accuracy, threshold, FIXED)
  {
    SureRun(t, accuracy, threshold, 49);
    assert !Within(t, Passes(t, NewSig, accuracy, threshold, FIXED, 49));
    if accuracy >= 108 {
      forall n: nat ensures Passes(t, NewSig, accuracy, threshold, FIXED, n).again {
        if n > 0 { SureRun(t, accuracy, threshold, n); }
      }
    }
    if accuracy >= 110 {
      SureRun(t, accuracy, threshold, 8);
      assert Passes(t, NewSig, accuracy, threshold, FIXED, 8).top >= 100;
    }
  }

  lemma SureConsistent()
    ensures Consistent(SureTable())
  {
    SureOk();
  }

  /** The loop stays in its 48-slot arrays over every consistent table and from every signature, with
      the signature function of the source, exactly up to an accuracy of 106 percent; for the default
      threshold of 25, the configured 40, and all up to 45. */
  lemma FitsIff(accuracy: nat, threshold: nat)
    requires 25 <= threshold <= 45
    ensures (forall t: Table, sig: nat :: Consistent(t) ==> Fits(t, NewSig, accuracy, threshold, sig)) <==> accuracy <= 106
  {
    if accuracy <= 106 {
      forall t: Table, sig: nat | Consistent(t) ensures Fits(t, NewSig, accuracy, threshold, sig) {
        FitsTo106(t, NewSig, accuracy, threshold, sig);
      }
    } else {
      SureConsistent();
      SureFails(SureTable(), accuracy, threshold);
    }
  }

  /** It ends over every table exactly up to 107 percent. */
  lemma EndsIff(accuracy: nat, threshold: nat)
    requires 25 <= threshold <= 45
    ensures (forall t: Table, sig: nat :: Consistent(t) ==> Ends(t, NewSig, accuracy, threshold, sig)) <==> accuracy <= 107
  {
    if accuracy <= 107 {
      forall t: Table, sig: nat | Consistent(t) ensures Ends(t, NewSig, accuracy, threshold, sig) {
        EndsTo107(t, NewSig, accuracy, threshold, sig);
      }
    } else {
      SureConsistent();
      SureFails(SureTable(), accuracy, threshold);
    }
  }

  /** No candidate reaches a confidence of 100 exactly up to 109 percent. */
  lemma TameIff(accuracy: nat, threshold: nat)
    requires 25 <= threshold <= 45
    ensures (forall t: Table, sig: nat :: Consistent(t) ==> Tame(t, NewSig, accuracy, threshold, sig)) <==> accuracy <= 109
  {
    if accuracy <= 109 {
      forall t: Table, sig: nat | Consistent(t) ensures Tame(t, NewSig, accuracy, threshold, sig) {
        forall n: nat ensures Passes(t, NewSig, accuracy, threshold, sig, n).top < 100 {
          RunTame(t, NewSig, accuracy, threshold, sig, n);
        }
      }
    } else {
      SureConsistent();
      SureFails(SureTable(), accuracy, threshold);
    }
  }

  /** At an accuracy of 107 percent that run queues 69 candidates before it ends. */
  lemma SixtyNineAt107()
    ensures var l := Passes(SureTable(), NewSig, 107, 25, FIXED, 69); l.queued == 69 > QUEUE
  {
    SureRun(SureTable(), 107, 25, 69);
  }
}
