/**
 The SPP prefetcher as it runs (prefetcher/spp_dev2.cc): its tables, and the lookahead loop that queues
 candidates in two arrays of 48 slots. An access is the function of `SppWalk`, at every accuracy for
 which `SppRuns` shows that the loop stays in its arrays.
 */
module SppLookahead {
  import opened SppPattern
  import opened SppFilter
  import opened SppLevel
  import opened SppSignature
  import opened SppRuns
  import opened SppTables
  import opened SppWalk

  /** The two queue arrays start with the candidates q. */
  ghost predicate Holds(deltaQ: array<int>, confidenceQ: array<nat>, q: seq<Candidate>)
    reads deltaQ, confidenceQ
  {
    && |q| <= deltaQ.Length == confidenceQ.Length
    && forall i :: 0 <= i < |q| ==> deltaQ[i] == q[i].delta && confidenceQ[i] == q[i].confidence
  }

  /** The confidences read_pattern computes for the ways of one trained set. */
  method WayConfidences(pt: PatternTable, i: nat, depth: nat, accuracy: nat, path: nat) returns (conf: seq<nat>)
    requires pt.Shape() && i < pt.sets && pt.cSig[i] > 0
    ensures conf == Confidences(pt.At(i), depth, accuracy, path)
  {
    conf := [];
    for w := 0 to WAYS
      invariant |conf| == w && conf == Confidences(pt.At(i), depth, accuracy, path)[..w]
    {
      assert pt.At(i).cDelta[w] == pt.cDelta[i, w];
      var local := 100 * pt.cDelta[i, w] / pt.cSig[i];
      var c := if depth == 0 then local else accuracy * pt.cDelta[i, w] / pt.cSig[i] * path / 100;
      conf := conf + [c];
    }
  }

  /** Queue every way that reaches the threshold and remember the most confident one. */
  method QueueConfident(delta: seq<int>, conf: seq<nat>, threshold: nat, deltaQ: array<int>, confidenceQ: array<nat>,
                        tail: nat, ghost q: seq<Candidate>)
    returns (way: nat, best: nat, tail': nat)
    requires |delta| == |conf| && deltaQ.Length == confidenceQ.Length == QUEUE && |q| == tail && Holds(deltaQ, confidenceQ, q)
    requires tail + |Level(delta, conf, threshold, |conf|)| < QUEUE
    modifies deltaQ, confidenceQ
    ensures tail' == tail + |Level(delta, conf, threshold, |conf|)| && (best, way) == Best(conf, threshold, |conf|)
    ensures Holds(deltaQ, confidenceQ, q + Level(delta, conf, threshold, |conf|))
  {
    way, best, tail' := |conf|, 0, tail;
    for w := 0 to |conf|
      invariant (best, way) == Best(conf, threshold, w)
      invariant tail' == tail + |Level(delta, conf, threshold, w)| < QUEUE
      invariant Holds(deltaQ, confidenceQ, q + Level(delta, conf, threshold, w))
    {
      LevelMonotone(delta, conf, threshold, w + 1, |conf|);
      if conf[w] >= threshold {
        confidenceQ[tail'] := conf[w];
        deltaQ[tail'] := delta[w];
        if conf[w] > best { way, best := w, conf[w]; }
        tail' := tail' + 1;
      }
    }
  }

  /** read_pattern: queue the confident ways of set i and follow the best one. */
  method ReadPattern(pt: PatternTable, i: nat, depth: nat, accuracy: nat, path: nat, threshold: nat,
                     deltaQ: array<int>, confidenceQ: array<nat>, tail: nat, ghost q: seq<Candidate>)
    returns (way: nat, path': nat, tail': nat, depth': nat)
    requires pt.Shape() && i < pt.sets && deltaQ.Length == confidenceQ.Length == QUEUE && confidenceQ != pt.cSig
    requires |q| == tail && Holds(deltaQ, confidenceQ, q)
    requires tail + |SetLevel(pt.At(i), depth, accuracy, path, threshold)| < QUEUE
    modifies deltaQ, confidenceQ
    ensures var s, level := pt.At(i), SetLevel(pt.At(i), depth, accuracy, path, threshold);
      && tail' == tail + |level|
      && Holds(deltaQ, confidenceQ, q + level)
      && (path', way) == Follow(s, depth, accuracy, path, threshold)
      && depth' == if s.cSig > 0 && path' >= threshold then depth + 1 else depth
  {
    way, path', tail', depth' := WAYS, path, tail, depth;
    if pt.cSig[i] > 0 {
      var conf := WayConfidences(pt, i, depth, accuracy, path);
      way, path', tail' := QueueConfident(pt.At(i).delta, conf, threshold, deltaQ, confidenceQ, tail, q);
      if path' >= threshold { depth' := depth + 1; }
    } else {
      confidenceQ[tail] := 0;
      assert q + [] == q;
    }
  }

  // ---------------------------------------------------------------------------------------------
  // The loop

  /** The loop variables are the state l of the run. */
  ghost predicate InState(l: Look, sig: nat, path: nat, depth: nat, tail: nat, again: bool) {
    l.sig == sig && l.path == path && l.depth == depth && l.queued == tail && l.again == again
  }

  lemma QueuedAt(q: seq<Candidate>, level: seq<Candidate>, k: nat)
    requires k < |level|
    ensures (q + level)[|q| + k] == level[k] == level[..k + 1][k] && level[..k + 1][..k] == level[..k]
  {
  }

  class SppDev2 {
    const st: SignatureTable
    const pt: PatternTable
    const ghr: GlobalRegister
    const filter: PrefetchFilter
    const c: Setup

    ghost predicate Linked()
      reads this, st, pt, ghr, filter
    {
      && c.threshold >= 25 && (forall sig :: c.setOf(sig) < pt.sets)
      && filter.tag != pt.cSig && filter.tag != st.lru && st.lru != pt.cSig
      && ghr.Valid() && filter.Shape() && pt.Shape()
    }

    ghost predicate Valid()
      reads this, st, st.lines, st.lru, pt, pt.delta, pt.cDelta, pt.cSig, ghr, ghr.entry, filter, filter.valid, filter.useful, filter.tag
    {
      // compared with true, the conjunction is proved whole instead of conjunct by conjunct
      (Linked() && st.Valid() && pt.Valid() && ghr.Tame() && Accounted(filter.View())) == true
    }

    /** The whole state as a value. */
    ghost function View(): Spp
      requires Linked()
      reads this, st, st.lines, st.lru, pt, pt.delta, pt.cDelta, pt.cSig, ghr, ghr.entry, filter, filter.valid, filter.useful, filter.tag
    {
      Spp(st.View(), pt.Sets(pt.sets), filter.View(), ghr.entry[..])
    }

    /** What handling candidates changes. */
    ghost function Tabs(handled: seq<Handled>): Tables
      requires Linked()
      reads this, st, pt, ghr, ghr.entry, filter, filter.valid, filter.useful, filter.tag
    {
      Tables(filter.View(), ghr.entry[..], handled)
    }

    /** t is the pattern table as a function of the signature. */
    ghost predicate Shows(t: Table)
      reads this, st, pt, pt.delta, pt.cDelta, pt.cSig, ghr, filter
    {
      Linked() && forall sig: nat :: t(sig) == pt.At(c.setOf(sig))
    }

    constructor (c: Setup, st: SignatureTable, pt: PatternTable, ghr: GlobalRegister, filter: PrefetchFilter)
      requires c.threshold >= 25 && (forall sig :: c.setOf(sig) < pt.sets) && filter.Shape()
      requires st.Valid() && pt.Valid() && ghr.Tame() && Accounted(filter.View())
      requires filter.tag != pt.cSig && filter.tag != st.lru && st.lru != pt.cSig
      ensures Valid() && this.c == c && this.st == st && this.pt == pt && this.ghr == ghr && this.filter == filter
    {
      this.c, this.st, this.pt, this.ghr, this.filter := c, st, pt, ghr, filter;
    }

    /** Handle one queued candidate of the level that starts at line `base`: a line of the same page goes
        through the filter, any other is stored in the global register. */
    method Handle(line: int, base: int, sig: nat, q: Candidate, handled: seq<Handled>) returns (handled': seq<Handled>)
      requires Valid() && q.confidence < 100
      modifies filter, filter.valid, filter.useful, filter.tag, ghr.entry
      ensures Valid() && Tabs(handled') == HandleOne(c, line, base, sig, old(Tabs(handled)), q)
    {
      HandleOneKeeps(c, line, base, sig, Tabs(handled), q);
      var target := base + q.delta;
      var a;
      if PageOf(target) == PageOf(line) {
        var l2 := q.confidence >= c.fillThreshold;
        var (slot, tag) := c.place(target);
        var go := filter.Request(slot, tag, if l2 then L2Prefetch else LlcPrefetch);
        a := if go then Prefetch(target, l2) else Filtered(target);
      } else {
        var way := ghr.UpdateEntry(sig, q.confidence, target % LINES_PER_PAGE, q.delta);
        a := Crossed(target);
      }
      handled' := handled + [Handled(base, q, a)];
    }

    /** The candidates that the level has added to the queue, in queue order. */
    method HandleLevel(line: int, base: int, sig: nat, deltaQ: array<int>, confidenceQ: array<nat>, head: nat, tail: nat,
                       handled: seq<Handled>, ghost q: seq<Candidate>, ghost level: seq<Candidate>)
      returns (handled': seq<Handled>, head': nat)
      requires Valid() && |q| == head && tail == head + |level| && Holds(deltaQ, confidenceQ, q + level)
      requires confidenceQ != filter.tag && InRange(level, c.threshold, 93)
      modifies filter, filter.valid, filter.useful, filter.tag, ghr.entry
      ensures Valid() && head' == tail && Tabs(handled') == HandleAll(c, line, base, sig, old(Tabs(handled)), level)
    {
      handled', head' := handled, head;
      ghost var t := Tabs(handled);
      for i := head to tail
        invariant Valid() && head' == i && Tabs(handled') == HandleAll(c, line, base, sig, t, level[..i - head])
      {
        QueuedAt(q, level, i - head);
        if confidenceQ[i] >= c.threshold {
          handled' := Handle(line, base, sig, Candidate(deltaQ[i], confidenceQ[i]), handled');
          head' := head' + 1;
        }
      }
      assert level[..|level|] == level;
    }

    /** The loop is in state w of the walk: its arrays start with q, all of which has been handled. */
    ghost predicate InWalk(w: Walk, base: int, sig: nat, path: nat, depth: nat, again: bool, handled: seq<Handled>,
                           deltaQ: array<int>, confidenceQ: array<nat>, q: seq<Candidate>)
      reads this, st, pt, ghr, ghr.entry, filter, filter.valid, filter.useful, filter.tag, deltaQ, confidenceQ
    {
      && Linked() && deltaQ.Length == confidenceQ.Length == QUEUE && Holds(deltaQ, confidenceQ, q)
      && InState(w.look, sig, path, depth, |q|, again) && w.base == base && w.tables == Tabs(handled)
    }

    /** Queue the level of the signature and follow its best delta. */
    method ReadLevel(base: int, accuracy: nat, sig: nat, path: nat, depth: nat, tail: nat,
                     deltaQ: array<int>, confidenceQ: array<nat>, ghost q: seq<Candidate>, ghost r: Trip, ghost w: Walk)
      returns (base': int, sig': nat, path': nat, depth': nat, tail': nat)
      requires Shows(r.t) && r == Trip(c, r.t, accuracy, r.line) && w.base == base && InState(w.look, sig, path, depth, tail, true)
      requires deltaQ.Length == confidenceQ.Length == QUEUE && confidenceQ != pt.cSig
      requires |q| == tail && Holds(deltaQ, confidenceQ, q) && tail + |LevelAt(r, w.look)| < QUEUE
      modifies deltaQ, confidenceQ
      ensures tail' == tail + |LevelAt(r, w.look)| && Holds(deltaQ, confidenceQ, q + LevelAt(r, w.look))
      ensures InState(WalkPass(r, w).look, sig', path', depth', tail', tail' > tail) && base' == WalkPass(r, w).base
    {
      var i := c.setOf(sig);
      var way;
      way, path', tail', depth' := ReadPattern(pt, i, depth, accuracy, path, c.threshold, deltaQ, confidenceQ, tail, q);
      base', sig' := base, sig;
      if way < WAYS {
        var d := pt.delta[i, way];
        assert d == pt.At(i).delta[way];
        base', sig' := base + d, NewSig(sig, d);
      }
    }

    /** One pass of the lookahead loop: read a level, handle what it queued, and step along the best
        delta. It is one pass of the walk. */
    method OneLevel(line: int, base: int, accuracy: nat, sig: nat, path: nat, depth: nat, tail: nat, handled: seq<Handled>,
                    deltaQ: array<int>, confidenceQ: array<nat>, ghost q: seq<Candidate>, ghost r: Trip, ghost w: Walk)
      returns (again: bool, base': int, sig': nat, path': nat, depth': nat, tail': nat, handled': seq<Handled>, ghost q': seq<Candidate>)
      requires Valid() && Shows(r.t) && r == Trip(c, r.t, accuracy, line) && tail == |q|
      requires confidenceQ != pt.cSig && confidenceQ != filter.tag && confidenceQ != st.lru
      requires InWalk(w, base, sig, path, depth, true, handled, deltaQ, confidenceQ, q)
      requires tail + |LevelAt(r, w.look)| < QUEUE && InRange(LevelAt(r, w.look), c.threshold, 93)
      modifies deltaQ, confidenceQ, filter, filter.valid, filter.useful, filter.tag, ghr.entry
      ensures Valid() && Shows(r.t) && tail' == |q'|
      ensures InWalk(WalkPass(r, w), base', sig', path', depth', again, handled', deltaQ, confidenceQ, q') == true
    {
      base', sig', path', depth', tail' := ReadLevel(base, accuracy, sig, path, depth, tail, deltaQ, confidenceQ, q, r, w);
      again, q' := tail' > tail, q + LevelAt(r, w.look);
      var end;
      handled', end := HandleLevel(line, base, sig, deltaQ, confidenceQ, tail, tail', handled, q, LevelAt(r, w.look));
    }

    /** One pass from the n-th state of a walk, at an accuracy for which the arrays are large enough. */
    method NextPass(line: int, base: int, accuracy: nat, sig: nat, path: nat, depth: nat, tail: nat, handled: seq<Handled>,
                    deltaQ: array<int>, confidenceQ: array<nat>, ghost q: seq<Candidate>, ghost r: Trip, ghost w0: Walk, ghost n: nat)
      returns (again: bool, base': int, sig': nat, path': nat, depth': nat, tail': nat, handled': seq<Handled>, ghost q': seq<Candidate>)
      requires Valid() && Shows(r.t) && r == Trip(c, r.t, accuracy, line) && tail == |q| && accuracy <= 106
      requires confidenceQ != pt.cSig && confidenceQ != filter.tag && confidenceQ != st.lru
      requires w0.look == Start(w0.look.sig)
      requires InWalk(WalkTo(r, w0, n), base, sig, path, depth, true, handled, deltaQ, confidenceQ, q)
      modifies deltaQ, confidenceQ, filter, filter.valid, filter.useful, filter.tag, ghr.entry
      ensures Valid() && Shows(r.t) && tail' == |q'| && n < PASSES
      ensures InWalk(WalkTo(r, w0, n + 1), base', sig', path', depth', again, handled', deltaQ, confidenceQ, q')
    {
      ghost var w := WalkTo(r, w0, n);
      TableConsistent(r.t);
      WalkIsRun(r, w0, w0.look.sig, n);
      LevelFits(r.t, NewSig, accuracy, c.threshold, w0.look.sig, n, w.look);
      LevelTame(r.t, NewSig, accuracy, c.threshold, w0.look.sig, n, w.look);
      again, base', sig', path', depth', tail', handled', q' :=
        OneLevel(line, base, accuracy, sig, path, depth, tail, handled, deltaQ, confidenceQ, q, r, w);
    }

    /** Stage 3 of invoke_prefetcher, for the accuracies at which it stays in its arrays. The loop is the
        walk along the pattern table from sig0; it ends, and at most 47 candidates are ever queued, 37 up
        to an accuracy of 100. */
    method Lookahead(line: int, sig0: nat, accuracy: nat, ghost t: Table)
      returns (handled: seq<Handled>, depth: nat, ghost n: nat)
      requires Valid() && accuracy <= 106 && Shows(t)
      modifies filter, filter.valid, filter.useful, filter.tag, ghr.entry
      ensures Valid() && Shows(t) && |handled| <= 47 && (accuracy <= 100 ==> |handled| <= 37)
      ensures var w := WalkTo(Trip(c, t, accuracy, line), Begin(sig0, line, old(filter.View()), old(ghr.entry[..])), n);
        n <= PASSES && !w.look.again && w.tables == Tabs(handled) && w.look.queued == |handled| && w.look.depth == depth
    {
      var deltaQ := new int[QUEUE](_ => 0);
      var confidenceQ := new nat[QUEUE](i => if i == 0 then 100 else 0);
      var base, sig, again := line, sig0, true;
      var path: nat, tail: nat := 100, 0;
      ghost var r, w0 := Trip(c, t, accuracy, line), Begin(sig0, line, filter.View(), ghr.entry[..]);
      ghost var q: seq<Candidate> := [];
      handled, depth, n := [], 0, 0;
      while again
        invariant Valid() && Shows(t) && fresh(deltaQ) && fresh(confidenceQ) && tail == |q| && n <= PASSES
        invariant InWalk(WalkTo(r, w0, n), base, sig, path, depth, again, handled, deltaQ, confidenceQ, q)
        decreases again, PASSES - n
      {
        again, base, sig, path, depth, tail, handled, q :=
          NextPass(line, base, accuracy, sig, path, depth, tail, handled, deltaQ, confidenceQ, q, r, w0, n);
        n := n + 1;
      }
      TableConsistent(t);
      WalkBounded(r, w0, n);
    }

    /** Stages 1 and 2 of invoke_prefetcher: the signature of the page is read and extended, the demand
        is checked against the filter, and the pattern set of the old signature is trained. No hypothesis
        on the deltas is needed: the signature table never hands out a delta of zero. */
    method Learn(page: nat, offset: nat) returns (lastSig: nat, currSig: nat, delta: int)
      requires Valid()
      modifies st.lines, st.lru, pt.delta, pt.cDelta, pt.cSig, filter, filter.valid, filter.useful, filter.tag
      ensures Valid() && View() == LearnedFrom(c, old(View()), page, offset)
      ensures var r := ReadOf(old(View()), page, offset); lastSig == r.lastSig && currSig == r.currSig && delta == r.delta
      ensures lastSig == 0 ==> forall k :: 0 <= k < pt.sets ==> pt.At(k) == old(pt.At(k))
      ensures lastSig != 0 ==>
        && delta != 0 && pt.At(c.setOf(lastSig)) == Update(old(pt.At(c.setOf(lastSig))), delta)
        && forall k :: 0 <= k < pt.sets && k != c.setOf(lastSig) ==> pt.At(k) == old(pt.At(k))
    {
      lastSig, currSig, delta := ReadSignature(page, offset);
      CheckDemand(LineOf(page, offset));
      if lastSig != 0 { TrainPattern(lastSig, delta); }
    }

    method ReadSignature(page: nat, offset: nat) returns (lastSig: nat, currSig: nat, delta: int)
      requires Valid()
      modifies st.lines, st.lru
      ensures Valid() && (lastSig != 0 ==> delta != 0)
      ensures var s := old(View()); var r := ReadOf(s, page, offset);
        View() == s.(st := r.table) && lastSig == r.lastSig && currSig == r.currSig && delta == r.delta
    {
      var hint := ghr.CheckEntry(offset);
      ghost var w;
      lastSig, currSig, delta, w := st.ReadAndUpdateSig(page, offset, hint);
    }

    method TrainPattern(sig: nat, delta: int)
      requires Valid() && delta != 0
      modifies pt.delta, pt.cDelta, pt.cSig
      ensures Valid()
      ensures var i, s := c.setOf(sig), old(View()); i < |s.pt| && View() == s.(pt := s.pt[i := Update(s.pt[i], delta)])
      ensures pt.At(c.setOf(sig)) == Update(old(pt.At(c.setOf(sig))), delta)
      ensures forall k :: 0 <= k < pt.sets && k != c.setOf(sig) ==> pt.At(k) == old(pt.At(k))
    {
      ghost var s := View();
      var i := c.setOf(sig);
      pt.UpdatePattern(i, delta);
      assert pt.Sets(pt.sets) == s.pt[i := Update(s.pt[i], delta)];
    }

    method CheckDemand(line: int)
      requires Valid()
      modifies filter, filter.valid, filter.useful, filter.tag
      ensures Valid()
      ensures var s := old(View()); View() == s.(filter := Check(s.filter, c.place(line).0, c.place(line).1, Demand))
    {
      var (slot, tag) := c.place(line);
      CheckKeeps(filter.View(), slot, tag, Demand);
      var _ := filter.Request(slot, tag, Demand);
    }

    /** Stage 3, on the state that stages 1 and 2 leave. */
    method Explore(line: int, sig: nat, accuracy: nat) returns (handled: seq<Handled>, depth: nat, ghost n: nat)
      requires Valid() && accuracy <= 106
      modifies filter, filter.valid, filter.useful, filter.tag, ghr.entry
      ensures Valid() && |handled| <= 47 && (accuracy <= 100 ==> |handled| <= 37)
      ensures var l, t := old(View()), Tabs(handled); View() == l.(filter := t.filter, ghr := t.ghr)
      ensures Explored(old(View()), line, sig, accuracy, handled, depth, n)
    {
      ghost var l := View();
      handled, depth, n := Lookahead(line, sig, accuracy, TableOf(l.pt, c.setOf));
      assert pt.Sets(pt.sets) == l.pt;
    }

    /** The lookahead has ended after n passes, and the tables and what was handled are those of its walk. */
    ghost predicate Explored(l: Spp, line: int, sig: nat, accuracy: nat, handled: seq<Handled>, depth: nat, n: nat)
      requires Linked()
      reads this, st, pt, ghr, ghr.entry, filter, filter.valid, filter.useful, filter.tag
    {
      var w := WalkTo(Trip(c, TableOf(l.pt, c.setOf), accuracy, line), Begin(sig, line, l.filter, l.ghr), n);
      n <= PASSES && !w.look.again && w.tables == Tabs(handled) && w.look.queued == |handled| && w.look.depth == depth
    }

    /** invoke_prefetcher: learn from the access, then look ahead from the new signature with the accuracy
        measured before it. The accuracy is the one thing the arrays depend on, and a caller can read it
        off the counters. */
    method InvokePrefetcher(page: nat, offset: nat) returns (handled: seq<Handled>, depth: nat, ghost n: nat)
      requires Valid() && Accuracy(filter.View()) <= 106
      modifies st.lines, st.lru, pt.delta, pt.cDelta, pt.cSig, filter, filter.valid, filter.useful, filter.tag, ghr.entry
      ensures Valid() && StOk(old(View()).st) && View() == AccessIn(c, old(View()), page, offset, n)
      ensures var w := WalkOf(c, old(View()), page, offset, n);
        n <= PASSES && !w.look.again && handled == w.tables.handled && depth == w.look.depth && w.look.queued == |handled|
      ensures |handled| <= 47 && (old(Accuracy(filter.View())) <= 100 ==> |handled| <= 37)
    {
      var accuracy := if filter.pfIssued == 0 then 0 else 100 * filter.pfUseful / filter.pfIssued;
      var lastSig, curr, delta := Learn(page, offset);
      handled, depth, n := Explore(LineOf(page, offset), curr, accuracy);
    }

    lemma TableConsistent(t: Table)
      requires Shows(t) && pt.Valid()
      ensures Consistent(t)
    {
    }
  }

  /** A prefetcher that has seen nothing. */
  method NewSpp(ways: nat, sets: nat, c: Setup) returns (p: SppDev2)
    requires 0 < ways && c.threshold >= 25 && (forall sig :: c.setOf(sig) < sets)
    ensures p.Valid() && p.c == c && p.View() == EmptySpp(ways, sets)
  {
    var st := new SignatureTable(ways);
    var pt := new PatternTable(sets);
    var ghr := new GlobalRegister();
    var filter := new PrefetchFilter();
    EmptyAccounted();
    p := new SppDev2(c, st, pt, ghr, filter);
  }

  /** Up to an accuracy of 106 a walk handles at most 47 candidates, up to 100 at most 37. */
  lemma WalkBounded(r: Trip, w0: Walk, n: nat)
    requires Consistent(r.t) && r.accuracy <= 106 && r.c.threshold >= 25
    requires w0.look == Start(w0.look.sig) && w0.tables.handled == []
    ensures var w := WalkTo(r, w0, n);
      |w.tables.handled| == w.look.queued <= 47 && (r.accuracy <= 100 && !w.look.again ==> w.look.queued <= 37)
  {
    WalkHandles(r, w0, n);
    WalkIsRun(r, w0, w0.look.sig, n);
    RunBounded(r.t, NewSig, r.accuracy, r.c.threshold, w0.look.sig, n);
  }
}
