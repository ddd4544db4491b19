/**
 One access to SPP as a function of its whole state (invoke_prefetcher in prefetcher/spp_dev2.cc): the
 signature is read, the demand is checked, the old signature is trained, and the lookahead walks along
 the most confident path, handling every candidate it queues.
 */
module SppWalk {
  import opened SppPattern
  import opened SppFilter
  import opened SppLevel
  import opened SppSignature
  import opened SppRuns
  import opened SppTables

  const LINES_PER_PAGE: nat := 64

  function PageOf(line: int): int { line / LINES_PER_PAGE }

  function LineOf(page: nat, offset: nat): nat { page * LINES_PER_PAGE + offset }

  type FilterSlot = x: nat | x < SLOTS

  /** The hashes that choose a pattern set for a signature, and a filter slot and tag for a line; and the
      two thresholds. */
  datatype Setup = Setup(setOf: nat -> nat, place: int -> (FilterSlot, nat), threshold: nat, fillThreshold: nat)

  /** What happens to one candidate: prefetched, filtered out, or sent across the page to the register. */
  datatype Action = Prefetch(line: int, toL2: bool) | Filtered(line: int) | Crossed(line: int)

  /** A candidate with the line its level started at. */
  datatype Handled = Handled(base: int, candidate: Candidate, action: Action)

  /** What handling a candidate changes, and all that was handled. */
  datatype Tables = Tables(filter: Filter, ghr: seq<GhrEntry>, handled: seq<Handled>)

  // ---------------------------------------------------------------------------------------------
  // Candidates

  function RequestFor(c: Setup, q: Candidate): Request {
    if q.confidence >= c.fillThreshold then L2Prefetch else LlcPrefetch
  }

  /** One candidate of the level that starts at line `base`: a line of the page of `line` goes through the
      filter, any other is stored in the global register, if that finds a way for it. */
  function HandleOne(c: Setup, line: int, base: int, sig: nat, t: Tables, q: Candidate): Tables {
    var target := base + q.delta;
    if PageOf(target) == PageOf(line) then
      var (slot, tag) := c.place(target);
      var r := RequestFor(c, q);
      var a := if Present(t.filter, slot, tag) then Filtered(target) else Prefetch(target, r.L2Prefetch?);
      Tables(Check(t.filter, slot, tag, r), t.ghr, t.handled + [Handled(base, q, a)])
    else
      var way, offset := GhrWay(t.ghr, target % LINES_PER_PAGE), target % LINES_PER_PAGE;
      Tables(t.filter,
             if way < |t.ghr| then t.ghr[way := GhrEntry(true, sig, q.confidence, offset, q.delta)] else t.ghr,
             t.handled + [Handled(base, q, Crossed(target))])
  }

  /** The candidates of a level, in queue order. */
  function HandleAll(c: Setup, line: int, base: int, sig: nat, t: Tables, q: seq<Candidate>): Tables {
    if q == [] then t
    else HandleOne(c, line, base, sig, HandleAll(c, line, base, sig, t, q[..|q| - 1]), q[|q| - 1])
  }

  ghost predicate HandledAs(c: Setup, line: int, h: Handled, base: int, q: Candidate) {
    && h.base == base && h.candidate == q && h.action.line == base + q.delta
    && (h.action.Crossed? <==> PageOf(base + q.delta) != PageOf(line))
    && (h.action.Prefetch? ==> (h.action.toL2 <==> q.confidence >= c.fillThreshold))
  }

  /** Each candidate of the level is handled once, in order, seen from the line the level started at. */
  lemma {:induction false} HandleAllMeaning(c: Setup, line: int, base: int, sig: nat, t: Tables, q: seq<Candidate>)
    ensures var h := HandleAll(c, line, base, sig, t, q).handled;
      && |h| == |t.handled| + |q| && h[..|t.handled|] == t.handled
      && forall k :: 0 <= k < |q| ==> HandledAs(c, line, h[|t.handled| + k], base, q[k])
  {
    if q != [] {
      HandleAllMeaning(c, line, base, sig, t, q[..|q| - 1]);
    } else {
      assert t.handled[..|t.handled|] == t.handled;
    }
  }

  ghost predicate TablesOk(t: Tables) { Accounted(t.filter) && |t.ghr| == GHR_ENTRIES && GhrTame(t.ghr) }

  /** A victim is always found while confidences stay below 100. */
  lemma HandleOneKeeps(c: Setup, line: int, base: int, sig: nat, t: Tables, q: Candidate)
    requires TablesOk(t) && q.confidence < 100
    ensures TablesOk(HandleOne(c, line, base, sig, t, q))
    ensures PageOf(base + q.delta) != PageOf(line) ==> GhrWay(t.ghr, (base + q.delta) % LINES_PER_PAGE) < |t.ghr|
  {
    var target := base + q.delta;
    if PageOf(target) == PageOf(line) {
      CheckKeeps(t.filter, c.place(target).0, c.place(target).1, RequestFor(c, q));
    } else {
      GhrWayIff(t.ghr, target % LINES_PER_PAGE);
      assert t.ghr[0].confidence < 100;
    }
  }

  // ---------------------------------------------------------------------------------------------
  // Passes

  /** The lookahead between passes: the state of the run, the line the next level starts at, the tables. */
  datatype Walk = Walk(look: Look, base: int, tables: Tables)

  /** What stays fixed: the table that is read, the accuracy, and the line of the access. */
  datatype Trip = Trip(c: Setup, t: Table, accuracy: nat, line: int)

  ghost function LevelAt(r: Trip, l: Look): seq<Candidate> {
    SetLevel(r.t(l.sig), l.depth, r.accuracy, l.path, r.c.threshold)
  }

  /** One pass: the level of the signature is handled, and the walk follows its most confident delta. */
  ghost function WalkPass(r: Trip, w: Walk): Walk {
    if !w.look.again then w
    else
      var s, l := r.t(w.look.sig), w.look;
      var way := Follow(s, l.depth, r.accuracy, l.path, r.c.threshold).1;
      Walk(Pass(r.t, NewSig, r.accuracy, r.c.threshold, l),
           if way < WAYS then w.base + s.delta[way] else w.base,
           HandleAll(r.c, r.line, w.base, l.sig, w.tables, LevelAt(r, l)))
  }

  function Begin(sig: nat, line: int, filter: Filter, ghr: seq<GhrEntry>): Walk {
    Walk(Start(sig), line, Tables(filter, ghr, []))
  }

  ghost function WalkTo(r: Trip, w: Walk, n: nat): Walk {
    if n == 0 then w else WalkPass(r, WalkTo(r, w, n - 1))
  }

  /** A pass goes on from the first of its most confident candidates: the line moves by its delta, the signature
      takes it in, and its confidence becomes that of the path. Without any confidence nothing moves. */
  lemma PassFollows(r: Trip, w: Walk, k: nat)
    requires w.look.again && r.t(w.look.sig).cSig > 0
    ensures var level, t := LevelAt(r, w.look), WalkPass(r, w);
      && (FirstBest(level, k) && level[k].confidence > 0 ==>
          && t.base == w.base + level[k].delta && t.look.sig == NewSig(w.look.sig, level[k].delta)
          && t.look.path == level[k].confidence && t.look.depth == w.look.depth + 1)
      && ((forall j :: 0 <= j < |level| ==> level[j].confidence == 0) ==> t.base == w.base && t.look.sig == w.look.sig)
  {
    var s, l := r.t(w.look.sig), w.look;
    var conf := Confidences(s, l.depth, r.accuracy, l.path);
    var best := FollowsFirstBest(s.delta, conf, r.c.threshold, WAYS);
    var level := Level(s.delta, conf, r.c.threshold, WAYS);
    var (most, way) := Best(conf, r.c.threshold, WAYS);
    assert LevelAt(r, l) == level && Follow(s, l.depth, r.accuracy, l.path, r.c.threshold) == (most, way);
    assert way < WAYS ==> FirstBest(level, best) && level[best].confidence == most > 0;
    if way < WAYS && FirstBest(level, k) { FirstBestUnique(level, k, best); }
  }

  lemma {:induction false} WalkIsRun(r: Trip, w: Walk, sig: nat, n: nat)
    requires w.look == Start(sig)
    ensures WalkTo(r, w, n).look == Passes(r.t, NewSig, r.accuracy, r.c.threshold, sig, n)
  {
    if n > 0 { WalkIsRun(r, w, sig, n - 1); }
  }

  /** Everything queued has been handled. */
  lemma {:induction false} WalkHandles(r: Trip, w: Walk, n: nat)
    requires |w.tables.handled| == w.look.queued
    ensures |WalkTo(r, w, n).tables.handled| == WalkTo(r, w, n).look.queued
  {
    if n > 0 {
      WalkHandles(r, w, n - 1);
      var v := WalkTo(r, w, n - 1);
      HandleAllMeaning(r.c, r.line, v.base, v.look.sig, v.tables, LevelAt(r, v.look));
    }
  }

  /** A walk that has ended stays as it is. */
  lemma {:induction false} WalkEnded(r: Trip, w: Walk, n: nat, m: nat)
    requires n <= m && !WalkTo(r, w, n).look.again
    ensures WalkTo(r, w, m) == WalkTo(r, w, n)
  {
    if n < m { WalkEnded(r, w, n, m - 1); }
  }

  // ---------------------------------------------------------------------------------------------
  // What an accuracy of at most 106 guarantees

  /** No run up to an accuracy of 107 percent has more passes. */
  const PASSES: nat := 94

  /** What the run says about a pass that goes on: the level it reads fits. */
  lemma LevelFits(t: Table, next: (nat, int) -> nat, accuracy: nat, threshold: nat, sig: nat, n: nat, l: Look)
    requires Consistent(t) && accuracy <= 106 && threshold >= 25 && l == Passes(t, next, accuracy, threshold, sig, n) && l.again
    ensures var k := l.queued + |SetLevel(t(l.sig), l.depth, accuracy, l.path, threshold)|;
      n < PASSES && k <= 47 && (accuracy <= 100 ==> k <= 37)
  {
    RunBounded(t, next, accuracy, threshold, sig, n + 1);
    RunFalls(t, next, accuracy, threshold, sig, n);
    assert Passes(t, next, accuracy, threshold, sig, n + 1) == Pass(t, next, accuracy, threshold, l);
  }

  /** And no confidence in it exceeds 93. */
  lemma LevelTame(t: Table, next: (nat, int) -> nat, accuracy: nat, threshold: nat, sig: nat, n: nat, l: Look)
    requires Consistent(t) && accuracy <= 106 && threshold >= 25 && l == Passes(t, next, accuracy, threshold, sig, n) && l.again
    ensures InRange(SetLevel(t(l.sig), l.depth, accuracy, l.path, threshold), threshold, 93)
  {
    RunTame(t, next, accuracy, threshold, sig, n + 1);
    RunTame(t, next, accuracy, threshold, sig, n);
    LevelCost(t(l.sig), l.depth, accuracy, l.path, threshold, if l.depth == 0 then 93 else 98);
    assert Passes(t, next, accuracy, threshold, sig, n + 1) == Pass(t, next, accuracy, threshold, l);
  }

  lemma {:induction false} HandleAllKeeps(c: Setup, line: int, base: int, sig: nat, t: Tables, q: seq<Candidate>, least: nat)
    requires TablesOk(t) && InRange(q, least, 93)
    ensures TablesOk(HandleAll(c, line, base, sig, t, q))
  {
    if q != [] {
      HandleAllKeeps(c, line, base, sig, t, q[..|q| - 1], least);
      HandleOneKeeps(c, line, base, sig, HandleAll(c, line, base, sig, t, q[..|q| - 1]), q[|q| - 1]);
    }
  }

  lemma PassKeeps(r: Trip, v: Walk, sig: nat, n: nat)
    requires Consistent(r.t) && r.accuracy <= 106 && r.c.threshold >= 25 && TablesOk(v.tables)
    requires v.look == Passes(r.t, NewSig, r.accuracy, r.c.threshold, sig, n)
    ensures TablesOk(WalkPass(r, v).tables)
  {
    if v.look.again {
      LevelTame(r.t, NewSig, r.accuracy, r.c.threshold, sig, n, v.look);
      HandleAllKeeps(r.c, r.line, v.base, v.look.sig, v.tables, LevelAt(r, v.look), r.c.threshold);
    }
  }

  /** The account of the filter holds, and the register always finds a victim. */
  lemma {:induction false} WalkKeeps(r: Trip, w: Walk, n: nat)
    requires Consistent(r.t) && r.accuracy <= 106 && r.c.threshold >= 25 && w.look == Start(w.look.sig) && TablesOk(w.tables)
    ensures TablesOk(WalkTo(r, w, n).tables)
  {
    if n > 0 {
      WalkKeeps(r, w, n - 1);
      WalkStep(r, w, n - 1);
    }
  }

  lemma WalkStep(r: Trip, w: Walk, n: nat)
    requires Consistent(r.t) && r.accuracy <= 106 && r.c.threshold >= 25 && w.look == Start(w.look.sig)
    requires TablesOk(WalkTo(r, w, n).tables)
    ensures TablesOk(WalkTo(r, w, n + 1).tables)
  {
    WalkIsRun(r, w, w.look.sig, n);
    PassKeeps(r, WalkTo(r, w, n), w.look.sig, n);
  }

  // ---------------------------------------------------------------------------------------------
  // Repeated prefetches

  ghost predicate ToL2(h: Handled) { h.action.Prefetch? && h.action.toL2 }

  /** After the i-th candidate another L2 prefetch took the filter slot of its line. */
  ghost predicate Displaced(c: Setup, h: seq<Handled>, i: nat)
    requires i < |h|
  {
    exists k :: i < k < |h| && ToL2(h[k]) && c.place(h[k].action.line).0 == c.place(h[i].action.line).0
  }

  predicate InFilter(c: Setup, f: Filter, line: int) { Present(f, c.place(line).0, c.place(line).1) }

  /** The line of every L2 prefetch is in the filter, unless its slot has been taken since. */
  ghost predicate Remembered(c: Setup, t: Tables) {
    forall i :: 0 <= i < |t.handled| && ToL2(t.handled[i]) && !Displaced(c, t.handled, i) ==>
      InFilter(c, t.filter, t.handled[i].action.line)
  }

  /** No line is prefetched into L2 twice, unless another prefetch took its filter slot in between. */
  ghost predicate NoRepeat(c: Setup, h: seq<Handled>) {
    forall i, j :: 0 <= i < j < |h| && ToL2(h[i]) && ToL2(h[j]) && h[i].action.line == h[j].action.line ==>
      Displaced(c, h[..j], i)
  }

  lemma DisplacedMore(c: Setup, h: seq<Handled>, x: Handled, i: nat)
    requires i < |h|
    ensures Displaced(c, h + [x], i) <==>
      Displaced(c, h, i) || (ToL2(x) && c.place(x.action.line).0 == c.place(h[i].action.line).0)
  {
    var more := h + [x];
    if Displaced(c, h, i) {
      var k :| i < k < |h| && ToL2(h[k]) && c.place(h[k].action.line).0 == c.place(h[i].action.line).0;
      assert more[k] == h[k];
    }
    assert more[|h|] == x;
  }

  /** Handling a candidate forgets no line of a slot that it does not take. */
  lemma OthersStay(c: Setup, line: int, base: int, sig: nat, t: Tables, q: Candidate, other: int)
    requires InFilter(c, t.filter, other)
    ensures var u := HandleOne(c, line, base, sig, t, q);
      var x := u.handled[|t.handled|];
      InFilter(c, u.filter, other) || (ToL2(x) && c.place(x.action.line).0 == c.place(other).0)
  {
  }

  /** An L2 prefetch is of a line that was not in the filter, and puts it there. */
  lemma NewInFilter(c: Setup, line: int, base: int, sig: nat, t: Tables, q: Candidate)
    ensures var u := HandleOne(c, line, base, sig, t, q);
      var x := u.handled[|t.handled|];
      ToL2(x) ==> !InFilter(c, t.filter, x.action.line) && InFilter(c, u.filter, x.action.line)
  {
  }

  lemma HandleOneRemembers(c: Setup, line: int, base: int, sig: nat, t: Tables, q: Candidate)
    requires Remembered(c, t) && NoRepeat(c, t.handled)
    ensures var u := HandleOne(c, line, base, sig, t, q); Remembered(c, u) && NoRepeat(c, u.handled)
  {
    var u, n := HandleOne(c, line, base, sig, t, q), |t.handled|;
    var x := u.handled[n];
    assert u.handled == t.handled + [x];
    NewInFilter(c, line, base, sig, t, q);
    forall i | 0 <= i < |u.handled| && ToL2(u.handled[i]) && !Displaced(c, u.handled, i)
      ensures InFilter(c, u.filter, u.handled[i].action.line)
    {
      if i < n {
        assert u.handled[i] == t.handled[i];
        DisplacedMore(c, t.handled, x, i);
        OthersStay(c, line, base, sig, t, q, t.handled[i].action.line);
      }
    }
    forall i, j | 0 <= i < j < |u.handled| && ToL2(u.handled[i]) && ToL2(u.handled[j])
      && u.handled[i].action.line == u.handled[j].action.line
      ensures Displaced(c, u.handled[..j], i)
    {
      if j < n { assert u.handled[..j] == t.handled[..j]; } else { assert u.handled[..j] == t.handled; }
    }
  }

  lemma {:induction false} HandleAllRemembers(c: Setup, line: int, base: int, sig: nat, t: Tables, q: seq<Candidate>)
    requires Remembered(c, t) && NoRepeat(c, t.handled)
    ensures var u := HandleAll(c, line, base, sig, t, q); Remembered(c, u) && NoRepeat(c, u.handled)
  {
    if q != [] {
      HandleAllRemembers(c, line, base, sig, t, q[..|q| - 1]);
      HandleOneRemembers(c, line, base, sig, HandleAll(c, line, base, sig, t, q[..|q| - 1]), q[|q| - 1]);
    }
  }

  /** In every state of every lookahead. */
  lemma {:induction false} WalkRemembers(r: Trip, sig: nat, filter: Filter, ghr: seq<GhrEntry>, n: nat)
    ensures var t := WalkTo(r, Begin(sig, r.line, filter, ghr), n).tables; Remembered(r.c, t) && NoRepeat(r.c, t.handled)
  {
    if n > 0 {
      WalkRemembers(r, sig, filter, ghr, n - 1);
      var v := WalkTo(r, Begin(sig, r.line, filter, ghr), n - 1);
      HandleAllRemembers(r.c, r.line, v.base, v.look.sig, v.tables, LevelAt(r, v.look));
    }
  }

  // ---------------------------------------------------------------------------------------------
  // One access

  /** The whole state of the prefetcher. */
  datatype Spp = Spp(st: SigTable, pt: seq<PatternSet>, filter: Filter, ghr: seq<GhrEntry>)

  function EmptySpp(ways: nat, sets: nat): Spp {
    Spp(EmptyTable(ways), seq(sets, _ => EMPTY_SET), EmptyFilter(), EmptyRegister())
  }

  ghost predicate SppOk(c: Setup, s: Spp) {
    && c.threshold >= 25 && StOk(s.st) && (forall sig :: c.setOf(sig) < |s.pt|)
    && (forall i :: 0 <= i < |s.pt| ==> SetOk(s.pt[i]))
    && Accounted(s.filter) && |s.ghr| == GHR_ENTRIES && GhrTame(s.ghr)
  }

  /** The table that the sets make with the hash of the signature. */
  function TableOf(sets: seq<PatternSet>, setOf: nat -> nat): Table {
    sig => if setOf(sig) < |sets| then sets[setOf(sig)] else EMPTY_SET
  }

  /** The signature table's answer to this access. */
  ghost function ReadOf(s: Spp, page: nat, offset: nat): Read
    requires StOk(s.st)
  {
    ReadSig(s.st, page, offset, HintOf(s.ghr, offset))
  }

  /** Stages 1 and 2: the tables after the demand has been recorded and the old signature trained. */
  ghost function LearnedFrom(c: Setup, s: Spp, page: nat, offset: nat): Spp
    requires StOk(s.st)
  {
    var r, i := ReadOf(s, page, offset), c.setOf(ReadOf(s, page, offset).lastSig);
    var (slot, tag) := c.place(LineOf(page, offset));
    Spp(r.table,
        if r.lastSig != 0 && i < |s.pt| then s.pt[i := Update(s.pt[i], r.delta)] else s.pt,
        Check(s.filter, slot, tag, Demand),
        s.ghr)
  }

  /** Stage 3 reads what has been learned, with the accuracy measured before the access. */
  ghost function TripOf(c: Setup, s: Spp, page: nat, offset: nat): Trip
    requires StOk(s.st)
  {
    Trip(c, TableOf(LearnedFrom(c, s, page, offset).pt, c.setOf), Accuracy(s.filter), LineOf(page, offset))
  }

  ghost function WalkOf(c: Setup, s: Spp, page: nat, offset: nat, n: nat): Walk
    requires StOk(s.st)
  {
    var l := LearnedFrom(c, s, page, offset);
    WalkTo(TripOf(c, s, page, offset), Begin(ReadOf(s, page, offset).currSig, LineOf(page, offset), l.filter, l.ghr), n)
  }

  /** invoke_prefetcher, when its loop has ended after n passes. */
  ghost function AccessIn(c: Setup, s: Spp, page: nat, offset: nat, n: nat): Spp
    requires StOk(s.st)
  {
    var t := WalkOf(c, s, page, offset, n).tables;
    LearnedFrom(c, s, page, offset).(filter := t.filter, ghr := t.ghr)
  }

  lemma LearnKeeps(c: Setup, s: Spp, page: nat, offset: nat)
    requires SppOk(c, s)
    ensures SppOk(c, LearnedFrom(c, s, page, offset))
  {
    ReadSigKeeps(s.st, page, offset, HintOf(s.ghr, offset));
    var r := ReadOf(s, page, offset);
    var (slot, tag) := c.place(LineOf(page, offset));
    CheckKeeps(s.filter, slot, tag, Demand);
    UpdateKeeps(s.pt[c.setOf(r.lastSig)], r.delta);
  }

  /** An access at an accuracy of at most 106 keeps every table as it should be. */
  lemma AccessKeeps(c: Setup, s: Spp, page: nat, offset: nat, n: nat)
    requires SppOk(c, s) && Accuracy(s.filter) <= 106
    ensures SppOk(c, AccessIn(c, s, page, offset, n))
  {
    LearnKeeps(c, s, page, offset);
    var r, l := TripOf(c, s, page, offset), LearnedFrom(c, s, page, offset);
    WalkKeeps(r, Begin(ReadOf(s, page, offset).currSig, LineOf(page, offset), l.filter, l.ghr), n);
  }
}
