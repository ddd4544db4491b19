/**
 A prefetcher that starts empty and is brought, by accesses alone, to a state in which one more access
 drives the SPP lookahead out of its arrays for ever: its counters are halved while 1024 prefetches are
 unused, and all of these are used afterwards (prefetcher/spp_dev2.cc).
 */
module SppOverflow {
  import opened Bits
  import opened SppPattern
  import opened SppFilter
  import opened SppLevel
  import opened SppSignature
  import opened SppRuns
  import opened SppTables
  import opened SppWalk

  const LINES: nat := 256           // ST_WAY
  const SETS: nat := 512            // PT_SET

  /** The sizes and the fill threshold of the source; keys are taken as their own hashes. */
  function Plain(threshold: nat): Setup {
    Setup(sig => sig % SETS, (x: int) => (x / LINES_PER_PAGE % SLOTS, x % LINES_PER_PAGE), threshold, 90)
  }

  // ---------------------------------------------------------------------------------------------
  // Accesses whose lookahead is harmless

  /** The lookahead of this access ends within two passes, which queue at most eight candidates; t is the
      state it leaves. */
  ghost predicate Visits(c: Setup, s: Spp, page: nat, offset: nat, t: Spp) {
    StOk(s.st) && exists n: nat :: n <= 2 && !WalkOf(c, s, page, offset, n).look.again && t == AccessIn(c, s, page, offset, n)
  }

  ghost predicate Follows(c: Setup, s: Spp, t: Spp) { exists page, offset :: Visits(c, s, page, offset, t) }

  /** The k-th state of the sequence follows from the one before it by such an access. */
  ghost predicate StepAt(c: Setup, run: seq<Spp>, k: nat)
    requires 0 < k < |run|
  {
    Follows(c, run[k - 1], run[k])
  }

  /** From the prefetcher that has seen nothing, by such accesses only. */
  ghost predicate History(c: Setup, run: seq<Spp>) {
    0 < |run| && run[0] == EmptySpp(LINES, SETS) && forall k :: 0 < k < |run| ==> StepAt(c, run, k)
  }

  /** A lookahead that reads an untrained set does nothing. */
  lemma QuietWalk(r: Trip, sig: nat, f: Filter, g: seq<GhrEntry>) returns (n: nat)
    requires r.t(sig).cSig == 0
    ensures var w := WalkTo(r, Begin(sig, r.line, f, g), n);
      n <= 2 && !w.look.again && w.tables.filter == f && w.tables.ghr == g
  {
    n := 1;
    var w0 := Begin(sig, r.line, f, g);
    assert LevelAt(r, w0.look) == [];
    assert WalkTo(r, w0, n) == WalkPass(r, w0);
  }

  function Share(n: nat): nat
    requires n > 0
  {
    100 * (n - 1) / n
  }

  lemma SeenConfidences(n: nat, accuracy: nat, path: nat)
    requires n > 0
    ensures Confidences(Seen(n), 0, accuracy, 100) == [Share(n), 0, 0, 0]
    ensures Confidences(Seen(n), 1, 0, path) == [0, 0, 0, 0]
  {
    var c, d := Confidences(Seen(n), 0, accuracy, 100), Confidences(Seen(n), 1, 0, path);
    assert c[0] == Share(n) && c[1] == 0 && c[2] == 0 && c[3] == 0;
    assert d[0] == 0 && d[1] == 0 && d[2] == 0 && d[3] == 0;
  }

  lemma OneOfFour(delta: seq<int>, x: nat, threshold: nat)
    requires |delta| == 4 && delta[0] == STEP && threshold > 0
    ensures Level(delta, [x, 0, 0, 0], threshold, 4) == if x >= threshold then [Candidate(STEP, x)] else []
    ensures Best([x, 0, 0, 0], threshold, 4) == if x >= threshold then (x, 0) else (0, 4)
  {
    var q := [x, 0, 0, 0];
    assert Level(delta, q, threshold, 1) == if x >= threshold then [Candidate(STEP, x)] else [];
    assert Level(delta, q, threshold, 2) == Level(delta, q, threshold, 1);
    assert Level(delta, q, threshold, 3) == Level(delta, q, threshold, 1);
    assert Best(q, threshold, 1) == if x >= threshold then (x, 0) else (0, 4);
    assert Best(q, threshold, 2) == Best(q, threshold, 1);
    assert Best(q, threshold, 3) == Best(q, threshold, 1);
  }

  /** What the first pass leaves when it reads such a set with accuracy 0. */
  ghost predicate OneQueued(r: Trip, w0: Walk, w1: Walk, n: nat)
    requires n > 0
  {
    && w1.look.again == (Share(n) >= r.c.threshold) && w1.look.sig == FIXED
    && (w1.look.again ==> w1.look.depth == 1)
    && w1.tables == if w1.look.again then HandleOne(r.c, r.line, r.line, FIXED, w0.tables, Candidate(STEP, Share(n))) else w0.tables
  }

  lemma FirstPass(r: Trip, w0: Walk, n: nat)
    requires n > 0 && r.t(FIXED) == Seen(n) && r.c.threshold > 0 && w0.look == Start(FIXED) && w0.base == r.line
    ensures OneQueued(r, w0, WalkPass(r, w0), n)
  {
    SeenConfidences(n, r.accuracy, 100);
    OneOfFour(Seen(n).delta, Share(n), r.c.threshold);
    FixedSignature();
    var q := LevelAt(r, w0.look);
    if Share(n) >= r.c.threshold {
      assert q == [Candidate(STEP, Share(n))] && q[..|q| - 1] == [];
      assert HandleAll(r.c, r.line, r.line, FIXED, w0.tables, []) == w0.tables;
    }
  }

  /** With an accuracy of 0 nothing follows the first candidate. */
  lemma SecondPass(r: Trip, w1: Walk, n: nat)
    requires n > 0 && r.t(FIXED) == Seen(n) && r.c.threshold > 0 && r.accuracy == 0
    requires w1.look.again ==> w1.look.sig == FIXED && w1.look.depth == 1
    ensures !WalkPass(r, w1).look.again && WalkPass(r, w1).tables == w1.tables
  {
    if w1.look.again {
      SeenConfidences(n, 0, w1.look.path);
      OneOfFour(Seen(n).delta, 0, r.c.threshold);
      assert LevelAt(r, w1.look) == [];
    }
  }

  /** The one candidate is a line of the same page: it is marked in the filter if it is sure enough. */
  lemma SteppingWalk(r: Trip, n: nat, f: Filter, g: seq<GhrEntry>) returns (k: nat)
    requires n > 0 && r.t(FIXED) == Seen(n) && 0 < r.c.threshold <= 90 == r.c.fillThreshold && r.accuracy == 0
    requires PageOf(r.line + STEP) == PageOf(r.line)
    ensures var w := WalkTo(r, Begin(FIXED, r.line, f, g), k);
      && k <= 2 && !w.look.again && w.tables.ghr == g
      && w.tables.filter == if Share(n) >= 90 then Check(f, r.c.place(r.line + STEP).0, r.c.place(r.line + STEP).1, L2Prefetch) else f
  {
    var w0 := Begin(FIXED, r.line, f, g);
    FirstPass(r, w0, n);
    assert WalkTo(r, w0, 1) == WalkPass(r, w0);
    SecondPass(r, WalkPass(r, w0), n);
    k := 2;
  }

  // ---------------------------------------------------------------------------------------------
  // Two kinds of access

  lemma NoHints(offset: nat, n: nat)
    requires n <= GHR_ENTRIES
    ensures HintScan(EmptyRegister(), offset, n) == (0, GHR_ENTRIES) && HintOf(EmptyRegister(), offset) == NoHint
  {
    HintScanMeaning(EmptyRegister(), offset, n);
    HintScanMeaning(EmptyRegister(), offset, GHR_ENTRIES);
  }

  lemma LineParts(page: nat, offset: nat)
    requires offset < LINES_PER_PAGE
    ensures LineOf(page, offset) / LINES_PER_PAGE == page && LineOf(page, offset) % LINES_PER_PAGE == offset
  {
  }

  /** What the signature table answers while the register is empty. */
  ghost predicate Reads(s: Spp, page: nat, offset: nat, r: Read) {
    StOk(s.st) && |s.pt| == SETS && s.ghr == EmptyRegister() && offset < LINES_PER_PAGE && r == ReadSig(s.st, page, offset, NoHint)
  }

  lemma VisitIs(c: Setup, s: Spp, page: nat, offset: nat, sig: nat, n: nat, w: Walk)
    requires StOk(s.st) && sig == ReadOf(s, page, offset).currSig && n <= 2 && !w.look.again
    requires var l := LearnedFrom(c, s, page, offset);
      w == WalkTo(TripOf(c, s, page, offset), Begin(sig, LineOf(page, offset), l.filter, l.ghr), n)
    ensures Visits(c, s, page, offset, LearnedFrom(c, s, page, offset).(filter := w.tables.filter, ghr := w.tables.ghr))
  {
    assert w == WalkOf(c, s, page, offset, n);
  }

  /** An access that trains nothing and reads an untrained set. */
  lemma QuietAccess(threshold: nat, s: Spp, page: nat, offset: nat, r: Read) returns (t: Spp)
    requires Reads(s, page, offset, r) && r.lastSig == 0 && s.pt[r.currSig % SETS].cSig == 0
    ensures Visits(Plain(threshold), s, page, offset, t)
    ensures t == Spp(r.table, s.pt, Check(s.filter, page % SLOTS, offset, Demand), s.ghr)
  {
    var c := Plain(threshold);
    NoHints(offset, 0);
    LineParts(page, offset);
    var l := LearnedFrom(c, s, page, offset);
    assert l.filter == Check(s.filter, page % SLOTS, offset, Demand);
    var n := QuietWalk(TripOf(c, s, page, offset), r.currSig, l.filter, l.ghr);
    t := AccessIn(c, s, page, offset, n);
  }

  lemma NothingUsed(f: Filter)
    requires f.pfUseful == 0
    ensures Accuracy(f) == 0
  {
  }

  /** The access trains set 1 to pt, reads the fixed signature, and starts from there with accuracy 0. */
  ghost predicate Steps(threshold: nat, s: Spp, page: nat, offset: nat, table: SigTable, pt: seq<PatternSet>) {
    && StOk(s.st) && |pt| == SETS && ReadOf(s, page, offset).currSig == FIXED
    && LearnedFrom(Plain(threshold), s, page, offset) == Spp(table, pt, Check(s.filter, page % SLOTS, offset, Demand), s.ghr)
    && Accuracy(s.filter) == 0
  }

  lemma SteppingLearned(threshold: nat, s: Spp, page: nat, offset: nat, r: Read, pt: seq<PatternSet>)
    requires Reads(s, page, offset, r) && s.filter.pfUseful == 0 && r.currSig == FIXED && (r.lastSig == 0 || r.lastSig == FIXED)
    requires pt == if r.lastSig == 0 then s.pt else s.pt[1 := Update(s.pt[1], r.delta)]
    ensures Steps(threshold, s, page, offset, r.table, pt)
  {
    NoHints(offset, 0);
    LineParts(page, offset);
    NothingUsed(s.filter);
  }

  /** An access that continues the fixed signature. */
  lemma SteppingAccess(threshold: nat, s: Spp, page: nat, offset: nat, table: SigTable, pt: seq<PatternSet>, n: nat)
    returns (t: Spp)
    requires Steps(threshold, s, page, offset, table, pt) && offset + 9 < LINES_PER_PAGE && 0 < threshold <= 90
    requires n > 0 && pt[1] == Seen(n)
    ensures Visits(Plain(threshold), s, page, offset, t)
    ensures var f := Check(s.filter, page % SLOTS, offset, Demand);
      t == Spp(table, pt, if Share(n) >= 90 then Check(f, page % SLOTS, offset + 9, L2Prefetch) else f, s.ghr)
  {
    LineParts(page, offset);
    LineParts(page, offset + 9);
    assert LineOf(page, offset) + STEP == LineOf(page, offset + 9);
    var r, f := TripOf(Plain(threshold), s, page, offset), Check(s.filter, page % SLOTS, offset, Demand);
    var k := SteppingWalk(r, n, f, s.ghr);
    var w := WalkTo(r, Begin(FIXED, LineOf(page, offset), f, s.ghr), k);
    VisitIs(Plain(threshold), s, page, offset, FIXED, k, w);
    t := Spp(table, pt, w.tables.filter, s.ghr);
  }

  lemma Then(c: Setup, run: seq<Spp>, page: nat, offset: nat, t: Spp)
    requires History(c, run) && Visits(c, run[|run| - 1], page, offset, t)
    ensures History(c, run + [t])
  {
    var more := run + [t];
    forall k | 0 < k < |more| ensures StepAt(c, more, k) {
      if k < |run| { assert StepAt(c, run, k); } else { assert Follows(c, run[|run| - 1], t); }
    }
  }

  // ---------------------------------------------------------------------------------------------
  // The signature table: pages below the one that comes next

  ghost predicate PagesBelow(s: SigTable, p: nat) {
    StOk(s) && |s.lines| == LINES && forall i :: 0 <= i < LINES && s.lines[i].valid ==> s.lines[i].tag < p
  }

  lemma PageTag(p: nat)
    requires p < 0x1_0000
    ensures Low(p, ST_TAG_BIT) == p
  {
    PartsDivide(p, ST_TAG_BIT);
    assert Pow2(8) == 256 && Pow2(16) == 0x1_0000;
  }

  /** A new page is put somewhere, with an empty signature. */
  lemma NewPage(s: SigTable, p: nat, offset: nat)
    requires PagesBelow(s, p) && p < 0x1_0000
    ensures var r := ReadSig(s, p, offset, NoHint);
      r.lastSig == 0 == r.currSig && PagesBelow(r.table, p + 1)
      && exists w: nat :: w < LINES && r.table.lines[w] == Line(true, p, offset, 0)
  {
    PageTag(p);
    RoomExists(s, LINES);
    var w: nat :| Room(s, w);
    RoomIs(s, w, p, offset, NoHint);
    ReadSigKeeps(s, p, offset, NoHint);
    var t := ReadSig(s, p, offset, NoHint).table;
    assert t.lines[w] == Line(true, p, offset, 0);
  }

  /** The next block of that page gives it the fixed signature; nothing is trained yet. */
  lemma SecondBlock(s: SigTable, p: nat)
    requires PagesBelow(s, p + 1) && p < 0x1_0000 && exists w: nat :: w < LINES && s.lines[w] == Line(true, p, 1, 0)
    ensures var r := ReadSig(s, p, 2, NoHint); r.lastSig == 0 && r.currSig == FIXED && PagesBelow(r.table, p + 1)
  {
    PageTag(p);
    var w: nat :| w < LINES && s.lines[w] == Line(true, p, 1, 0);
    KnownIs(s, w, p, 2, NoHint);
    FixedSignature();
    ReadSigKeeps(s, p, 2, NoHint);
  }

  // ---------------------------------------------------------------------------------------------
  // Fifteen pages are opened, then each trains the step once

  const PAGES: nat := 15

  /** The first k pages have been opened; the first d of them have been trained. */
  function Lines(k: nat, d: nat): (r: seq<Line>)
    ensures |r| == LINES
  {
    seq<Line>(LINES, i requires 0 <= i < LINES => if i < k then Line(true, i, if i < d then 11 else 2, FIXED) else Line(false, 0, 0, 0))
  }

  function Trained(d: nat): (r: seq<PatternSet>)
    ensures |r| == SETS && r[0] == EMPTY_SET
  {
    seq<PatternSet>(SETS, i requires 0 <= i < SETS => if i == 1 && d > 0 then Seen(d) else EMPTY_SET)
  }

  /** Only what training the first d pages prefetches is marked, and the accesses to come do not use it. */
  ghost predicate Unmarked(f: Filter, d: nat) {
    && f.pfIssued == (if d <= 9 then 0 else d - 9) && f.pfUseful == 0
    && forall i :: 0 <= i < SLOTS ==> !f.useful[i] && (f.tag[i] == 0 || (f.tag[i] == 20 && i < d))
  }

  ghost predicate Opened(s: Spp, k: nat) {
    && StOk(s.st) && s.st.lines == Lines(k, 0) && s.pt == Trained(0) && Unmarked(s.filter, 0) && s.ghr == EmptyRegister()
  }

  ghost predicate Drilled(s: Spp, d: nat) {
    && StOk(s.st) && s.st.lines == Lines(PAGES, d) && s.pt == Trained(d) && s.ghr == EmptyRegister()
    && Unmarked(s.filter, d)
  }

  lemma DemandUnmarked(f: Filter, d: nat, slot: nat, tag: nat)
    requires Unmarked(f, d) && slot < SLOTS && tag in {1, 2, 11}
    ensures Check(f, slot, tag, Demand) == f
  {
  }

  lemma OpenFirst(s: Spp, k: nat)
    requires Opened(s, k) && k < PAGES
    ensures var r := ReadSig(s.st, k, 1, NoHint);
      r.lastSig == 0 == r.currSig && StOk(r.table) && r.table.lines == Lines(k, 0)[k := Line(true, k, 1, 0)]
  {
    PageTag(k);
    assert Room(s.st, k);
    RoomIs(s.st, k, k, 1, NoHint);
    ReadSigKeeps(s.st, k, 1, NoHint);
  }

  lemma OpenSecond(t: SigTable, k: nat)
    requires StOk(t) && k < PAGES && t.lines == Lines(k, 0)[k := Line(true, k, 1, 0)]
    ensures var r := ReadSig(t, k, 2, NoHint);
      r.lastSig == 0 && r.currSig == FIXED && StOk(r.table) && r.table.lines == Lines(k + 1, 0)
  {
    PageTag(k);
    KnownIs(t, k, k, 2, NoHint);
    FixedSignature();
    ReadSigKeeps(t, k, 2, NoHint);
    assert t.lines[k := Line(true, k, 2, FIXED)] == Lines(k + 1, 0);
  }

  ghost predicate HalfOpened(s: Spp, k: nat)
    requires k < LINES
  {
    && StOk(s.st) && s.st.lines == Lines(k, 0)[k := Line(true, k, 1, 0)]
    && s.pt == Trained(0) && Unmarked(s.filter, 0) && s.ghr == EmptyRegister()
  }

  lemma OpenAccess(threshold: nat, s: Spp, k: nat) returns (t: Spp)
    requires Opened(s, k) && k < PAGES
    ensures HalfOpened(t, k) && Visits(Plain(threshold), s, k, 1, t)
  {
    var r := ReadSig(s.st, k, 1, NoHint);
    OpenFirst(s, k);
    DemandUnmarked(s.filter, 0, k, 1);
    t := QuietAccess(threshold, s, k, 1, r);
  }

  lemma NextAccess(threshold: nat, s: Spp, k: nat) returns (t: Spp)
    requires k < PAGES && HalfOpened(s, k)
    ensures Opened(t, k + 1) && Visits(Plain(threshold), s, k, 2, t)
  {
    var r := ReadSig(s.st, k, 2, NoHint);
    OpenSecond(s.st, k);
    DemandUnmarked(s.filter, 0, k, 2);
    t := QuietAccess(threshold, s, k, 2, r);
  }

  lemma DrillRead(s: Spp, d: nat)
    requires Drilled(s, d) && d < PAGES
    ensures var r := ReadSig(s.st, d, 11, NoHint);
      r.lastSig == FIXED && r.currSig == FIXED && r.delta == STEP && StOk(r.table) && r.table.lines == Lines(PAGES, d + 1)
  {
    PageTag(d);
    KnownIs(s.st, d, d, 11, NoHint);
    FixedSignature();
    ReadSigKeeps(s.st, d, 11, NoHint);
    assert s.st.lines[d := Line(true, d, 11, FIXED)] == Lines(PAGES, d + 1);
  }

  lemma DrillTrains(d: nat, delta: int)
    requires d < PAGES && delta == STEP
    ensures Trained(d)[1 := Update(Trained(d)[1], delta)] == Trained(d + 1)
  {
    if d == 0 { FirstSeen(EMPTY_SET); } else { SeenAgain(d); }
  }

  lemma DivBounds(x: nat, n: nat)
    requires n > 0
    ensures x / n * n <= x < (x / n + 1) * n
  {
  }

  lemma ShareIs(n: nat)
    requires n > 0
    ensures Share(n) >= 90 <==> n >= 10
  {
    DivBounds(100 * (n - 1), n);
    if Share(n) >= 90 { MulMonotone(Share(n), 90, n); } else { MulMonotone(90, Share(n) + 1, n); }
  }

  /** The filter after that access: from the tenth training on, a prefetch is marked. */
  function DrillFilter(f: Filter, d: nat): Filter
    requires d < PAGES
  {
    var g := Check(f, d % SLOTS, 11, Demand);
    if Share(d + 1) >= 90 then Check(g, d % SLOTS, 20, L2Prefetch) else g
  }

  lemma DrillMarks(f: Filter, d: nat)
    requires d < PAGES && Unmarked(f, d)
    ensures Unmarked(DrillFilter(f, d), d + 1)
  {
    DemandUnmarked(f, d, d, 11);
    ShareIs(d + 1);
  }

  lemma DrillLearned(threshold: nat, s: Spp, d: nat)
    requires Drilled(s, d) && d < PAGES
    ensures Steps(threshold, s, d, 11, ReadSig(s.st, d, 11, NoHint).table, Trained(d + 1))
  {
    var r := ReadSig(s.st, d, 11, NoHint);
    DrillRead(s, d);
    DrillTrains(d, r.delta);
    SteppingLearned(threshold, s, d, 11, r, Trained(d + 1));
  }

  lemma DrillAccess(threshold: nat, s: Spp, d: nat, table: SigTable, pt: seq<PatternSet>) returns (t: Spp)
    requires Steps(threshold, s, d, 11, table, pt) && d < PAGES && 0 < threshold <= 90 && pt[1] == Seen(d + 1)
    ensures Visits(Plain(threshold), s, d, 11, t) && t == Spp(table, pt, DrillFilter(s.filter, d), s.ghr)
  {
    t := SteppingAccess(threshold, s, d, 11, table, pt, d + 1);
  }

  /** The access to page d trains the step once more. */
  lemma DrillNext(threshold: nat, s: Spp, d: nat) returns (t: Spp)
    requires Drilled(s, d) && d < PAGES && 0 < threshold <= 90
    ensures Drilled(t, d + 1) && Visits(Plain(threshold), s, d, 11, t)
  {
    DrillLearned(threshold, s, d);
    t := DrillAccess(threshold, s, d, ReadSig(s.st, d, 11, NoHint).table, Trained(d + 1));
    DrillRead(s, d);
    DrillMarks(s.filter, d);
  }

  // ---------------------------------------------------------------------------------------------
  // 1024 pages are opened: each leaves one prefetch unused

  function SlotOf(k: nat): nat { (PAGES + k) % SLOTS }

  function Issued(k: nat): nat { if 6 + k <= COUNTER_MAX then 6 + k else 6 + k - 512 }

  /** The slots of the first k pages hold an unused prefetch, the others none. */
  ghost predicate Marked(f: Filter, k: nat) {
    && f.pfIssued == Issued(k) && f.pfUseful == 0
    && forall i :: 0 <= i < SLOTS ==>
         && !f.useful[SlotOf(i)]
         && if i < k then f.valid[SlotOf(i)] && f.tag[SlotOf(i)] == 11 else f.tag[SlotOf(i)] in {0, 20}
  }

  ghost predicate Filled(s: Spp, k: nat) {
    PagesBelow(s.st, PAGES + k) && s.pt == Trained(PAGES) && s.ghr == EmptyRegister() && Marked(s.filter, k)
  }

  /** The slots of different pages differ, and every slot is one of them. */
  lemma SlotsDiffer(i: nat, j: nat)
    requires i < SLOTS && j < SLOTS && i != j
    ensures SlotOf(i) != SlotOf(j)
  {
  }

  lemma MarkOne(f: Filter, k: nat)
    requires Marked(f, k) && k < SLOTS
    ensures Check(f, SlotOf(k), 1, Demand) == f && Check(f, SlotOf(k), 2, Demand) == f
    ensures Marked(Check(f, SlotOf(k), 11, L2Prefetch), k + 1)
  {
    var t := Check(f, SlotOf(k), 11, L2Prefetch);
    assert f.tag[SlotOf(k)] in {0, 20};
    forall i | 0 <= i < SLOTS
      ensures !t.useful[SlotOf(i)]
      ensures if i < k + 1 then t.valid[SlotOf(i)] && t.tag[SlotOf(i)] == 11 else t.tag[SlotOf(i)] in {0, 20}
    {
      if i != k { SlotsDiffer(i, k); }
    }
  }

  /** The next page has been opened with its first block. */
  ghost predicate HalfFilled(s: Spp, k: nat) {
    && PagesBelow(s.st, PAGES + k + 1) && s.pt == Trained(PAGES) && s.ghr == EmptyRegister() && Marked(s.filter, k)
    && exists w: nat :: w < LINES && s.st.lines[w] == Line(true, PAGES + k, 1, 0)
  }

  lemma FillFirst(threshold: nat, s: Spp, k: nat) returns (t: Spp)
    requires Filled(s, k) && k < SLOTS
    ensures HalfFilled(t, k) && Visits(Plain(threshold), s, PAGES + k, 1, t)
  {
    var r := ReadSig(s.st, PAGES + k, 1, NoHint);
    NewPage(s.st, PAGES + k, 1);
    MarkOne(s.filter, k);
    t := QuietAccess(threshold, s, PAGES + k, 1, r);
  }

  lemma FillSecond(threshold: nat, s: Spp, k: nat) returns (t: Spp)
    requires HalfFilled(s, k) && k < SLOTS && 0 < threshold <= 90
    ensures Filled(t, k + 1) && Visits(Plain(threshold), s, PAGES + k, 2, t)
  {
    var r := ReadSig(s.st, PAGES + k, 2, NoHint);
    SecondBlock(s.st, PAGES + k);
    MarkOne(s.filter, k);
    ShareIs(PAGES);
    SteppingLearned(threshold, s, PAGES + k, 2, r, s.pt);
    t := SteppingAccess(threshold, s, PAGES + k, 2, r.table, s.pt, PAGES);
  }

  // ---------------------------------------------------------------------------------------------
  // 1024 other pages use these prefetches, whose lines share their slots and tags

  /** All slots hold a prefetch; those of the first j pages have been used. */
  ghost predicate Spent(f: Filter, j: nat) {
    && f.pfIssued == Issued(SLOTS) && f.pfUseful == j
    && forall i :: 0 <= i < SLOTS ==>
         f.valid[SlotOf(i)] && f.tag[SlotOf(i)] == 11 && (f.useful[SlotOf(i)] <==> i < j)
  }

  ghost predicate Used(s: Spp, j: nat) {
    PagesBelow(s.st, PAGES + SLOTS + j) && s.pt == Trained(PAGES) && s.ghr == EmptyRegister() && Spent(s.filter, j)
  }

  lemma SpendOne(f: Filter, j: nat)
    requires Spent(f, j) && j < SLOTS
    ensures Spent(Check(f, SlotOf(j), 11, Demand), j + 1)
  {
    var t := Check(f, SlotOf(j), 11, Demand);
    assert f.valid[SlotOf(j)] && !f.useful[SlotOf(j)];
    forall i | 0 <= i < SLOTS
      ensures t.valid[SlotOf(i)] && t.tag[SlotOf(i)] == 11 && (t.useful[SlotOf(i)] <==> i < j + 1)
    {
      if i != j { SlotsDiffer(i, j); }
    }
  }

  lemma UseRead(s: Spp, j: nat)
    requires Used(s, j) && j < SLOTS
    ensures var r := ReadSig(s.st, PAGES + SLOTS + j, 11, NoHint);
      && Reads(s, PAGES + SLOTS + j, 11, r) && r.lastSig == 0 == r.currSig && PagesBelow(r.table, PAGES + SLOTS + j + 1)
  {
    NewPage(s.st, PAGES + SLOTS + j, 11);
  }

  lemma SlotAgain(j: nat)
    ensures (PAGES + SLOTS + j) % SLOTS == SlotOf(j)
  {
  }

  lemma UseVisit(threshold: nat, s: Spp, page: nat, slot: nat, r: Read) returns (t: Spp)
    requires Reads(s, page, 11, r) && r.lastSig == 0 == r.currSig && s.pt[0].cSig == 0 && slot == page % SLOTS
    ensures Visits(Plain(threshold), s, page, 11, t)
    ensures t == Spp(r.table, s.pt, Check(s.filter, slot, 11, Demand), s.ghr)
  {
    t := QuietAccess(threshold, s, page, 11, r);
  }

  lemma UsedNext(s: Spp, j: nat, table: SigTable)
    requires Used(s, j) && j < SLOTS && PagesBelow(table, PAGES + SLOTS + j + 1)
    ensures Used(Spp(table, s.pt, Check(s.filter, SlotOf(j), 11, Demand), s.ghr), j + 1)
  {
    SpendOne(s.filter, j);
  }

  lemma UseAccess(threshold: nat, s: Spp, j: nat) returns (t: Spp)
    requires Used(s, j) && j < SLOTS
    ensures Used(t, j + 1) && Visits(Plain(threshold), s, PAGES + SLOTS + j, 11, t)
  {
    var r := ReadSig(s.st, PAGES + SLOTS + j, 11, NoHint);
    UseRead(s, j);
    SlotAgain(j);
    UsedNext(s, j, r.table);
    t := UseVisit(threshold, s, PAGES + SLOTS + j, SlotOf(j), r);
  }

  // ---------------------------------------------------------------------------------------------
  // The whole history

  lemma EmptyOpened()
    ensures Opened(EmptySpp(LINES, SETS), 0)
  {
    var s := EmptySpp(LINES, SETS);
    assert s.st.lines == Lines(0, 0) && s.pt == Trained(0);
  }

  lemma OpenPage(threshold: nat, run: seq<Spp>, k: nat) returns (more: seq<Spp>)
    requires k < PAGES && History(Plain(threshold), run) && Opened(run[|run| - 1], k)
    ensures History(Plain(threshold), more) && Opened(more[|more| - 1], k + 1)
  {
    var t := OpenAccess(threshold, run[|run| - 1], k);
    Then(Plain(threshold), run, k, 1, t);
    var u := NextAccess(threshold, t, k);
    Then(Plain(threshold), run + [t], k, 2, u);
    more := run + [t] + [u];
  }

  lemma {:induction false} Opening(threshold: nat, k: nat) returns (run: seq<Spp>)
    requires k <= PAGES
    ensures History(Plain(threshold), run) && Opened(run[|run| - 1], k)
  {
    if k == 0 {
      run := [EmptySpp(LINES, SETS)];
      EmptyOpened();
    } else {
      run := Opening(threshold, k - 1);
      run := OpenPage(threshold, run, k - 1);
    }
  }

  lemma {:induction false} Drilling(threshold: nat, d: nat) returns (run: seq<Spp>)
    requires d <= PAGES && 0 < threshold <= 90
    ensures History(Plain(threshold), run) && Drilled(run[|run| - 1], d)
  {
    if d == 0 {
      run := Opening(threshold, PAGES);
    } else {
      run := Drilling(threshold, d - 1);
      var t := DrillNext(threshold, run[|run| - 1], d - 1);
      Then(Plain(threshold), run, d - 1, 11, t);
      run := run + [t];
    }
  }

  lemma FillPage(threshold: nat, run: seq<Spp>, k: nat) returns (more: seq<Spp>)
    requires k < SLOTS && 0 < threshold <= 90 && History(Plain(threshold), run) && Filled(run[|run| - 1], k)
    ensures History(Plain(threshold), more) && Filled(more[|more| - 1], k + 1)
  {
    var t := FillFirst(threshold, run[|run| - 1], k);
    Then(Plain(threshold), run, PAGES + k, 1, t);
    var u := FillSecond(threshold, t, k);
    Then(Plain(threshold), run + [t], PAGES + k, 2, u);
    more := run + [t] + [u];
  }

  lemma {:induction false} Filling(threshold: nat, k: nat) returns (run: seq<Spp>)
    requires k <= SLOTS && 0 < threshold <= 90
    ensures History(Plain(threshold), run) && Filled(run[|run| - 1], k)
    decreases k
  {
    if k == 0 {
      run := Drilling(threshold, PAGES);
    } else {
      run := Filling(threshold, k - 1);
      run := FillPage(threshold, run, k - 1);
    }
  }

  lemma AllMarked(f: Filter)
    requires Marked(f, SLOTS)
    ensures Spent(f, 0)
  {
  }

  lemma {:induction false} Using(threshold: nat, j: nat) returns (run: seq<Spp>)
    requires j <= SLOTS && 0 < threshold <= 90
    ensures History(Plain(threshold), run) && Used(run[|run| - 1], j)
    decreases j
  {
    if j == 0 {
      run := Filling(threshold, SLOTS);
      AllMarked(run[|run| - 1].filter);
    } else {
      run := Using(threshold, j - 1);
      var t := UseAccess(threshold, run[|run| - 1], j - 1);
      Then(Plain(threshold), run, PAGES + SLOTS + j - 1, 11, t);
      run := run + [t];
    }
  }

  const LAST: nat := PAGES + SLOTS + SLOTS

  /** The first block of the last page. */
  lemma LastAccess(threshold: nat, s: Spp) returns (t: Spp)
    requires Used(s, SLOTS)
    ensures Visits(Plain(threshold), s, LAST, 1, t) && t.filter == s.filter && t.pt == s.pt && t.ghr == s.ghr
    ensures PagesBelow(t.st, LAST + 1) && exists w: nat :: w < LINES && t.st.lines[w] == Line(true, LAST, 1, 0)
  {
    NewPage(s.st, LAST, 1);
    assert LAST % SLOTS == SlotOf(0) && s.filter.tag[SlotOf(0)] == 11;
    t := QuietAccess(threshold, s, LAST, 1, ReadSig(s.st, LAST, 1, NoHint));
  }

  /** The lookahead of this access leaves its arrays and never ends. */
  ghost predicate Overflows(c: Setup, s: Spp, page: nat, offset: nat) {
    && StOk(s.st)
    && var r, sig := TripOf(c, s, page, offset), ReadOf(s, page, offset).currSig;
       !Fits(r.t, NewSig, r.accuracy, c.threshold, sig) && !Ends(r.t, NewSig, r.accuracy, c.threshold, sig)
  }

  /** The second block of that page meets the trained set with the accuracy that has been reached. */
  lemma LastOverflows(threshold: nat, s: Spp)
    requires 25 <= threshold <= 45 && Spent(s.filter, SLOTS) && s.pt == Trained(PAGES) && s.ghr == EmptyRegister()
    requires PagesBelow(s.st, LAST + 1) && exists w: nat :: w < LINES && s.st.lines[w] == Line(true, LAST, 1, 0)
    ensures Accuracy(s.filter) == 197 && Overflows(Plain(threshold), s, LAST, 2)
  {
    NoHints(2, 0);
    SecondBlock(s.st, LAST);
    SureFails(TripOf(Plain(threshold), s, LAST, 2).t, 197, threshold);
  }

  /** Accesses alone bring an empty prefetcher to a state whose next access overflows, although the
      lookahead of every access before it ends within two passes. */
  lemma AccessesOverflow(threshold: nat) returns (run: seq<Spp>)
    requires 25 <= threshold <= 45
    ensures History(Plain(threshold), run)
    ensures Accuracy(run[|run| - 1].filter) == 197 && Overflows(Plain(threshold), run[|run| - 1], LAST, 2)
  {
    run := Using(threshold, SLOTS);
    var t := LastAccess(threshold, run[|run| - 1]);
    Then(Plain(threshold), run, LAST, 1, t);
    run := run + [t];
    LastOverflows(threshold, t);
  }
}
