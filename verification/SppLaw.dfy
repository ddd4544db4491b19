/**
 What SPP learns from a stream (prefetcher/spp_dev2.cc): after pages have been accessed at the same three
 offsets, the first two of these make the lookahead queue the third, whatever else its tables hold.
 */
module SppLaw {
  import opened Bits
  import opened SppPattern
  import opened SppFilter
  import opened SppLevel
  import opened SppSignature
  import opened SppRuns
  import opened SppTables
  import opened SppWalk

  /** t is the state that this access leaves when its lookahead has ended. */
  ghost predicate Follows(c: Setup, s: Spp, page: nat, offset: nat, t: Spp) {
    StOk(s.st) && exists n: nat :: !WalkOf(c, s, page, offset, n).look.again && t == AccessIn(c, s, page, offset, n)
  }

  lemma FollowsLearned(c: Setup, s: Spp, page: nat, offset: nat, t: Spp)
    requires Follows(c, s, page, offset, t)
    ensures var l := LearnedFrom(c, s, page, offset); t.st == l.st == ReadOf(s, page, offset).table && t.pt == l.pt && StOk(t.st)
  {
    ReadSigKeeps(s.st, page, offset, HintOf(s.ghr, offset));
  }

  /** The page is in the signature table, with this last offset and signature. */
  ghost predicate PageAt(s: SigTable, page: nat, offset: nat, sig: nat) {
    StOk(s) && exists w: nat :: w < |s.lines| && s.lines[w] == Line(true, Low(page, ST_TAG_BIT), offset, sig)
  }

  /** A new page, and an offset of which the register knows nothing. */
  ghost predicate Fresh(s: Spp, page: nat, offset: nat) {
    StOk(s.st) && Unknown(s.st.lines, Low(page, ST_TAG_BIT)) && HintOf(s.ghr, offset) == NoHint
  }

  lemma FirstBlock(c: Setup, s: Spp, page: nat, x: nat, t: Spp)
    requires Fresh(s, page, x) && Follows(c, s, page, x, t)
    ensures PageAt(t.st, page, x, 0) && t.pt == s.pt
  {
    FollowsLearned(c, s, page, x, t);
    RoomExists(s.st, |s.st.lines|);
    var w: nat :| Room(s.st, w);
    RoomIs(s.st, w, page, x, NoHint);
    assert t.st.lines[w] == Line(true, Low(page, ST_TAG_BIT), x, 0);
  }

  /** What a page in the table answers to its next offset. */
  lemma KnownBlock(s: Spp, page: nat, x: nat, sig: nat, y: nat)
    requires PageAt(s.st, page, x, sig) && x != y
    ensures var r := ReadOf(s, page, y);
      r.lastSig == sig && r.currSig == NewSig(sig, y - x) && r.delta == y - x && PageAt(r.table, page, y, NewSig(sig, y - x))
  {
    var w: nat :| w < |s.st.lines| && s.st.lines[w] == Line(true, Low(page, ST_TAG_BIT), x, sig);
    var hint := HintOf(s.ghr, y);
    KnownIs(s.st, w, page, y, hint);
    ReadSigKeeps(s.st, page, y, hint);
    var t := ReadSig(s.st, page, y, hint).table;
    assert t.lines[w] == Line(true, Low(page, ST_TAG_BIT), y, NewSig(sig, y - x));
  }

  lemma NextBlock(c: Setup, s: Spp, page: nat, x: nat, sig: nat, y: nat, t: Spp)
    requires PageAt(s.st, page, x, sig) && x != y && Follows(c, s, page, y, t)
    ensures PageAt(t.st, page, y, NewSig(sig, y - x))
    ensures sig == 0 ==> t.pt == s.pt
    ensures var i := c.setOf(sig); sig != 0 && i < |s.pt| ==> t.pt == s.pt[i := Update(s.pt[i], y - x)]
  {
    KnownBlock(s, page, x, sig, y);
    FollowsLearned(c, s, page, y, t);
  }

  /** Three accesses to a new page. */
  ghost predicate WalksPage(c: Setup, s: Spp, page: nat, x: nat, y: nat, z: nat, t: Spp) {
    Fresh(s, page, x) && exists m, m' :: Follows(c, s, page, x, m) && Follows(c, m, page, y, m') && Follows(c, m', page, z, t)
  }

  /** The signature after the first two of these offsets. */
  function StreamSig(x: nat, y: nat): nat { NewSig(0, y - x) }

  /** Offsets within a page never give the empty signature. */
  lemma StreamSigned(x: nat, y: nat)
    requires x != y && x < 64 && y < 64
    ensures StreamSig(x, y) != 0
  {
    var k := SigDelta(y - x);
    assert Pow2(6) == 64 && 0 < k < 128;
    assert Join(0, 0, 3) == 0;
    XorZero(k);
    PartsDivide(k, SIG_BIT);
    assert Pow2(12) == 4096;
    LowOfSmall(k, SIG_BIT);
  }

  /** They train the set of the signature before the third one, with the last delta, and no other set. */
  lemma PageTrains(c: Setup, s: Spp, page: nat, x: nat, y: nat, z: nat, t: Spp)
    requires WalksPage(c, s, page, x, y, z, t) && x != y && y != z && StreamSig(x, y) != 0 && c.setOf(StreamSig(x, y)) < |s.pt|
    ensures var i := c.setOf(StreamSig(x, y)); t.pt == s.pt[i := Update(s.pt[i], z - y)]
  {
    var m, m' :| Follows(c, s, page, x, m) && Follows(c, m, page, y, m') && Follows(c, m', page, z, t);
    FirstBlock(c, s, page, x, m);
    NextBlock(c, m, page, x, 0, y, m');
    NextBlock(c, m', page, y, StreamSig(x, y), z, t);
  }

  /** Several pages are walked, one after the other. */
  ghost predicate WalksPages(c: Setup, s: Spp, pages: seq<nat>, x: nat, y: nat, z: nat, t: Spp) {
    if pages == [] then t == s
    else
      var n := |pages| - 1;
      exists m :: WalksPages(c, s, pages[..n], x, y, z, m) && WalksPage(c, m, pages[n], x, y, z, t)
  }

  /** The set predicts d: it has seen nothing else. */
  ghost predicate Predicts(s: PatternSet, d: int) { s.cSig > 0 && s.delta[0] == d && s.cDelta[0] == s.cSig - 1 && s.cSig <= C_SIG_MAX }

  lemma FirstPredicts(d: int)
    requires d != 0
    ensures Predicts(Update(EMPTY_SET, d), d) && Update(EMPTY_SET, d).cSig == 1
  {
    NoMatch(EMPTY_SET.delta, d);
    FirstVictim(EMPTY_SET.cDelta, WAYS);
  }

  lemma StillPredicts(s: PatternSet, d: int)
    requires Predicts(s, d)
    ensures Predicts(Update(s, d), d) && Update(s, d).cSig >= 2
  {
    assert Match(s.delta, d) == 0;
  }

  lemma {:induction false} PagesTrain(c: Setup, s: Spp, pages: seq<nat>, x: nat, y: nat, z: nat, t: Spp)
    requires WalksPages(c, s, pages, x, y, z, t) && x != y && y != z && StreamSig(x, y) != 0 && pages != []
    requires c.setOf(StreamSig(x, y)) < |s.pt| && s.pt[c.setOf(StreamSig(x, y))] == EMPTY_SET
    ensures var i := c.setOf(StreamSig(x, y));
      && |t.pt| == |s.pt| && Predicts(t.pt[i], z - y) && (|pages| >= 2 ==> t.pt[i].cSig >= 2)
      && forall k :: 0 <= k < |s.pt| && k != i ==> t.pt[k] == s.pt[k]
  {
    var n := |pages| - 1;
    var m :| WalksPages(c, s, pages[..n], x, y, z, m) && WalksPage(c, m, pages[n], x, y, z, t);
    if n > 0 { PagesTrain(c, s, pages[..n], x, y, z, m); }
    OnePage(c, m, pages[n], x, y, z, t, c.setOf(StreamSig(x, y)));
  }

  /** Set i, which predicted d or was empty, has been trained with d once more, and no other set. */
  ghost predicate TrainedOnce(pt: seq<PatternSet>, pt': seq<PatternSet>, i: nat, d: int) {
    && i < |pt| == |pt'| && Predicts(pt'[i], d) && (pt[i] != EMPTY_SET ==> pt'[i].cSig >= 2)
    && forall k :: 0 <= k < |pt| && k != i ==> pt'[k] == pt[k]
  }

  lemma UpdateTrains(pt: seq<PatternSet>, i: nat, d: int)
    requires d != 0 && i < |pt| && (pt[i] == EMPTY_SET || Predicts(pt[i], d))
    ensures TrainedOnce(pt, pt[i := Update(pt[i], d)], i, d)
  {
    if pt[i] == EMPTY_SET { FirstPredicts(d); } else { StillPredicts(pt[i], d); }
  }

  lemma OnePage(c: Setup, m: Spp, page: nat, x: nat, y: nat, z: nat, t: Spp, i: nat)
    requires WalksPage(c, m, page, x, y, z, t) && x != y && y != z && StreamSig(x, y) != 0 && i == c.setOf(StreamSig(x, y))
    requires i < |m.pt| && (m.pt[i] == EMPTY_SET || Predicts(m.pt[i], z - y))
    ensures TrainedOnce(m.pt, t.pt, i, z - y)
  {
    UpdateTrains(m.pt, i, z - y);
    PageTrains(c, m, page, x, y, z, t);
  }

  /** A set that predicts d queues d first, with a confidence of at least 50. */
  lemma PredictionQueued(s: PatternSet, d: int, accuracy: nat, threshold: nat)
    requires Predicts(s, d) && s.cSig >= 2 && threshold <= 50
    ensures var q := SetLevel(s, 0, accuracy, 100, threshold); q != [] && q[0].delta == d && q[0].confidence >= 50
  {
    var conf := Confidences(s, 0, accuracy, 100);
    HalfAtLeast(s.cSig);
    assert conf[0] >= 50;
    LevelFirst(s.delta, conf, threshold, WAYS);
  }

  lemma HalfAtLeast(n: nat)
    requires n >= 2
    ensures 100 * (n - 1) / n >= 50
  {
  }

  lemma {:induction false} LevelFirst(delta: seq<int>, conf: seq<nat>, threshold: nat, n: nat)
    requires 0 < n <= |delta| == |conf| && conf[0] >= threshold
    ensures Level(delta, conf, threshold, n) != [] && Level(delta, conf, threshold, n)[0] == Candidate(delta[0], conf[0])
  {
    if n > 1 { LevelFirst(delta, conf, threshold, n - 1); } else { assert Level(delta, conf, threshold, 0) == []; }
  }

  /** What was handled first stays first. */
  lemma {:induction false} FirstHandled(r: Trip, sig: nat, f: Filter, g: seq<GhrEntry>, n: nat)
    requires n > 0 && LevelAt(r, Start(sig)) != []
    ensures var h := WalkTo(r, Begin(sig, r.line, f, g), n).tables.handled;
      h != [] && HandledAs(r.c, r.line, h[0], r.line, LevelAt(r, Start(sig))[0])
  {
    var w := WalkTo(r, Begin(sig, r.line, f, g), n - 1);
    HandleAllMeaning(r.c, r.line, w.base, w.look.sig, w.tables, LevelAt(r, w.look));
    if n > 1 { FirstHandled(r, sig, f, g, n - 1); }
  }

  /** After two or more pages have been walked at the offsets x, y and z, a new page that is accessed at x and y
      has its line at z queued first, and handled. */
  lemma StreamLearned(c: Setup, s: Spp, pages: seq<nat>, x: nat, y: nat, z: nat, t: Spp, page: nat, u: Spp, n: nat)
    requires WalksPages(c, s, pages, x, y, z, t) && |pages| >= 2 && x != y && y != z && x < 64 && y < 64 && c.threshold <= 50
    requires c.setOf(StreamSig(x, y)) < |s.pt| && s.pt[c.setOf(StreamSig(x, y))] == EMPTY_SET
    requires Fresh(t, page, x) && Follows(c, t, page, x, u) && n > 0
    ensures StOk(u.st)
    ensures var h := WalkOf(c, u, page, y, n).tables.handled;
      h != [] && h[0].base == LineOf(page, y) && h[0].candidate.delta == z - y && h[0].action.line == LineOf(page, z)
  {
    StreamSigned(x, y);
    PagesTrain(c, s, pages, x, y, z, t);
    FirstBlock(c, t, page, x, u);
    KnownBlock(u, page, x, 0, y);
    var sig := StreamSig(x, y);
    var r, l := TripOf(c, u, page, y), LearnedFrom(c, u, page, y);
    assert l.pt == u.pt == t.pt;
    PredictionQueued(t.pt[c.setOf(sig)], z - y, r.accuracy, c.threshold);
    assert LevelAt(r, Start(sig)) == SetLevel(t.pt[c.setOf(sig)], 0, r.accuracy, 100, c.threshold);
    FirstHandled(r, sig, l.filter, l.ghr, n);
  }

  // ---------------------------------------------------------------------------------------------
  // Signatures

  lemma {:induction false} LowJoin(h: nat, n: nat, m: nat)
    ensures Low(Join(h, 0, m), n + m) == Join(Low(h, n), 0, m)
  {
    if m > 0 { LowJoin(h, n, m - 1); }
  }

  /** The low bits of a signature decide three more of the next one. */
  lemma NewSigLow(s: nat, s': nat, d: int, n: nat)
    requires Low(s, n) == Low(s', n) && n + SIG_SHIFT <= SIG_BIT
    ensures Low(NewSig(s, d), n + SIG_SHIFT) == Low(NewSig(s', d), n + SIG_SHIFT)
  {
    var k, m := SigDelta(d), n + SIG_SHIFT;
    LowLow(Xor(Join(s, 0, SIG_SHIFT), k), m, SIG_BIT - m);
    LowLow(Xor(Join(s', 0, SIG_SHIFT), k), m, SIG_BIT - m);
    XorLow(Join(s, 0, SIG_SHIFT), k, m);
    XorLow(Join(s', 0, SIG_SHIFT), k, m);
    LowJoin(s, n, SIG_SHIFT);
    LowJoin(s', n, SIG_SHIFT);
  }

  lemma LowAgain(x: nat)
    ensures Low(Low(x, SIG_BIT), SIG_BIT) == Low(x, SIG_BIT)
  {
    LowLow(x, SIG_BIT, 0);
  }

  /** A signature depends on the last four deltas only. */
  lemma SignatureForgets(s: nat, s': nat, a: int, b: int, c: int, d: int)
    ensures NewSig(NewSig(NewSig(NewSig(s, a), b), c), d) == NewSig(NewSig(NewSig(NewSig(s', a), b), c), d)
  {
    NewSigLow(s, s', a, 0);
    var s1, t1 := NewSig(s, a), NewSig(s', a);
    NewSigLow(s1, t1, b, 3);
    var s2, t2 := NewSig(s1, b), NewSig(t1, b);
    NewSigLow(s2, t2, c, 6);
    var s3, t3 := NewSig(s2, c), NewSig(t2, c);
    NewSigLow(s3, t3, d, 9);
    LowAgain(Xor(Join(s3, 0, SIG_SHIFT), SigDelta(d)));
    LowAgain(Xor(Join(t3, 0, SIG_SHIFT), SigDelta(d)));
  }

  // ---------------------------------------------------------------------------------------------
  // Page crossings

  lemma {:induction false} HintIs(e: seq<GhrEntry>, way: nat, offset: nat, n: nat)
    requires way < |e| && e[way].offset == offset && e[way].confidence > 0 && n <= |e|
    requires forall k :: 0 <= k < |e| && k != way && e[k].offset == offset ==> e[k].confidence < e[way].confidence
    ensures way < n ==> HintScan(e, offset, n) == (e[way].confidence, way)
    ensures way >= n ==> HintScan(e, offset, n).0 < e[way].confidence
  {
    if n > 0 { HintIs(e, way, offset, n - 1); }
  }

  /** A candidate that leaves the page, if the register keeps it as the most confident one for its offset, gives
      the next page that starts at this offset the signature that the stream would have had there. */
  lemma BootstrapsNextPage(c: Setup, line: int, base: int, sig: nat, t: Tables, q: Candidate, s: Spp, page: nat)
    requires PageOf(base + q.delta) != PageOf(line) && q.confidence > 0
    requires var offset, way := (base + q.delta) % LINES_PER_PAGE, GhrWay(t.ghr, (base + q.delta) % LINES_PER_PAGE);
      && way < |t.ghr|
      && forall k :: 0 <= k < |t.ghr| && k != way && t.ghr[k].offset == offset ==> t.ghr[k].confidence < q.confidence
    requires s.ghr == HandleOne(c, line, base, sig, t, q).ghr && StOk(s.st) && Unknown(s.st.lines, Low(page, ST_TAG_BIT))
    ensures ReadOf(s, page, (base + q.delta) % LINES_PER_PAGE).currSig == NewSig(sig, q.delta)
    ensures ReadOf(s, page, (base + q.delta) % LINES_PER_PAGE).lastSig == 0
  {
    var offset := (base + q.delta) % LINES_PER_PAGE;
    var way := GhrWay(t.ghr, offset);
    HintIs(s.ghr, way, offset, |s.ghr|);
    RoomExists(s.st, |s.st.lines|);
    var w: nat :| Room(s.st, w);
    RoomIs(s.st, w, page, offset, Hint(sig, q.delta));
  }

  // ---------------------------------------------------------------------------------------------
  // The filter

  /** An L2 prefetch puts its line in the filter, the first demand counts it as used and no later one does,
      and an eviction lets it be prefetched again. */
  lemma FilterLaws(f: Filter, slot: nat, tag: nat)
    requires slot < SLOTS && !Present(f, slot, tag)
    ensures var p := Check(f, slot, tag, L2Prefetch);
      && Present(p, slot, tag)
      && (var d := Check(p, slot, tag, Demand);
          d.pfUseful == p.pfUseful + 1 && Present(d, slot, tag) && Check(d, slot, tag, Demand) == d)
      && !Present(Check(p, slot, tag, Evict), slot, tag)
    ensures Check(f, slot, tag, LlcPrefetch) == f
    ensures f.tag[slot] == tag ==> Present(Check(f, slot, tag, Demand), slot, tag)
    ensures tag != 0 ==> !Present(Check(Check(f, slot, tag, Evict), slot, tag, Demand), slot, tag)
  {
  }
}
