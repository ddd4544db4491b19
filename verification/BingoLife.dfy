/**
 The life of a region in Bingo (prefetcher/bingo.cc) from its trigger to the pattern history, as a
 state machine over the contents of the three tables.
 */
module BingoLife {
  import opened Basics
  import opened Bits
  import opened IndexHash
  import opened BingoKeys
  import opened Rotation
  import opened BingoGenerations

  /** Widths of the history keys, log2 of the region length in blocks, and the index lengths of the
      filter and accumulation tables. */
  datatype Setup = Setup(c: Widths, p: nat, filterLen: nat, accLen: nat)

  predicate SetupOk(s: Setup) { WidthsOk(s.c) && s.p <= s.c.max <= REGION_BITS + s.p }

  /** A generation that has ended: its region, and the times of its trigger and of its end. */
  datatype Ended = Ended(g: Generation, region: nat, born: nat, end: nat)

  /** The contents of the three tables; and, as a record, the latest footprint sent for each history key,
      the number of generations begun, the generations sent so far, all accesses so far, and the time of
      the latest trigger of each region. */
  datatype Life = Life(
    filter: map<nat, Trigger>, acc: map<nat, Generation>, history: map<nat, seq<bool>>,
    latest: map<nat, Footprint>, begun: nat, sent: seq<Ended>, touches: seq<Touch>, born: map<nat, nat>)

  function BornOf(l: Life, region: nat): nat { if region in l.born then l.born[region] else 0 }

  /** Regions are in one table at most, every generation has its trigger and a second block, and each
      generation that was begun is either still accumulating or was sent exactly once. */
  ghost predicate TablesOk(s: Setup, l: Life) {
    && FilterOk(l.filter, s.filterLen, Pow2(s.p)) && AccOk(l.acc, s.accLen, Pow2(s.p))
    && Apart(l.filter, l.acc, s.filterLen, s.accLen)
    && HistoryOk(l.history, l.latest, s.c, Pow2(s.p))
    && l.begun == |l.acc| + |l.sent|
    && (forall i :: 0 <= i < |l.sent| ==> Footed(l.sent[i].g, Pow2(s.p)))
  }

  /** A region in the filter table was accessed at its trigger's offset only; a footprint, accumulating or
      sent, is exactly the set of offsets accessed from its trigger to now or to its end. */
  ghost predicate TouchesOk(s: Setup, l: Life) {
    && (forall k :: k in l.filter ==> FilterTouched(l, k, Hash(k, s.filterLen)))
    && (forall k :: k in l.acc ==> AccTouched(l, k, Hash(k, s.accLen)))
    && (forall i :: 0 <= i < |l.sent| ==> EndedOk(l.touches, l.sent[i]))
  }

  ghost predicate FilterTouched(l: Life, k: nat, region: nat)
    requires k in l.filter
  {
    && OnlyAt(l.touches, region, l.filter[k].offset, BornOf(l, region))
    && l.touches[BornOf(l, region)].pc == l.filter[k].pc
  }

  ghost predicate AccTouched(l: Life, k: nat, region: nat)
    requires k in l.acc
  {
    && BornOf(l, region) < |l.touches| && Triggered(l.touches[BornOf(l, region)], region, l.acc[k])
    && Exactly(l.acc[k].pattern, l.touches, region, BornOf(l, region), |l.touches|)
  }

  ghost predicate EndedOk(touches: seq<Touch>, e: Ended) {
    e.born < e.end <= |touches| && Triggered(touches[e.born], e.region, e.g) && Exactly(e.g.pattern, touches, e.region, e.born, e.end)
  }

  /** The access is the trigger of this generation: its region, its offset, and its PC. */
  predicate Triggered(t: Touch, region: nat, g: Generation) { t == Touch(region, g.offset, g.pc) }

  ghost predicate Inv(s: Setup, l: Life) { TablesOk(s, l) && TouchesOk(s, l) }

  function Marked(g: Generation, offset: nat): Generation
    requires offset < |g.pattern|
  {
    g.(pattern := g.pattern[offset := true])
  }

  function Logged(l: Life, region: nat, offset: nat, pc: nat): Life {
    l.(touches := l.touches + [Touch(Low(region, REGION_BITS), offset, pc)])
  }

  // ---------------------------------------------------------------------------------------------
  // An access to an accumulating region

  function MarkedLife(s: Setup, l: Life, region: nat, offset: nat, pc: nat): Life
    requires RegionKey(region, s.accLen) in l.acc && offset < |l.acc[RegionKey(region, s.accLen)].pattern|
  {
    var k := RegionKey(region, s.accLen);
    Logged(l, region, offset, pc).(acc := l.acc[k := Marked(l.acc[k], offset)])
  }

  lemma MarkTables(s: Setup, l: Life, region: nat, offset: nat, pc: nat)
    requires TablesOk(s, l) && RegionKey(region, s.accLen) in l.acc && offset < Pow2(s.p)
    ensures Footed(l.acc[RegionKey(region, s.accLen)], Pow2(s.p)) && TablesOk(s, MarkedLife(s, l, region, offset, pc))
  {
    var k := RegionKey(region, s.accLen);
    FootedMore(l.acc[k], Pow2(s.p), offset);
    assert l.acc[k := Marked(l.acc[k], offset)].Keys == l.acc.Keys;
    SizeOfKeys(l.acc, l.acc[k := Marked(l.acc[k], offset)]);
  }

  /** Footprints of other regions see nothing of an access. */
  lemma OtherTouches(s: Setup, l: Life, t: Life, region: nat, offset: nat, pc: nat)
    requires TouchesOk(s, l) && t.touches == Logged(l, region, offset, pc).touches
    requires forall r :: r != Low(region, REGION_BITS) ==> BornOf(t, r) == BornOf(l, r)
    ensures forall k :: k in l.filter && k in t.filter && t.filter[k] == l.filter[k] && k != RegionKey(region, s.filterLen) ==>
      FilterTouched(t, k, Hash(k, s.filterLen))
    ensures forall k :: k in l.acc && k in t.acc && t.acc[k] == l.acc[k] && k != RegionKey(region, s.accLen) ==>
      AccTouched(t, k, Hash(k, s.accLen))
    ensures forall i :: 0 <= i < |l.sent| ==> EndedOk(t.touches, l.sent[i])
  {
    var e := Touch(Low(region, REGION_BITS), offset, pc);
    forall k | k in l.filter && k in t.filter && t.filter[k] == l.filter[k] && k != RegionKey(region, s.filterLen)
      ensures FilterTouched(t, k, Hash(k, s.filterLen))
    {
      KeysHideRegions(k, region, s.filterLen);
      assert FilterTouched(l, k, Hash(k, s.filterLen));
      OnlyAtMore(l.touches, e, Hash(k, s.filterLen), l.filter[k].offset, BornOf(l, Hash(k, s.filterLen)));
    }
    forall k | k in l.acc && k in t.acc && t.acc[k] == l.acc[k] && k != RegionKey(region, s.accLen)
      ensures AccTouched(t, k, Hash(k, s.accLen))
    {
      KeysHideRegions(k, region, s.accLen);
      assert AccTouched(l, k, Hash(k, s.accLen));
      ExactlyOther(l.acc[k].pattern, l.touches, e, Hash(k, s.accLen), BornOf(l, Hash(k, s.accLen)));
    }
    forall i | 0 <= i < |l.sent| ensures EndedOk(t.touches, l.sent[i]) {
      assert EndedOk(l.touches, l.sent[i]);
      ExactlyPast(l.sent[i].g.pattern, l.touches, e, l.sent[i].region, l.sent[i].born, l.sent[i].end);
    }
  }

  lemma MarkTouches(s: Setup, l: Life, region: nat, offset: nat, pc: nat)
    requires TouchesOk(s, l) && Apart(l.filter, l.acc, s.filterLen, s.accLen)
    requires RegionKey(region, s.accLen) in l.acc && offset < |l.acc[RegionKey(region, s.accLen)].pattern|
    ensures TouchesOk(s, MarkedLife(s, l, region, offset, pc))
  {
    var t, k := MarkedLife(s, l, region, offset, pc), RegionKey(region, s.accLen);
    OtherTouches(s, l, t, region, offset, pc);
    ApartMeans(l.filter, l.acc, s.filterLen, s.accLen, region);
    KeysHideRegions(k, region, s.accLen);
    assert AccTouched(l, k, Hash(k, s.accLen));
    ExactlyMore(l.acc[k].pattern, l.touches, Touch(Low(region, REGION_BITS), offset, pc), BornOf(l, Low(region, REGION_BITS)));
    assert AccTouched(t, k, Hash(k, s.accLen));
  }

  lemma SizeOfKeys<V, W>(a: map<nat, V>, b: map<nat, W>)
    requires a.Keys == b.Keys
    ensures |a| == |b|
  {
  }

  // ---------------------------------------------------------------------------------------------
  // A trigger access, and its repetition

  /** A region enters the filter table, in place of `gone`. */
  function TrippedLife(s: Setup, l: Life, region: nat, t: Trigger, gone: set<nat>): Life {
    Logged(l, region, t.offset, t.pc).(
      filter := (l.filter - gone)[RegionKey(region, s.filterLen) := t],
      born := l.born[Low(region, REGION_BITS) := |l.touches|])
  }

  lemma TripTables(s: Setup, l: Life, region: nat, t: Trigger, gone: set<nat>)
    requires TablesOk(s, l) && RegionKey(region, s.accLen) !in l.acc && t.offset < Pow2(s.p)
    ensures TablesOk(s, TrippedLife(s, l, region, t, gone))
  {
    RegionBack(region, s.filterLen);
    ApartInsertFilter(l.filter, l.acc, s.filterLen, s.accLen, region, t, gone);
  }

  lemma TripTouches(s: Setup, l: Life, region: nat, t: Trigger, gone: set<nat>)
    requires TouchesOk(s, l) && RegionKey(region, s.accLen) !in l.acc
    ensures TouchesOk(s, TrippedLife(s, l, region, t, gone))
  {
    var a, k := TrippedLife(s, l, region, t, gone), RegionKey(region, s.filterLen);
    OtherTouches(s, l, a, region, t.offset, t.pc);
    KeysHideRegions(k, region, s.filterLen);
    assert FilterTouched(a, k, Hash(k, s.filterLen));
  }

  /** The trigger's block again: nothing but the record changes. */
  lemma RepeatTouches(s: Setup, l: Life, region: nat, pc: nat)
    requires TouchesOk(s, l) && RegionKey(region, s.filterLen) in l.filter && RegionKey(region, s.accLen) !in l.acc
    ensures TouchesOk(s, Logged(l, region, l.filter[RegionKey(region, s.filterLen)].offset, pc))
  {
    var k := RegionKey(region, s.filterLen);
    var o := l.filter[k].offset;
    var t := Logged(l, region, o, pc);
    OtherTouches(s, l, t, region, o, pc);
    KeysHideRegions(k, region, s.filterLen);
    assert FilterTouched(l, k, Hash(k, s.filterLen));
    OnlyAtMore(l.touches, Touch(Low(region, REGION_BITS), o, pc), Low(region, REGION_BITS), o, BornOf(l, Low(region, REGION_BITS)));
    assert FilterTouched(t, k, Hash(k, s.filterLen));
  }

  // ---------------------------------------------------------------------------------------------
  // The second access begins a generation

  /** A region of the filter table sees another offset: it moves to the accumulation table with its
      trigger and this block. */
  function Begun(s: Setup, l: Life, region: nat, offset: nat, pc: nat): Life
    requires RegionKey(region, s.filterLen) in l.filter && offset < Pow2(s.p)
  {
    var t := l.filter[RegionKey(region, s.filterLen)];
    Logged(l, region, offset, pc).(
      filter := l.filter - {RegionKey(region, s.filterLen)},
      acc := l.acc[RegionKey(region, s.accLen) := Pair(t, offset, Pow2(s.p))],
      begun := l.begun + 1)
  }

  /** The address of a generation: the region that its table key hides, and the trigger offset. */
  function Rebuild(s: Setup, key: nat, g: Generation): nat { Hash(key, s.accLen) * Pow2(s.p) + g.offset }

  /** The generation under key k leaves the accumulation table for the history, which becomes `after`. */
  function Sent(s: Setup, l: Life, k: nat, after: map<nat, seq<bool>>): Life
    requires k in l.acc
  {
    var g, region := l.acc[k], Hash(k, s.accLen);
    var f := FootprintOf(s, l, k);
    l.(acc := l.acc - {k},
       history := after,
       latest := l.latest[BuildKey(s.c, f.pc, f.address) := f],
       sent := l.sent + [Ended(g, region, BornOf(l, region), |l.touches|)])
  }

  /** What is sent for the generation under key k. */
  function FootprintOf(s: Setup, l: Life, k: nat): Footprint
    requires k in l.acc
  {
    Footprint(l.acc[k].pc, Rebuild(s, k, l.acc[k]), l.acc[k].pattern)
  }

  lemma MapLess<V>(m: map<nat, V>, k: nat)
    requires k in m
    ensures |m - {k}| == |m| - 1
  {
  }

  lemma MapMore<V>(m: map<nat, V>, k: nat, v: V)
    requires k !in m
    ensures |m[k := v]| == |m| + 1
  {
  }

  /** Second access: what begins a generation. */
  ghost predicate Begins(s: Setup, l: Life, region: nat, offset: nat) {
    var fk := RegionKey(region, s.filterLen);
    && RegionKey(region, s.accLen) !in l.acc && fk in l.filter
    && l.filter[fk].offset != offset && offset < Pow2(s.p)
  }

  lemma BeginTables(s: Setup, l: Life, region: nat, offset: nat, pc: nat)
    requires TablesOk(s, l) && Begins(s, l, region, offset)
    ensures TablesOk(s, Begun(s, l, region, offset, pc))
  {
    var t := l.filter[RegionKey(region, s.filterLen)];
    var g := Pair(t, offset, Pow2(s.p));
    FootedTwo(t.pc, t.offset, offset, Pow2(s.p));
    MapMore(l.acc, RegionKey(region, s.accLen), g);
    ApartMove(l.filter, l.acc, s.filterLen, s.accLen, region, g);
    AccInsert(l.acc, s.accLen, Pow2(s.p), region, g);
  }

  lemma BeginTouches(s: Setup, l: Life, region: nat, offset: nat, pc: nat)
    requires TouchesOk(s, l) && Begins(s, l, region, offset)
    ensures TouchesOk(s, Begun(s, l, region, offset, pc))
  {
    var t, fk, ak := Begun(s, l, region, offset, pc), RegionKey(region, s.filterLen), RegionKey(region, s.accLen);
    var r := Low(region, REGION_BITS);
    OtherTouches(s, l, t, region, offset, pc);
    KeysHideRegions(fk, region, s.filterLen);
    KeysHideRegions(ak, region, s.accLen);
    assert FilterTouched(l, fk, Hash(fk, s.filterLen));
    ExactlyFirst(l.touches, r, l.filter[fk].offset, BornOf(l, r), Pow2(s.p));
    ExactlyMore(First(l.filter[fk].offset, Pow2(s.p)), l.touches, Touch(r, offset, pc), BornOf(l, r));
    assert AccTouched(t, ak, Hash(ak, s.accLen));
  }

  lemma AccInsert(acc: map<nat, Generation>, accLen: nat, len: nat, region: nat, g: Generation)
    requires AccOk(acc, accLen, len) && Footed(g, len)
    ensures AccOk(acc[RegionKey(region, accLen) := g], accLen, len)
  {
    RegionBack(region, accLen);
  }

  /** What storing footprint f does to the history: its key gets the rotated footprint, and nothing
      else changes except that other entries may be displaced. */
  ghost predicate Stored(c: Widths, len: nat, history: map<nat, seq<bool>>, after: map<nat, seq<bool>>, f: Footprint)
    requires 0 < len
  {
    var key := BuildKey(c, f.pc, f.address);
    && key in after && StoredAs(after[key], f, c, len, key)
    && forall k :: k in after && k != key ==> k in history && after[k] == history[k]
  }

  lemma StoreKeeps(c: Widths, len: nat, history: map<nat, seq<bool>>, after: map<nat, seq<bool>>, latest: map<nat, Footprint>, f: Footprint)
    requires 0 < len && HistoryOk(history, latest, c, len) && Stored(c, len, history, after, f)
    ensures HistoryOk(after, latest[BuildKey(c, f.pc, f.address) := f], c, len)
  {
  }

  /** A generation leaves the accumulation table and is sent to the history. */
  lemma SendTables(s: Setup, l: Life, k: nat, after: map<nat, seq<bool>>)
    requires TablesOk(s, l) && k in l.acc && Stored(s.c, Pow2(s.p), l.history, after, FootprintOf(s, l, k))
    ensures TablesOk(s, Sent(s, l, k, after))
  {
    MapLess(l.acc, k);
    StoreKeeps(s.c, Pow2(s.p), l.history, after, l.latest, FootprintOf(s, l, k));
  }

  /** Entries that stay are as they should be. */
  lemma FewerTouches(s: Setup, l: Life, t: Life)
    requires TouchesOk(s, l) && t.touches == l.touches && t.born == l.born
    requires forall k :: k in t.filter ==> k in l.filter && t.filter[k] == l.filter[k]
    requires forall k :: k in t.acc ==> k in l.acc && t.acc[k] == l.acc[k]
    requires forall i :: 0 <= i < |t.sent| ==> EndedOk(t.touches, t.sent[i])
    ensures TouchesOk(s, t)
  {
  }

  lemma SendTouches(s: Setup, l: Life, k: nat, after: map<nat, seq<bool>>)
    requires TouchesOk(s, l) && k in l.acc
    ensures TouchesOk(s, Sent(s, l, k, after))
  {
  }

  lemma ForgetKeeps(s: Setup, l: Life, gone: set<nat>)
    requires Inv(s, l)
    ensures Inv(s, l.(filter := l.filter - gone))
  {
    FewerTouches(s, l, l.(filter := l.filter - gone));
  }

  // ---------------------------------------------------------------------------------------------
  // Steps and runs

  datatype Step =
    | Mark(region: nat, offset: nat, pc: nat)
    | Trip(region: nat, trigger: Trigger, gone: set<nat>)
    | Repeat(region: nat, pc: nat)
    | Begin(region: nat, offset: nat, pc: nat)
    | Send(k: nat, after: map<nat, seq<bool>>)
    | Forget(gone: set<nat>)

  ghost predicate Enabled(s: Setup, l: Life, a: Step) {
    match a
    case Mark(region, offset, _) =>
      var k := RegionKey(region, s.accLen); k in l.acc && offset < Pow2(s.p) == |l.acc[k].pattern|
    case Trip(region, trigger, gone) => RegionKey(region, s.accLen) !in l.acc && trigger.offset < Pow2(s.p)
    case Repeat(region, _) => RegionKey(region, s.filterLen) in l.filter && RegionKey(region, s.accLen) !in l.acc
    case Begin(region, offset, _) => Begins(s, l, region, offset)
    case Send(k, after) => k in l.acc && Stored(s.c, Pow2(s.p), l.history, after, FootprintOf(s, l, k))
    case Forget(gone) => true
  }

  ghost function Apply(s: Setup, l: Life, a: Step): Life
    requires Enabled(s, l, a)
  {
    match a
    case Mark(region, offset, pc) => MarkedLife(s, l, region, offset, pc)
    case Trip(region, trigger, gone) => TrippedLife(s, l, region, trigger, gone)
    case Repeat(region, pc) => Logged(l, region, l.filter[RegionKey(region, s.filterLen)].offset, pc)
    case Begin(region, offset, pc) => Begun(s, l, region, offset, pc)
    case Send(k, after) => Sent(s, l, k, after)
    case Forget(gone) => l.(filter := l.filter - gone)
  }

  lemma StepKeeps(s: Setup, l: Life, a: Step)
    requires Inv(s, l) && Enabled(s, l, a)
    ensures Inv(s, Apply(s, l, a))
  {
    match a
    case Mark(region, offset, pc) => MarkTables(s, l, region, offset, pc); MarkTouches(s, l, region, offset, pc);
    case Trip(region, trigger, gone) => TripTables(s, l, region, trigger, gone); TripTouches(s, l, region, trigger, gone);
    case Repeat(region, pc) => RepeatTouches(s, l, region, pc);
    case Begin(region, offset, pc) => BeginTables(s, l, region, offset, pc); BeginTouches(s, l, region, offset, pc);
    case Send(k, after) => SendTables(s, l, k, after); SendTouches(s, l, k, after);
    case Forget(gone) => ForgetKeeps(s, l, gone);
  }

  /** If a generation is displaced, sending it leaves `after` in the history. */
  ghost predicate SendsVictim(s: Setup, l: Life, victim: Option<nat>, after: map<nat, seq<bool>>) {
    match victim
    case None => after == l.history
    case Some(v) => Enabled(s, l, Send(v, after))
  }

  /** A generation begins; one that is displaced was sent. */
  ghost function Promoted(s: Setup, l: Life, region: nat, offset: nat, pc: nat, victim: Option<nat>, after: map<nat, seq<bool>>): Life
    requires SendsVictim(s, l, victim, after) && Begins(s, l, region, offset)
  {
    match victim
    case None => Begun(s, l, region, offset, pc)
    case Some(v) => Begun(s, Sent(s, l, v, after), region, offset, pc)
  }

  ghost predicate Next(s: Setup, l: Life, t: Life) { exists a :: Enabled(s, l, a) && t == Apply(s, l, a) }

  const EMPTY: Life := Life(map[], map[], map[], map[], 0, [], [], map[])

  lemma NextKeeps(s: Setup, l: Life, t: Life)
    requires Inv(s, l) && Next(s, l, t)
    ensures Inv(s, t)
  {
    var a :| Enabled(s, l, a) && t == Apply(s, l, a);
    StepKeeps(s, l, a);
  }

  /** The k-th state of the sequence follows from the one before it by a step. */
  ghost predicate StepAt(s: Setup, run: seq<Life>, k: nat)
    requires 0 < k < |run|
  {
    Next(s, run[k - 1], run[k])
  }

  ghost predicate Run(s: Setup, run: seq<Life>) {
    0 < |run| && run[0] == EMPTY && forall k :: 0 < k < |run| ==> StepAt(s, run, k)
  }

  lemma {:induction false} RunInv(s: Setup, run: seq<Life>, k: nat)
    requires Run(s, run) && k < |run|
    ensures Inv(s, run[k]) == true
  {
    if k > 0 {
      RunInv(s, run, k - 1);
      assert StepAt(s, run, k);
      NextKeeps(s, run[k - 1], run[k]);
    }
  }

  /** l is the state of some run. */
  ghost predicate Reached(s: Setup, l: Life) { Folded(s, l, 3) }

  /** The same at any depth, which has no meaning of its own: a recursive definition is not unfolded at
      every use. */
  ghost predicate Folded(s: Setup, l: Life, depth: nat) {
    if depth == 0 then exists run :: Run(s, run) && run[|run| - 1] == l else Folded(s, l, depth - 1)
  }

  lemma ReachedBy(s: Setup, run: seq<Life>)
    requires Run(s, run)
    ensures Reached(s, run[|run| - 1])
  {
    var l := run[|run| - 1];
    assert Folded(s, l, 0);
    assert Folded(s, l, 1);
    assert Folded(s, l, 2);
  }

  lemma RunTo(s: Setup, l: Life) returns (run: seq<Life>)
    requires Reached(s, l)
    ensures Run(s, run) && run[|run| - 1] == l
  {
    assert Folded(s, l, 2);
    assert Folded(s, l, 1);
    assert Folded(s, l, 0);
    run :| Run(s, run) && run[|run| - 1] == l;
  }

  lemma ReachedEmpty(s: Setup)
    ensures Reached(s, EMPTY)
  {
    ReachedBy(s, [EMPTY]);
  }

  lemma ReachedStep(s: Setup, l: Life, a: Step)
    requires Reached(s, l) && Enabled(s, l, a)
    ensures Reached(s, Apply(s, l, a))
  {
    var run := RunTo(s, l);
    var more := run + [Apply(s, l, a)];
    forall k | 0 < k < |more| ensures StepAt(s, more, k) {
      assert k < |run| ==> StepAt(s, run, k);
    }
    ReachedBy(s, more);
  }

  lemma ReachedInv(s: Setup, l: Life)
    requires Reached(s, l)
    ensures Inv(s, l)
  {
    var run := RunTo(s, l);
    EndTables(s, run);
    EndTouches(s, run);
  }

  lemma EndTables(s: Setup, run: seq<Life>)
    requires Run(s, run)
    ensures TablesOk(s, run[|run| - 1]) == true
  {
    RunInv(s, run, |run| - 1);
  }

  lemma EndTouches(s: Setup, run: seq<Life>)
    requires Run(s, run)
    ensures TouchesOk(s, run[|run| - 1]) == true
  {
    RunInv(s, run, |run| - 1);
  }

  lemma MarkReached(s: Setup, l: Life, region: nat, offset: nat, pc: nat)
    requires Reached(s, l) && RegionKey(region, s.accLen) in l.acc && offset < Pow2(s.p)
    ensures offset < |l.acc[RegionKey(region, s.accLen)].pattern| && Reached(s, MarkedLife(s, l, region, offset, pc))
  {
    AccFacts(s, l, RegionKey(region, s.accLen));
    ReachedStep(s, l, Mark(region, offset, pc));
  }

  lemma TripReached(s: Setup, l: Life, region: nat, t: Trigger, gone: set<nat>)
    requires Reached(s, l) && RegionKey(region, s.accLen) !in l.acc && t.offset < Pow2(s.p)
    ensures Reached(s, TrippedLife(s, l, region, t, gone))
  {
    ReachedStep(s, l, Trip(region, t, gone));
  }

  lemma RepeatReached(s: Setup, l: Life, region: nat, pc: nat)
    requires Reached(s, l) && RegionKey(region, s.filterLen) in l.filter && RegionKey(region, s.accLen) !in l.acc
    ensures Reached(s, Logged(l, region, l.filter[RegionKey(region, s.filterLen)].offset, pc))
  {
    ReachedStep(s, l, Repeat(region, pc));
  }

  lemma AccFacts(s: Setup, l: Life, k: nat)
    requires Reached(s, l) && k in l.acc
    ensures Footed(l.acc[k], Pow2(s.p))
  {
    ReachedInv(s, l);
  }

  lemma FilterFacts(s: Setup, l: Life, k: nat)
    requires Reached(s, l) && k in l.filter
    ensures l.filter[k].offset < Pow2(s.p)
  {
    ReachedInv(s, l);
  }

  /** Looking the history up for a PC and a block gives the latest footprint sent for them. */
  lemma HistoryInv(s: Setup, l: Life, pc: nat, block: nat)
    requires SetupOk(s) && Inv(s, l) && BuildKey(s.c, pc, block) in l.history
    ensures var key := BuildKey(s.c, pc, block);
      && key in l.latest && SamePcAddress(s.c, pc, block, l.latest[key].pc, l.latest[key].address)
      && |l.history[key]| == Pow2(s.p) && Rotate(l.history[key], block % Pow2(s.p)) == l.latest[key].pattern
  {
    var key := BuildKey(s.c, pc, block);
    var f := l.latest[key];
    KeyIff(s.c, pc, block, f.pc, f.address);
    ReturnsSent(l.history[key], f, s.c, s.p, pc, block);
  }

  lemma HistoryFacts(s: Setup, l: Life, pc: nat, block: nat)
    requires SetupOk(s) && Reached(s, l) && BuildKey(s.c, pc, block) in l.history
    ensures var key := BuildKey(s.c, pc, block);
      && key in l.latest && |l.history[key]| == Pow2(s.p)
      && Rotate(l.history[key], block % Pow2(s.p)) == l.latest[key].pattern
  {
    ReachedInv(s, l);
    HistoryInv(s, l, pc, block);
  }

  lemma PromoteReached(s: Setup, l: Life, region: nat, offset: nat, pc: nat, victim: Option<nat>, after: map<nat, seq<bool>>)
    requires Reached(s, l) && SendsVictim(s, l, victim, after) && Begins(s, l, region, offset)
    ensures Reached(s, Promoted(s, l, region, offset, pc, victim, after))
  {
    match victim
    case None => ReachedStep(s, l, Begin(region, offset, pc));
    case Some(v) =>
      ReachedStep(s, l, Send(v, after));
      ReachedStep(s, Apply(s, l, Send(v, after)), Begin(region, offset, pc));
  }

  // ---------------------------------------------------------------------------------------------
  // What an access and an eviction do

  /** A block of an accumulating region joins its footprint; the first block of an unknown region
      enters the filter table; a repeated first block changes no table; a second block begins a
      generation. */
  ghost predicate Accessed(s: Setup, l: Life, t: Life, region: nat, offset: nat, pc: nat, victim: Option<nat>) {
    var ak, fk := RegionKey(region, s.accLen), RegionKey(region, s.filterLen);
    if ak in l.acc then offset < |l.acc[ak].pattern| && t == MarkedLife(s, l, region, offset, pc)
    else if fk !in l.filter then Tripped(s, l, t, region, Trigger(pc, offset))
    else if l.filter[fk].offset == offset then t == Logged(l, region, offset, pc)
    else
      && SendsVictim(s, l, victim, t.history) && offset < Pow2(s.p)
      && t == Promoted(s, l, region, offset, pc, victim, t.history)
  }

  /** The trigger enters the filter table, possibly in place of another. */
  ghost predicate Tripped(s: Setup, l: Life, t: Life, region: nat, trigger: Trigger) {
    exists gone: set<nat> :: t == TrippedLife(s, l, region, trigger, gone)
  }

  /** The region leaves the filter table; if it was accumulating, its footprint is sent. */
  ghost predicate Evicted(s: Setup, l: Life, t: Life, region: nat) {
    var ak, f := RegionKey(region, s.accLen), l.(filter := l.filter - {RegionKey(region, s.filterLen)});
    if ak !in l.acc then t == f
    else Enabled(s, f, Send(ak, t.history)) && t == Sent(s, f, ak, t.history)
  }

  /** After a generation is sent, the history has its footprint for every block that its region and
      trigger offset stand for, although the tables kept a truncated region only. */
  lemma SentForBlock(s: Setup, l: Life, k: nat, after: map<nat, seq<bool>>, block: nat)
    requires SetupOk(s) && Enabled(s, l, Send(k, after))
    requires Low(High(block, s.p), REGION_BITS) == Hash(k, s.accLen) && Low(block, s.p) == l.acc[k].offset
    ensures var t, key := Sent(s, l, k, after), BuildKey(s.c, l.acc[k].pc, block);
      key in t.history && key in t.latest && t.latest[key].pattern == l.acc[k].pattern
  {
    PartsDivide(block, s.p);
    RebuiltKey(s.c, s.p, l.acc[k].pc, block, Rebuild(s, k, l.acc[k]));
  }

  /** So evicting a region and then triggering it again, with the PC and the block of the access that began its
      generation, finds exactly the footprint of the generation that ended. */
  lemma EvictedThenTriggered(s: Setup, l: Life, t: Life, region: nat, pc: nat, block: nat)
    requires SetupOk(s) && Inv(s, l) && Evicted(s, l, t, region) && RegionKey(region, s.accLen) in l.acc
    requires BornOf(l, Low(region, REGION_BITS)) < |l.touches|
    requires l.touches[BornOf(l, Low(region, REGION_BITS))] == Touch(Low(High(block, s.p), REGION_BITS), Low(block, s.p), pc)
    ensures var key := BuildKey(s.c, pc, block);
      key in t.history && key in t.latest && t.latest[key].pattern == l.acc[RegionKey(region, s.accLen)].pattern
  {
    var f, k := l.(filter := l.filter - {RegionKey(region, s.filterLen)}), RegionKey(region, s.accLen);
    RegionBack(region, s.accLen);
    assert AccTouched(l, k, Hash(k, s.accLen));
    SentForBlock(s, f, k, t.history, block);
  }

  /** In every state of every run: a region is never in both tables, the generations begun are the
      ones accumulating and the ones sent, and all of them hold their trigger and a second block. */
  lemma GenerationsConserved(s: Setup, run: seq<Life>, k: nat, region: nat)
    requires Run(s, run) && k < |run|
    ensures !(RegionKey(region, s.filterLen) in run[k].filter && RegionKey(region, s.accLen) in run[k].acc)
    ensures run[k].begun == |run[k].acc| + |run[k].sent|
    ensures forall q :: q in run[k].acc ==> Footed(run[k].acc[q], Pow2(s.p))
    ensures forall i :: 0 <= i < |run[k].sent| ==> Footed(run[k].sent[i].g, Pow2(s.p))
  {
    RunInv(s, run, k);
    ApartMeans(run[k].filter, run[k].acc, s.filterLen, s.accLen, region);
  }

  /** In every state of every run: the footprint of a generation, sent or still accumulating, is exactly
      the set of offsets of its region accessed from its trigger to its end or to now. */
  lemma FootprintsExact(s: Setup, run: seq<Life>, k: nat)
    requires Run(s, run) && k < |run|
    ensures forall i :: 0 <= i < |run[k].sent| ==> EndedOk(run[k].touches, run[k].sent[i])
    ensures forall q :: q in run[k].acc ==> AccTouched(run[k], q, Hash(q, s.accLen))
  {
    RunInv(s, run, k);
  }

  /** In every state of every run: as long as the history has an entry for a PC and a block, looking
      it up gives the latest footprint sent for them, bit for bit. */
  lemma LookupReturnsLatest(s: Setup, run: seq<Life>, k: nat, pc: nat, block: nat)
    requires SetupOk(s) && Run(s, run) && k < |run| && BuildKey(s.c, pc, block) in run[k].history
    ensures var key := BuildKey(s.c, pc, block);
      && key in run[k].latest && SamePcAddress(s.c, pc, block, run[k].latest[key].pc, run[k].latest[key].address)
      && |run[k].history[key]| == Pow2(s.p)
      && Rotate(run[k].history[key], block % Pow2(s.p)) == run[k].latest[key].pattern
  {
    RunInv(s, run, k);
    HistoryInv(s, run[k], pc, block);
  }
}
