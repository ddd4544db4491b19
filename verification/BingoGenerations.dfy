/**
 The tables a region passes through in Bingo (inc/bingo.h, prefetcher/bingo.cc): the keys of truncated
 regions, footprints, and what the tables have to agree on.
 */
module BingoGenerations {
  import opened Bits
  import opened IndexHash
  import opened BingoKeys
  import opened Rotation

  /** The bits of a region number that the filter and accumulation tables keep. */
  const REGION_BITS: nat := 37

  /** A region in the filter table: its first access. */
  datatype Trigger = Trigger(pc: nat, offset: nat)

  /** A region in the accumulation table: its trigger and the blocks touched since. */
  datatype Generation = Generation(pc: nat, offset: nat, pattern: seq<bool>)

  /** A footprint as it is sent to the pattern history table. */
  datatype Footprint = Footprint(pc: nat, address: nat, pattern: seq<bool>)

  function RegionKey(region: nat, len: nat): nat { Hash(Low(region, REGION_BITS), len) }

  /** The table key gives the truncated region back. */
  lemma RegionBack(region: nat, len: nat)
    ensures Hash(RegionKey(region, len), len) == Low(region, REGION_BITS)
    ensures High(Low(region, REGION_BITS), REGION_BITS) == 0
    ensures Low(Low(region, REGION_BITS), REGION_BITS) == Low(region, REGION_BITS)
  {
    HashTwice(Low(region, REGION_BITS), len);
    LowFits(region, REGION_BITS);
    LowLow(region, REGION_BITS, 0);
  }

  /** The trigger is in the footprint, and so is some other block. */
  ghost predicate Footed(g: Generation, len: nat) {
    && g.offset < |g.pattern| == len && g.pattern[g.offset]
    && exists o :: 0 <= o < len && o != g.offset && g.pattern[o]
  }

  lemma FootedMore(g: Generation, len: nat, offset: nat)
    requires Footed(g, len) && offset < len
    ensures Footed(g.(pattern := g.pattern[offset := true]), len)
  {
    var o :| 0 <= o < len && o != g.offset && g.pattern[o];
    assert g.pattern[offset := true][o];
  }

  function First(offset: nat, len: nat): seq<bool> { seq(len, i => i == offset) }

  lemma FootedTwo(pc: nat, offset: nat, second: nat, len: nat)
    requires offset < len && second < len && offset != second
    ensures Footed(Generation(pc, offset, First(offset, len)[second := true]), len)
  {
    assert First(offset, len)[second := true][second];
  }

  ghost predicate FilterOk(filter: map<nat, Trigger>, filterLen: nat, len: nat) {
    forall k :: k in filter ==> High(Hash(k, filterLen), REGION_BITS) == 0 && filter[k].offset < len
  }

  ghost predicate AccOk(acc: map<nat, Generation>, accLen: nat, len: nat) {
    forall k :: k in acc ==> High(Hash(k, accLen), REGION_BITS) == 0 && Footed(acc[k], len)
  }

  /** No truncated region is in both tables. */
  ghost predicate Apart(filter: map<nat, Trigger>, acc: map<nat, Generation>, filterLen: nat, accLen: nat) {
    forall k :: k in filter ==> Hash(Hash(k, filterLen), accLen) !in acc
  }

  lemma ApartMeans(filter: map<nat, Trigger>, acc: map<nat, Generation>, filterLen: nat, accLen: nat, region: nat)
    requires Apart(filter, acc, filterLen, accLen)
    ensures !(RegionKey(region, filterLen) in filter && RegionKey(region, accLen) in acc)
  {
    RegionBack(region, filterLen);
  }

  lemma ApartInsertFilter(filter: map<nat, Trigger>, acc: map<nat, Generation>, filterLen: nat, accLen: nat, region: nat, t: Trigger, gone: set<nat>)
    requires Apart(filter, acc, filterLen, accLen) && RegionKey(region, accLen) !in acc
    ensures Apart((filter - gone)[RegionKey(region, filterLen) := t], acc, filterLen, accLen)
  {
    RegionBack(region, filterLen);
  }

  lemma ApartMove(filter: map<nat, Trigger>, acc: map<nat, Generation>, filterLen: nat, accLen: nat, region: nat, g: Generation)
    requires Apart(filter, acc, filterLen, accLen)
    ensures Apart(filter - {RegionKey(region, filterLen)}, acc[RegionKey(region, accLen) := g], filterLen, accLen)
  {
    forall k | k in filter && k != RegionKey(region, filterLen)
      ensures Hash(Hash(k, filterLen), accLen) != RegionKey(region, accLen)
    {
      HashInjective(Hash(k, filterLen), Low(region, REGION_BITS), accLen);
      HashTwice(k, filterLen);
    }
  }

  /** Every entry of the pattern history is the latest footprint sent for its PC and address. */
  ghost predicate HistoryOk(history: map<nat, seq<bool>>, latest: map<nat, Footprint>, c: Widths, len: nat)
    requires 0 < len
  {
    forall k :: k in history ==> k in latest && StoredAs(history[k], latest[k], c, len, k)
  }

  ghost predicate StoredAs(stored: seq<bool>, f: Footprint, c: Widths, len: nat, k: nat)
    requires 0 < len
  {
    k == BuildKey(c, f.pc, f.address) && |f.pattern| == len && stored == Rotate(f.pattern, -(f.address % len))
  }

  /** Turned to a trigger at offset o, a stored footprint has each block at the distance from o that it had from
      its own trigger. */
  lemma TurnedIsRelative(stored: seq<bool>, f: Footprint, c: Widths, len: nat, k: nat, o: nat, i: nat)
    requires 0 < len && StoredAs(stored, f, c, len, k) && i < len
    ensures |stored| == len && Rotate(stored, o)[(i - f.address % len + o) % len] == f.pattern[i]
  {
    RotateTwice(f.pattern, -(f.address % len), o, i);
  }

  /** Addresses with the same key have the same offset in their region. */
  lemma SameKeySameOffset(c: Widths, p: nat, pc: nat, a: nat, pc': nat, a': nat)
    requires WidthsOk(c) && p <= c.max && BuildKey(c, pc, a) == BuildKey(c, pc', a')
    ensures a % Pow2(p) == a' % Pow2(p)
  {
    KeyIff(c, pc, a, pc', a');
    LowLow(a, p, c.max - p);
    LowLow(a', p, c.max - p);
    PartsDivide(a, p);
    PartsDivide(a', p);
  }

  /** A lookup returns the footprint as it was sent, although it was stored rotated. */
  lemma ReturnsSent(stored: seq<bool>, f: Footprint, c: Widths, p: nat, pc: nat, address: nat)
    requires WidthsOk(c) && p <= c.max && StoredAs(stored, f, c, Pow2(p), BuildKey(c, pc, address))
    ensures |stored| == Pow2(p) && Rotate(stored, address % Pow2(p)) == f.pattern
  {
    SameKeySameOffset(c, p, pc, address, f.pc, f.address);
    RotateBack(f.pattern, address % Pow2(p));
  }

  /** The address rebuilt from the truncated region and the trigger offset. */
  predicate Rebuilt(block: nat, len: nat, address: nat)
    requires 0 < len
  {
    address == Low(block / len, REGION_BITS) * len + block % len
  }

  lemma RebuiltParts(block: nat, p: nat, address: nat)
    requires Rebuilt(block, Pow2(p), address)
    ensures Low(address, p) == Low(block, p) && High(address, p) == Low(High(block, p), REGION_BITS)
    ensures address % Pow2(p) == block % Pow2(p)
  {
    var len := Pow2(p);
    PartsDivide(block, p);
    DivUnique(address, Low(block / len, REGION_BITS), block % len, len);
    PartsDivide(address, p);
  }

  /** It has the key of the block itself. */
  lemma RebuiltKey(c: Widths, p: nat, pc: nat, block: nat, address: nat)
    requires WidthsOk(c) && c.max <= REGION_BITS + p && Rebuilt(block, Pow2(p), address)
    ensures BuildKey(c, pc, address) == BuildKey(c, pc, block)
  {
    RebuiltParts(block, p, address);
    SameLow(block, address, p);
    LowLow(block, c.max, REGION_BITS + p - c.max);
    LowLow(address, c.max, REGION_BITS + p - c.max);
    KeyIff(c, pc, address, pc, block);
  }

  lemma SameLow(block: nat, address: nat, p: nat)
    requires Low(address, p) == Low(block, p) && High(address, p) == Low(High(block, p), REGION_BITS)
    ensures Low(address, p + REGION_BITS) == Low(block, p + REGION_BITS)
  {
    TagParts(address, p, REGION_BITS);
    TagParts(block, p, REGION_BITS);
    LowLow(High(block, p), REGION_BITS, 0);
    SameParts(Low(address, p + REGION_BITS), Low(block, p + REGION_BITS), p);
  }

  // ---------------------------------------------------------------------------------------------
  // Footprints and the accesses they stand for

  /** An access by an instruction to a block of a (truncated) region. */
  datatype Touch = Touch(region: nat, offset: nat, pc: nat)

  predicate IsAt(t: Touch, region: nat, o: nat) { t.region == region && t.offset == o }

  ghost predicate TouchedIn(log: seq<Touch>, region: nat, o: nat, from: nat, to: nat) {
    exists t :: from <= t < to && t < |log| && IsAt(log[t], region, o)
  }

  /** The footprint is exactly the set of offsets accessed between two times. */
  ghost predicate Exactly(pattern: seq<bool>, log: seq<Touch>, region: nat, from: nat, to: nat) {
    forall o :: 0 <= o < |pattern| ==> (pattern[o] <==> TouchedIn(log, region, o, from, to))
  }

  /** The region was accessed at time `from`, and since then at no other offset. */
  ghost predicate OnlyAt(log: seq<Touch>, region: nat, o: nat, from: nat) {
    && from < |log| && IsAt(log[from], region, o)
    && forall t :: from <= t < |log| && log[t].region == region ==> log[t].offset == o
  }

  lemma TouchGrows(log: seq<Touch>, e: Touch, region: nat, o: nat, from: nat)
    requires from <= |log|
    ensures TouchedIn(log + [e], region, o, from, |log| + 1) <==> TouchedIn(log, region, o, from, |log|) || IsAt(e, region, o)
  {
    var more := log + [e];
    assert more[|log|] == e;
    if TouchedIn(log, region, o, from, |log|) {
      var t :| from <= t < |log| && IsAt(log[t], region, o);
      assert IsAt(more[t], region, o);
    }
  }

  lemma TouchPast(log: seq<Touch>, e: Touch, region: nat, o: nat, from: nat, to: nat)
    requires to <= |log|
    ensures TouchedIn(log + [e], region, o, from, to) <==> TouchedIn(log, region, o, from, to)
  {
    assert forall t :: 0 <= t < |log| ==> (log + [e])[t] == log[t];
  }

  lemma ExactlyMore(p: seq<bool>, log: seq<Touch>, e: Touch, from: nat)
    requires Exactly(p, log, e.region, from, |log|) && from <= |log| && e.offset < |p|
    ensures Exactly(p[e.offset := true], log + [e], e.region, from, |log| + 1)
  {
    var region, o, q := e.region, e.offset, p[e.offset := true];
    forall i | 0 <= i < |q| ensures q[i] <==> TouchedIn(log + [e], region, i, from, |log| + 1) {
      TouchGrows(log, e, region, i, from);
    }
  }

  lemma ExactlyOther(p: seq<bool>, log: seq<Touch>, e: Touch, region: nat, from: nat)
    requires Exactly(p, log, region, from, |log|) && from <= |log| && e.region != region
    ensures Exactly(p, log + [e], region, from, |log| + 1)
  {
    forall i | 0 <= i < |p| ensures p[i] <==> TouchedIn(log + [e], region, i, from, |log| + 1) {
      TouchGrows(log, e, region, i, from);
    }
  }

  lemma ExactlyPast(p: seq<bool>, log: seq<Touch>, e: Touch, region: nat, from: nat, to: nat)
    requires Exactly(p, log, region, from, to) && to <= |log|
    ensures Exactly(p, log + [e], region, from, to)
  {
    forall i | 0 <= i < |p| ensures p[i] <==> TouchedIn(log + [e], region, i, from, to) {
      TouchPast(log, e, region, i, from, to);
    }
  }

  /** A region seen at one offset only has a footprint of one block. */
  lemma ExactlyFirst(log: seq<Touch>, region: nat, o: nat, from: nat, len: nat)
    requires OnlyAt(log, region, o, from)
    ensures Exactly(First(o, len), log, region, from, |log|)
  {
  }

  lemma OnlyAtMore(log: seq<Touch>, e: Touch, region: nat, o: nat, from: nat)
    requires OnlyAt(log, region, o, from) && (e.region == region ==> e.offset == o)
    ensures OnlyAt(log + [e], region, o, from)
  {
  }

  /** A generation with exactly two blocks. */
  function Pair(t: Trigger, offset: nat, len: nat): Generation
    requires offset < len
  {
    Generation(t.pc, t.offset, First(t.offset, len)[offset := true])
  }

  /** Two different keys of a table hide two different regions. */
  lemma KeysHideRegions(k: nat, region: nat, len: nat)
    ensures Hash(k, len) == Low(region, REGION_BITS) <==> k == RegionKey(region, len)
  {
    HashTwice(k, len);
    HashTwice(Low(region, REGION_BITS), len);
  }
}
