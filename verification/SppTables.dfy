/**
 The tables of SPP as they run (prefetcher/spp_dev2_helper.cc): the pattern table, the global history
 register and the prefetch filter, with their in-place updates.
 */
module SppTables {
  import opened SppPattern
  import opened SppFilter
  import opened SppSignature

  const GHR_ENTRIES: nat := 8       // MAX_GHR_ENTRY

  // ---------------------------------------------------------------------------------------------
  // The global history register

  datatype GhrEntry = GhrEntry(valid: bool, sig: nat, confidence: nat, offset: nat, delta: int)

  predicate SameOffset(e: GhrEntry, offset: nat) { e.valid && e.offset == offset }

  /** The scan of update_entry over the first n entries: the first entry with this offset ends it, else
      the first entry of least confidence below 100 is the victim; |e| if there is neither. */
  function GhrScan(e: seq<GhrEntry>, offset: nat, n: nat): (nat, nat)
    requires n <= |e|
  {
    if n == 0 then (100, |e|)
    else
      var (least, way) := GhrScan(e, offset, n - 1);
      if way < |e| && SameOffset(e[way], offset) then (least, way)
      else if SameOffset(e[n - 1], offset) then (least, n - 1)
      else if e[n - 1].confidence < least then (e[n - 1].confidence, n - 1)
      else (least, way)
  }

  function GhrWay(e: seq<GhrEntry>, offset: nat): nat { GhrScan(e, offset, |e|).1 }

  lemma {:induction false} GhrScanMeaning(e: seq<GhrEntry>, offset: nat, n: nat)
    requires n <= |e|
    ensures var (least, way) := GhrScan(e, offset, n);
      && way <= |e| && least <= 100
      && ((exists i :: 0 <= i < n && SameOffset(e[i], offset)) ==>
          way < n && SameOffset(e[way], offset) && forall i :: 0 <= i < way ==> !SameOffset(e[i], offset))
      && ((forall i :: 0 <= i < n ==> !SameOffset(e[i], offset)) ==>
          && (way == |e| <==> least == 100) && (way < |e| ==> way < n && e[way].confidence == least < 100)
          && (forall i :: 0 <= i < n ==> least <= e[i].confidence)
          && (forall i :: 0 <= i < way < |e| ==> least < e[i].confidence))
  {
    if n > 0 { GhrScanMeaning(e, offset, n - 1); }
  }

  /** The assertion of update_entry fires exactly when no entry has the offset and every entry has a
      confidence of 100 or more; otherwise the entry with the offset, or one of least confidence, is
      replaced. */
  lemma GhrWayIff(e: seq<GhrEntry>, offset: nat)
    ensures var way := GhrWay(e, offset);
      && (way < |e| <==> exists i :: 0 <= i < |e| && (SameOffset(e[i], offset) || e[i].confidence < 100))
      && (way < |e| && !SameOffset(e[way], offset) ==>
          && (forall i :: 0 <= i < |e| ==> !SameOffset(e[i], offset) && e[way].confidence <= e[i].confidence)
          && (forall i :: 0 <= i < way ==> e[way].confidence < e[i].confidence))
      && (way < |e| && SameOffset(e[way], offset) ==> forall i :: 0 <= i < way ==> !SameOffset(e[i], offset))
  {
    GhrScanMeaning(e, offset, |e|);
    var way := GhrWay(e, offset);
    if i :| 0 <= i < |e| && SameOffset(e[i], offset) { assert way < |e| && SameOffset(e[way], offset); }
  }

  /** The scan of check_entry over the first n entries: the highest confidence above 0 of an entry for
      this offset, and the first such entry; |e| if there is none. */
  function HintScan(e: seq<GhrEntry>, offset: nat, n: nat): (r: (nat, nat))
    requires n <= |e|
    ensures r.1 < n || (r.0 == 0 && r.1 == |e|)
  {
    if n == 0 then (0, |e|)
    else
      var (most, way) := HintScan(e, offset, n - 1);
      if e[n - 1].offset == offset && most < e[n - 1].confidence then (e[n - 1].confidence, n - 1) else (most, way)
  }

  function HintOf(e: seq<GhrEntry>, offset: nat): Hint {
    var way := HintScan(e, offset, |e|).1;
    if way < |e| then Hint(e[way].sig, e[way].delta) else NoHint
  }

  lemma {:induction false} HintScanMeaning(e: seq<GhrEntry>, offset: nat, n: nat)
    requires n <= |e|
    ensures var (most, way) := HintScan(e, offset, n);
      && (most == 0 <==> way == |e|)
      && (way < |e| ==> e[way].offset == offset && e[way].confidence == most)
      && (forall k :: 0 <= k < n && e[k].offset == offset ==> e[k].confidence <= most)
      && (forall k :: 0 <= k < way && k < n && e[k].offset == offset && way < |e| ==> e[k].confidence < most)
  {
    if n > 0 { HintScanMeaning(e, offset, n - 1); }
  }

  function EmptyRegister(): seq<GhrEntry> { seq(GHR_ENTRIES, _ => GhrEntry(false, 0, 0, 0, 0)) }

  /** Every stored confidence is below 100, so a victim always exists. */
  ghost predicate GhrTame(e: seq<GhrEntry>) { forall i :: 0 <= i < |e| ==> e[i].confidence < 100 }

  class GlobalRegister {
    const entry: array<GhrEntry>

    ghost predicate Valid()
      reads this
    {
      entry.Length == GHR_ENTRIES
    }

    ghost predicate Tame()
      reads this, entry
    {
      Valid() && GhrTame(entry[..])
    }

    constructor ()
      ensures Tame() && fresh(entry) && entry[..] == EmptyRegister()
    {
      entry := new GhrEntry[GHR_ENTRIES](_ => GhrEntry(false, 0, 0, 0, 0));
      new;
      assert entry[..] == EmptyRegister();
    }

    /** update_entry, for every confidence. The result is the way written, or the number of entries when
        the assertion of the source fires; GhrWayIff says when that is. */
    method UpdateEntry(sig: nat, confidence: nat, offset: nat, delta: int) returns (way: nat)
      requires Valid()
      modifies entry
      ensures way == GhrWay(old(entry[..]), offset) <= GHR_ENTRIES
      ensures entry[..] ==
        if way < GHR_ENTRIES then old(entry[..])[way := GhrEntry(true, sig, confidence, offset, delta)] else old(entry[..])
      ensures old(Tame()) && confidence < 100 ==> Tame() && way < GHR_ENTRIES
    {
      ghost var e := entry[..];
      GhrWayIff(e, offset);
      assert Tame() ==> e[0].confidence < 100;
      var minConf: nat, victim: nat := 100, GHR_ENTRIES;
      for i := 0 to GHR_ENTRIES
        invariant entry[..] == e && (minConf, victim) == GhrScan(e, offset, i) && victim <= GHR_ENTRIES
        invariant victim < GHR_ENTRIES ==> !SameOffset(e[victim], offset)
      {
        if entry[i].valid && entry[i].offset == offset {
          GhrScanStays(e, offset, i + 1, GHR_ENTRIES);
          entry[i] := entry[i].(sig := sig, confidence := confidence, delta := delta);
          return i;
        }
        if entry[i].confidence < minConf {
          minConf, victim := entry[i].confidence, i;
        }
      }
      way := victim;
      if victim < GHR_ENTRIES {
        entry[victim] := GhrEntry(true, sig, confidence, offset, delta);
      }
    }

    /** check_entry: the signature and delta of the first most confident entry for an offset. */
    method CheckEntry(offset: nat) returns (hint: Hint)
      requires Valid()
      ensures hint == HintOf(entry[..], offset)
      ensures hint == NoHint <==> forall i :: 0 <= i < GHR_ENTRIES && entry[i].offset == offset ==> entry[i].confidence == 0
      ensures hint != NoHint ==> exists i ::
        && 0 <= i < GHR_ENTRIES && entry[i].offset == offset && hint == Hint(entry[i].sig, entry[i].delta)
        && (forall k :: 0 <= k < GHR_ENTRIES && entry[k].offset == offset ==> entry[k].confidence <= entry[i].confidence)
        && (forall k :: 0 <= k < i && entry[k].offset == offset ==> entry[k].confidence < entry[i].confidence)
    {
      ghost var e := entry[..];
      var most: nat, way: nat := 0, GHR_ENTRIES;
      for i := 0 to GHR_ENTRIES
        invariant (most, way) == HintScan(e, offset, i)
      {
        assert e[i] == entry[i];
        if entry[i].offset == offset && most < entry[i].confidence { most, way := entry[i].confidence, i; }
      }
      hint := if way == GHR_ENTRIES then NoHint else Hint(entry[way].sig, entry[way].delta);
      HintScanMeaning(e, offset, GHR_ENTRIES);
      assert forall k :: 0 <= k < GHR_ENTRIES ==> e[k] == entry[k];
    }
  }

  lemma {:induction false} GhrScanStays(e: seq<GhrEntry>, offset: nat, n: nat, m: nat)
    requires n <= m <= |e| && GhrScan(e, offset, n).1 < |e| && SameOffset(e[GhrScan(e, offset, n).1], offset)
    ensures GhrScan(e, offset, m) == GhrScan(e, offset, n)
  {
    if n < m { GhrScanStays(e, offset, n, m - 1); }
  }

  // ---------------------------------------------------------------------------------------------
  // The pattern table

  class PatternTable {
    const sets: nat
    const delta: array2<int>
    const cDelta: array2<nat>
    const cSig: array<nat>

    ghost predicate Shape()
      reads this
    {
      delta.Length0 == cDelta.Length0 == cSig.Length == sets && delta.Length1 == cDelta.Length1 == WAYS
    }

    function At(i: nat): PatternSet
      requires Shape() && i < sets
      reads this, delta, cDelta, cSig
    {
      RawPatternSet.PatternSet(
        [delta[i, 0], delta[i, 1], delta[i, 2], delta[i, 3]],
        [cDelta[i, 0], cDelta[i, 1], cDelta[i, 2], cDelta[i, 3]],
        cSig[i])
    }

    ghost predicate Valid()
      reads this, delta, cDelta, cSig
    {
      Shape() && forall i :: 0 <= i < sets ==> SetOk(At(i))
    }

    /** The contents of the first n sets. */
    ghost function Sets(n: nat): (r: seq<PatternSet>)
      requires Shape() && n <= sets
      reads this, delta, cDelta, cSig
      ensures |r| == n && forall i :: 0 <= i < n ==> r[i] == At(i)
    {
      if n == 0 then [] else Sets(n - 1) + [At(n - 1)]
    }

    constructor (n: nat)
      ensures Valid() && sets == n && fresh(delta) && fresh(cDelta) && fresh(cSig)
      ensures Sets(n) == seq(n, _ => EMPTY_SET)
    {
      sets := n;
      delta := new int[n, WAYS]((_, _) => 0);
      cDelta := new nat[n, WAYS]((_, _) => 0);
      cSig := new nat[n](_ => 0);
      new;
      forall i | 0 <= i < n ensures SetOk(At(i)) { SumZero(At(i).cDelta); }
      assert Sets(n) == seq(n, _ => EMPTY_SET);
    }

    /** Halve the counters of a set whose signature counter has overflowed. */
    method Saturate(i: nat)
      requires Shape() && i < sets
      modifies cDelta, cSig
      ensures At(i) == Saturated(old(At(i)))
      ensures forall k :: 0 <= k < sets && k != i ==> At(k) == old(At(k))
    {
      if cSig[i] > C_SIG_MAX {
        var way := 0;
        while way < WAYS
          invariant way <= WAYS && cSig[i] == old(cSig[i])
          invariant forall w :: 0 <= w < WAYS ==> cDelta[i, w] == old(cDelta[i, w]) / (if w < way then 2 else 1)
          invariant forall k, w :: 0 <= k < sets && k != i && 0 <= w < WAYS ==> cDelta[k, w] == old(cDelta[k, w])
          invariant forall k :: 0 <= k < sets ==> cSig[k] == old(cSig[k])
        {
          cDelta[i, way] := cDelta[i, way] / 2;
          way := way + 1;
        }
        cSig[i] := cSig[i] / 2;
      }
    }

    /** The way of set i holding delta d, or WAYS. */
    method FindDelta(i: nat, d: int) returns (way: nat)
      requires Shape() && i < sets
      ensures way == Match(At(i).delta, d)
    {
      way := 0;
      while way < WAYS && delta[i, way] != d
        invariant way <= WAYS && forall w :: 0 <= w < way ==> At(i).delta[w] != d
      {
        assert At(i).delta[way] == delta[i, way];
        way := way + 1;
      }
      assert way < WAYS ==> At(i).delta[way] == delta[i, way];
      MatchIs(At(i).delta, d, way);
    }

    /** The way of set i with the least counter. */
    method FindVictim(i: nat) returns (victim: nat)
      requires Shape() && i < sets && Strict(At(i))
      ensures victim == Victim(At(i)) < WAYS
    {
      victim := WAYS;
      var least := C_SIG_MAX;
      for w := 0 to WAYS
        invariant (least, victim) == VictimScan(At(i).cDelta, w)
      {
        assert At(i).cDelta[w] == cDelta[i, w];
        if cDelta[i, w] < least { victim, least := w, cDelta[i, w]; }
      }
      VictimExists(At(i));
    }

    /** Record that delta d followed the signature mapped to set i. */
    method UpdatePattern(i: nat, d: int)
      requires Valid() && i < sets && d != 0
      modifies delta, cDelta, cSig
      ensures Valid() && At(i) == Update(old(At(i)), d)
      ensures forall k :: 0 <= k < sets && k != i ==> At(k) == old(At(k))
    {
      UpdateKeeps(At(i), d);
      Train(i, d);
    }

    method Train(i: nat, d: int)
      requires Shape() && i < sets && Strict(At(i))
      modifies delta, cDelta, cSig
      ensures At(i) == Update(old(At(i)), d)
      ensures forall k :: 0 <= k < sets && k != i ==> At(k) == old(At(k))
    {
      var way := FindDelta(i, d);
      if way < WAYS {
        CountDelta(i, way);
      } else {
        var victim := FindVictim(i);
        ReplaceDelta(i, victim, d);
      }
      Saturate(i);
    }

    method CountDelta(i: nat, way: nat)
      requires Shape() && i < sets && way < WAYS
      modifies cDelta, cSig
      ensures var s := old(At(i)); At(i) == s.(cDelta := s.cDelta[way := s.cDelta[way] + 1], cSig := s.cSig + 1)
      ensures forall k :: 0 <= k < sets && k != i ==> At(k) == old(At(k))
    {
      ghost var s := At(i);
      cDelta[i, way] := cDelta[i, way] + 1;
      cSig[i] := cSig[i] + 1;
      assert At(i).cDelta == s.cDelta[way := s.cDelta[way] + 1];
    }

    method ReplaceDelta(i: nat, way: nat, d: int)
      requires Shape() && i < sets && way < WAYS
      modifies delta, cDelta, cSig
      ensures var s := old(At(i)); At(i) == s.(delta := s.delta[way := d], cDelta := s.cDelta[way := 0], cSig := s.cSig + 1)
      ensures forall k :: 0 <= k < sets && k != i ==> At(k) == old(At(k))
    {
      ghost var s := At(i);
      delta[i, way] := d;
      cDelta[i, way] := 0;
      cSig[i] := cSig[i] + 1;
      assert At(i).cDelta == s.cDelta[way := 0] && At(i).delta == s.delta[way := d];
    }
  }

  lemma MatchIs(delta: seq<int>, d: int, r: nat)
    requires r <= |delta| && (r < |delta| ==> delta[r] == d) && forall i :: 0 <= i < r ==> delta[i] != d
    ensures Match(delta, d) == r
  {
  }

  // ---------------------------------------------------------------------------------------------
  // The filter object

  class PrefetchFilter {
    const valid: array<bool>
    const useful: array<bool>
    const tag: array<nat>
    var pfIssued: nat
    var pfUseful: nat

    ghost predicate Shape()
      reads this
    {
      valid.Length == useful.Length == tag.Length == SLOTS && valid != useful
    }

    ghost function View(): Filter
      requires Shape()
      reads this, valid, useful, tag
    {
      RawFilter.Filter(valid[..], useful[..], tag[..], pfIssued, pfUseful)
    }

    constructor ()
      ensures Shape() && View() == EmptyFilter() && fresh(valid) && fresh(useful) && fresh(tag)
    {
      valid := new bool[SLOTS](_ => false);
      useful := new bool[SLOTS](_ => false);
      tag := new nat[SLOTS](_ => 0);
      pfIssued, pfUseful := 0, 0;
      new;
      assert valid[..] == seq(SLOTS, _ => false) && useful[..] == seq(SLOTS, _ => false) && tag[..] == seq(SLOTS, _ => 0);
    }

    /** check() and, for an accepted L2 prefetch, the issue count the caller does next. */
    method Request(slot: nat, t: nat, r: Request) returns (go: bool)
      requires Shape() && slot < SLOTS
      modifies this, valid, useful, tag
      ensures View() == Check(old(View()), slot, t, r)
      ensures go == !((r.L2Prefetch? || r.LlcPrefetch?) && Present(old(View()), slot, t))
    {
      ghost var f := View();
      go := true;
      match r
      case L2Prefetch =>
        if (valid[slot] || useful[slot]) && tag[slot] == t { return false; }
        valid[slot], useful[slot], tag[slot] := true, false, t;
        assert View() == Mark(f, slot, t);
        pfIssued := pfIssued + 1;
        if pfIssued > COUNTER_MAX { pfIssued, pfUseful := pfIssued / 2, pfUseful / 2; }
      case LlcPrefetch =>
        if (valid[slot] || useful[slot]) && tag[slot] == t { return false; }
      case Demand =>
        if tag[slot] == t && !useful[slot] {
          useful[slot] := true;
          assert useful[..] == f.useful[slot := true];
          if valid[slot] { pfUseful := pfUseful + 1; }
        }
      case Evict =>
        if valid[slot] && !useful[slot] && pfUseful > 0 { pfUseful := pfUseful - 1; }
        valid[slot], useful[slot], tag[slot] := false, false, 0;
        assert valid[..] == f.valid[slot := false] && useful[..] == f.useful[slot := false] && tag[..] == f.tag[slot := 0];
    }
  }
}
