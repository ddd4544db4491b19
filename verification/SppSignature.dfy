/**
 The signature table of SPP (prefetcher/spp_dev2_helper.cc): one set of pages with their last offset
 and signature, replaced by least recent use. It never hands a zero delta to the pattern table.
 */
module SppSignature {
  import opened Bits
  import opened LruStack

  const ST_TAG_BIT: nat := 16
  const SIG_SHIFT: nat := 3
  const SIG_BIT: nat := 12
  const SIG_DELTA_BIT: nat := 7

  datatype Line = Line(valid: bool, tag: nat, offset: nat, sig: nat)

  /** What the global register knows about an offset: a signature and a delta. */
  datatype Hint = NoHint | Hint(sig: nat, delta: int)

  /** The sign-magnitude form of a delta. */
  function SigDelta(delta: int): nat { if delta < 0 then -delta + Pow2(SIG_DELTA_BIT - 1) else delta }

  function NewSig(sig: nat, delta: int): nat { Low(Xor(Join(sig, 0, SIG_SHIFT), SigDelta(delta)), SIG_BIT) }

  ghost predicate DistinctTags(lines: seq<Line>) {
    forall i, j :: 0 <= i < j < |lines| && lines[i].valid && lines[j].valid ==> lines[i].tag != lines[j].tag
  }

  ghost predicate Unknown(lines: seq<Line>, tag: nat) {
    forall i :: 0 <= i < |lines| && lines[i].valid ==> lines[i].tag != tag
  }

  ghost predicate Known(lines: seq<Line>, tag: nat, w: nat) { w < |lines| && lines[w].valid && lines[w].tag == tag }

  /** The line after a hit at this offset. */
  function HitLine(l: Line, offset: nat): Line {
    if offset == l.offset then l else l.(offset := offset, sig := NewSig(l.sig, offset - l.offset))
  }

  function FreshLine(tag: nat, offset: nat, hint: Hint): Line {
    Line(true, tag, offset, if hint.Hint? then NewSig(hint.sig, hint.delta) else 0)
  }

  // ---------------------------------------------------------------------------------------------
  // One read of the table

  datatype SigTable = SigTable(lines: seq<Line>, lru: seq<nat>)

  function EmptyTable(ways: nat): SigTable { SigTable(seq(ways, _ => Line(false, 0, 0, 0)), Initial(ways)) }

  ghost predicate StOk(s: SigTable) { 0 < |s.lines| == |s.lru| && IsStack(s.lru) && DistinctTags(s.lines) }

  /** w is the first invalid line, or the least recent one of a full table. */
  ghost predicate Room(s: SigTable, w: nat)
    requires |s.lines| == |s.lru|
  {
    && w < |s.lines|
    && if s.lines[w].valid then s.lru[w] == |s.lru| - 1 && forall k :: 0 <= k < |s.lines| ==> s.lines[k].valid
       else forall k :: 0 <= k < w ==> s.lines[k].valid
  }

  lemma {:induction false} RoomExists(s: SigTable, n: nat)
    requires StOk(s) && n <= |s.lines|
    ensures (exists w :: Room(s, w)) || forall k :: 0 <= k < n ==> s.lines[k].valid
    ensures n == |s.lines| ==> exists w :: Room(s, w)
  {
    if n > 0 {
      RoomExists(s, n - 1);
      if (forall k :: 0 <= k < n - 1 ==> s.lines[k].valid) && !s.lines[n - 1].valid { assert Room(s, n - 1); }
    }
    if n == |s.lines| && forall k :: 0 <= k < n ==> s.lines[k].valid {
      VictimExists(s.lru);
      var w :| 0 <= w < |s.lru| && s.lru[w] == |s.lru| - 1;
      assert Room(s, w);
    }
  }

  datatype Read = Read(table: SigTable, lastSig: nat, currSig: nat, delta: int)

  /** A page found at line w: its signature grows by the delta, unless that is zero. */
  function HitRead(s: SigTable, w: nat, offset: nat): Read
    requires w < |s.lines| == |s.lru|
  {
    var l := s.lines[w];
    var t := SigTable(s.lines[w := HitLine(l, offset)], Promote(s.lru, w));
    if offset == l.offset then Read(t, 0, 0, 0) else Read(t, l.sig, NewSig(l.sig, offset - l.offset), offset - l.offset)
  }

  /** A page that is not found takes line w, with what the global register knows of its offset. */
  function MissRead(s: SigTable, w: nat, tag: nat, offset: nat, hint: Hint): Read
    requires w < |s.lines| == |s.lru|
  {
    var l := FreshLine(tag, offset, hint);
    Read(SigTable(s.lines[w := l], Promote(s.lru, w)), 0, l.sig, 0)
  }

  /** What read_and_update_sig does. */
  ghost function ReadSig(s: SigTable, page: nat, offset: nat, hint: Hint): Read
    requires StOk(s)
  {
    var tag := Low(page, ST_TAG_BIT);
    if w :| Known(s.lines, tag, w) then HitRead(s, w, offset)
    else
      RoomExists(s, |s.lines|);
      var w :| Room(s, w);
      MissRead(s, w, tag, offset, hint)
  }

  lemma KnownIs(s: SigTable, w: nat, page: nat, offset: nat, hint: Hint)
    requires StOk(s) && Known(s.lines, Low(page, ST_TAG_BIT), w)
    ensures ReadSig(s, page, offset, hint) == HitRead(s, w, offset)
  {
  }

  lemma RoomIs(s: SigTable, w: nat, page: nat, offset: nat, hint: Hint)
    requires StOk(s) && Unknown(s.lines, Low(page, ST_TAG_BIT)) && Room(s, w)
    ensures ReadSig(s, page, offset, hint) == MissRead(s, w, Low(page, ST_TAG_BIT), offset, hint)
  {
  }

  /** Tags stay distinct, ranks a permutation, and a delta of zero is never handed out. */
  lemma ReadSigKeeps(s: SigTable, page: nat, offset: nat, hint: Hint)
    requires StOk(s)
    ensures var r := ReadSig(s, page, offset, hint); StOk(r.table) && (r.lastSig != 0 ==> r.delta != 0)
  {
    var tag := Low(page, ST_TAG_BIT);
    if w :| Known(s.lines, tag, w) {
      KnownIs(s, w, page, offset, hint);
      PromoteKeeps(s.lru, w);
    } else {
      forall i | 0 <= i < |s.lines| && s.lines[i].valid ensures s.lines[i].tag != tag { assert !Known(s.lines, tag, i); }
      RoomExists(s, |s.lines|);
      var w :| Room(s, w);
      RoomIs(s, w, page, offset, hint);
      PromoteKeeps(s.lru, w);
    }
  }

  class SignatureTable {
    const lines: array<Line>
    const lru: array<nat>

    ghost predicate Valid()
      reads this, lines, lru
    {
      StOk(View())
    }

    ghost function View(): SigTable
      reads this, lines, lru
    {
      SigTable(lines[..], lru[..])
    }

    constructor (ways: nat)
      requires 0 < ways
      ensures Valid() && fresh(lines) && fresh(lru) && View() == EmptyTable(ways)
    {
      lines := new Line[ways](_ => Line(false, 0, 0, 0));
      lru := new nat[ways](i => i);
      new;
      assert View() == EmptyTable(ways);
    }

    method FindTag(tag: nat) returns (w: nat)
      ensures w <= lines.Length && (w < lines.Length ==> Known(lines[..], tag, w)) && (w == lines.Length ==> Unknown(lines[..], tag))
    {
      w := 0;
      while w < lines.Length
        invariant w <= lines.Length && forall i :: 0 <= i < w && lines[i].valid ==> lines[i].tag != tag
      {
        if lines[w].valid && lines[w].tag == tag { return; }
        w := w + 1;
      }
    }

    /** The first invalid line, else the least recent one; there always is one. */
    method FindRoom() returns (w: nat)
      requires Valid()
      ensures Room(View(), w)
      ensures !lines[w].valid ==> forall k :: 0 <= k < w ==> lines[k].valid
      ensures lines[w].valid ==> (forall k :: 0 <= k < lines.Length ==> lines[k].valid) && lru[w] == lines.Length - 1
    {
      var all := lines[..];
      var valid := seq(|all|, i requires 0 <= i < |all| => all[i].valid);
      w := LruVictim(valid, lru[..]);
      assert forall k :: 0 <= k < lines.Length ==> valid[k] == lines[k].valid;
    }

    /** read_and_update_sig. A known page gets its new signature and reports the old one with the
        delta, unless the delta is zero; an unknown page replaces the least recent one. */
    method ReadAndUpdateSig(page: nat, offset: nat, hint: Hint)
        returns (lastSig: nat, currSig: nat, delta: int, ghost w: nat)
      requires Valid()
      modifies lines, lru
      ensures Read(View(), lastSig, currSig, delta) == ReadSig(old(View()), page, offset, hint)
      ensures Valid() && w < lines.Length && lru[..] == Promote(old(lru[..]), w)
      ensures lastSig != 0 ==> delta != 0
      ensures lines[w].valid && lines[w].tag == Low(page, ST_TAG_BIT) && lines[w].offset == offset
      ensures if Known(old(lines[..]), Low(page, ST_TAG_BIT), w) then
          && lines[..] == old(lines[..])[w := HitLine(old(lines[w]), offset)]
          && delta == offset - old(lines[w]).offset
          && lastSig == (if delta == 0 then 0 else old(lines[w]).sig)
          && currSig == (if delta == 0 then 0 else lines[w].sig)
        else
          && Unknown(old(lines[..]), Low(page, ST_TAG_BIT))
          && lines[..] == old(lines[..])[w := FreshLine(Low(page, ST_TAG_BIT), offset, hint)]
          && lastSig == 0 && currSig == lines[w].sig
          && (!old(lines[w]).valid ==> forall k :: 0 <= k < w ==> old(lines[k]).valid)
          && (old(lines[w]).valid ==> old(lru[w]) == lines.Length - 1 && forall k :: 0 <= k < lines.Length ==> old(lines[k]).valid)
    {
      var tag := Low(page, ST_TAG_BIT);
      lastSig, currSig, delta := 0, 0, 0;
      ghost var s := View();
      var place := FindTag(tag);
      if place < lines.Length {
        KnownIs(s, place, page, offset, hint);
        var l := lines[place];
        delta := offset - l.offset;
        if delta != 0 {
          lastSig := l.sig;
          currSig := NewSig(l.sig, delta);
          lines[place] := l.(offset := offset, sig := currSig);
        }
      } else {
        place := FindRoom();
        RoomIs(s, place, page, offset, hint);
        currSig := if hint.Hint? then NewSig(hint.sig, hint.delta) else 0;
        lines[place] := Line(true, tag, offset, currSig);
      }
      w := place;
      LruUpdate(lru, place);
    }
  }

  /** Deltas within a page have different sign-magnitude forms, of seven bits. */
  lemma SigDeltaInjective(d: int, e: int)
    requires -64 < d < 64 && -64 < e < 64
    ensures SigDelta(d) == SigDelta(e) <==> d == e
    ensures SigDelta(d) < Pow2(SIG_DELTA_BIT)
  {
    assert Pow2(6) == 2 * Pow2(5) == 4 * Pow2(4) == 8 * Pow2(3) == 16 * Pow2(2) == 64;
    assert Pow2(SIG_DELTA_BIT) == 2 * Pow2(6);
  }

  /** Different deltas lead from one signature to different signatures. */
  lemma SignatureTellsDeltas(sig: nat, d: int, e: int)
    requires -64 < d < 64 && -64 < e < 64
    ensures NewSig(sig, d) == NewSig(sig, e) <==> d == e
  {
    SigDeltaInjective(d, e);
    var shifted := Join(sig, 0, SIG_SHIFT);
    LowSigDelta(shifted, d);
    LowSigDelta(shifted, e);
    XorCancelLeft(Low(shifted, SIG_BIT), SigDelta(d));
    XorCancelLeft(Low(shifted, SIG_BIT), SigDelta(e));
  }

  lemma LowSigDelta(shifted: nat, d: int)
    requires -64 < d < 64
    ensures Low(Xor(shifted, SigDelta(d)), SIG_BIT) == Xor(Low(shifted, SIG_BIT), SigDelta(d))
  {
    SigDeltaInjective(d, d);
    XorLow(shifted, SigDelta(d), SIG_BIT);
    HighPositive(SigDelta(d), SIG_DELTA_BIT);
    HighHigh(SigDelta(d), SIG_DELTA_BIT, SIG_BIT - SIG_DELTA_BIT);
    HighZero(SIG_BIT - SIG_DELTA_BIT);
    LowOfSmall(SigDelta(d), SIG_BIT);
  }
}
