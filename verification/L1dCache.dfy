/** The L1 data cache as it runs (src/cache.cc): search loops, an MSHR array and ranks per set. */
module L1dCache {
  import opened LruStack
  import opened L1dState

  class Cache1D {
    var block: seq<seq<Block>>
    var lru: seq<seq<nat>>
    const mshr: array<Slot>
    var occupancy: nat
    var nextFillCycle: nat
    var nextFillIndex: nat

    ghost function Snapshot(): Cache
      reads this, mshr
    {
      Cache(block, lru, mshr[..], occupancy, nextFillCycle, nextFillIndex)
    }

    ghost predicate Valid()
      reads this, mshr
    {
      Inv(Snapshot())
    }

    constructor (sets: nat, ways: nat, mshrSize: nat)
      requires 0 < sets && 0 < ways
      ensures Valid() && Init(Snapshot()) && fresh(mshr)
      ensures |block| == sets && mshr.Length == mshrSize
    {
      block := seq(sets, _ => seq(ways, _ => Block(false, 0, false, false, false)));
      lru := seq(sets, _ => Initial(ways));
      mshr := new Slot[mshrSize](_ => EMPTY);
      occupancy, nextFillCycle, nextFillIndex := 0, FAR, mshrSize;
      new;
      InitInv(Snapshot());
    }

    /** check_hit: the way that holds the address, or -1. */
    method CheckHit(addr: nat) returns (way: int)
      requires 0 < |block|
      ensures way >= 0 ==> HitAt(block[addr % |block|], addr, way)
      ensures way < 0 ==> NoHit(block[addr % |block|], addr)
    {
      var s := addr % |block|;
      for w := 0 to |block[s]|
        invariant forall u :: 0 <= u < w && block[s][u].valid ==> block[s][u].tag != addr
      {
        if block[s][w].valid && block[s][w].tag == addr { return w; }
      }
      return -1;
    }

    /** check_mshr: the first slot with the address, or -1. */
    method CheckMshr(addr: nat) returns (index: int)
      ensures index >= 0 ==> index < mshr.Length && mshr[index].addr == addr
      ensures index < 0 ==> NoMatch(mshr[..], addr)
    {
      for i := 0 to mshr.Length
        invariant forall j :: 0 <= j < i ==> mshr[j].addr != addr
      {
        if mshr[i].addr == addr { return i; }
      }
      return -1;
    }

    /** update_fill_cycle: the minimum over the returned slots. */
    method UpdateFillCycle()
      modifies this`nextFillCycle, this`nextFillIndex
      ensures (nextFillCycle, nextFillIndex) == NextFill(mshr[..])
    {
      ghost var all := mshr[..];
      var minCycle: nat, minIndex: nat := FAR, mshr.Length;
      for i := 0 to mshr.Length
        invariant (minCycle, minIndex) == NextScan(all, i)
      {
        if mshr[i].returned && mshr[i].cycle < minCycle { minCycle, minIndex := mshr[i].cycle, i; }
      }
      nextFillCycle, nextFillIndex := minCycle, minIndex;
    }

    /** lru_update on one set. */
    method Update(s: nat, way: nat)
      requires s < |lru| && way < |lru[s]| && IsStack(lru[s])
      modifies this`lru
      ensures lru == old(lru)[s := Promote(old(lru)[s], way)]
    {
      var r := lru[s];
      var ranks := new nat[|r|](i requires 0 <= i < |r| => r[i]);
      assert ranks[..] == r;
      LruUpdate(ranks, way);
      lru := lru[s := ranks[..]];
    }

    method HandleHit(addr: nat, way: nat, kind: Kind)
      requires Valid() && HitAt(block[addr % |block|], addr, way)
      modifies this
      ensures Valid() && 0 < |old(block)| && Shape(old(Snapshot())) && Snapshot() == Hit(old(Snapshot()), addr, way, kind)
    {
      var s := addr % |block|;
      HitKeeps(Snapshot(), addr, way, kind);
      assert SetOk(Snapshot(), s);
      Update(s, way);
      var b := block[s][way];
      match kind {
        case Load => b := b.(prefetch := false, used := true);
        case Rfo => b := b.(dirty := true);
        case Prefetch =>
      }
      block := block[s := block[s][way := b]];
    }

    /** add_mshr: the first free slot takes the miss. */
    method AddMshr(addr: nat, kind: Kind, cycle: nat) returns (i: nat)
      requires Valid() && NoHit(block[addr % |block|], addr) && NoMatch(mshr[..], addr) && occupancy < mshr.Length
      modifies this`occupancy, mshr
      ensures Valid() && i < mshr.Length && Snapshot() == Miss(old(Snapshot()), addr, i, kind, cycle)
      ensures old(mshr[i]).addr == 0 && forall j :: 0 <= j < i ==> old(mshr[j]).addr != 0
    {
      RoomIff(mshr[..]);
      i := 0;
      while mshr[i].addr != 0
        invariant i < mshr.Length && (forall j :: 0 <= j < i ==> mshr[j].addr != 0)
        invariant exists j :: i <= j < mshr.Length && mshr[j].addr == 0
        decreases mshr.Length - i
      {
        i := i + 1;
      }
      MissKeeps(Snapshot(), addr, i, kind, cycle);
      mshr[i] := Slot(addr, false, cycle, kind);
      occupancy := occupancy + 1;
    }

    /** The common part of handle_read, handle_writeback and handle_prefetch for one request. A
        prefetch can also be refused by the lower level, or only pass through to it. */
    method HandleAccess(addr: nat, kind: Kind, cycle: nat, lowerFull: bool, fillHere: bool) returns (handled: bool, ghost at: nat)
      requires Valid()
      modifies this, mshr
      ensures Valid() && Accessed(old(Snapshot()), Snapshot(), addr, kind, cycle, lowerFull, fillHere, handled, at)
    {
      var way := CheckHit(addr);
      if way >= 0 {
        HandleHit(addr, way, kind);
        return true, way;
      }
      var index := CheckMshr(addr);
      if index >= 0 {
        MergeKeeps(Snapshot(), index, kind);
        if kind != Prefetch && mshr[index].kind == Prefetch {
          mshr[index] := mshr[index].(kind := kind);
        }
        return true, index;
      }
      at := 0;
      if occupancy == mshr.Length { return false, at; }
      if kind == Prefetch && (lowerFull || !fillHere) { return !lowerFull, at; }
      var i := AddMshr(addr, kind, cycle);
      return true, i;
    }

    /** return_data for a request that is in flight. */
    method ReturnData(addr: nat, now: nat, latency: nat) returns (ghost i: nat)
      requires Valid() && addr != 0 && !NoMatch(mshr[..], addr)
      modifies this, mshr
      ensures Valid() && i < mshr.Length && old(mshr[..])[i].addr == addr
      ensures Snapshot() == Return(old(Snapshot()), i, now, latency)
    {
      var index := CheckMshr(addr);
      i := index;
      var at := mshr[index].cycle;
      mshr[index] := mshr[index].(returned := true, cycle := (if at < now then now else at) + latency);
      UpdateFillCycle();
      ReturnKeeps(old(Snapshot()), i, now, latency);
    }

    /** handle_fill: the request that is due goes into the victim's way, unless the victim is dirty and
        the lower level cannot take it. */
    method HandleFill(now: nat, lowerFull: bool) returns (filled: bool, ghost way: nat)
      requires Valid()
      modifies this, mshr
      ensures Valid()
      ensures !Due(old(Snapshot()), now) ==> !filled
      ensures Due(old(Snapshot()), now) ==>
        && IsVictim(TargetSet(old(Snapshot())), TargetRanks(old(Snapshot())), way)
        && filled == !(TargetSet(old(Snapshot()))[way].dirty && lowerFull)
      ensures if filled then Filled(old(Snapshot()), Snapshot(), way) else Snapshot() == old(Snapshot())
    {
      way := 0;
      if nextFillIndex == mshr.Length || nextFillCycle > now { return false, way; }
      FillIsNew(Snapshot());
      var s := mshr[nextFillIndex].addr % |block|;
      assert SetOk(Snapshot(), s);
      var w := FindVictim(s);
      way := w;
      if block[s][w].dirty && lowerFull { return false, way; }
      FillWay(w);
      filled := true;
    }

    /** The fill itself: ranks, block, slot, occupancy and the next fill. */
    method FillWay(w: nat)
      requires Valid() && Enabled(Snapshot(), FillBlock(w))
      modifies this, mshr
      ensures Valid() && Filled(old(Snapshot()), Snapshot(), w)
    {
      ghost var c := Snapshot();
      FillIsNew(c);
      FillKeeps(c, w);
      var m := mshr[nextFillIndex];
      var s := m.addr % |block|;
      assert SetOk(c, s);
      Update(s, w);
      block := block[s := block[s][w := Block(true, m.addr, m.kind == Rfo, m.kind == Prefetch, false)]];
      mshr[nextFillIndex] := EMPTY;
      occupancy := occupancy - 1;
      UpdateFillCycle();
      assert Snapshot() == Fill(c, w);
    }

    method FindVictim(s: nat) returns (way: nat)
      requires s < |block| == |lru| && 0 < |block[s]| == |lru[s]| && IsStack(lru[s])
      ensures IsVictim(block[s], lru[s], way)
    {
      var row := block[s];
      var valid := seq(|row|, w requires 0 <= w < |row| => row[w].valid);
      way := LruVictim(valid, lru[s]);
      assert forall w :: 0 <= w < |row| ==> valid[w] == row[w].valid;
    }
  }

  /** A returned request is due. */
  ghost predicate Due(c: Cache, now: nat) { Shape(c) && c.nextIndex < |c.mshr| && c.nextCycle <= now }

  /** The set that the next fill goes to, and its ranks. */
  ghost function TargetSet(c: Cache): seq<Block>
    requires Shape(c) && c.nextIndex < |c.mshr|
  {
    c.blocks[SetOf(c, c.mshr[c.nextIndex].addr)]
  }

  ghost function TargetRanks(c: Cache): seq<nat>
    requires Shape(c) && c.nextIndex < |c.mshr|
  {
    c.lru[SetOf(c, c.mshr[c.nextIndex].addr)]
  }

  ghost predicate Filled(c: Cache, t: Cache, way: nat) {
    && Shape(c) && c.nextIndex < |c.mshr| && 0 < c.occupancy && c.mshr[c.nextIndex].addr != 0
    && IsVictim(c.blocks[SetOf(c, c.mshr[c.nextIndex].addr)], c.lru[SetOf(c, c.mshr[c.nextIndex].addr)], way)
    && t == Fill(c, way)
  }

  /** What a request does: a hit updates its way, a match merges into its slot, a new miss takes a slot
      if there is one, and a request that cannot be handled changes nothing. */
  ghost predicate Accessed(
    c: Cache, t: Cache, addr: nat, kind: Kind, cycle: nat, lowerFull: bool, fillHere: bool, handled: bool, at: nat)
  {
    && Shape(c)
    && var row := c.blocks[SetOf(c, addr)];
       if !NoHit(row, addr) then handled && HitAt(row, addr, at) && t == Hit(c, addr, at, kind)
       else if !NoMatch(c.mshr, addr) then handled && at < |c.mshr| && c.mshr[at].addr == addr && t == Merge(c, at, kind)
       else if c.occupancy == |c.mshr| then !handled && t == c
       else if kind == Prefetch && lowerFull then !handled && t == c
       else if kind == Prefetch && !fillHere then handled && t == c
       else handled && at < |c.mshr| && t == Miss(c, addr, at, kind, cycle)
  }
}
