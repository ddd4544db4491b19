/**
 The tag, MSHR and replacement state of the L1 data cache (src/cache.cc, replacement/base_replacement.cc)
 as a state machine over values, with the perfect-cache knobs off.
 */
module L1dState {
  import opened LruStack

  /** UINT64_MAX, the cycle of an empty packet and of "nothing to fill". */
  const FAR: nat := 0xffff_ffff_ffff_ffff

  datatype Kind = Load | Rfo | Prefetch

  datatype Block = Block(valid: bool, tag: nat, dirty: bool, prefetch: bool, used: bool)

  /** A miss-status slot; address 0 means empty. */
  datatype Slot = Slot(addr: nat, returned: bool, cycle: nat, kind: Kind)

  const EMPTY: Slot := Slot(0, false, FAR, Load)

  datatype Cache = Cache(
    blocks: seq<seq<Block>>, lru: seq<seq<nat>>, mshr: seq<Slot>, occupancy: nat, nextCycle: nat, nextIndex: nat)

  ghost predicate Shape(c: Cache) {
    && 0 < |c.blocks| == |c.lru|
    && (forall s :: 0 <= s < |c.blocks| ==> 0 < |c.blocks[s]| == |c.lru[s]|)
  }

  function SetOf(c: Cache, addr: nat): nat
    requires 0 < |c.blocks|
  {
    addr % |c.blocks|
  }

  // ---------------------------------------------------------------------------------------------
  // What the search loops find

  ghost predicate HitAt(ways: seq<Block>, addr: nat, w: nat) { w < |ways| && ways[w].valid && ways[w].tag == addr }

  ghost predicate NoHit(ways: seq<Block>, addr: nat) {
    forall w :: 0 <= w < |ways| && ways[w].valid ==> ways[w].tag != addr
  }

  ghost predicate NoMatch(mshr: seq<Slot>, addr: nat) { forall i :: 0 <= i < |mshr| ==> mshr[i].addr != addr }

  /** Number of slots in use. */
  function InUse(mshr: seq<Slot>): (r: nat)
    ensures r <= |mshr|
  {
    if mshr == [] then 0 else InUse(mshr[..|mshr| - 1]) + if mshr[|mshr| - 1].addr != 0 then 1 else 0
  }

  /** update_fill_cycle over the first n slots: the least cycle among the returned ones, and its slot. */
  function NextScan(mshr: seq<Slot>, n: nat): (nat, nat)
    requires n <= |mshr|
  {
    if n == 0 then (FAR, |mshr|)
    else
      var (cycle, index) := NextScan(mshr, n - 1);
      if mshr[n - 1].returned && mshr[n - 1].cycle < cycle then (mshr[n - 1].cycle, n - 1) else (cycle, index)
  }

  function NextFill(mshr: seq<Slot>): (nat, nat) { NextScan(mshr, |mshr|) }

  /** The first slot with the smallest cycle among those whose data has returned. */
  ghost predicate IsNext(mshr: seq<Slot>, cycle: nat, index: nat) {
    && index <= |mshr|
    && (index == |mshr| ==> cycle == FAR && forall i :: 0 <= i < |mshr| && mshr[i].returned ==> mshr[i].cycle >= FAR)
    && (index < |mshr| ==>
        && mshr[index].returned && mshr[index].cycle == cycle < FAR
        && (forall i :: 0 <= i < |mshr| && mshr[i].returned ==> cycle <= mshr[i].cycle)
        && (forall i :: 0 <= i < index && mshr[i].returned ==> cycle < mshr[i].cycle))
  }

  /** lru_victim: the first invalid way, else the way of the last rank. */
  ghost predicate IsVictim(ways: seq<Block>, lru: seq<nat>, way: nat) {
    && way < |ways| == |lru|
    && (!ways[way].valid ==> forall w :: 0 <= w < way ==> ways[w].valid)
    && (ways[way].valid ==> (forall w :: 0 <= w < |ways| ==> ways[w].valid) && lru[way] == |lru| - 1)
  }

  // ---------------------------------------------------------------------------------------------
  // Steps

  function Touched(b: Block, kind: Kind): Block {
    match kind
    case Load => b.(prefetch := false, used := true)
    case Rfo => b.(dirty := true)
    case Prefetch => b
  }

  function Hit(c: Cache, addr: nat, w: nat, kind: Kind): Cache
    requires Shape(c) && w < |c.blocks[SetOf(c, addr)]|
  {
    var s := SetOf(c, addr);
    c.(blocks := c.blocks[s := c.blocks[s][w := Touched(c.blocks[s][w], kind)]], lru := c.lru[s := Promote(c.lru[s], w)])
  }

  /** A demand takes over the slot of a prefetch but keeps what has returned. */
  function Merge(c: Cache, i: nat, kind: Kind): Cache
    requires i < |c.mshr|
  {
    if kind != Prefetch && c.mshr[i].kind == Prefetch then c.(mshr := c.mshr[i := c.mshr[i].(kind := kind)]) else c
  }

  function Miss(c: Cache, addr: nat, i: nat, kind: Kind, cycle: nat): Cache
    requires i < |c.mshr|
  {
    c.(mshr := c.mshr[i := Slot(addr, false, cycle, kind)], occupancy := c.occupancy + 1)
  }

  function Rescanned(c: Cache): Cache {
    var (cycle, index) := NextFill(c.mshr);
    c.(nextCycle := cycle, nextIndex := index)
  }

  function Return(c: Cache, i: nat, now: nat, latency: nat): Cache
    requires i < |c.mshr|
  {
    var at := c.mshr[i].cycle;
    Rescanned(c.(mshr := c.mshr[i := c.mshr[i].(returned := true, cycle := (if at < now then now else at) + latency)]))
  }

  function Fill(c: Cache, way: nat): Cache
    requires Shape(c) && c.nextIndex < |c.mshr| && 0 < c.occupancy
    requires way < |c.blocks[SetOf(c, c.mshr[c.nextIndex].addr)]|
  {
    var m := c.mshr[c.nextIndex];
    var s := SetOf(c, m.addr);
    Rescanned(c.(blocks := c.blocks[s := c.blocks[s][way := Block(true, m.addr, m.kind == Rfo, m.kind == Prefetch, false)]],
                 lru := c.lru[s := Promote(c.lru[s], way)],
                 mshr := c.mshr[c.nextIndex := EMPTY], occupancy := c.occupancy - 1))
  }

  datatype Step =
    | AccessHit(addr: nat, w: nat, kind: Kind)
    | AccessMerge(addr: nat, i: nat, kind: Kind)
    | AccessMiss(addr: nat, i: nat, kind: Kind, cycle: nat)
    | DataReturn(i: nat, now: nat, latency: nat)
    | FillBlock(way: nat)

  ghost predicate Enabled(c: Cache, a: Step)
    requires Shape(c)
  {
    match a
    case AccessHit(addr, w, kind) => HitAt(c.blocks[SetOf(c, addr)], addr, w)
    case AccessMerge(addr, i, kind) => NoHit(c.blocks[SetOf(c, addr)], addr) && i < |c.mshr| && c.mshr[i].addr == addr
    case AccessMiss(addr, i, kind, cycle) =>
      NoHit(c.blocks[SetOf(c, addr)], addr) && NoMatch(c.mshr, addr) && i < |c.mshr| && c.mshr[i].addr == 0
    case DataReturn(i, now, latency) => i < |c.mshr| && c.mshr[i].addr != 0
    case FillBlock(way) =>
      && c.nextIndex < |c.mshr| && 0 < c.occupancy
      && IsVictim(c.blocks[SetOf(c, c.mshr[c.nextIndex].addr)], c.lru[SetOf(c, c.mshr[c.nextIndex].addr)], way)
  }

  // ---------------------------------------------------------------------------------------------
  // The invariant

  ghost predicate SetOk(c: Cache, s: nat)
    requires Shape(c) && s < |c.blocks|
  {
    && (forall w :: 0 <= w < |c.blocks[s]| && c.blocks[s][w].valid ==> WayOk(c, s, c.blocks[s][w].tag))
    && (forall w, u :: 0 <= w < u < |c.blocks[s]| && c.blocks[s][w].valid && c.blocks[s][u].valid ==>
          c.blocks[s][w].tag != c.blocks[s][u].tag)
    && IsStack(c.lru[s])
  }

  /** A cached address belongs to its set and is not being fetched. */
  ghost predicate WayOk(c: Cache, s: nat, tag: nat)
    requires Shape(c)
  {
    tag != 0 && SetOf(c, tag) == s && NoMatch(c.mshr, tag)
  }

  ghost predicate MshrOk(c: Cache) {
    && (forall i, j :: 0 <= i < j < |c.mshr| && c.mshr[i].addr != 0 ==> c.mshr[i].addr != c.mshr[j].addr)
    && (forall i :: 0 <= i < |c.mshr| && c.mshr[i].addr == 0 ==> c.mshr[i] == EMPTY)
    && c.occupancy == InUse(c.mshr)
    && IsNext(c.mshr, c.nextCycle, c.nextIndex)
  }

  ghost predicate Inv(c: Cache) {
    Shape(c) && MshrOk(c) && forall s :: 0 <= s < |c.blocks| ==> SetOk(c, s)
  }

  // ---------------------------------------------------------------------------------------------

  lemma {:induction false} InUseUpdate(mshr: seq<Slot>, i: nat, m: Slot)
    requires i < |mshr|
    ensures InUse(mshr[i := m]) == InUse(mshr) - (if mshr[i].addr != 0 then 1 else 0) + (if m.addr != 0 then 1 else 0)
  {
    var n := |mshr| - 1;
    var t := mshr[i := m];
    if i < n {
      InUseUpdate(mshr[..n], i, m);
      assert t[..n] == mshr[..n][i := m];
    } else {
      assert t[..n] == mshr[..n];
    }
  }

  /** Some slot is free exactly when the occupancy is below the size. */
  lemma {:induction false} RoomIff(mshr: seq<Slot>)
    ensures InUse(mshr) < |mshr| <==> exists i :: 0 <= i < |mshr| && mshr[i].addr == 0
  {
    if mshr != [] {
      var n := |mshr| - 1;
      RoomIff(mshr[..n]);
      if i :| 0 <= i < |mshr| && mshr[i].addr == 0 {
        assert i < n ==> mshr[..n][i].addr == 0;
      }
      if i :| 0 <= i < n && mshr[..n][i].addr == 0 { assert mshr[i].addr == 0; }
    }
  }

  lemma HitKeeps(c: Cache, addr: nat, w: nat, kind: Kind)
    requires Inv(c) && Enabled(c, AccessHit(addr, w, kind))
    ensures Inv(Hit(c, addr, w, kind))
  {
    var t, s := Hit(c, addr, w, kind), SetOf(c, addr);
    forall r | 0 <= r < |t.blocks| ensures SetOk(t, r) {
      assert SetOk(c, r);
      if r == s { PromoteKeeps(c.lru[s], w); }
    }
  }

  lemma MergeKeeps(c: Cache, i: nat, kind: Kind)
    requires Inv(c) && i < |c.mshr|
    ensures Inv(Merge(c, i, kind))
  {
    var t := Merge(c, i, kind);
    InUseUpdate(c.mshr, i, c.mshr[i].(kind := kind));
    forall r | 0 <= r < |t.blocks| ensures SetOk(t, r) { assert SetOk(c, r); }
  }

  lemma MissKeeps(c: Cache, addr: nat, i: nat, kind: Kind, cycle: nat)
    requires Inv(c) && Enabled(c, AccessMiss(addr, i, kind, cycle))
    ensures Inv(Miss(c, addr, i, kind, cycle))
  {
    var t := Miss(c, addr, i, kind, cycle);
    InUseUpdate(c.mshr, i, Slot(addr, false, cycle, kind));
    forall r | 0 <= r < |t.blocks| ensures SetOk(t, r) {
      assert SetOk(c, r);
      forall w | 0 <= w < |t.blocks[r]| && t.blocks[r][w].valid ensures WayOk(t, r, t.blocks[r][w].tag) {
        assert WayOk(c, r, c.blocks[r][w].tag);
      }
    }
  }

  lemma {:induction false} NextScanMeaning(mshr: seq<Slot>, n: nat)
    requires n <= |mshr|
    ensures var (cycle, index) := NextScan(mshr, n);
      && index <= |mshr|
      && (index == |mshr| ==> cycle == FAR && forall i :: 0 <= i < n && mshr[i].returned ==> mshr[i].cycle >= FAR)
      && (index < |mshr| ==>
          && index < n && mshr[index].returned && mshr[index].cycle == cycle < FAR
          && (forall i :: 0 <= i < n && mshr[i].returned ==> cycle <= mshr[i].cycle)
          && (forall i :: 0 <= i < index && mshr[i].returned ==> cycle < mshr[i].cycle))
  {
    if n > 0 { NextScanMeaning(mshr, n - 1); }
  }

  /** The scan finds the true minimum. */
  lemma NextFillIsNext(mshr: seq<Slot>)
    ensures IsNext(mshr, NextFill(mshr).0, NextFill(mshr).1)
  {
    NextScanMeaning(mshr, |mshr|);
  }

  lemma ReturnKeeps(c: Cache, i: nat, now: nat, latency: nat)
    requires Inv(c) && Enabled(c, DataReturn(i, now, latency))
    ensures Inv(Return(c, i, now, latency))
  {
    var t := Return(c, i, now, latency);
    NextFillIsNext(t.mshr);
    InUseUpdate(c.mshr, i, t.mshr[i]);
    forall r | 0 <= r < |t.blocks| ensures SetOk(t, r) {
      assert SetOk(c, r);
      forall w | 0 <= w < |t.blocks[r]| && t.blocks[r][w].valid ensures WayOk(t, r, t.blocks[r][w].tag) {
        assert WayOk(c, r, c.blocks[r][w].tag);
      }
    }
  }

  /** The slot chosen for filling is in use, and its address is in no way. */
  lemma FillIsNew(c: Cache)
    requires Inv(c) && c.nextIndex < |c.mshr|
    ensures var addr := c.mshr[c.nextIndex].addr;
      addr != 0 && 0 < c.occupancy && NoHit(c.blocks[SetOf(c, addr)], addr)
  {
    var addr := c.mshr[c.nextIndex].addr;
    var s := SetOf(c, addr);
    InUseUpdate(c.mshr, c.nextIndex, EMPTY);
    assert SetOk(c, s);
    forall w | 0 <= w < |c.blocks[s]| && c.blocks[s][w].valid ensures c.blocks[s][w].tag != addr {
      assert WayOk(c, s, c.blocks[s][w].tag);
    }
  }

  /** A request that is due can always be filled: there is a victim, and something is in use. */
  lemma FillReady(c: Cache)
    requires Inv(c) && c.nextIndex < |c.mshr|
    ensures exists way :: Enabled(c, FillBlock(way))
  {
    FillIsNew(c);
    var s := SetOf(c, c.mshr[c.nextIndex].addr);
    assert SetOk(c, s);
    if exists w :: 0 <= w < |c.blocks[s]| && !c.blocks[s][w].valid {
      var w := FirstInvalid(c.blocks[s]);
      assert Enabled(c, FillBlock(w));
    } else {
      VictimExists(c.lru[s]);
      var w :| 0 <= w < |c.lru[s]| && c.lru[s][w] == |c.lru[s]| - 1;
      assert Enabled(c, FillBlock(w));
    }
  }

  lemma FirstInvalid(ways: seq<Block>) returns (w: nat)
    requires exists i :: 0 <= i < |ways| && !ways[i].valid
    ensures w < |ways| && !ways[w].valid && forall k :: 0 <= k < w ==> ways[k].valid
  {
    w := 0;
    while ways[w].valid
      invariant w < |ways| && (forall k :: 0 <= k < w ==> ways[k].valid)
      invariant exists i :: w <= i < |ways| && !ways[i].valid
      decreases |ways| - w
    {
      w := w + 1;
    }
  }

  lemma FillKeeps(c: Cache, way: nat)
    requires Inv(c) && Enabled(c, FillBlock(way))
    ensures Inv(Fill(c, way))
  {
    var t := Fill(c, way);
    FillIsNew(c);
    NextFillIsNext(t.mshr);
    InUseUpdate(c.mshr, c.nextIndex, EMPTY);
    forall r | 0 <= r < |t.blocks| ensures SetOk(t, r) { FilledSet(c, way, r); }
  }

  lemma FilledSet(c: Cache, way: nat, r: nat)
    requires Inv(c) && Enabled(c, FillBlock(way)) && r < |c.blocks|
    ensures SetOk(Fill(c, way), r)
  {
    var t, m := Fill(c, way), c.mshr[c.nextIndex];
    FillIsNew(c);
    assert SetOk(c, r);
    forall w | 0 <= w < |t.blocks[r]| && t.blocks[r][w].valid ensures WayOk(t, r, t.blocks[r][w].tag) {
      if r == SetOf(c, m.addr) && w == way {
        assert NoMatch(t.mshr, m.addr);
      } else {
        assert WayOk(c, r, c.blocks[r][w].tag);
      }
    }
    if r == SetOf(c, m.addr) { PromoteKeeps(c.lru[r], way); }
  }

  // ---------------------------------------------------------------------------------------------
  // Runs

  ghost function Apply(c: Cache, a: Step): Cache
    requires Shape(c) && Enabled(c, a)
  {
    match a
    case AccessHit(addr, w, kind) => Hit(c, addr, w, kind)
    case AccessMerge(addr, i, kind) => Merge(c, i, kind)
    case AccessMiss(addr, i, kind, cycle) => Miss(c, addr, i, kind, cycle)
    case DataReturn(i, now, latency) => Return(c, i, now, latency)
    case FillBlock(way) => Fill(c, way)
  }

  lemma StepKeeps(c: Cache, a: Step)
    requires Inv(c) && Enabled(c, a)
    ensures Inv(Apply(c, a))
  {
    match a
    case AccessHit(addr, w, kind) => HitKeeps(c, addr, w, kind);
    case AccessMerge(addr, i, kind) => MergeKeeps(c, i, kind);
    case AccessMiss(addr, i, kind, cycle) => MissKeeps(c, addr, i, kind, cycle);
    case DataReturn(i, now, latency) => ReturnKeeps(c, i, now, latency);
    case FillBlock(way) => FillKeeps(c, way);
  }

  /** An empty cache whose ranks are the way numbers. */
  ghost predicate Init(c: Cache) {
    && Shape(c)
    && (forall s, w :: 0 <= s < |c.blocks| && 0 <= w < |c.blocks[s]| ==> !c.blocks[s][w].valid)
    && (forall s :: 0 <= s < |c.lru| ==> c.lru[s] == Initial(|c.lru[s]|))
    && (forall i :: 0 <= i < |c.mshr| ==> c.mshr[i] == EMPTY)
    && c.occupancy == 0 && c.nextCycle == FAR && c.nextIndex == |c.mshr|
  }

  lemma {:induction false} NoneInUse(mshr: seq<Slot>)
    requires forall i :: 0 <= i < |mshr| ==> mshr[i] == EMPTY
    ensures InUse(mshr) == 0
  {
    if mshr != [] { NoneInUse(mshr[..|mshr| - 1]); }
  }

  lemma InitInv(c: Cache)
    requires Init(c)
    ensures Inv(c)
  {
    NoneInUse(c.mshr);
  }

  ghost predicate Next(c: Cache, t: Cache) { Shape(c) && exists a :: Enabled(c, a) && t == Apply(c, a) }

  lemma NextKeeps(c: Cache, t: Cache)
    requires Inv(c) && Next(c, t)
    ensures Inv(t)
  {
    var a :| Enabled(c, a) && t == Apply(c, a);
    StepKeeps(c, a);
  }

  /** The k-th state of the sequence follows from the one before it by a step. */
  ghost predicate StepAt(run: seq<Cache>, k: nat)
    requires 0 < k < |run|
  {
    Next(run[k - 1], run[k])
  }

  ghost predicate Run(run: seq<Cache>) {
    0 < |run| && Init(run[0]) && forall k :: 0 < k < |run| ==> StepAt(run, k)
  }

  lemma {:induction false} RunInv(run: seq<Cache>, k: nat)
    requires Run(run) && k < |run|
    ensures Inv(run[k])
  {
    if k == 0 {
      InitInv(run[0]);
    } else {
      RunInv(run, k - 1);
      assert StepAt(run, k);
      NextKeeps(run[k - 1], run[k]);
    }
  }

  /** In every state of every run an address is in at most one place: one way, or one MSHR slot, but
      never both, never in two ways of any sets, never in two slots. */
  lemma AddressInOnePlace(run: seq<Cache>, k: nat, s: nat, w: nat, s': nat, w': nat, i: nat, j: nat)
    requires Run(run) && k < |run|
    requires s < |run[k].blocks| && w < |run[k].blocks[s]| && s' < |run[k].blocks| && w' < |run[k].blocks[s']|
    requires i < |run[k].mshr| && j < |run[k].mshr|
    ensures var c := run[k];
      && (c.blocks[s][w].valid && c.blocks[s'][w'].valid && c.blocks[s][w].tag == c.blocks[s'][w'].tag ==> s == s' && w == w')
      && (c.mshr[i].addr != 0 && c.mshr[i].addr == c.mshr[j].addr ==> i == j)
      && (c.blocks[s][w].valid ==> c.blocks[s][w].tag != c.mshr[i].addr)
  {
    RunInv(run, k);
    var c := run[k];
    assert SetOk(c, s) && SetOk(c, s');
    if c.blocks[s][w].valid { assert WayOk(c, s, c.blocks[s][w].tag); }
    if c.blocks[s'][w'].valid { assert WayOk(c, s', c.blocks[s'][w'].tag); }
  }

  /** In every state of every run the occupancy counts the slots in use, the cached next fill is the
      true minimum, the ranks of each set are a permutation, and a set always has a victim. */
  lemma BookkeepingExact(run: seq<Cache>, k: nat, s: nat)
    requires Run(run) && k < |run| && s < |run[k].blocks|
    ensures var c := run[k];
      && Shape(c) && c.occupancy == InUse(c.mshr) && IsNext(c.mshr, c.nextCycle, c.nextIndex)
      && |c.lru[s]| == |c.blocks[s]| && IsStack(c.lru[s]) && exists w :: 0 <= w < |c.lru[s]| && c.lru[s][w] == |c.lru[s]| - 1
  {
    RunInv(run, k);
    assert SetOk(run[k], s);
    VictimExists(run[k].lru[s]);
  }
}
