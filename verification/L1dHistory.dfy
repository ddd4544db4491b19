/**
 The flags of the L1 data cache (src/cache.cc) against the accesses made: what a block says about itself
 is what happened to its address since the miss that brought it in.
 */
module L1dHistory {
  import opened LruStack
  import opened L1dState

  /** A run with the steps that were taken. */
  ghost predicate Trace(run: seq<Cache>, steps: seq<Step>) {
    && |run| == |steps| + 1 && Init(run[0])
    && forall k :: 0 <= k < |steps| ==> Took(run, steps, k)
  }

  ghost predicate Took(run: seq<Cache>, steps: seq<Step>, k: nat)
    requires k < |steps| && |run| == |steps| + 1
  {
    Shape(run[k]) && Enabled(run[k], steps[k]) && run[k + 1] == Apply(run[k], steps[k])
  }

  lemma TraceIsRun(run: seq<Cache>, steps: seq<Step>)
    requires Trace(run, steps)
    ensures Run(run)
  {
    forall k | 0 < k < |run| ensures StepAt(run, k) { assert Took(run, steps, k - 1); }
  }

  // ---------------------------------------------------------------------------------------------
  // What happened to an address

  predicate Accesses(a: Step, addr: nat, kind: Kind) {
    match a
    case AccessHit(x, _, k) => x == addr && k == kind
    case AccessMerge(x, _, k) => x == addr && k == kind
    case AccessMiss(x, _, k, _) => x == addr && k == kind
    case DataReturn(_, _, _) => false
    case FillBlock(_) => false
  }

  predicate Demands(a: Step, addr: nat) { Accesses(a, addr, Load) || Accesses(a, addr, Rfo) }

  predicate Misses(a: Step, addr: nat) { a.AccessMiss? && a.addr == addr }

  /** The fill of the slot that is due brings in this address. */
  predicate Fills(c: Cache, a: Step, addr: nat) {
    a.FillBlock? && c.nextIndex < |c.mshr| && c.mshr[c.nextIndex].addr == addr
  }

  ghost predicate AccessIn(steps: seq<Step>, addr: nat, kind: Kind, from: nat, to: nat) {
    exists t :: from <= t < to && t < |steps| && Accesses(steps[t], addr, kind)
  }

  ghost predicate DemandIn(steps: seq<Step>, addr: nat, from: nat, to: nat) {
    exists t :: from <= t < to && t < |steps| && Demands(steps[t], addr)
  }

  /** The kind of the first demand between two times; Prefetch if there is none. */
  ghost predicate FirstDemand(steps: seq<Step>, addr: nat, from: nat, to: nat, kind: Kind) {
    if kind == Prefetch then !DemandIn(steps, addr, from, to)
    else exists t {:trigger DemandIn(steps, addr, from, t)} ::
      from <= t < to && t < |steps| && Accesses(steps[t], addr, kind) && !DemandIn(steps, addr, from, t)
  }

  /** The slot holds the miss at time m, and the kind of the first demand since. */
  ghost predicate SlotFrom(steps: seq<Step>, k: nat, slot: Slot, m: nat)
    requires k <= |steps|
  {
    && m < k && Misses(steps[m], slot.addr) && (forall t :: m < t < k ==> !Misses(steps[t], slot.addr))
    && FirstDemand(steps, slot.addr, m, k, slot.kind)
  }

  /** The address missed at time m and was filled at time f, neither of which has happened to it since. */
  ghost predicate Brought(run: seq<Cache>, steps: seq<Step>, k: nat, addr: nat, m: nat, f: nat)
    requires k <= |steps| && |run| == |steps| + 1
  {
    && m < f < k && Misses(steps[m], addr) && Fills(run[f], steps[f], addr)
    && (forall t :: m < t < k ==> !Misses(steps[t], addr)) && (forall t :: f < t < k ==> !Fills(run[t], steps[t], addr))
  }

  /** The flags for a miss whose first demand before the fill at f is of this kind. */
  ghost predicate FlagsSay(steps: seq<Step>, k: nat, b: Block, f: nat, kind: Kind) {
    && (b.prefetch <==> kind == Prefetch && !AccessIn(steps, b.tag, Load, f, k))
    && (b.used <==> AccessIn(steps, b.tag, Load, f, k))
    && (b.dirty <==> kind == Rfo || AccessIn(steps, b.tag, Rfo, f, k))
  }

  // ---------------------------------------------------------------------------------------------
  // One more step

  lemma AccessGrows(steps: seq<Step>, addr: nat, kind: Kind, from: nat, k: nat)
    requires from <= k < |steps|
    ensures AccessIn(steps, addr, kind, from, k + 1) <==> AccessIn(steps, addr, kind, from, k) || Accesses(steps[k], addr, kind)
  {
  }

  lemma DemandGrows(steps: seq<Step>, addr: nat, from: nat, k: nat)
    requires from <= k < |steps|
    ensures DemandIn(steps, addr, from, k + 1) <==> DemandIn(steps, addr, from, k) || Demands(steps[k], addr)
  {
  }

  /** What a step makes of a slot that it does not allocate. */
  predicate SlotGrew(slot: Slot, a: Step, next: Slot) {
    && next.addr == slot.addr && !Misses(a, slot.addr)
    && (slot.kind != Prefetch ==> next.kind == slot.kind)
    && (slot.kind == Prefetch ==> if Demands(a, slot.addr) then Accesses(a, slot.addr, next.kind) else next.kind == Prefetch)
  }

  /** What a step makes of a block that it does not fill. */
  predicate BlockGrew(b: Block, a: Step, next: Block) {
    && b.valid && next.tag == b.tag && !Misses(a, b.tag)
    && (next.prefetch <==> b.prefetch && !Accesses(a, b.tag, Load))
    && (next.used <==> b.used || Accesses(a, b.tag, Load))
    && (next.dirty <==> b.dirty || Accesses(a, b.tag, Rfo))
  }

  lemma SlotFromGrows(steps: seq<Step>, k: nat, slot: Slot, next: Slot, m: nat)
    requires k < |steps| && SlotFrom(steps, k, slot, m) && SlotGrew(slot, steps[k], next)
    ensures SlotFrom(steps, k + 1, next, m)
  {
    DemandGrows(steps, slot.addr, m, k);
    if slot.kind != Prefetch {
      var t :| m <= t < k && Accesses(steps[t], slot.addr, slot.kind) && !DemandIn(steps, slot.addr, m, t);
      assert !DemandIn(steps, slot.addr, m, t);
    }
  }

  lemma SlotAllocated(steps: seq<Step>, k: nat, slot: Slot)
    requires k < |steps| && Misses(steps[k], slot.addr) && slot.kind == steps[k].kind
    ensures SlotFrom(steps, k + 1, slot, k)
  {
    assert !DemandIn(steps, slot.addr, k, k);
    DemandGrows(steps, slot.addr, k, k);
  }

  lemma FlagsGrow(steps: seq<Step>, k: nat, b: Block, next: Block, f: nat, kind: Kind)
    requires f <= k < |steps| && FlagsSay(steps, k, b, f, kind) && BlockGrew(b, steps[k], next)
    ensures FlagsSay(steps, k + 1, next, f, kind)
  {
    AccessGrows(steps, b.tag, Load, f, k);
    AccessGrows(steps, b.tag, Rfo, f, k);
  }

  lemma SlotStep(c: Cache, a: Step, i: nat)
    requires Inv(c) && Enabled(c, a) && i < |c.mshr| == |Apply(c, a).mshr|
    requires Apply(c, a).mshr[i].addr != 0 && !(a.AccessMiss? && a.i == i)
    ensures SlotGrew(c.mshr[i], a, Apply(c, a).mshr[i])
  {
    match a
    case AccessHit(addr, w, kind) => HitNotMissing(c, addr, w, i);
    case AccessMerge(addr, j, kind) =>
    case AccessMiss(addr, j, kind, cycle) =>
    case DataReturn(j, now, latency) =>
    case FillBlock(way) =>
  }

  lemma HitNotMissing(c: Cache, addr: nat, w: nat, i: nat)
    requires Inv(c) && HitAt(c.blocks[SetOf(c, addr)], addr, w) && i < |c.mshr|
    ensures c.mshr[i].addr != addr
  {
    assert SetOk(c, SetOf(c, addr));
    assert WayOk(c, SetOf(c, addr), addr);
  }

  /** The step fills way w of set s. */
  ghost predicate FillsWay(c: Cache, a: Step, s: nat, w: nat)
    requires Shape(c) && Enabled(c, a)
  {
    a.FillBlock? && s == SetOf(c, c.mshr[c.nextIndex].addr) && w == a.way
  }

  lemma BlockStep(c: Cache, a: Step, s: nat, w: nat)
    requires Inv(c) && Enabled(c, a) && s < |c.blocks| == |Apply(c, a).blocks|
    requires w < |c.blocks[s]| == |Apply(c, a).blocks[s]| && Apply(c, a).blocks[s][w].valid && !FillsWay(c, a, s, w)
    ensures BlockGrew(c.blocks[s][w], a, Apply(c, a).blocks[s][w]) && !Fills(c, a, c.blocks[s][w].tag)
  {
    var tag := c.blocks[s][w].tag;
    assert SetOk(c, s);
    assert c.blocks[s][w].valid ==> WayOk(c, s, tag);
    match a
    case AccessHit(addr, v, kind) =>
    case AccessMerge(addr, j, kind) => assert addr != tag;
    case AccessMiss(addr, j, kind, cycle) => assert addr != tag;
    case DataReturn(j, now, latency) =>
    case FillBlock(way) => FillIsNew(c);
  }

  // ---------------------------------------------------------------------------------------------
  // Runs

  lemma TraceInv(run: seq<Cache>, steps: seq<Step>, k: nat)
    requires Trace(run, steps) && k <= |steps|
    ensures Inv(run[k]) && (k < |steps| ==> Took(run, steps, k))
  {
    TraceIsRun(run, steps);
    RunInv(run, k);
  }

  /** A slot in use was allocated by step k, or was there before it. */
  lemma SlotBefore(run: seq<Cache>, steps: seq<Step>, k: nat, i: nat)
    requires Trace(run, steps) && k < |steps| && i < |run[k + 1].mshr| && run[k + 1].mshr[i].addr != 0
    ensures if steps[k].AccessMiss? && steps[k].i == i
            then Misses(steps[k], run[k + 1].mshr[i].addr) && run[k + 1].mshr[i].kind == steps[k].kind
            else i < |run[k].mshr| && run[k].mshr[i].addr != 0 && SlotGrew(run[k].mshr[i], steps[k], run[k + 1].mshr[i])
  {
    TraceInv(run, steps, k);
    if !(steps[k].AccessMiss? && steps[k].i == i) { SlotStep(run[k], steps[k], i); }
  }

  /** In every state of every run: a slot in use is that of the latest miss to its address, and its kind is
      that of the first demand since that miss, or Prefetch while there is none. */
  lemma {:induction false} SlotHistory(run: seq<Cache>, steps: seq<Step>, k: nat, i: nat) returns (m: nat)
    requires Trace(run, steps) && k <= |steps| && i < |run[k].mshr| && run[k].mshr[i].addr != 0
    ensures SlotFrom(steps, k, run[k].mshr[i], m)
  {
    assert k > 0;
    SlotBefore(run, steps, k - 1, i);
    if steps[k - 1].AccessMiss? && steps[k - 1].i == i {
      m := k - 1;
      SlotAllocated(steps, m, run[k].mshr[i]);
    } else {
      m := SlotHistory(run, steps, k - 1, i);
      SlotFromGrows(steps, k - 1, run[k - 1].mshr[i], run[k].mshr[i], m);
    }
  }

  /** The block that step k put in way w of set s, if it did, and the slot it came from. */
  ghost predicate CameFrom(c: Cache, a: Step, b: Block) {
    && a.FillBlock? && c.nextIndex < |c.mshr| && c.mshr[c.nextIndex].addr == b.tag != 0
    && b == Block(true, b.tag, c.mshr[c.nextIndex].kind == Rfo, c.mshr[c.nextIndex].kind == Prefetch, false)
  }

  /** A valid block was brought by step k, or was there before it. */
  lemma BlockBefore(run: seq<Cache>, steps: seq<Step>, k: nat, s: nat, w: nat)
    requires Trace(run, steps) && k < |steps|
    requires s < |run[k + 1].blocks| && w < |run[k + 1].blocks[s]| && run[k + 1].blocks[s][w].valid
    ensures
      || CameFrom(run[k], steps[k], run[k + 1].blocks[s][w])
      || (s < |run[k].blocks| && w < |run[k].blocks[s]| && BlockGrew(run[k].blocks[s][w], steps[k], run[k + 1].blocks[s][w])
          && !Fills(run[k], steps[k], run[k + 1].blocks[s][w].tag))
  {
    TraceInv(run, steps, k);
    if FillsWay(run[k], steps[k], s, w) { FillIsNew(run[k]); } else { BlockStep(run[k], steps[k], s, w); }
  }

  /** In every state of every run: a valid block is that of the latest miss to its address and the latest fill.
      It is a prefetched block exactly when no demand came before the fill and no load since, used exactly
      when a load came since, and dirty exactly when the first demand before the fill was a write or a write
      came since. */
  lemma {:induction false} BlockHistory(run: seq<Cache>, steps: seq<Step>, k: nat, s: nat, w: nat)
    returns (m: nat, f: nat, kind: Kind)
    requires Trace(run, steps) && k <= |steps|
    requires s < |run[k].blocks| && w < |run[k].blocks[s]| && run[k].blocks[s][w].valid
    ensures Brought(run, steps, k, run[k].blocks[s][w].tag, m, f)
    ensures FirstDemand(steps, run[k].blocks[s][w].tag, m, f, kind)
    ensures FlagsSay(steps, k, run[k].blocks[s][w], f, kind)
  {
    assert k > 0;
    BlockBefore(run, steps, k - 1, s, w);
    if CameFrom(run[k - 1], steps[k - 1], run[k].blocks[s][w]) {
      f, kind := k - 1, run[k - 1].mshr[run[k - 1].nextIndex].kind;
      m := SlotHistory(run, steps, f, run[f].nextIndex);
    } else {
      m, f, kind := BlockHistory(run, steps, k - 1, s, w);
      FlagsGrow(steps, k - 1, run[k - 1].blocks[s][w], run[k].blocks[s][w], f, kind);
    }
  }

  // ---------------------------------------------------------------------------------------------
  // Replacement

  /** The way of set s that a step touches: the one it hits or fills. */
  function UseOf(c: Cache, a: Step, s: nat): seq<nat> {
    match a
    case AccessHit(addr, w, _) => if 0 < |c.blocks| && SetOf(c, addr) == s then [w] else []
    case FillBlock(way) =>
      if 0 < |c.blocks| && c.nextIndex < |c.mshr| && SetOf(c, c.mshr[c.nextIndex].addr) == s then [way] else []
    case AccessMerge(_, _, _) => []
    case AccessMiss(_, _, _, _) => []
    case DataReturn(_, _, _) => []
  }

  /** The ways of set s touched in the first k steps, in order. */
  function Uses(run: seq<Cache>, steps: seq<Step>, k: nat, s: nat): seq<nat>
    requires k <= |steps| && |run| == |steps| + 1
  {
    if k == 0 then [] else Uses(run, steps, k - 1, s) + UseOf(run[k - 1], steps[k - 1], s)
  }

  lemma UseStep(c: Cache, a: Step, s: nat)
    requires Inv(c) && Enabled(c, a) && s < |Apply(c, a).blocks|
    ensures var t, u := Apply(c, a), UseOf(c, a, s);
      && s < |c.blocks| == |c.lru| == |t.lru| && |t.blocks[s]| == |c.blocks[s]| == |c.lru[s]|
      && (u == [] ==> t.lru[s] == c.lru[s])
      && (u != [] ==> u == [u[0]] && u[0] < |c.lru[s]| && t.lru[s] == Promote(c.lru[s], u[0]))
  {
    assert SetOk(c, s);
  }

  ghost predicate RanksFollow(c: Cache, s: nat, uses: seq<nat>) {
    && s < |c.blocks| == |c.lru| && (forall n :: 0 <= n < |uses| ==> uses[n] < |c.blocks[s]|)
    && c.lru[s] == After(|c.blocks[s]|, uses)
  }

  lemma FollowMore(c: Cache, t: Cache, s: nat, uses: seq<nat>, u: seq<nat>)
    requires RanksFollow(c, s, uses) && s < |t.blocks| == |t.lru| && |t.blocks[s]| == |c.blocks[s]|
    requires u == [] ==> t.lru[s] == c.lru[s]
    requires u != [] ==> u == [u[0]] && u[0] < |c.lru[s]| && t.lru[s] == Promote(c.lru[s], u[0])
    ensures RanksFollow(t, s, uses + u)
  {
    if u == [] { assert uses + u == uses; } else { assert (uses + u)[..|uses|] == uses; }
  }

  lemma UseFollows(run: seq<Cache>, steps: seq<Step>, k: nat, s: nat, uses: seq<nat>)
    requires Trace(run, steps) && k < |steps| && s < |run[k + 1].blocks|
    ensures s < |run[k].blocks|
    ensures RanksFollow(run[k], s, uses) ==> RanksFollow(run[k + 1], s, uses + UseOf(run[k], steps[k], s))
  {
    TraceInv(run, steps, k);
    UseStep(run[k], steps[k], s);
    if RanksFollow(run[k], s, uses) { FollowMore(run[k], run[k + 1], s, uses, UseOf(run[k], steps[k], s)); }
  }

  /** In every state of every run the ranks of a set are those of the ways hit and filled so far, in order. */
  lemma {:induction false} RanksFollowUses(run: seq<Cache>, steps: seq<Step>, k: nat, s: nat)
    requires Trace(run, steps) && k <= |steps| && s < |run[k].blocks|
    ensures RanksFollow(run[k], s, Uses(run, steps, k, s))
  {
    if k > 0 {
      UseFollows(run, steps, k - 1, s, Uses(run, steps, k - 1, s));
      RanksFollowUses(run, steps, k - 1, s);
    }
  }

  /** So a fill that replaces a valid block replaces the one hit or filled least recently in its set. */
  lemma ReplacesLeastRecent(run: seq<Cache>, steps: seq<Step>, k: nat, s: nat, other: nat)
    requires Trace(run, steps) && k < |steps| && steps[k].FillBlock? && run[k].nextIndex < |run[k].mshr|
    requires s < |run[k].blocks| && s == SetOf(run[k], run[k].mshr[run[k].nextIndex].addr) && other < |run[k].blocks[s]|
    requires steps[k].way < |run[k].blocks[s]| && run[k].blocks[s][steps[k].way].valid && other != steps[k].way
    ensures run[k].blocks[s][other].valid
    ensures Recency(Uses(run, steps, k, s), steps[k].way) < Recency(Uses(run, steps, k, s), other)
  {
    TraceInv(run, steps, k);
    RanksFollowUses(run, steps, k, s);
    VictimIsLeastRecent(|run[k].blocks[s]|, Uses(run, steps, k, s), steps[k].way, other);
  }

  // ---------------------------------------------------------------------------------------------
  // The time of a fill

  /** The data of the slot came at step r, and is not due before the latency has passed since then and since
      the slot was due before. */
  ghost predicate ReturnedBy(run: seq<Cache>, steps: seq<Step>, k: nat, i: nat, r: nat)
    requires k <= |steps| && |run| == |steps| + 1 && i < |run[k].mshr|
  {
    && r < k && steps[r].DataReturn? && steps[r].i == i && i < |run[r].mshr|
    && run[r].mshr[i].addr == run[k].mshr[i].addr
    && run[k].mshr[i].cycle >= steps[r].now + steps[r].latency
    && run[k].mshr[i].cycle >= run[r].mshr[i].cycle + steps[r].latency
  }

  lemma ReturnStep(c: Cache, a: Step, i: nat)
    requires Shape(c) && MshrOk(c) && Enabled(c, a) && i < |Apply(c, a).mshr| && Apply(c, a).mshr[i].returned
    ensures i < |c.mshr| && c.mshr[i].addr == Apply(c, a).mshr[i].addr
    ensures if a.DataReturn? && a.i == i
            then Apply(c, a).mshr[i].cycle >= a.now + a.latency && Apply(c, a).mshr[i].cycle >= c.mshr[i].cycle + a.latency
            else c.mshr[i].returned && Apply(c, a).mshr[i].cycle == c.mshr[i].cycle
  {
    match a
    case AccessHit(_, _, _) =>
    case AccessMerge(_, _, _) =>
    case AccessMiss(_, _, _, _) =>
    case DataReturn(_, _, _) =>
    case FillBlock(_) =>
  }

  lemma {:induction false} ReturnHistory(run: seq<Cache>, steps: seq<Step>, k: nat, i: nat) returns (r: nat)
    requires Trace(run, steps) && k <= |steps| && i < |run[k].mshr| && run[k].mshr[i].returned
    ensures ReturnedBy(run, steps, k, i, r)
  {
    assert k > 0;
    TraceInv(run, steps, k - 1);
    ReturnStep(run[k - 1], steps[k - 1], i);
    if steps[k - 1].DataReturn? && steps[k - 1].i == i { r := k - 1; } else { r := ReturnHistory(run, steps, k - 1, i); }
  }
}
