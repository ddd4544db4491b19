/** Scooby's tracker as it runs (prefetcher/scooby.cc). */
module Scooby {
  import opened Basics
  import opened ScoobyTracker

  class Scooby {
    const ptSize: nat
    var prefetchTracker: seq<Decision>
    var lastEvicted: Option<Decision>
    /** The calls made to the learner, in order. */
    var learned: seq<Learn>
    ghost var made: seq<Made>
    ghost var left: seq<nat>
    ghost var log: seq<Event>

    ghost function Snapshot(): Agent
      reads this
    {
      Agent(ptSize, prefetchTracker, lastEvicted, made, left, learned, log)
    }

    /** The object is in the state of some run of the tracker. */
    ghost predicate Valid()
      reads this
    {
      Reached(Snapshot())
    }

    constructor (ptSize: nat)
      requires 0 < ptSize
      ensures Valid() && this.ptSize == ptSize && prefetchTracker == [] && learned == []
    {
      this.ptSize := ptSize;
      prefetchTracker, lastEvicted, learned := [], None, [];
      made, left, log := [], [], [];
      new;
      ReachedInit(Snapshot());
    }

    /** The oldest tracked decision with this address. */
    method SearchPt(addr: nat) returns (i: nat)
      ensures Search(prefetchTracker, addr, i)
    {
      i := 0;
      while i < |prefetchTracker|
        invariant i <= |prefetchTracker| && forall j :: 0 <= j < i ==> prefetchTracker[j].addr != addr
      {
        if prefetchTracker[i].addr == addr { return; }
        i := i + 1;
      }
    }

    /** The reward on eviction, for a decision that has none, and the call to the learner. */
    method Train(current: Decision, previous: Decision)
      modifies this`learned
      ensures learned == old(learned) + [Learn(previous.state, previous.action, FinalReward(previous), current.state, current.action)]
    {
      var p := previous;
      if p.reward.None? {
        p := p.(reward := Some(if p.addr == NONE_ADDR then NoPrefetch else Incorrect));
      }
      learned := learned + [Learn(p.state, p.action, p.reward.value, current.state, current.action)];
    }

    method EvictOldest()
      requires 0 < |prefetchTracker|
      modifies this
      ensures Snapshot() == MakeRoom(old(Snapshot()))
    {
      var out := prefetchTracker[0];
      prefetchTracker := prefetchTracker[1..];
      if lastEvicted.Some? { Train(out, lastEvicted.value); }
      lastEvicted := Some(out);
      left := left + [|log|];
    }

    /** track, and the reward assigned on the spot; tells whether the address was new. */
    method TrackDecision(addr: nat, state: nat, action: nat, pre: Option<Kind>) returns (isNew: bool)
      requires Valid() && (addr != NONE_ADDR ==> pre == None)
      modifies this
      ensures Valid() && isNew == !Present(old(prefetchTracker), addr)
      ensures 0 < ptSize && Snapshot() == Track(old(Snapshot()), addr, state, action, pre)
      ensures |prefetchTracker| <= ptSize
    {
      ReachedInv(Snapshot());
      ReachedStep(Snapshot(), MakeDecision(addr, state, action, pre));
      var i := SearchPt(addr);
      isNew := i == |prefetchTracker|;
      if !isNew && addr != NONE_ADDR { return; }
      if |prefetchTracker| >= ptSize { EvictOldest(); }
      prefetchTracker := prefetchTracker + [Decision(addr, state, action, false, pre)];
      made := made + [Made(addr, state, action, |log|, pre)];
      log := log + [Tracked(addr)];
    }

    /** reward, on a demand to a block-aligned address. */
    method Reward(addr: nat)
      requires Valid() && addr % 64 == 0
      modifies this
      ensures Valid() && exists i :: Search(old(prefetchTracker), addr, i) && Snapshot() == Demand(old(Snapshot()), addr, i)
    {
      var i := SearchPt(addr);
      ReachedStep(Snapshot(), SeeDemand(addr, i));
      log := log + [Demanded(addr)];
      if i < |prefetchTracker| {
        var d := prefetchTracker[i];
        if d.reward.None? {
          prefetchTracker := prefetchTracker[i := d.(reward := Some(if d.filled then CorrectTimely else CorrectUntimely))];
        }
      }
      assert Snapshot() == Demand(old(Snapshot()), addr, i);
    }

    method RegisterFill(addr: nat)
      requires Valid()
      modifies this
      ensures Valid() && exists i :: Search(old(prefetchTracker), addr, i) && Snapshot() == Fill(old(Snapshot()), addr, i)
    {
      var i := SearchPt(addr);
      ReachedStep(Snapshot(), SeeFill(addr, i));
      log := log + [Filled(addr)];
      if i < |prefetchTracker| { prefetchTracker := prefetchTracker[i := prefetchTracker[i].(filled := true)]; }
    }
  }
}
