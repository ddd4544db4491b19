/** Bingo as it runs (inc/bingo.h, prefetcher/bingo.cc), on three set-associative tables. */
module BingoPrefetcher {
  import opened Basics
  import opened Bits
  import opened IndexHash
  import opened BingoKeys
  import opened Rotation
  import opened SetAssociative
  import opened PatternHistory
  import opened BingoGenerations
  import opened BingoLife
  import opened BingoHistory

  /** The stored footprints of the given keys, turned to an offset. */
  ghost function Turned(history: map<nat, seq<bool>>, keys: seq<nat>, offset: int): (r: seq<seq<bool>>)
    requires forall i :: 0 <= i < |keys| ==> keys[i] in history && |history[keys[i]]| > 0
    ensures |r| == |keys|
  {
    seq(|keys|, i requires 0 <= i < |keys| => Rotate(history[keys[i]], offset))
  }

  class Bingo {
    const s: Setup
    const patternLen: nat
    const fillLevel: nat
    /** The vote among footprints of the same PC and offset, whose thresholds are floating point. */
    const vote: seq<seq<bool>> -> seq<nat>
    const filter: LruCache<Trigger>
    const acc: LruCache<Generation>
    const pht: PatternHistoryTable
    /** The state of the region's lives, of which the tables hold the first three parts. */
    ghost var life: Life

    ghost predicate Linked()
      reads this, filter, acc, pht.table
    {
      && SetupOk(s) && patternLen == Pow2(s.p) && pht.widths == s.c && pht.patternLen == patternLen
      && (filter as object) != acc && (filter as object) != pht.table && (acc as object) != pht.table
      && filter.Valid() && acc.Valid() && pht.Valid()
      && filter.view.untouched == {} && acc.view.untouched == {}
    }

    ghost predicate Valid()
      reads this, filter, acc, pht.table
    {
      // compared with true, the conjunction is proved whole instead of conjunct by conjunct
      (Linked() && Tied(life) && Reached(s, life)) == true
    }

    /** The tables hold what l says. */
    ghost predicate Tied(l: Life)
      reads this, filter, acc, pht.table
    {
      filter.view.contents == l.filter && acc.view.contents == l.acc && pht.table.view.contents == l.history
    }

    constructor (s: Setup, fillLevel: nat, vote: seq<seq<bool>> -> seq<nat>, filterSets: nat, accSets: nat, ways: nat, phtWays: nat)
      requires SetupOk(s) && 0 < filterSets && 0 < accSets && 0 < ways && 0 < phtWays
      ensures Valid() && fresh(filter) && fresh(acc) && fresh(pht) && fresh(pht.table)
      ensures life == EMPTY && this.s == s
    {
      this.s, this.fillLevel, this.vote := s, fillLevel, vote;
      patternLen := Pow2(s.p);
      filter := new LruCache(filterSets, ways, Trigger(0, 0));
      acc := new LruCache(accSets, ways, Generation(0, 0, []));
      pht := new PatternHistoryTable(s.c, Pow2(s.p), phtWays);
      life := EMPTY;
      new;
      ReachedEmpty(s);
    }

    /** set_pattern of the accumulation table. */
    method SetPattern(region: nat, offset: nat) returns (marked: bool)
      requires Linked()
      requires RegionKey(region, s.accLen) in acc.view.contents ==> offset < |acc.view.contents[RegionKey(region, s.accLen)].pattern|
      modifies acc
      ensures Linked()
      ensures var k, was := RegionKey(region, s.accLen), old(acc.view).contents;
        marked == (k in was) && acc.view.contents == if k in was then was[k := Marked(was[k], offset)] else was
    {
      var k := HashIndex(Low(region, REGION_BITS), s.accLen);
      var g := acc.Lookup(k);
      if g.None? { return false; }
      acc.Update(k, Marked(g.value, offset));
      acc.SetMru(k);
      return true;
    }

    /** insert_in_pht: the footprint is stored under its PC and its rebuilt address. */
    method InsertInPht(key: nat, g: Generation) returns (ghost address: nat)
      requires Linked() && |g.pattern| == patternLen
      modifies pht.table
      ensures Linked() && address == Hash(key, s.accLen) * patternLen + g.offset
      ensures Stored(s.c, Pow2(s.p), old(pht.table.view).contents, pht.table.view.contents, Footprint(g.pc, address, g.pattern))
    {
      var region := HashIndex(key, s.accLen);
      ghost var gone := pht.Insert(g.pc, region * patternLen + g.offset, g.pattern);
      address := region * patternLen + g.offset;
    }

    /** What a trigger access learns from the history: the latest footprint sent for this PC and block if
        the history has it, else the vote among all entries of this PC and offset, else nothing. */
    ghost predicate Answers(l: Life, pc: nat, block: nat, event: Event, plan: seq<nat>) {
      var key := BuildKey(s.c, pc, block);
      && (event == PcAddress <==> key in l.history)
      && (event == PcAddress ==> key in l.latest && Planned(l.latest[key].pattern, fillLevel, plan))
      && (event == Miss ==> plan == [] && Enumerates(s.c, l.history, key, []))
      && (event == PcOffset ==> exists keys :: keys != [] && Voted(l.history, key, block, keys, plan))
    }

    ghost predicate Voted(history: map<nat, seq<bool>>, key: nat, block: nat, keys: seq<nat>, plan: seq<nat>) {
      && 0 < patternLen && Enumerates(s.c, history, key, keys) && (forall i :: 0 <= i < |keys| ==> |history[keys[i]]| == patternLen)
      && plan == vote(Turned(history, keys, block % patternLen))
    }

    /** find_in_pht: if the history has an entry for this PC and block, the plan is exactly the latest
        footprint sent for them; otherwise it is the vote among the entries of this PC and offset. */
    method FindInPht(pc: nat, block: nat) returns (event: Event, plan: seq<nat>)
      requires Valid()
      modifies pht.table
      ensures Valid()
      ensures Answers(life, pc, block, event, plan)
    {
      var matches;
      ghost var keys;
      event, matches, keys := pht.Find(pc, block);
      plan := [];
      match event
      case PcAddress =>
        HistoryFacts(s, life, pc, block);
        plan := LevelLoop(matches[0], fillLevel);
      case PcOffset =>
        assert matches == Turned(life.history, keys, block % patternLen);
        plan := vote(matches);
        assert Voted(life.history, BuildKey(s.c, pc, block), block, keys, plan);
      case Miss =>
    }

    /** The new generation enters the accumulation table with its trigger and second block. */
    method StartAccumulating(region: nat, t: Trigger, offset: nat) returns (victim: Entry<Generation>)
      requires Linked() && t.offset < patternLen && offset < patternLen
      requires RegionKey(region, s.accLen) !in acc.view.contents
      modifies acc
      ensures Linked()
      ensures var k, was := RegionKey(region, s.accLen), old(acc.view).contents;
        && (victim.valid ==> victim.key in was && victim.key != k && victim.data == was[victim.key])
        && acc.view.contents == (if victim.valid then was - {victim.key} else was)[k := Pair(t, offset, patternLen)]
    {
      var k := HashIndex(Low(region, REGION_BITS), s.accLen);
      victim := acc.Put(k, Generation(t.pc, t.offset, First(t.offset, patternLen)));
      var marked := SetPattern(region, offset);
    }

    /** A region moves from the filter table to the accumulation table. */
    method Move(region: nat, t: Trigger, offset: nat) returns (victim: Entry<Generation>)
      requires Linked() && t.offset < patternLen && offset < patternLen
      requires RegionKey(region, s.accLen) !in acc.view.contents
      modifies acc, filter
      ensures Linked()
      ensures filter.view.contents == old(filter.view).contents - {RegionKey(region, s.filterLen)}
      ensures var k, was := RegionKey(region, s.accLen), old(acc.view).contents;
        && (victim.valid ==> victim.key in was && victim.key != k && victim.data == was[victim.key])
        && acc.view.contents == (if victim.valid then was - {victim.key} else was)[k := Pair(t, offset, patternLen)]
    {
      victim := StartAccumulating(region, t, offset);
      var fk := HashIndex(Low(region, REGION_BITS), s.filterLen);
      var _ := filter.Erase(fk);
    }

    /** Sends a generation that has just left the accumulation table. */
    method SendOut(key: nat, g: Generation)
      requires Linked() && Reached(s, life) && key in life.acc && g == life.acc[key] && pht.table.view.contents == life.history
      modifies pht.table
      ensures Linked()
      ensures Enabled(s, life, Send(key, pht.table.view.contents))
    {
      AccFacts(s, life, key);
      ghost var address := InsertInPht(key, g);
    }

    /** A region with a trigger sees a second block: its generation begins, and a generation that
        loses its place to it is sent. */
    method Promote(region: nat, t: Trigger, offset: nat, pc: nat) returns (ghost victim: Option<nat>)
      requires Valid() && t.offset < patternLen && Begins(s, life, region, offset)
      requires life.filter[RegionKey(region, s.filterLen)] == t
      modifies this, filter, acc, pht.table
      ensures Valid() && SendsVictim(s, old(life), victim, life.history)
      ensures life == Promoted(s, old(life), region, offset, pc, victim, life.history)
    {
      var out := Move(region, t, offset);
      victim := None;
      if out.valid {
        SendOut(out.key, out.data);
        victim := Some(out.key);
      }
      ghost var after := pht.table.view.contents;
      PromoteReached(s, life, region, offset, pc, victim, after);
      life := Promoted(s, life, region, offset, pc, victim, after);
    }

    method AccessRegion(block: nat, region: nat, offset: nat, pc: nat) returns (event: Event, plan: seq<nat>, ghost victim: Option<nat>)
      requires Valid() && offset < patternLen
      modifies this, filter, acc, pht.table
      ensures Valid() && Accessed(s, old(life), life, region, offset, pc, victim)
      ensures if Triggers(s, old(life), region) then Answers(old(life), pc, block, event, plan) else event == Miss && plan == []
    {
      event, plan, victim := Miss, [], None;
      if RegionKey(region, s.accLen) in life.acc { MarkReached(s, life, region, offset, pc); }
      var marked := SetPattern(region, offset);
      if marked {
        life := MarkedLife(s, life, region, offset, pc);
        return;
      }
      var fk := HashIndex(Low(region, REGION_BITS), s.filterLen);
      var entry := filter.Lookup(fk);
      if entry.None? {
        event, plan := FirstAccess(block, region, offset, pc);
      } else {
        victim := LaterAccess(region, fk, entry.value, offset, pc);
      }
    }

    /** An access to a region that has a trigger. */
    method LaterAccess(region: nat, fk: nat, t: Trigger, offset: nat, pc: nat) returns (ghost victim: Option<nat>)
      requires Valid() && offset < patternLen && fk == RegionKey(region, s.filterLen)
      requires fk in life.filter && life.filter[fk] == t && RegionKey(region, s.accLen) !in life.acc
      modifies this, filter, acc, pht.table
      ensures Valid()
      ensures t.offset == offset ==> life == Logged(old(life), region, offset, pc)
      ensures t.offset != offset ==>
        SendsVictim(s, old(life), victim, life.history) && life == Promoted(s, old(life), region, offset, pc, victim, life.history)
    {
      victim := None;
      filter.SetMru(fk);
      if t.offset != offset {
        victim := SecondAccess(region, fk, t, offset, pc);
      } else {
        RepeatReached(s, life, region, pc);
        life := Logged(life, region, offset, pc);
      }
    }

    /** An access to another block of a region that has a trigger. */
    method SecondAccess(region: nat, fk: nat, t: Trigger, offset: nat, pc: nat) returns (ghost victim: Option<nat>)
      requires Valid() && fk == RegionKey(region, s.filterLen) && Begins(s, life, region, offset) && life.filter[fk] == t
      modifies this, filter, acc, pht.table
      ensures Valid() && SendsVictim(s, old(life), victim, life.history)
      ensures life == Promoted(s, old(life), region, offset, pc, victim, life.history)
    {
      FilterFacts(s, life, fk);
      RegionBack(region, s.filterLen);
      var short := HashIndex(fk, s.filterLen);
      victim := Promote(short, t, offset, pc);
    }

    /** A trigger access. */
    method FirstAccess(block: nat, region: nat, offset: nat, pc: nat) returns (event: Event, plan: seq<nat>)
      requires Valid() && offset < patternLen && RegionKey(region, s.accLen) !in life.acc
      modifies this, filter, pht.table
      ensures Valid() && Tripped(s, old(life), life, region, Trigger(pc, offset))
      ensures Answers(old(life), pc, block, event, plan)
    {
      Trip(region, pc, offset);
      event, plan := FindInPht(pc, block);
    }

    /** The trigger enters the filter table, possibly in the place of another region's. */
    method PutTrigger(region: nat, t: Trigger) returns (ghost gone: set<nat>)
      requires Linked() && t.offset < patternLen
      modifies filter
      ensures Linked() && filter.view.contents == (old(filter.view).contents - gone)[RegionKey(region, s.filterLen) := t]
    {
      var fk := HashIndex(Low(region, REGION_BITS), s.filterLen);
      var was := filter.Put(fk, t);
      gone := if was.valid then {was.key} else {};
      assert !was.valid ==> old(filter.view).contents - gone == old(filter.view).contents;
    }

    method Trip(region: nat, pc: nat, offset: nat)
      requires Valid() && offset < patternLen && RegionKey(region, s.accLen) !in life.acc
      modifies this, filter
      ensures Valid() && Tripped(s, old(life), life, region, Trigger(pc, offset))
    {
      ghost var gone := PutTrigger(region, Trigger(pc, offset));
      TripReached(s, life, region, Trigger(pc, offset), gone);
      life := TrippedLife(s, life, region, Trigger(pc, offset), gone);
    }

    /** An access by a load. */
    method Access(block: nat, pc: nat) returns (event: Event, plan: seq<nat>, ghost victim: Option<nat>)
      requires Valid()
      modifies this, filter, acc, pht.table
      ensures Valid() && Accessed(s, old(life), life, High(block, s.p), Low(block, s.p), pc, victim)
      ensures life.touches == old(life).touches + [Touch(Low(High(block, s.p), REGION_BITS), Low(block, s.p), pc)]
      ensures if Triggers(s, old(life), High(block, s.p)) then Answers(old(life), pc, block, event, plan) else event == Miss && plan == []
      ensures event == PcAddress ==> Learnt(s, old(life), pc, block, fillLevel, plan)
    {
      ghost var was := life;
      var region, offset := Split(block, s.p, patternLen);
      event, plan, victim := AccessRegion(block, region, offset, pc);
      if event == PcAddress { PlanLearnt(s, was, pc, block, fillLevel, plan); }
    }

    method EvictRegion(region: nat)
      requires Valid()
      modifies this, filter, acc, pht.table
      ensures Valid() && Evicted(s, old(life), life, region)
    {
      ForgetTrigger(region);
      var ak := HashIndex(Low(region, REGION_BITS), s.accLen);
      var g := acc.Erase(ak);
      if g.Some? {
        SendOut(ak, g.value);
        ghost var after := pht.table.view.contents;
        ReachedStep(s, life, Send(ak, after));
        life := Sent(s, life, ak, after);
      } else {
        assert acc.view.contents == life.acc;
      }
    }

    method ForgetTrigger(region: nat)
      requires Valid()
      modifies this, filter
      ensures Valid() && life == old(life).(filter := old(life).filter - {RegionKey(region, s.filterLen)})
    {
      var fk := HashIndex(Low(region, REGION_BITS), s.filterLen);
      var _ := filter.Erase(fk);
      ReachedStep(s, life, Forget({fk}));
      life := life.(filter := life.filter - {fk});
    }

    /** The eviction of a block ends the generation of its region. */
    method Eviction(block: nat)
      requires Valid()
      modifies this, filter, acc, pht.table
      ensures Valid() && Evicted(s, old(life), life, High(block, s.p))
    {
      var region, _ := Split(block, s.p, patternLen);
      EvictRegion(region);
    }
  }

  /** Region number and offset of a block, by division. */
  method Split(block: nat, p: nat, len: nat) returns (region: nat, offset: nat)
    requires len == Pow2(p)
    ensures region == High(block, p) && offset == Low(block, p) && offset < len
  {
    PartsDivide(block, p);
    region, offset := block / len, block % len;
  }

  /** The region is in neither table, so that an access to it is a trigger. */
  ghost predicate Triggers(s: Setup, l: Life, region: nat) {
    RegionKey(region, s.accLen) !in l.acc && RegionKey(region, s.filterLen) !in l.filter
  }

  method LevelLoop(pattern: seq<bool>, level: nat) returns (plan: seq<nat>)
    ensures Planned(pattern, level, plan)
  {
    plan := seq(|pattern|, _ => 0);
    for i := 0 to |pattern|
      invariant |plan| == |pattern|
      invariant forall j :: 0 <= j < |pattern| ==> plan[j] == if j < i && pattern[j] then level else 0
    {
      if pattern[i] { plan := plan[i := level]; }
    }
  }
}
