/**
 The reorder buffer as the core runs it (src/ooo_cpu.cc): arrays updated in place by loops.
 Every method is proved to be a sequence of enabled steps of `RegisterScheduler`, so the run
 theorems of `RegisterSafety` hold of this object, and the sanity checks in its bodies pass.
 */
module ReorderBuffer {
  import opened Basics
  import opened RegisterScheduler
  import opened RegisterSafety
  import opened DependenceScan
  import opened ReadyQueue

  /** The links from p to c in the slots below j. */
  function SlotsBelow(e: Entry, p: nat, c: int, j: int): set<(int, int)> {
    set x | x in Slots(e, p, c) && x.1 < j
  }

  lemma SlotsBelowStep(e: Entry, p: nat, c: int, j: nat)
    requires j < SOURCES
    ensures |SlotsBelow(e, p, c, j + 1)| == |SlotsBelow(e, p, c, j)| + if c in e.slotDeps[j] then 1 else 0
    ensures |SlotsBelow(e, p, c, j + 1)| <= |Slots(e, p, c)|
    ensures SlotsBelow(e, p, c, 0) == {} && SlotsBelow(e, p, c, SOURCES) == Slots(e, p, c)
  {
    var a, b, x := SlotsBelow(e, p, c, j), SlotsBelow(e, p, c, j + 1), (p as int, j as int);
    assert b == a + if c in e.slotDeps[j] then {x} else {};
    assert Slots(e, p, c) == b + (Slots(e, p, c) - b);
  }

  function Decremented(e: Entry): Entry {
    if e.numDep == 1
    then e.(numDep := 0, regReady := true, scheduled := if e.isMemory then InFlight else Completed)
    else e.(numDep := e.numDep - 1)
  }

  /** Releasing k links makes e ready to execute. */
  predicate Roused(e: Entry, k: nat) { k > 0 && e.numDep == k && !e.isMemory }

  /** The state once completion of p has been passed on to the consumers below k. */
  function PartlyComplete(s: Core, p: nat, k: nat): Core
    requires p < |s.rob| && k <= |s.rob|
  {
    var woken := Woken(s, p, k);
    assert forall n :: 0 <= n < |woken| ==> woken[n] in woken;
    s.(rob := seq<Entry>(|s.rob|, c requires 0 <= c < |s.rob| =>
         if c == p then s.rob[p].(executed := Completed)
         else if c < k then Relieved(s.rob[c], |Slots(s.rob[p], p, c)|) else s.rob[c]),
       rte0 := s.rte0 + woken,
       entered := s.entered + Ids(s, woken))
  }

  lemma PartlyStart(s: Core, p: nat)
    requires p < |s.rob|
    ensures PartlyComplete(s, p, 0) == s.(rob := s.rob[p := s.rob[p].(executed := Completed)])
  {
    var t := PartlyComplete(s, p, 0);
    assert t.rob == s.rob[p := s.rob[p].(executed := Completed)];
    assert t.rte0 == s.rte0 && t.entered == s.entered;
  }

  lemma PartlyEnd(s: Core, p: nat)
    requires p < |s.rob|
    ensures PartlyComplete(s, p, |s.rob|) == Complete(s, p)
  {
    assert PartlyComplete(s, p, |s.rob|).rob == Complete(s, p).rob;
  }

  lemma IdsAppend(s: Core, w: seq<nat>, c: nat)
    requires c < |s.rob| && forall n :: 0 <= n < |w| ==> w[n] < |s.rob|
    ensures Ids(s, w + [c]) == Ids(s, w) + [s.rob[c].id]
  {
  }

  lemma WokenBelow(s: Core, p: nat, k: nat)
    requires k <= |s.rob|
    ensures forall n :: 0 <= n < |Woken(s, p, k)| ==> Woken(s, p, k)[n] < |s.rob|
  {
    forall n | 0 <= n < |Woken(s, p, k)| ensures Woken(s, p, k)[n] < |s.rob| {
      assert Woken(s, p, k)[n] in Woken(s, p, k);
    }
  }

  lemma WokenIds(s: Core, p: nat, c: nat)
    requires c < |s.rob|
    ensures Woken(s, p, c + 1) == Woken(s, p, c) + if Wakes(s, p, c) then [c] else []
    ensures forall n :: 0 <= n < |Woken(s, p, c)| ==> Woken(s, p, c)[n] < |s.rob|
    ensures var w := Woken(s, p, c + 1); forall n :: 0 <= n < |w| ==> w[n] < |s.rob|
    ensures Ids(s, Woken(s, p, c + 1)) == Ids(s, Woken(s, p, c)) + if Wakes(s, p, c) then [s.rob[c].id] else []
  {
    WokenBelow(s, p, c);
    WokenBelow(s, p, c + 1);
    if Wakes(s, p, c) { IdsAppend(s, Woken(s, p, c), c); }
  }

  lemma WokenStep(s: Core, p: nat, c: nat)
    requires p < |s.rob| && c < |s.rob|
    ensures PartlyComplete(s, p, c + 1).rte0 == PartlyComplete(s, p, c).rte0 + if Wakes(s, p, c) then [c] else []
    ensures PartlyComplete(s, p, c + 1).entered ==
      PartlyComplete(s, p, c).entered + if Wakes(s, p, c) then [s.rob[c].id] else []
  {
    WokenIds(s, p, c);
  }

  lemma PartlyStep(s: Core, p: nat, c: nat)
    requires p < |s.rob| && c < |s.rob| && c != p
    ensures PartlyComplete(s, p, c + 1).rob ==
      PartlyComplete(s, p, c).rob[c := Relieved(s.rob[c], |Slots(s.rob[p], p, c)|)]
  {
  }

  /** A consumer without links to p is left alone. */
  lemma PartlySkip(s: Core, p: nat, c: nat)
    requires p < |s.rob| && c < |s.rob| && Slots(s.rob[p], p, c) == {}
    ensures PartlyComplete(s, p, c + 1) == PartlyComplete(s, p, c)
  {
    var t, u := PartlyComplete(s, p, c), PartlyComplete(s, p, c + 1);
    assert u.rob == t.rob;
    WokenStep(s, p, c);
  }

  class O3Cpu {
    const size: nat
    const rob: array<Entry>
    var head: nat
    var tail: nat
    var occupancy: nat
    var nextId: nat
    const rte0: ReadyRing
    const rte1: ReadyRing
    /** The state of the register scheduler that the fields stand for. */
    ghost var core: Core

    ghost predicate Tied(s: Core)
      reads this, rob, rte0, rte1
    {
      && rob[..] == s.rob && head == s.head && tail == s.tail && occupancy == s.occupancy && nextId == s.nextId
      && rte0.contents == s.rte0 && rte1.contents == s.rte1
    }

    /** The arrays are distinct and well formed. */
    ghost predicate Linked()
      reads this, rob, rte0, rte0.slots, rte1, rte1.slots
    {
      && rob.Length == size == rte0.size == rte1.size
      && rte0 != rte1 && rte0.slots != rte1.slots
      && rte0.Valid() && rte1.Valid()
    }

    /** The object is in a state that a run of the register scheduler ends in. */
    ghost predicate Valid()
      reads this, rob, rte0, rte0.slots, rte1, rte1.slots
    {
      // compared with true, the conjunction is proved whole instead of conjunct by conjunct
      (Linked() && Tied(core) && Reached(core)) == true
    }

    constructor (n: nat)
      requires 0 < n
      ensures Valid() && Init(core) && size == n
    {
      size, head, tail, occupancy, nextId := n, 0, 0, 0, 0;
      rob := new Entry[n](_ => EMPTY_ENTRY);
      rte0 := new ReadyRing(n);
      rte1 := new ReadyRing(n);
      core := Core(seq(n, _ => EMPTY_ENTRY), 0, 0, 0, 0, [], [], [], []);
      new;
      assert rob[..] == core.rob;
      ReachedInit(core);
    }

    method AddToRob(x: Instr)
      requires Valid() && occupancy < size
      modifies this, rob
      ensures Valid() && old(core).tail < |old(core).rob| && core == Added(old(core), x)
      ensures old(tail) < size == rob.Length && occupancy == old(occupancy) + 1 && nextId == old(nextId) + 1
      ensures var e := rob[old(tail)];
        && e.occupied && e.id == old(nextId) && e.isMemory == x.isMemory && e.src == x.src && e.dst == x.dst && e.memOps == x.memOps
        && e.scheduled == e.executed == Idle && e.dependents == {} && !e.isProducer
      ensures forall k :: 0 <= k < size && k != old(tail) ==> rob[k] == old(rob[k])
    {
      AddFacts(core);
      ReachedStep(core, Add(x));
      rob[tail] := NewEntry(x, nextId);
      occupancy := occupancy + 1;
      tail := tail + 1;
      if tail >= size { tail := 0; }
      nextId := nextId + 1;
      core := Added(core, x);
    }

    /** Link source slot j of `current` to `prior` if one of its destinations matches. */
    method RegRawDependency(prior: nat, current: nat, j: nat)
      requires prior < rob.Length && current < rob.Length && j < SOURCES && prior != current
      requires rob[current].src[j] != 0
      modifies rob
      ensures rob[..] ==
        if old(rob[current].src[j] in rob[prior].dst) then LinkOne(old(rob[..]), prior, current, j) else old(rob[..])
    {
      var d := 0;
      while d < |rob[prior].dst|
        invariant d <= |rob[prior].dst| && rob[..] == old(rob[..])
        invariant rob[current].src[j] !in rob[prior].dst[..d]
      {
        if rob[prior].dst[d] != 0 && rob[prior].dst[d] == rob[current].src[j] {
          rob[prior] := rob[prior].(
            isProducer := true,
            dependents := rob[prior].dependents + {current},
            slotDeps := rob[prior].slotDeps[j := rob[prior].slotDeps[j] + {current}]);
          rob[current] := rob[current].(
            regReady := false,
            numDep := rob[current].numDep + 1,
            checked := rob[current].checked[j := true]);
          assert rob[..] == LinkOne(old(rob[..]), prior, current, j);
          return;
        }
        d := d + 1;
      }
    }

    /** One iteration of the scan: compare every source slot of `current` with entry `prior`. */
    method CheckPrior(prior: nat, current: nat, ghost s: Core)
      requires rob.Length == |s.rob| && Shape(s) && InWindow(s, current) && InWindow(s, prior)
      requires Age(s, prior) < Age(s, current) && s.rob[current].checked == NONE_CHECKED
      requires rob[..] == LinkedRob(s, current, Age(s, prior) + 1, SOURCES)
      modifies rob
      ensures rob[..] == LinkedRob(s, current, Age(s, prior), SOURCES)
    {
      ghost var a := Age(s, prior);
      RowStep(s, current, a);
      assert rob[prior] == LinkedRob(s, current, a, 0)[prior];
      if rob[prior].executed == Completed {
        SkipCompleted(s, current, prior);
        return;
      }
      for j := 0 to SOURCES
        invariant rob[..] == LinkedRob(s, current, a, j)
      {
        SlotStep(s, current, prior, j);
        assert rob[prior] == rob[..][prior] && rob[current] == rob[..][current];
        if rob[current].src[j] != 0 && !rob[current].checked[j] {
          RegRawDependency(prior, current, j);
        }
      }
    }
  
    /** Link every source of `i` to its youngest older incomplete writer, from young to old. */
    method RegDependency(i: nat, ghost s: Core)
      requires rob.Length == |s.rob| && head == s.head && Shape(s) && InWindow(s, i)
      requires s.rob[i].checked == NONE_CHECKED
      requires rob[..] == s.rob[i := s.rob[i].(regReady := true)]
      modifies rob
      ensures rob[..] == LinkedRob(s, i, 0, SOURCES)
    {
      ScanStart(s, i);
      if i != head {
        var prior := if i == 0 then rob.Length - 1 else i - 1;
        if head <= prior {
          var p := prior + 1;
          while p > head
            invariant head <= p <= prior + 1
            invariant rob[..] == LinkedRob(s, i, p - head, SOURCES)
          {
            p := p - 1;
            CheckPrior(p, i, s);
          }
        } else {
          var p := prior + 1;
          while p > 0
            invariant 0 <= p <= prior + 1 <= head
            invariant rob[..] == LinkedRob(s, i, if p == 0 then |s.rob| - head else Age(s, p - 1) + 1, SOURCES)
          {
            p := p - 1;
            CheckPrior(p, i, s);
          }
          p := rob.Length;
          while p > head
            invariant head <= p <= rob.Length
            invariant rob[..] == LinkedRob(s, i, p - head, SOURCES)
          {
            p := p - 1;
            CheckPrior(p, i, s);
          }
        }
      }
    }

    /** The linking and the new stage of entry i, before it is announced as ready. */
    method LinkEntry(i: nat)
      requires Linked() && Tied(core) && Shape(core) && InWindow(core, i) && rob[i].checked == NONE_CHECKED
      modifies rob
      ensures Linked() && rob[..] == Scheduled(core, i).rob
      ensures rte0.contents == old(rte0.contents) && rte1.contents == old(rte1.contents)
    {
      rob[i] := rob[i].(regReady := true);
      RegDependency(i, core);
      ghost var linked := rob[..];
      rob[i] := rob[i].(scheduled := if rob[i].isMemory then InFlight else Completed);
      assert rob[..] == linked[i := rob[i]];
    }

    method DoScheduling(i: nat)
      requires Valid() && InWindow(core, i) && core.rob[i].scheduled == Idle
      modifies this, rob, rte1, rte1.slots
      ensures Valid() && core == Scheduled(old(core), i)
    {
      ScheduleFacts(core, i);
      ReachedStep(core, Schedule(i));
      assert rob[i] == core.rob[i];
      LinkEntry(i);
      if !rob[i].isMemory && rob[i].regReady { rte1.Push(i); }
      core := Scheduled(core, i);
    }

    /** One link into c is gone; the last one makes c ready. */
    method Release(c: nat)
      requires Linked() && c < size && (rob[c].numDep == 1 && !rob[c].isMemory ==> |rte0.contents| < size)
      modifies rob, rte0, rte0.slots
      ensures Linked() && rte1.contents == old(rte1.contents)
      ensures rob[..] == old(rob[..])[c := Decremented(old(rob[c]))]
      ensures rte0.contents == old(rte0.contents) + if old(rob[c].numDep == 1 && !rob[c].isMemory) then [c] else []
    {
      ghost var e := rob[c];
      rob[c] := rob[c].(numDep := rob[c].numDep - 1);
      if rob[c].numDep == 0 {
        if rob[c].isMemory {
          rob[c] := rob[c].(regReady := true, scheduled := InFlight);
        } else {
          rob[c] := rob[c].(regReady := true, scheduled := Completed);
          rte0.Push(c);
        }
      }
      assert rob[..] == old(rob[..])[c := Decremented(e)];
    }

    /** Release the links from p to consumer c, slot by slot. */
    method ReleaseConsumer(p: nat, c: nat, ghost s: Core)
      requires Linked() && |s.rob| == size && p < size && c < size && c != p
      requires rob[c] == s.rob[c] && rob[p].slotDeps == s.rob[p].slotDeps
      requires Slots(s.rob[p], p, c) != {} ==> |Slots(s.rob[p], p, c)| <= s.rob[c].numDep
      requires Wakes(s, p, c) ==> |rte0.contents| < size
      modifies rob, rte0, rte0.slots
      ensures Linked() && rte1.contents == old(rte1.contents)
      ensures rob[..] == old(rob[..])[c := Relieved(s.rob[c], |Slots(s.rob[p], p, c)|)]
      ensures rte0.contents == old(rte0.contents) + if Wakes(s, p, c) then [c] else []
    {
      ghost var d, e := s.rob[c], s.rob[p];
      ghost var before := rob[..];
      SlotsBelowStep(e, p, c, 0);
      for j := 0 to SOURCES
        invariant Linked() && rte1.contents == old(rte1.contents)
        invariant rob[..] == before[c := Relieved(d, |SlotsBelow(e, p, c, j)|)]
        invariant rte0.contents == old(rte0.contents) + if Roused(d, |SlotsBelow(e, p, c, j)|) then [c] else []
      {
        SlotsBelowStep(e, p, c, j);
        assert rob[p] == rob[..][p] && rob[c] == rob[..][c];
        if c in rob[p].slotDeps[j] {
          Release(c);
        }
      }
    }

    /** Pass the completion of p on to index c, if it depends on p. */
    method VisitConsumer(p: nat, c: nat, ghost s: Core)
      requires Linked() && p < size && c < size && |s.rob| == size && Tied(PartlyComplete(s, p, c))
      requires Slots(s.rob[p], p, c) != {} ==>
        c in s.rob[p].dependents && c != p && |Slots(s.rob[p], p, c)| <= s.rob[c].numDep
      requires Wakes(s, p, c) ==> |rte0.contents| < size
      modifies rob, rte0, rte0.slots
      ensures Linked() && Tied(PartlyComplete(s, p, c + 1))
    {
      assert rob[p] == PartlyComplete(s, p, c).rob[p] && rob[c] == PartlyComplete(s, p, c).rob[c];
      if c in rob[p].dependents && c != p {
        PartlyStep(s, p, c);
        WokenStep(s, p, c);
        ReleaseConsumer(p, c, s);
      } else {
        PartlySkip(s, p, c);
      }
    }

    /** Pass the completion of p on to its consumers in increasing index order. */
    method RegRawRelease(p: nat, ghost s: Core)
      requires Linked() && Reached(s) && InWindow(s, p) && s.rob[p].executed == InFlight && |s.rob| == size
      requires Tied(s.(rob := s.rob[p := s.rob[p].(executed := Completed)]))
      modifies rob, rte0, rte0.slots
      ensures Linked() && Tied(Complete(s, p))
    {
      PartlyStart(s, p);
      CompleteRoom(s, p);
      for c := 0 to size
        invariant Linked() && Tied(PartlyComplete(s, p, c))
      {
        ReleaseFacts(s, p, c);
        WakeRoom(s, p, c);
        VisitConsumer(p, c, s);
      }
      PartlyEnd(s, p);
    }

    /** Complete entry i if its execution is in flight and due. */
    method CompleteExecution(i: nat, due: bool)
      requires Valid() && InWindow(core, i)
      modifies this, rob, rte0, rte0.slots
      ensures Valid() && core == CompletedAt(old(core), i, due)
    {
      assert rob[i] == core.rob[i];
      if (!rob[i].isMemory || rob[i].memOps == 0) && rob[i].executed == InFlight && due {
        ReachedStep(core, Finish(i));
        CompleteEntry(i);
        core := Complete(core, i);
      }
    }

    /** The completion of entry i and what it means for its consumers. */
    method CompleteEntry(i: nat)
      requires Valid() && InWindow(core, i) && Finishable(core.rob[i])
      modifies rob, rte0, rte0.slots
      ensures Linked() && Tied(Complete(core, i))
    {
      ghost var s := core;
      assert rob[i] == s.rob[i];
      rob[i] := rob[i].(executed := Completed);
      assert rob[..] == s.rob[i := s.rob[i].(executed := Completed)];
      if rob[i].isProducer {
        RegRawRelease(i, s);
      } else {
        forall c | 0 <= c < size ensures Slots(s.rob[i], i, c) == {} { ReleaseFacts(s, i, c); }
        NoConsumers(s, i, size);
        PartlyStart(s, i);
        PartlyEnd(s, i);
      }
    }

    /** The scheduling stage: walk from the head to the end of the array, as far as entries are
        fetched and due (`eligible`) and the search limit allows. Exactly the entries passed on the way
        that were idle are scheduled, in that order, and nothing else changes. */
    method ScheduleInstruction(eligible: seq<bool>, limit: nat) returns (stop: nat)
      requires Valid() && |eligible| == size
      requires forall i :: 0 <= i < size && eligible[i] ==> InWindow(core, i)
      modifies this, rob, rte1, rte1.slots
      ensures Valid() && old(core).head <= stop <= size == |old(core).rob| && core == ScheduledTo(old(core), stop)
      ensures Walked(eligible, limit, old(core).head, stop)
      ensures forall q :: head <= q < stop ==> core.rob[q].scheduled != Idle
    {
      ghost var s := core;
      WindowFacts(s);
      var i := head;
      while i < size
        invariant Valid() && head == s.head <= i <= size == |s.rob| && core == ScheduledTo(s, i)
        invariant Passed(eligible, limit, s.head, i)
        decreases size - i
      {
        if !eligible[i] || i - head >= limit { AllPassed(s, i); return i; }
        ScheduleAt(i, s);
        i := i + 1;
      }
      AllPassed(s, size);
      stop := size;
    }

    /** The walk at entry i. */
    method ScheduleAt(i: nat, ghost s: Core)
      requires Valid() && s.head <= i < size == |s.rob| && core == ScheduledTo(s, i) && InWindow(s, i)
      modifies this, rob, rte1, rte1.slots
      ensures Valid() && head == s.head && core == ScheduledTo(s, i + 1)
    {
      ScheduledWindow(s, i, i);
      ScheduledWindow(s, i + 1, i);
      assert rob[i] == core.rob[i];
      if rob[i].scheduled == Idle { DoScheduling(i); }
    }

    /** Issue the front of a ready queue (0 or 1) and drop it from the queue. */
    method IssueFront(second: bool)
      requires Valid() && Ring(core, second) != []
      modifies this, rob, rte0, rte0.slots, rte1, rte1.slots
      ensures Valid() && Enabled(old(core), Execution(second)) && core == Apply(old(core), Execution(second))
    {
      var r;
      if second {
        r := rte1.Front();
        rte1.Pop();
      } else {
        r := rte0.Front();
        rte0.Pop();
      }
      rob[r] := rob[r].(executed := InFlight);
      assert rob[..] == Executed(core, r);
      ReachedStep(core, Execution(second));
      core := Apply(core, Execution(second));
    }

    /** One iteration of an issue loop: the front leaves if there is one and it is due. */
    method TryIssue(second: bool, due: seq<bool>, ghost s: Core, ghost n: nat)
        returns (empty: bool, took: bool, ghost n': nat)
      requires Valid() && |due| == size && n <= |Ring(s, second)| && core == Issued(s, second, n)
      modifies this, rob, rte0, rte0.slots, rte1, rte1.slots
      ensures Valid() && n' <= |Ring(s, second)| && core == Issued(s, second, n') && n' == n + if took then 1 else 0
      ensures if took then !Stuck(Ring(old(core), second), due) else Stuck(Ring(core, second), due)
      ensures empty ==> !took
    {
      var r;
      if second { r := rte1.Front(); } else { r := rte0.Front(); }
      empty, took, n' := r >= size, r < size && due[r], n;
      if took {
        ghost var m := core;
        IssueFront(second);
        IssuedOne(s, m, second, n);
        n' := n + 1;
      }
    }

    /** One of the two issue loops: the front leaves as long as it is due, until the width is used up or
        the ring has been walked once. The ring loses exactly its first entries, which start executing. */
    method IssueLoop(second: bool, due: seq<bool>, width: nat) returns (issued: nat)
      requires Valid() && |due| == size
      modifies this, rob, rte0, rte0.slots, rte1, rte1.slots
      ensures Valid() && issued <= width
      ensures issued <= |Ring(old(core), second)| && core == Issued(old(core), second, issued)
      ensures issued == width || Stuck(Ring(core, second), due) || issued + 1 >= size
    {
      ghost var s := core;
      ghost var n: nat := 0;
      issued := 0;
      var iterations := 0;
      IssuedNone(s, second);
      while issued < width
        invariant Valid() && issued == n <= width
        invariant n <= |Ring(s, second)| && core == Issued(s, second, n)
        invariant iterations <= size && (iterations == n || Stuck(Ring(core, second), due))
        decreases size - iterations
      {
        var empty, took;
        empty, took, n := TryIssue(second, due, s, n);
        if empty { break; }
        if took { issued := issued + 1; }
        iterations := iterations + 1;
        if iterations >= size - 1 { break; }
      }
    }

    /** The execution stage: RTE0 first, then RTE1 with what is left of the execution width. */
    method ExecuteInstruction(due: seq<bool>, width: nat) returns (first: nat, second: nat, ghost middle: Core)
      requires Valid() && |due| == size
      modifies this, rob, rte0, rte0.slots, rte1, rte1.slots
      ensures Valid() && first + second <= width
      ensures first <= |old(core).rte0| && middle == Issued(old(core), false, first)
      ensures second <= |middle.rte1| && core == Issued(middle, true, second)
      ensures first == width || Stuck(middle.rte0, due) || first + 1 >= size
      ensures first + second == width || Stuck(core.rte1, due) || second + 1 >= size
    {
      first := IssueLoop(false, due, width);
      middle := core;
      second := IssueLoop(true, due, width - first);
    }

    /** do_memory_scheduling, when all memory operations have found a queue slot. */
    method DoMemoryScheduling(i: nat)
      requires Valid() && Enabled(core, MemIssue(i))
      modifies this, rob
      ensures Valid() && core == Apply(old(core), MemIssue(i))
    {
      assert rob[i] == core.rob[i];
      rob[i] := rob[i].(scheduled := Completed);
      if rob[i].executed == Idle {
        rob[i] := rob[i].(executed := InFlight);
      }
      assert rob[..] == Apply(core, MemIssue(i)).rob;
      ReachedStep(core, MemIssue(i));
      core := Apply(core, MemIssue(i));
    }

    /** The completion stage: every window entry in age order, each completed if it can be and is due;
        Progress says what that amounts to. */
    method UpdateRob(due: seq<bool>)
      requires Valid() && |due| == size
      modifies this, rob, rte0, rte0.slots
      ensures Valid() && Shape(old(core)) && |old(core).rob| == size
      ensures core == CompletedUpto(old(core), due, old(core).occupancy)
      ensures Progress(old(core), core, due, old(core).occupancy)
    {
      ghost var s := core;
      WindowFacts(s);
      var i, n := head, occupancy;
      assert n == s.occupancy && i == Wrap(s.head + 0, size);
      for k := 0 to n
        invariant Valid() && i == Wrap(s.head + k, size) && core == CompletedUpto(s, due, k)
      {
        CompleteAt(i, k, due, s);
        WrapNext(s.head + k, size);
        i := i + 1;
        if i == size { i := 0; }
      }
      CompletedProgress(s, due, n);
    }

    /** The stage at the k-th oldest entry. */
    method CompleteAt(i: nat, k: nat, due: seq<bool>, ghost s: Core)
      requires Valid() && Shape(s) && |s.rob| == size == |due| && k < s.occupancy && i == Wrap(s.head + k, size)
      requires core == CompletedUpto(s, due, k)
      modifies this, rob, rte0, rte0.slots
      ensures Valid() && core == CompletedUpto(s, due, k + 1)
    {
      CompletedWindow(s, due, i, k);
      CompleteExecution(i, due[i]);
    }

    method RetireOne()
      requires Valid() && Enabled(core, RetireHead)
      modifies this, rob
      ensures Valid() && old(core).head < |old(core).rob| && core == Retire(old(core))
    {
      ReachedStep(core, RetireHead);
      rob[head] := EMPTY_ENTRY;
      head := head + 1;
      if head == size { head := 0; }
      occupancy := occupancy - 1;
      assert rob[..] == core.rob[core.head := EMPTY_ENTRY];
      core := Retire(core);
    }

    /** In-order retirement of up to `width` instructions; `room` tells whether the stores of the
        n-th one fit in the write queue of the data cache. */
    method RetireRob(width: nat, room: seq<bool>) returns (n: nat)
      requires Valid() && |room| == width
      modifies this, rob
      ensures Valid() && n <= width && Retires(old(core), core, n) && head < size
      ensures |core.retired| == |old(core).retired| + n
      ensures n < width ==> !rob[head].occupied || rob[head].executed != Completed || !room[n]
    {
      n := 0;
      ghost var s := core;
      WindowFacts(core);
      while n < width
        invariant Valid() && n <= width && Retires(s, core, n) && head < size
        invariant |core.retired| == |s.retired| + n
      {
        if !rob[head].occupied || rob[head].executed != Completed || !room[n] { return; }
        assert rob[head] == core.rob[core.head];
        HeadFacts(core);
        RetireOne();
        n := n + 1;
      }
    }
  }

  /** t is s after its n oldest instructions have retired, one after the other. */
  ghost predicate Retires(s: Core, t: Core, n: nat)
    decreases n
  {
    if n == 0 then t == s
    else exists m :: Retires(s, m, n - 1) && Enabled(m, RetireHead) && t == Retire(m)
  }

  predicate Finishable(e: Entry) { e.executed == InFlight && (e.isMemory ==> e.memOps == 0) }

  /** Stages never go back. */
  predicate Forward(d: Entry, e: Entry) {
    && e.isMemory == d.isMemory && e.memOps == d.memOps
    && (d.executed == InFlight ==> e.executed != Idle) && (d.executed == Completed ==> e.executed == Completed)
    && (e.executed == InFlight ==> d.executed == InFlight)
  }

  /** Every completable instruction among the k oldest has been completed, none has gone back. */
  ghost predicate Progress(s: Core, t: Core, due: seq<bool>, k: nat) {
    && |due| == |s.rob| && SameRing(s, t)
    && (forall q :: 0 <= q < |s.rob| ==> Forward(s.rob[q], t.rob[q]))
    && (forall q :: InWindow(s, q) && Age(s, q) < k && Finishable(s.rob[q]) && due[q] ==> t.rob[q].executed == Completed)
  }

  /** The completion stage after the k oldest entries. */
  ghost function CompletedUpto(s: Core, due: seq<bool>, k: nat): (t: Core)
    requires |due| == |s.rob| && s.head < |s.rob| && k <= |s.rob|
    ensures |t.rob| == |s.rob|
  {
    if k == 0 then s
    else
      var i := Wrap(s.head + k - 1, |s.rob|);
      CompletedAt(CompletedUpto(s, due, k - 1), i, due[i])
  }

  /** Entry i is completed if its execution is in flight and due. */
  ghost function CompletedAt(m: Core, i: nat, due: bool): (t: Core)
    requires i < |m.rob|
    ensures |t.rob| == |m.rob|
  {
    if due && Finishable(m.rob[i]) then Complete(m, i) else m
  }

  /** The entries of the walk are all eligible and within the search limit. */
  predicate Passed(eligible: seq<bool>, limit: nat, from: nat, to: nat) {
    to <= |eligible| && forall q :: from <= q < to ==> eligible[q] && q - from < limit
  }

  /** The walk goes as far as it can. */
  predicate Walked(eligible: seq<bool>, limit: nat, from: nat, to: nat) {
    Passed(eligible, limit, from, to) && (to < |eligible| ==> !eligible[to] || to - from >= limit)
  }

  /** The scheduling stage after the entries from the head up to i. */
  ghost function ScheduledTo(s: Core, i: nat): (t: Core)
    requires s.head <= i <= |s.rob|
    ensures |t.rob| == |s.rob|
  {
    if i == s.head then s
    else
      var m := ScheduledTo(s, i - 1);
      if m.rob[i - 1].scheduled == Idle then Scheduled(m, i - 1) else m
  }

  /** Scheduling moves nothing around the ring, and no entry goes back to idle. */
  lemma {:induction false} ScheduledWindow(s: Core, i: nat, q: nat)
    requires s.head <= i <= |s.rob| && q < |s.rob|
    ensures var t := ScheduledTo(s, i);
      && t.head == s.head && t.occupancy == s.occupancy && |t.rob| == |s.rob|
      && (s.rob[q].scheduled != Idle ==> t.rob[q].scheduled != Idle)
  {
    if i > s.head {
      ScheduledWindow(s, i - 1, q);
      var m := ScheduledTo(s, i - 1);
      if m.rob[i - 1].scheduled == Idle { ScheduledStays(m, i - 1); }
    }
  }

  lemma {:induction false} PassedScheduled(s: Core, i: nat, q: nat)
    requires s.head <= q < i <= |s.rob|
    ensures ScheduledTo(s, i).rob[q].scheduled != Idle
  {
    var m := ScheduledTo(s, i - 1);
    if q < i - 1 { PassedScheduled(s, i - 1, q); }
    if m.rob[i - 1].scheduled == Idle { ScheduledStays(m, i - 1); }
  }

  lemma AllPassed(s: Core, i: nat)
    requires s.head <= i <= |s.rob|
    ensures forall q :: s.head <= q < i ==> ScheduledTo(s, i).rob[q].scheduled != Idle
  {
    forall q | s.head <= q < i ensures ScheduledTo(s, i).rob[q].scheduled != Idle { PassedScheduled(s, i, q); }
  }

  function Ring(s: Core, second: bool): seq<nat> { if second then s.rte1 else s.rte0 }

  function Execution(second: bool): Step { if second then Execute1 else Execute0 }

  /** The entries at these indices start executing, in order. */
  function Started(rob: seq<Entry>, at: seq<nat>): (r: seq<Entry>)
    ensures |r| == |rob|
  {
    if at == [] then rob
    else
      var m, i := Started(rob, at[..|at| - 1]), at[|at| - 1];
      if i < |m| then m[i := m[i].(executed := InFlight)] else m
  }

  /** The first n entries of a ring have left it and started; nothing else has changed. */
  ghost function Issued(s: Core, second: bool, n: nat): Core
    requires n <= |Ring(s, second)|
  {
    if second then s.(rob := Started(s.rob, s.rte1[..n]), rte1 := s.rte1[n..])
    else s.(rob := Started(s.rob, s.rte0[..n]), rte0 := s.rte0[n..])
  }

  lemma IssuedNone(s: Core, second: bool)
    ensures Issued(s, second, 0) == s
  {
  }

  lemma IssuedOne(s: Core, m: Core, second: bool, n: nat)
    requires n <= |Ring(s, second)| && m == Issued(s, second, n) && Enabled(m, Execution(second))
    ensures n + 1 <= |Ring(s, second)| && Apply(m, Execution(second)) == Issued(s, second, n + 1)
  {
    var q := Ring(s, second);
    assert q[..n + 1][..n] == q[..n] && q[..n + 1][n] == q[n] && q[n..][0] == q[n];
    assert q[n..][1..] == q[n + 1..];
  }

  /** Nothing at the front of the ring can issue. */
  ghost predicate Stuck(ring: seq<nat>, due: seq<bool>) {
    ring == [] || ring[0] >= |due| || !due[ring[0]]
  }

  lemma WindowStep(s: Core, m: Core, i: nat, k: nat)
    requires Shape(s) && SameRing(s, m) && k < s.occupancy && i == Wrap(s.head + k, |s.rob|)
    ensures InWindow(m, i)
  {
    assert Age(s, i) == k;
  }

  lemma WrapNext(x: nat, size: nat)
    requires x + 1 < 2 * size
    ensures Wrap(x + 1, size) == if Wrap(x, size) + 1 == size then 0 else Wrap(x, size) + 1
  {
  }

  lemma CompletedWindow(s: Core, due: seq<bool>, i: nat, k: nat)
    requires Shape(s) && |due| == |s.rob| && k < s.occupancy && i == Wrap(s.head + k, |s.rob|)
    ensures InWindow(CompletedUpto(s, due, k), i)
    ensures CompletedUpto(s, due, k + 1) == CompletedAt(CompletedUpto(s, due, k), i, due[i])
  {
    CompletedProgress(s, due, k);
    WindowStep(s, CompletedUpto(s, due, k), i, k);
  }

  lemma {:induction false} CompletedProgress(s: Core, due: seq<bool>, k: nat)
    requires Shape(s) && |due| == |s.rob| && k <= s.occupancy
    ensures Progress(s, CompletedUpto(s, due, k), due, k)
  {
    if k > 0 {
      CompletedProgress(s, due, k - 1);
      ProgressStep(s, CompletedUpto(s, due, k - 1), due, Wrap(s.head + k - 1, |s.rob|), k - 1);
    }
  }

  lemma ProgressStep(s: Core, m: Core, due: seq<bool>, i: nat, k: nat)
    requires Shape(s) && k < s.occupancy && i == Wrap(s.head + k, |s.rob|) && Progress(s, m, due, k)
    ensures InWindow(s, i) && InWindow(m, i)
    ensures Progress(s, CompletedAt(m, i, due[i]), due, k + 1)
  {
    var t := CompletedAt(m, i, due[i]);
    assert Age(s, i) == k;
    forall q | 0 <= q < |s.rob| ensures Forward(m.rob[q], t.rob[q]) && Forward(s.rob[q], t.rob[q]) {
      CompleteForward(m, i, q);
    }
    forall q | InWindow(s, q) && Age(s, q) < k + 1 && Finishable(s.rob[q]) && due[q]
      ensures t.rob[q].executed == Completed
    {
      if Age(s, q) == k { assert q == i; }
    }
  }

  lemma CompleteForward(m: Core, i: nat, q: nat)
    requires i < |m.rob| && q < |m.rob|
    ensures Forward(m.rob[q], Complete(m, i).rob[q])
  {
  }

  lemma WindowFacts(s: Core)
    requires Reached(s)
    ensures Shape(s)
  {
    ReachedInv(s);
  }

  lemma HeadFacts(s: Core)
    requires Reached(s) && s.head < |s.rob| && s.rob[s.head].occupied
    ensures s.occupancy > 0
  {
    ReachedInv(s);
  }

  lemma ScheduledStays(s: Core, i: nat)
    requires i < |s.rob|
    ensures Scheduled(s, i).rob[i].scheduled != Idle
    ensures forall q :: 0 <= q < |s.rob| && q != i ==> Scheduled(s, i).rob[q].scheduled == s.rob[q].scheduled
  {
  }

  lemma AddFacts(s: Core)
    requires Reached(s) && s.occupancy < |s.rob|
    ensures s.tail < |s.rob|
  {
    ReachedInv(s);
  }

  lemma WokenPrefix(s: Core, p: nat, k: nat, n: nat)
    requires k <= n <= |s.rob|
    ensures |Woken(s, p, k)| <= |Woken(s, p, n)|
  {
  }

  /** Completing p leaves no ready queue over-full, so every push on the way had room. */
  lemma CompleteRoom(s: Core, p: nat)
    requires Reached(s) && InWindow(s, p) && s.rob[p].executed == InFlight
    ensures |s.rte0| + |Woken(s, p, |s.rob|)| <= |s.rob|
  {
    ReachedInv(s);
    FinishEffect(s, p);
    FinishKeeps(s, Complete(s, p), p, Woken(s, p, |s.rob|));
    QueueRoom(Complete(s, p));
  }

  /** What releasing consumer c of p needs to know of a reachable state. */
  lemma ReleaseFacts(s: Core, p: nat, c: nat)
    requires Reached(s) && InWindow(s, p) && s.rob[p].executed == InFlight && c < |s.rob|
    ensures Slots(s.rob[p], p, c) != {} ==>
      c in s.rob[p].dependents && c != p && s.rob[p].isProducer && |Slots(s.rob[p], p, c)| <= s.rob[c].numDep
  {
    ReachedInv(s);
    FinishEffect(s, p);
    FinishLinks(s, Complete(s, p), p, Woken(s, p, |s.rob|), c);
    assert Slots(s.rob[p], p, c) != {} ==> CountOk(s, c);
  }

  lemma WakeRoom(s: Core, p: nat, c: nat)
    requires p < |s.rob| && c < |s.rob| && |s.rte0| + |Woken(s, p, |s.rob|)| <= |s.rob|
    ensures Wakes(s, p, c) ==> |PartlyComplete(s, p, c).rte0| < |s.rob|
  {
    WokenPrefix(s, p, c + 1, |s.rob|);
  }

  lemma {:induction false} NoConsumers(s: Core, p: nat, k: nat)
    requires p < |s.rob| && k <= |s.rob| && forall c :: 0 <= c < |s.rob| ==> Slots(s.rob[p], p, c) == {}
    ensures PartlyComplete(s, p, k) == PartlyComplete(s, p, 0)
  {
    if k > 0 {
      NoConsumers(s, p, k - 1);
      PartlySkip(s, p, k - 1);
    }
  }

  /** What scheduling i needs to know of a reachable state. */
  lemma ScheduleFacts(s: Core, i: nat)
    requires Reached(s) && InWindow(s, i) && s.rob[i].scheduled == Idle
    ensures Shape(s) && s.rob[i].checked == NONE_CHECKED && |s.rte1| < |s.rob|
  {
    ReachedInv(s);
    assert CountOk(s, i);
    var q := s.rte1 + [i];
    assert Distinct(q) by {
      assert i !in s.rte0 + s.rte1;
      assert forall a :: 0 <= a < |s.rte1| ==> s.rte1[a] == (s.rte0 + s.rte1)[|s.rte0| + a];
    }
    assert forall a :: 0 <= a < |s.rte1| ==> s.rte1[a] in s.rte0 + s.rte1;
    Pigeonhole(q, |s.rob|);
  }
}
