/**
 Every step of the register scheduler keeps its invariant, so every run is free of
 read-after-write hazards, pushes an instruction to a ready queue at most once, never finds a
 ready queue full, and never leaves the oldest instruction waiting on a register.
 */
module RegisterSafety {
  import opened Basics
  import opened RegisterScheduler

  lemma InitInv(s: Core)
    requires Init(s)
    ensures Inv(s)
  {
  }

  /** The ring fields and the retirement history are the same. */
  ghost predicate SameRing(s: Core, t: Core) {
    && |t.rob| == |s.rob| && t.head == s.head && t.tail == s.tail && t.occupancy == s.occupancy
    && t.nextId == s.nextId && t.retired == s.retired
  }

  /** What the trace supplied and the completion status are the same. */
  ghost predicate SameInstr(d: Entry, e: Entry) {
    && e.src == d.src && e.dst == d.dst && e.id == d.id && e.occupied == d.occupied
    && e.isMemory == d.isMemory
  }

  ghost predicate SameDeps(d: Entry, e: Entry) {
    && e.slotDeps == d.slotDeps && e.dependents == d.dependents && e.isProducer == d.isProducer
  }

  lemma WindowKept(s: Core, t: Core)
    requires Shape(s) && WindowOk(s) && SameRing(s, t)
    requires forall i :: 0 <= i < |s.rob| ==> SameInstr(s.rob[i], t.rob[i])
    ensures Shape(t) && WindowOk(t)
  {
  }

  lemma LinksKept(s: Core, t: Core)
    requires LinksOk(s) && SameRing(s, t)
    requires forall i :: 0 <= i < |s.rob| ==> SameDeps(s.rob[i], t.rob[i])
    requires forall i :: InWindow(s, i) ==> (t.rob[i].scheduled == Idle <==> s.rob[i].scheduled == Idle)
    ensures LinksOk(t)
  {
    forall p, j, c | InWindow(t, p) && 0 <= j < SOURCES && c in t.rob[p].slotDeps[j]
      ensures LinkOk(t, p, c)
    {
      assert InWindow(s, p) && c in s.rob[p].slotDeps[j] && LinkOk(s, p, c);
    }
  }

  /** Cover survives a step that keeps the window and only adds links or completes producers. */
  lemma CoverKept(s: Core, t: Core, c: int)
    requires CoverOk(s) && SameRing(s, t) && InWindow(s, c) && s.rob[c].scheduled != Idle
    requires forall i :: 0 <= i < |s.rob| ==> SameInstr(s.rob[i], t.rob[i])
    requires forall i :: InWindow(s, i) && t.rob[i].executed != Completed ==>
      s.rob[i].executed != Completed && forall j :: 0 <= j < SOURCES ==> s.rob[i].slotDeps[j] <= t.rob[i].slotDeps[j]
    ensures forall w, j ::
      (0 <= j < SOURCES && YoungestWriter(t, w, c, t.rob[c].src[j]) && t.rob[w].executed != Completed)
      ==> c in t.rob[w].slotDeps[j]
  {
    forall w, j | 0 <= j < SOURCES && YoungestWriter(t, w, c, t.rob[c].src[j]) && t.rob[w].executed != Completed
      ensures c in t.rob[w].slotDeps[j]
    {
      assert YoungestWriter(s, w, c, s.rob[c].src[j]) by {
        forall q | InWindow(s, q) && Age(s, w) < Age(s, q) < Age(s, c)
          ensures !Writes(s.rob[q], s.rob[c].src[j])
        {
          assert InWindow(t, q);
        }
      }
    }
  }

  // ---------------------------------------------------------------------------------------------
  // Execute and the memory steps: one entry moves through its stages, links stay

  ghost predicate StageStep(s: Core, t: Core, i: int) {
    && SameRing(s, t) && InWindow(s, i) && t.entered == s.entered
    && t.rob == s.rob[i := t.rob[i]]
    && SameInstr(s.rob[i], t.rob[i]) && SameDeps(s.rob[i], t.rob[i])
    && t.rob[i].numDep == s.rob[i].numDep && t.rob[i].regReady == s.rob[i].regReady
    && t.rob[i].checked == s.rob[i].checked
    && (t.rob[i].executed != Idle ==> t.rob[i].regReady)
    && (t.rob[i].executed == Completed <==> s.rob[i].executed == Completed)
    && (t.rob[i].scheduled == Idle <==> s.rob[i].scheduled == Idle)
    && (!s.rob[i].isMemory ==> t.rob[i].scheduled != InFlight)
  }

  lemma StageKeeps(s: Core, t: Core, i: int)
    requires Inv(s) && StageStep(s, t, i)
    ensures Shape(t) && WindowOk(t) && LinksOk(t) && CountsOk(t) && CoverOk(t) && HistoryOk(t)
    ensures forall k :: InWindow(t, k) <==> InWindow(s, k)
  {
    WindowKept(s, t);
    LinksKept(s, t);
    assert CountsOk(t) by {
      forall c ensures Links(t, c) == Links(s, c) {
        assert forall p, j :: Linked(t, p, j, c) <==> Linked(s, p, j, c);
      }
    }
    assert CoverOk(t) by {
      forall c | InWindow(t, c) && t.rob[c].scheduled != Idle { CoverKept(s, t, c); }
    }
  }

  lemma Dequeue(q: seq<nat>, at: nat)
    requires at < |q| && Distinct(q)
    ensures Distinct(q[..at] + q[at + 1..])
    ensures forall k :: k in q[..at] + q[at + 1..] <==> k in q && k != q[at]
  {
    var r := q[..at] + q[at + 1..];
    forall k | k in q && k != q[at] ensures k in r {
      var x :| 0 <= x < |q| && q[x] == k;
      assert r[if x < at then x else x - 1] == k;
    }
  }

  lemma ExecuteKeeps(s: Core, a: Step)
    requires Inv(s) && Enabled(s, a) && (a.Execute0? || a.Execute1?)
    ensures Inv(Apply(s, a))
  {
    var t := Apply(s, a);
    var i := if a.Execute0? then s.rte0[0] else s.rte1[0];
    var at := if a.Execute0? then 0 else |s.rte0|;
    var q := s.rte0 + s.rte1;
    assert q[at] == i;
    Dequeue(q, at);
    assert t.rte0 + t.rte1 == q[..at] + q[at + 1..];
    StageKeeps(s, t, i);
  }

  lemma MemoryKeeps(s: Core, a: Step)
    requires Inv(s) && Enabled(s, a) && (a.MemIssue? || a.MemDone?)
    ensures Inv(Apply(s, a))
  {
    var t := Apply(s, a);
    StageKeeps(s, t, a.i);
  }

  // ---------------------------------------------------------------------------------------------
  // Add

  ghost predicate AddStep(s: Core, t: Core) {
    && s.tail < |s.rob| && |t.rob| == |s.rob| && t.head == s.head
    && t.tail == Wrap(s.tail + 1, |s.rob|) && t.occupancy == s.occupancy + 1
    && t.nextId == s.nextId + 1 && t.retired == s.retired && t.entered == s.entered
    && t.rte0 == s.rte0 && t.rte1 == s.rte1
    && (forall i :: 0 <= i < |s.rob| && i != s.tail ==> t.rob[i] == s.rob[i])
    && t.rob[s.tail].occupied && t.rob[s.tail].id == s.nextId && t.rob[s.tail].scheduled == Idle
    && t.rob[s.tail].executed == Idle && t.rob[s.tail].checked == NONE_CHECKED && !t.rob[s.tail].regReady && t.rob[s.tail].numDep == 0
    && forall j :: 0 <= j < SOURCES ==> t.rob[s.tail].slotDeps[j] == {}
  }

  lemma AddWindow(s: Core, t: Core)
    requires Shape(s) && s.occupancy < |s.rob| && AddStep(s, t)
    ensures Shape(t) && Age(s, s.tail) == s.occupancy
    ensures forall i :: Age(t, i) == Age(s, i)
    ensures forall i :: InWindow(t, i) <==> InWindow(s, i) || i == s.tail
  {
  }

  lemma AddLinks(s: Core, t: Core)
    requires Shape(s) && s.occupancy < |s.rob| && AddStep(s, t) && LinksOk(s)
    ensures LinksOk(t)
    ensures forall c :: Links(t, c) == Links(s, c)
    ensures Links(s, s.tail) == {}
  {
    AddWindow(s, t);
    assert !InWindow(s, s.tail);
    forall c ensures Links(t, c) == Links(s, c) {
      assert forall p, j :: Linked(t, p, j, c) <==> Linked(s, p, j, c);
    }
  }

  lemma AddCovers(s: Core, t: Core)
    requires Shape(s) && s.occupancy < |s.rob| && AddStep(s, t) && CoverOk(s)
    ensures CoverOk(t)
  {
    AddWindow(s, t);
    forall w, c, j | InWindow(t, c) && 0 <= j < SOURCES && t.rob[c].scheduled != Idle &&
        YoungestWriter(t, w, c, t.rob[c].src[j]) && t.rob[w].executed != Completed
      ensures c in t.rob[w].slotDeps[j]
    {
      assert YoungestWriter(s, w, c, s.rob[c].src[j]);
    }
  }

  lemma AddKeeps(s: Core, t: Core)
    requires Inv(s) && s.occupancy < |s.rob| && AddStep(s, t)
    ensures Inv(t)
  {
    AddWindow(s, t);
    AddLinks(s, t);
    AddCovers(s, t);
  }

  // ---------------------------------------------------------------------------------------------
  // Retire

  ghost predicate RetireStep(s: Core, t: Core) {
    && s.head < |s.rob| && s.occupancy > 0 && |t.rob| == |s.rob|
    && t.head == Wrap(s.head + 1, |s.rob|) && t.tail == s.tail && t.occupancy == s.occupancy - 1
    && t.nextId == s.nextId && t.retired == s.retired + [s.rob[s.head].id] && t.entered == s.entered
    && t.rte0 == s.rte0 && t.rte1 == s.rte1
    && (forall i :: 0 <= i < |s.rob| && i != s.head ==> t.rob[i] == s.rob[i])
    && !t.rob[s.head].occupied
  }

  lemma RetireWindow(s: Core, t: Core)
    requires Shape(s) && RetireStep(s, t)
    ensures Shape(t) && InWindow(s, s.head)
    ensures forall i :: InWindow(t, i) <==> InWindow(s, i) && i != s.head
    ensures forall i :: InWindow(t, i) ==> Age(t, i) == Age(s, i) - 1
  {
  }

  lemma RetireLinks(s: Core, t: Core)
    requires Shape(s) && RetireStep(s, t) && LinksOk(s) && s.rob[s.head].executed == Completed
    ensures LinksOk(t)
    ensures forall c :: Links(t, c) == Links(s, c)
  {
    RetireWindow(s, t);
    forall c ensures Links(t, c) == Links(s, c) {
      assert forall p, j :: Linked(t, p, j, c) <==> Linked(s, p, j, c);
    }
  }

  lemma RetireCovers(s: Core, t: Core)
    requires Shape(s) && RetireStep(s, t) && CoverOk(s)
    ensures CoverOk(t)
  {
    RetireWindow(s, t);
    forall w, c, j | InWindow(t, c) && 0 <= j < SOURCES && t.rob[c].scheduled != Idle &&
        YoungestWriter(t, w, c, t.rob[c].src[j]) && t.rob[w].executed != Completed
      ensures c in t.rob[w].slotDeps[j]
    {
      assert YoungestWriter(s, w, c, s.rob[c].src[j]) by {
        forall q | InWindow(s, q) && Age(s, w) < Age(s, q) < Age(s, c)
          ensures !Writes(s.rob[q], s.rob[c].src[j])
        {
          assert InWindow(t, q);
        }
      }
    }
  }

  lemma RetireKeeps(s: Core, t: Core)
    requires Inv(s) && RetireStep(s, t) && s.rob[s.head].executed == Completed
    ensures Inv(t)
  {
    RetireWindow(s, t);
    RetireLinks(s, t);
    RetireCovers(s, t);
  }

  // ---------------------------------------------------------------------------------------------
  // Schedule

  /** Scheduling i adds i to the producers' link sets and fixes i's own counters. */
  ghost predicate ScheduleStep(s: Core, t: Core, i: int) {
    && SameRing(s, t) && InWindow(s, i) && t.rte0 == s.rte0
    && (forall p :: 0 <= p < |s.rob| && p != i ==> ProducerStep(s, s.rob[p], t.rob[p], p, i))
    && SameInstr(s.rob[i], t.rob[i]) && SameDeps(s.rob[i], t.rob[i]) && t.rob[i].executed == s.rob[i].executed
    && t.rob[i].scheduled == (if t.rob[i].isMemory then InFlight else Completed)
    && t.rob[i].numDep == s.rob[i].numDep + |NewLinks(s, i, 0, SOURCES)|
    && t.rob[i].regReady == (NewLinks(s, i, 0, SOURCES) == {})
    && t.rte1 == (if Waiting(t.rob[i]) then s.rte1 + [i] else s.rte1)
    && t.entered == (if Waiting(t.rob[i]) then s.entered + [s.rob[i].id] else s.entered)
  }

  ghost predicate ProducerStep(s: Core, d: Entry, e: Entry, p: int, i: int) {
    && SameInstr(d, e) && e.executed == d.executed && e.scheduled == d.scheduled
    && e.numDep == d.numDep && e.regReady == d.regReady && e.checked == d.checked
    && d.dependents <= e.dependents && (d.isProducer ==> e.isProducer)
    && forall j :: 0 <= j < SOURCES ==>
      && d.slotDeps[j] <= e.slotDeps[j] <= d.slotDeps[j] + {i}
      && (Produces(s, p, i, j, 0) ==> i in e.slotDeps[j])
      && (i in e.slotDeps[j] ==> i in d.slotDeps[j] || (Produces(s, p, i, j, 0) && i in e.dependents && e.isProducer))
  }

  lemma ScheduleEffect(s: Core, i: int)
    requires InWindow(s, i) && s.rob[i].executed == Idle
    ensures ScheduleStep(s, Scheduled(s, i), i)
  {
    var t := Scheduled(s, i);
    forall p | 0 <= p < |s.rob| && p != i ensures ProducerStep(s, s.rob[p], t.rob[p], p, i) {
      assert t.rob[p] == AsProducer(s, p, i, 0, SOURCES);
    }
    assert t.rob[i].numDep == AsConsumer(s, i, 0, SOURCES).numDep;
  }

  lemma ScheduleLink(s: Core, t: Core, i: int, p: int, j: int, c: int)
    requires LinksOk(s) && ScheduleStep(s, t, i)
    requires InWindow(s, p) && 0 <= j < SOURCES && c in t.rob[p].slotDeps[j]
    ensures LinkOk(t, p, c)
  {
    if p != i {
      assert ProducerStep(s, s.rob[p], t.rob[p], p, i);
      if c !in s.rob[p].slotDeps[j] {
        assert c == i && Produces(s, p, i, j, 0);
      }
    }
    assert InWindow(s, c);
    if c != i { assert ProducerStep(s, s.rob[c], t.rob[c], c, i); }
  }

  lemma ScheduleLinks(s: Core, t: Core, i: int)
    requires LinksOk(s) && ScheduleStep(s, t, i) && s.rob[i].scheduled == Idle
    ensures LinksOk(t)
  {
    forall p, j, c | InWindow(t, p) && 0 <= j < SOURCES && c in t.rob[p].slotDeps[j]
      ensures LinkOk(t, p, c)
    {
      ScheduleLink(s, t, i, p, j, c);
    }
  }

  /** Only i gains links, and it gains exactly its new ones. */
  lemma ScheduleLinked(s: Core, t: Core, i: int, p: int, j: int, c: int)
    requires LinksOk(s) && ScheduleStep(s, t, i) && s.rob[i].scheduled == Idle
    ensures c != i ==> (Linked(t, p, j, c) <==> Linked(s, p, j, c))
    ensures !Linked(s, p, j, i)
    ensures Linked(t, p, j, i) <==> Produces(s, p, i, j, 0)
  {
    assert InWindow(t, p) <==> InWindow(s, p);
    if InWindow(s, p) && 0 <= j < SOURCES {
      assert p != i ==> ProducerStep(s, s.rob[p], t.rob[p], p, i);
    }
  }

  lemma ScheduleCounts(s: Core, t: Core, i: int)
    requires LinksOk(s) && CountsOk(s) && ScheduleStep(s, t, i) && s.rob[i].scheduled == Idle
    ensures CountsOk(t)
  {
    forall c | InWindow(t, c)
      ensures Links(t, c) == if c == i then NewLinks(s, i, 0, SOURCES) else Links(s, c)
    {
      forall x ensures (x in Links(t, c)) <==> (x in if c == i then NewLinks(s, i, 0, SOURCES) else Links(s, c)) {
        ScheduleLinked(s, t, i, x.0, x.1, c);
      }
    }
    assert Links(s, i) == {} by {
      forall x ensures x !in Links(s, i) { ScheduleLinked(s, t, i, x.0, x.1, i); }
    }
    forall c | InWindow(t, c) && c != i
      ensures t.rob[c].numDep == s.rob[c].numDep && t.rob[c].scheduled == s.rob[c].scheduled
           && t.rob[c].regReady == s.rob[c].regReady && t.rob[c].executed == s.rob[c].executed
           && t.rob[c].isMemory == s.rob[c].isMemory && t.rob[c].checked == s.rob[c].checked && InWindow(s, c)
    {
      assert ProducerStep(s, s.rob[c], t.rob[c], c, i);
    }
    assert InWindow(s, i);
  }

  /** The youngest writer of i's slot j, if incomplete, is the producer the scan finds. */
  lemma ScheduleCover(s: Core, t: Core, i: int, w: int, j: int)
    requires Shape(s) && SameRing(s, t) && InWindow(s, i) && 0 <= j < SOURCES
    requires forall q :: InWindow(s, q) ==> SameInstr(s.rob[q], t.rob[q])
    requires YoungestWriter(t, w, i, t.rob[i].src[j]) && s.rob[w].executed != Completed
    ensures Produces(s, w, i, j, 0)
  {
    assert InWindow(s, w);
    forall q | PendingWriter(s, q, s.rob[i].src[j]) && Age(s, q) < Age(s, i) ensures Age(s, q) <= Age(s, w) {
      assert InWindow(t, q);
    }
  }

  lemma ScheduleCovers(s: Core, t: Core, i: int)
    requires Shape(s) && CoverOk(s) && ScheduleStep(s, t, i) && s.rob[i].scheduled == Idle
    ensures CoverOk(t)
  {
    forall q | 0 <= q < |s.rob| ensures SameInstr(s.rob[q], t.rob[q]) && t.rob[q].executed == s.rob[q].executed
      && forall j :: 0 <= j < SOURCES ==> s.rob[q].slotDeps[j] <= t.rob[q].slotDeps[j]
    {
      if q != i { assert ProducerStep(s, s.rob[q], t.rob[q], q, i); }
    }
    forall w, c, j | InWindow(t, c) && 0 <= j < SOURCES && t.rob[c].scheduled != Idle &&
        YoungestWriter(t, w, c, t.rob[c].src[j]) && t.rob[w].executed != Completed
      ensures c in t.rob[w].slotDeps[j]
    {
      if c == i {
        ScheduleCover(s, t, i, w, j);
        assert w != i && ProducerStep(s, s.rob[w], t.rob[w], w, i);
      } else {
        assert ProducerStep(s, s.rob[c], t.rob[c], c, i);
        CoverKept(s, t, c);
      }
    }
  }

  lemma Enqueue(q: seq<nat>, x: nat)
    requires Distinct(q) && x !in q
    ensures Distinct(q + [x])
  {
  }

  lemma ScheduleQueues(s: Core, t: Core, i: int)
    requires CountsOk(s) && QueuesOk(s) && ScheduleStep(s, t, i) && s.rob[i].scheduled == Idle
    ensures QueuesOk(t)
  {
    var q := s.rte0 + s.rte1;
    assert i !in q by { assert !s.rob[i].regReady; }
    forall k ensures InWindow(t, k) && Waiting(t.rob[k]) <==> k in q || (k == i && Waiting(t.rob[i])) {
      assert InWindow(t, k) <==> InWindow(s, k);
      if InWindow(s, k) && k != i { assert ProducerStep(s, s.rob[k], t.rob[k], k, i); }
    }
    if Waiting(t.rob[i]) {
      Enqueue(q, i);
      assert t.rte0 + t.rte1 == q + [i];
    }
  }

  lemma ScheduleHistory(s: Core, t: Core, i: int)
    requires Shape(s) && WindowOk(s) && CountsOk(s) && HistoryOk(s)
    requires ScheduleStep(s, t, i) && s.rob[i].scheduled == Idle
    ensures HistoryOk(t)
  {
    var id := s.rob[i].id;
    assert id !in s.entered by { assert !s.rob[i].regReady; }
    forall k | InWindow(t, k)
      ensures t.rob[k].id in t.entered <==> !t.rob[k].isMemory && t.rob[k].regReady
    {
      assert InWindow(s, k);
      if k != i {
        assert ProducerStep(s, s.rob[k], t.rob[k], k, i);
        assert t.rob[k].id != id;
      }
    }
    if Waiting(t.rob[i]) { Enqueue(s.entered, id); }
  }

  lemma ScheduleKeeps(s: Core, t: Core, i: int)
    requires Inv(s) && ScheduleStep(s, t, i) && s.rob[i].scheduled == Idle
    ensures Inv(t)
  {
    WindowKept(s, t);
    ScheduleLinks(s, t, i);
    ScheduleCounts(s, t, i);
    ScheduleCovers(s, t, i);
    ScheduleQueues(s, t, i);
    ScheduleHistory(s, t, i);
  }

  // ---------------------------------------------------------------------------------------------
  // Finish

  ghost predicate FinishStep(s: Core, t: Core, p: nat, woken: seq<nat>) {
    && SameRing(s, t) && InWindow(s, p) && s.rob[p].executed == InFlight
    && t.rob[p] == s.rob[p].(executed := Completed)
    && (forall c :: 0 <= c < |s.rob| && c != p ==> t.rob[c] == Relieved(s.rob[c], |Slots(s.rob[p], p, c)|))
    && (forall c :: c in woken <==> Wakes(s, p, c))
    && (forall a, b :: 0 <= a < b < |woken| ==> woken[a] < woken[b])
    && t.rte0 == s.rte0 + woken && t.rte1 == s.rte1
    && |t.entered| == |s.entered| + |woken| && t.entered[..|s.entered|] == s.entered
    && (forall k :: 0 <= k < |woken| ==> woken[k] < |s.rob| && t.entered[|s.entered| + k] == s.rob[woken[k]].id)
  }

  lemma FinishEffect(s: Core, p: nat)
    requires InWindow(s, p) && s.rob[p].executed == InFlight
    ensures FinishStep(s, Complete(s, p), p, Woken(s, p, |s.rob|))
  {
    var woken := Woken(s, p, |s.rob|);
    assert forall k :: 0 <= k < |woken| ==> woken[k] in woken;
  }

  lemma FinishSame(s: Core, t: Core, p: nat, woken: seq<nat>)
    requires FinishStep(s, t, p, woken)
    ensures forall i :: 0 <= i < |s.rob| ==> SameInstr(s.rob[i], t.rob[i]) && SameDeps(s.rob[i], t.rob[i])
    ensures forall i :: 0 <= i < |s.rob| && i != p ==> t.rob[i].executed == s.rob[i].executed
  {
  }

  /** Completing p removes exactly p's links to c. */
  lemma FinishLinked(s: Core, t: Core, p: nat, woken: seq<nat>, c: int)
    requires FinishStep(s, t, p, woken)
    ensures forall x :: x in Links(t, c) <==> x in Links(s, c) && x.0 != p
    ensures forall x :: x in Slots(s.rob[p], p, c) <==> x in Links(s, c) && x.0 == p
  {
    FinishSame(s, t, p, woken);
    forall x ensures x in Links(t, c) <==> x in Links(s, c) && x.0 != p {
      assert InWindow(t, x.0) <==> InWindow(s, x.0);
    }
  }

  lemma FinishLinks(s: Core, t: Core, p: nat, woken: seq<nat>, c: int)
    requires LinksOk(s) && FinishStep(s, t, p, woken)
    ensures |Links(t, c)| == |Links(s, c)| - |Slots(s.rob[p], p, c)|
    ensures Slots(s.rob[p], p, c) != {} ==> LinkOk(s, p, c)
  {
    FinishLinked(s, t, p, woken, c);
    var slots := Slots(s.rob[p], p, c);
    assert Links(s, c) == Links(t, c) + slots && Links(t, c) !! slots;
    if slots != {} {
      var x :| x in slots;
      assert c in s.rob[p].slotDeps[x.1];
    }
  }

  /** What completing p does to one instruction of the window. */
  lemma FinishEntry(s: Core, t: Core, p: nat, woken: seq<nat>, c: int)
    requires LinksOk(s) && CountsOk(s) && FinishStep(s, t, p, woken) && InWindow(s, c)
    ensures CountOk(t, c)
    ensures t.rob[c].scheduled == Idle <==> s.rob[c].scheduled == Idle
    ensures SameInstr(s.rob[c], t.rob[c]) && SameDeps(s.rob[c], t.rob[c])
    ensures c in woken ==> !s.rob[c].regReady
    ensures !t.rob[c].isMemory && t.rob[c].regReady <==> (!s.rob[c].isMemory && s.rob[c].regReady) || c in woken
  {
    FinishLinks(s, t, p, woken, c);
    assert Slots(s.rob[p], p, c) != {} ==> |Slots(s.rob[p], p, c)| > 0;
  }

  lemma FinishCounts(s: Core, t: Core, p: nat, woken: seq<nat>)
    requires LinksOk(s) && CountsOk(s) && FinishStep(s, t, p, woken)
    ensures CountsOk(t)
  {
    forall c | InWindow(t, c) ensures CountOk(t, c) {
      assert InWindow(s, c);
      FinishEntry(s, t, p, woken, c);
    }
  }

  lemma FinishCovers(s: Core, t: Core, p: nat)
    requires CoverOk(s) && SameRing(s, t) && InWindow(s, p) && t.rob[p].executed == Completed
    requires forall i :: 0 <= i < |s.rob| ==> SameInstr(s.rob[i], t.rob[i]) && SameDeps(s.rob[i], t.rob[i])
    requires forall i :: 0 <= i < |s.rob| && i != p ==> t.rob[i].executed == s.rob[i].executed
    requires forall i :: InWindow(s, i) ==> (t.rob[i].scheduled == Idle <==> s.rob[i].scheduled == Idle)
    ensures CoverOk(t)
  {
    forall c | InWindow(t, c) && t.rob[c].scheduled != Idle { CoverKept(s, t, c); }
  }

  /** Appending an increasing sequence of new elements keeps a sequence free of repetition. */
  lemma EnqueueAll(q: seq<nat>, r: seq<nat>)
    requires Distinct(q) && Distinct(r) && forall x :: x in r ==> x !in q
    ensures Distinct(q + r)
  {
    assert forall k :: 0 <= k < |r| ==> r[k] in r;
  }

  lemma FinishQueues(s: Core, t: Core, p: nat, woken: seq<nat>)
    requires LinksOk(s) && CountsOk(s) && QueuesOk(s) && FinishStep(s, t, p, woken)
    ensures QueuesOk(t)
  {
    var q := s.rte0 + s.rte1;
    forall c ensures InWindow(t, c) && Waiting(t.rob[c]) <==> c in q || c in woken
             ensures c in woken ==> c !in q {
      assert InWindow(t, c) <==> InWindow(s, c);
      FinishLinks(s, t, p, woken, c);
    }
    EnqueueAll(q, woken);
    forall x, y | 0 <= x < y < |t.rte0 + t.rte1| ensures (t.rte0 + t.rte1)[x] != (t.rte0 + t.rte1)[y] {
      Rearrange(s.rte0, woken, s.rte1, x, y);
    }
  }

  lemma Rearrange(a: seq<nat>, w: seq<nat>, b: seq<nat>, x: nat, y: nat)
    requires Distinct(a + b + w) && x < y < |a + w + b|
    ensures (a + w + b)[x] != (a + w + b)[y]
  {
    var d := a + b + w;
    var f := (k: nat) => if k < |a| then k else if k < |a| + |w| then k + |b| else k - |w|;
    assert (a + w + b)[x] == d[f(x)] && (a + w + b)[y] == d[f(y)];
    assert f(x) < f(y) || f(y) < f(x);
  }

  lemma SameId(s: Core, b: int, c: int)
    requires Shape(s) && WindowOk(s) && InWindow(s, b) && InWindow(s, c) && s.rob[b].id == s.rob[c].id
    ensures b == c
  {
    assert Age(s, b) == Age(s, c);
  }

  lemma FinishIds(s: Core, t: Core, p: nat, woken: seq<nat>)
    requires Shape(s) && WindowOk(s) && LinksOk(s) && CountsOk(s) && HistoryOk(s) && FinishStep(s, t, p, woken)
    ensures Distinct(t.entered)
    ensures forall id :: id in t.entered <==> id in s.entered || exists c :: c in woken && id == s.rob[c].id
    ensures forall c :: c in woken ==> InWindow(s, c)
  {
    var ids := t.entered[|s.entered|..];
    assert t.entered == s.entered + ids;
    forall c | c in woken ensures InWindow(s, c) && s.rob[c].id !in s.entered && s.rob[c].id in ids {
      FinishLinks(s, t, p, woken, c);
      FinishEntry(s, t, p, woken, c);
      var k :| 0 <= k < |woken| && woken[k] == c;
      assert ids[k] == s.rob[c].id;
    }
    assert forall k :: 0 <= k < |ids| ==> woken[k] in woken && ids[k] == s.rob[woken[k]].id;
    forall a, b | 0 <= a < b < |ids| ensures ids[a] != ids[b] {
      if ids[a] == ids[b] { SameId(s, woken[a], woken[b]); }
    }
    EnqueueAll(s.entered, ids);
  }

  lemma FinishHistory(s: Core, t: Core, p: nat, woken: seq<nat>)
    requires Shape(s) && WindowOk(s) && LinksOk(s) && CountsOk(s) && HistoryOk(s) && FinishStep(s, t, p, woken)
    ensures HistoryOk(t)
  {
    FinishIds(s, t, p, woken);
    forall c | InWindow(t, c)
      ensures t.rob[c].id in t.entered <==> !t.rob[c].isMemory && t.rob[c].regReady
    {
      assert InWindow(s, c);
      FinishEntry(s, t, p, woken, c);
      forall b | b in woken && s.rob[b].id == s.rob[c].id ensures b == c { SameId(s, b, c); }
    }
  }

  lemma FinishKeeps(s: Core, t: Core, p: nat, woken: seq<nat>)
    requires Inv(s) && FinishStep(s, t, p, woken)
    ensures Inv(t)
  {
    FinishSame(s, t, p, woken);
    WindowKept(s, t);
    FinishCounts(s, t, p, woken);
    assert LinksOk(t) && CoverOk(t) by {
      forall c | InWindow(s, c) ensures t.rob[c].scheduled == Idle <==> s.rob[c].scheduled == Idle {
        FinishEntry(s, t, p, woken, c);
      }
      LinksKept(s, t);
      FinishCovers(s, t, p);
    }
    FinishQueues(s, t, p, woken);
    FinishHistory(s, t, p, woken);
  }

  // ---------------------------------------------------------------------------------------------
  // Runs

  lemma StepKeeps(s: Core, a: Step)
    requires Inv(s) && Enabled(s, a)
    ensures Inv(Apply(s, a))
  {
    var t := Apply(s, a);
    match a {
      case Add(x) => AddKeeps(s, t);
      case Schedule(i) => ScheduleEffect(s, i); ScheduleKeeps(s, t, i);
      case Execute0 => ExecuteKeeps(s, a);
      case Execute1 => ExecuteKeeps(s, a);
      case MemIssue(_) => MemoryKeeps(s, a);
      case MemDone(_) => MemoryKeeps(s, a);
      case Finish(p) => FinishEffect(s, p); FinishKeeps(s, t, p, Woken(s, p, |s.rob|));
      case RetireHead => RetireKeeps(s, t);
    }
  }

  ghost predicate Next(s: Core, t: Core) { exists a :: Enabled(s, a) && t == Apply(s, a) }

  /** The k-th state of the sequence follows from the one before it by a step. */
  ghost predicate StepAt(run: seq<Core>, k: nat)
    requires 0 < k < |run|
  {
    Next(run[k - 1], run[k])
  }

  ghost predicate Run(run: seq<Core>) {
    && 0 < |run| && Init(run[0])
    && forall k :: 0 < k < |run| ==> StepAt(run, k)
  }

  lemma {:induction false} RunInv(run: seq<Core>, k: nat)
    requires Run(run) && k < |run|
    ensures Inv(run[k])
  {
    if k == 0 {
      InitInv(run[0]);
    } else {
      RunInv(run, k - 1);
      assert StepAt(run, k);
      var a :| Enabled(run[k - 1], a) && run[k] == Apply(run[k - 1], a);
      StepKeeps(run[k - 1], a);
    }
  }

  /** s is the last state of some run. */
  ghost predicate Reached(s: Core) { Folded(s, 3) }

  /** The same at any depth, which has no meaning of its own: a recursive definition is not unfolded at
      every use. */
  ghost predicate Folded(s: Core, depth: nat) {
    if depth == 0 then exists run :: Run(run) && run[|run| - 1] == s else Folded(s, depth - 1)
  }

  lemma ReachedBy(run: seq<Core>)
    requires Run(run)
    ensures Reached(run[|run| - 1])
  {
    var s := run[|run| - 1];
    assert Folded(s, 0);
    assert Folded(s, 1);
    assert Folded(s, 2);
  }

  lemma RunTo(s: Core) returns (run: seq<Core>)
    requires Reached(s)
    ensures Run(run) && run[|run| - 1] == s
  {
    assert Folded(s, 2);
    assert Folded(s, 1);
    assert Folded(s, 0);
    run :| Run(run) && run[|run| - 1] == s;
  }

  lemma ReachedInit(s: Core)
    requires Init(s)
    ensures Reached(s)
  {
    var run := [s];
    ReachedBy(run);
  }

  lemma ReachedStep(s: Core, a: Step)
    requires Reached(s) && Enabled(s, a)
    ensures Reached(Apply(s, a))
  {
    var run := RunTo(s);
    var more := run + [Apply(s, a)];
    forall k | 0 < k < |more| ensures StepAt(more, k) {
      assert k < |run| ==> StepAt(run, k);
    }
    ReachedBy(more);
  }

  lemma ReachedInv(s: Core)
    requires Reached(s)
    ensures Inv(s)
  {
    var run := RunTo(s);
    RunInv(run, |run| - 1);
  }

  /** No instruction has started executing before the youngest writer of each source completed. */
  lemma RawSafety(run: seq<Core>, k: nat, i: int, j: nat, w: int)
    requires Run(run) && k < |run| && j < SOURCES && InWindow(run[k], i)
    requires YoungestWriter(run[k], w, i, run[k].rob[i].src[j])
    requires run[k].rob[i].executed != Idle
    ensures run[k].rob[w].executed == Completed
  {
    RunInv(run, k);
    var s := run[k];
    assert CountOk(s, i);
    assert Linked(s, w, j, i) ==> (w, j as int) in Links(s, i);
  }

  /** num_reg_dependent counts the live links of an instruction in every reachable state. */
  lemma DependenceCountExact(run: seq<Core>, k: nat, i: int)
    requires Run(run) && k < |run| && InWindow(run[k], i)
    ensures run[k].rob[i].numDep == |Links(run[k], i)|
    ensures run[k].rob[i].scheduled != Idle ==> (run[k].rob[i].regReady <==> Links(run[k], i) == {})
  {
    RunInv(run, k);
    assert CountOk(run[k], i);
  }

  /** Over a whole run each instruction enters a ready queue at most once, a non-memory one
      exactly when it becomes ready, and instructions retire in program order. */
  lemma EnteredOnce(run: seq<Core>, k: nat)
    requires Run(run) && k < |run|
    ensures Distinct(run[k].entered)
    ensures forall i :: InWindow(run[k], i) && !run[k].rob[i].isMemory && run[k].rob[i].executed != Idle ==>
      run[k].rob[i].id in run[k].entered
    ensures forall n :: 0 <= n < |run[k].retired| ==> run[k].retired[n] == n
  {
    RunInv(run, k);
    assert forall i :: InWindow(run[k], i) ==> CountOk(run[k], i);
  }

  /** The two ready queues together never hold more than the ROB has slots. */
  lemma QueueRoom(s: Core)
    requires Inv(s)
    ensures |s.rte0| + |s.rte1| <= |s.rob|
  {
    var q := s.rte0 + s.rte1;
    assert forall k :: 0 <= k < |q| ==> q[k] in q;
    Pigeonhole(q, |s.rob|);
  }

  /** The sanity check before each push cannot fire: the pushes of a step all have room. */
  lemma PushesHaveRoom(run: seq<Core>, k: nat)
    requires Run(run) && 0 < k < |run|
    ensures |run[k].rte0| <= |run[k].rob| && |run[k].rte1| <= |run[k].rob|
    ensures |run[k].rob| == |run[k - 1].rob|
  {
    RunInv(run, k);
    QueueRoom(run[k]);
    assert StepAt(run, k);
  }

  /** The oldest instruction, once scheduled, is never waiting on a register. */
  lemma HeadNeverWaits(run: seq<Core>, k: nat)
    requires Run(run) && k < |run| && run[k].occupancy > 0
    ensures run[k].head < |run[k].rob|
    ensures run[k].rob[run[k].head].scheduled != Idle ==> run[k].rob[run[k].head].regReady
  {
    RunInv(run, k);
    var s := run[k];
    assert InWindow(s, s.head) && CountOk(s, s.head);
    forall x ensures x !in Links(s, s.head) {
      assert Linked(s, x.0, x.1, s.head) ==> Age(s, x.0) < Age(s, s.head);
    }
    assert Links(s, s.head) == {};
  }
}
