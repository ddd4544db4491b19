/**
 The store side never gets stuck (src/ooo_cpu.cc), unless an instruction has more stores than the store queue
 has slots: while an instruction is in the window some step other than a fetch moves it on, and without
 fetches all instructions and their stores leave.
 */
module StoreProgress {
  import opened StoreOrder

  /** The steps that are at most left for this instruction. */
  function Rank(x: Instr): nat { 1 + (if x.issued then 0 else 1) + if x.done then 0 else 1 }

  function Ranks(window: seq<Instr>): nat {
    if window == [] then 0 else Rank(window[0]) + Ranks(window[1..])
  }

  /** Every operand has still to enter the queue, or at least to leave it. */
  function Work(u: Unit): nat
    requires u.occupancy <= |u.live|
  {
    Ranks(u.window) + |u.live| + (|u.live| - u.occupancy)
  }

  /** A step other than a fetch, and not one that has been done already. */
  predicate Useful(u: Unit, a: Step) {
    match a
    case Fetch(_) => false
    case Issue(i) => i < |u.window| && !u.window[i].issued
    case Finish(i) => i < |u.window| && !u.window[i].done
    case AddStore(_) => true
    case ReleaseSlot => true
    case Drop => true
  }

  /** The oldest instruction has a store for which the full queue has no slot, although all its slots are held by
      that instruction. */
  predicate Jammed(u: Unit) {
    && u.window != [] && u.occupancy == |u.sq| && u.occupancy < |u.live|
    && u.live[u.occupancy].id == u.window[0].id
  }

  lemma {:induction false} RanksUpdate(window: seq<Instr>, i: nat, x: Instr)
    requires i < |window|
    ensures Ranks(window[i := x]) == Ranks(window) - Rank(window[i]) + Rank(x)
  {
    if i > 0 {
      assert window[i := x][1..] == window[1..][i - 1 := x];
      RanksUpdate(window[1..], i - 1, x);
    } else {
      assert window[0 := x][1..] == window[1..];
    }
  }

  /** Every useful step uses up work. */
  lemma StepUsesWork(u: Unit, a: Step)
    requires Inv(u) && Enabled(u, a) && Useful(u, a)
    ensures Inv(Apply(u, a)) && Work(Apply(u, a)) < Work(u)
  {
    StepKeeps(u, a);
    match a {
      case AddStore(p) =>
      case Issue(i) => RanksUpdate(u.window, i, u.window[i].(issued := true));
      case Finish(i) => RanksUpdate(u.window, i, u.window[i].(done := true));
      case ReleaseSlot =>
      case Drop =>
    }
  }

  /** The oldest operand without a slot, if it is the head's, can be given one when there is room. */
  lemma CanAdd(u: Unit)
    requires Inv(u) && u.occupancy < |u.live| && u.occupancy < |u.sq|
    ensures Enabled(u, AddStore(u.occupancy))
  {
    assert OperandOk(u, u.occupancy);
    forall q | 0 <= q < u.occupancy ensures u.live[q].added { assert OperandOk(u, q); }
  }

  /** Operands of the head are among those with a slot, once the next one without a slot is not the head's. */
  lemma HeadAdded(u: Unit, q: nat)
    requires Inv(u) && u.window != [] && q < |u.live| && u.live[q].id == u.window[0].id
    requires u.occupancy < |u.live| ==> u.live[u.occupancy].id != u.window[0].id
    ensures u.live[q].added && u.occupancy > 0
  {
    assert OperandOk(u, q);
  }

  /** While an instruction is in the window and the queue is not jammed, some useful step is possible. */
  lemma NeverStuck(u: Unit) returns (a: Step)
    requires Inv(u) && u.window != [] && !Jammed(u)
    ensures Enabled(u, a) && Useful(u, a)
  {
    var head := u.window[0];
    if u.occupancy < |u.live| && u.live[u.occupancy].id == head.id {
      CanAdd(u);
      a := AddStore(u.occupancy);
    } else {
      forall q | 0 <= q < |u.live| && u.live[q].id == head.id ensures u.live[q].added && u.occupancy > 0 { HeadAdded(u, q); }
      if !head.issued {
        a := Issue(0);
      } else if !head.done {
        a := Finish(0);
      } else if u.live != [] && u.live[0].id == head.id {
        assert OperandOk(u, 0);
        a := ReleaseSlot;
      } else {
        a := Drop;
      }
    }
  }

  /** A jam is for ever: whatever happens, the oldest instruction never leaves. */
  lemma JamStays(u: Unit, a: Step)
    requires Inv(u) && Jammed(u) && Enabled(u, a)
    ensures Jammed(Apply(u, a)) && Apply(u, a).window[0].id == u.window[0].id
  {
    assert OperandOk(u, u.occupancy);
  }

  /** An instruction has at most DESTS stores, so a store queue of that size is never jammed. */
  lemma RoomForOne(u: Unit)
    requires Inv(u) && DESTS <= |u.sq|
    ensures !Jammed(u)
  {
    if Jammed(u) { Spread(u, u.occupancy); }
  }

  ghost predicate Moves(u: Unit, t: Unit) { exists a :: Enabled(u, a) && Useful(u, a) && t == Apply(u, a) }

  /** The states of a run of useful steps. */
  ghost predicate Works(run: seq<Unit>) { 0 < |run| && forall k :: 0 < k < |run| ==> WorkAt(run, k) }

  ghost predicate WorkAt(run: seq<Unit>, k: nat)
    requires 0 < k < |run|
  {
    Moves(run[k - 1], run[k])
  }

  /** One more step of the run. */
  ghost predicate Extends(run: seq<Unit>, more: seq<Unit>) {
    |more| == |run| + 1 && more[..|run|] == run && Works(more)
  }

  /** No run of useful steps is longer than the work there was. */
  lemma {:induction false} WorkEnds(run: seq<Unit>, k: nat)
    requires Works(run) && Inv(run[0]) && k < |run|
    ensures Inv(run[k]) && Work(run[k]) + k <= Work(run[0])
  {
    if k > 0 {
      WorkEnds(run, k - 1);
      assert WorkAt(run, k);
      var a :| Enabled(run[k - 1], a) && Useful(run[k - 1], a) && run[k] == Apply(run[k - 1], a);
      StepUsesWork(run[k - 1], a);
    }
  }

  lemma LiveInWindow(u: Unit)
    requires Ordered(u)
    ensures u.live != [] ==> u.nextId - |u.window| <= u.live[0].id < u.nextId
  {
  }

  /** With room for one instruction's stores, every run of useful steps goes on until the window is empty and
      every store has left the queue. */
  lemma Drains(run: seq<Unit>)
    requires Works(run) && Inv(run[0]) && DESTS <= |run[|run| - 1].sq|
    ensures |run| <= Work(run[0]) + 1
    ensures var u := run[|run| - 1];
      if u.window == [] then u.live == [] && u.occupancy == 0 && forall k :: 0 <= k < |u.sq| ==> u.sq[k] == FREE
      else exists more :: Extends(run, more)
  {
    var n := |run| - 1;
    WorkEnds(run, n);
    var u := run[n];
    if u.window == [] {
      LiveInWindow(u);
      forall k | 0 <= k < |u.sq| ensures u.sq[k] == FREE {
        var d := if k >= u.head then k - u.head else k - u.head + |u.sq|;
        assert FreeAt(u, d);
      }
    } else {
      RoomForOne(u);
      var a := NeverStuck(u);
      var more := run + [Apply(u, a)];
      assert Moves(u, more[n + 1]);
      forall k | 0 < k < |more| ensures WorkAt(more, k) { assert k < |run| ==> WorkAt(run, k); }
      assert Extends(run, more);
    }
  }

  /** With a smaller queue it can happen: one slot, and an instruction with two stores. */
  lemma JamHappens()
    ensures exists run :: Run(run) && Jammed(run[|run| - 1])
  {
    var u0 := Unit(1, [], [], 0, [], [FREE], 0, 0, 0, [], [], 0);
    assert Operands(0, [7, 9], 2) == [Store(0, 0, 7, false, -1), Store(0, 1, 9, false, -1)];
    var u1, u2 := Apply(u0, Fetch([7, 9])), Apply(Apply(u0, Fetch([7, 9])), AddStore(0));
    var run := [u0, u1, u2];
    assert [FREE] == seq(1, _ => FREE);
    assert Next(u0, u1) && Next(u1, u2);
    assert StepAt(run, 1) && StepAt(run, 2);
    assert Run(run) && Jammed(run[2]);
  }
}
