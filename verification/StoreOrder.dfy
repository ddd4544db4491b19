/**
 The store side of the out-of-order core (src/ooo_cpu.cc): the STA ring filled at fetch, the store
 queue filled when an instruction's stores are scheduled, and the release of store-queue slots at
 retirement, as a state machine over values.

 The store operands of the instructions in the reorder buffer are kept as one list in program
 order, so the position of an operand in that list is its distance from the oldest one.
 */
module StoreOrder {
  import opened Basics

  /** Destinations per instruction that size the STA ring (NUM_INSTR_DESTINATIONS_SPARC). */
  const DESTS: nat := 4

  /** Operand d of instruction id; sqIndex is -1 until the operand has a store-queue slot. */
  datatype Store = Store(id: nat, d: nat, addr: nat, added: bool, sqIndex: int)

  /** An instruction of the window with its number of store operands. `issued` is set when memory
      scheduling has found a slot for every operand, `done` when the instruction has executed. */
  datatype Instr = Instr(id: nat, stores: nat, issued: bool, done: bool)

  /** A store-queue slot; address 0 means free. */
  datatype Slot = Slot(addr: nat, id: nat, d: nat)

  const FREE: Slot := Slot(0, 0, 0)

  datatype Token = Token(id: nat, d: nat)

  /** `fetched`, `entered` and `freed` record the stores fetched, the stores that entered the
      store queue, and the slots released so far. */
  datatype Unit = Unit(
    robSize: nat, window: seq<Instr>, live: seq<Store>, nextId: nat, sta: seq<nat>,
    sq: seq<Slot>, head: nat, tail: nat, occupancy: nat,
    fetched: seq<Token>, entered: seq<Token>, freed: nat)

  /** The store operands among the first n destinations: the nonzero addresses, in order. */
  function Operands(id: nat, addrs: seq<nat>, n: nat): (r: seq<Store>)
    requires n <= |addrs|
    ensures |r| <= n
  {
    if n == 0 then []
    else
      var rest := Operands(id, addrs, n - 1);
      if addrs[n - 1] != 0 then rest + [Store(id, n - 1, addrs[n - 1], false, -1)] else rest
  }

  /** r holds operands of id among the first n destinations, in order and not yet in the queue. */
  ghost predicate Lists(id: nat, addrs: seq<nat>, n: nat, r: seq<Store>)
    requires n <= |addrs|
  {
    && (forall k :: 0 <= k < |r| ==> r[k].d < n && addrs[r[k].d] == r[k].addr != 0)
    && (forall k :: 0 <= k < |r| ==> r[k].id == id && !r[k].added && r[k].sqIndex == -1)
    && (forall j, k :: 0 <= j < k < |r| ==> r[j].d < r[k].d)
  }

  lemma {:induction false} OperandsShape(id: nat, addrs: seq<nat>, n: nat)
    requires n <= |addrs|
    ensures Lists(id, addrs, n, Operands(id, addrs, n))
  {
    if n > 0 {
      OperandsShape(id, addrs, n - 1);
      var rest, s := Operands(id, addrs, n - 1), Store(id, n - 1, addrs[n - 1], false, -1);
      assert Lists(id, addrs, n, rest);
      assert addrs[n - 1] != 0 ==> Lists(id, addrs, n, rest + [s]);
    }
  }

  ghost predicate HasOperand(r: seq<Store>, d: nat) { exists k :: 0 <= k < |r| && r[k].d == d }

  /** Every nonzero destination has an operand, with its address, and no other destination has one. */
  lemma {:induction false} OperandsComplete(id: nat, addrs: seq<nat>, n: nat, d: nat)
    requires d < n <= |addrs|
    ensures HasOperand(Operands(id, addrs, n), d) <==> addrs[d] != 0
    ensures forall k :: 0 <= k < |Operands(id, addrs, n)| && Operands(id, addrs, n)[k].d == d ==>
      Operands(id, addrs, n)[k] == Store(id, d, addrs[d], false, -1)
  {
    var r, rest := Operands(id, addrs, n), Operands(id, addrs, n - 1);
    OperandsShape(id, addrs, n);
    assert forall k :: 0 <= k < |rest| ==> r[k] == rest[k];
    if d < n - 1 {
      OperandsComplete(id, addrs, n - 1, d);
      if k :| 0 <= k < |rest| && rest[k].d == d { assert r[k].d == d; }
    } else if addrs[d] != 0 {
      assert r[|rest|].d == d;
    }
  }

  lemma {:induction false} OperandsPrefix(id: nat, addrs: seq<nat>, n: nat, m: nat)
    requires n <= m <= |addrs|
    ensures |Operands(id, addrs, n)| <= |Operands(id, addrs, m)|
  {
    if n < m { OperandsPrefix(id, addrs, n, m - 1); }
  }

  function Ids(live: seq<Store>): (r: seq<nat>)
    ensures |r| == |live|
  {
    seq<nat>(|live|, k requires 0 <= k < |live| => live[k].id)
  }

  function Tokens(live: seq<Store>): (r: seq<Token>)
    ensures |r| == |live|
  {
    seq(|live|, k requires 0 <= k < |live| => Token(live[k].id, live[k].d))
  }

  /** Read an instruction: its stores join the list and their ids the STA ring. */
  function Fetched(u: Unit, addrs: seq<nat>): Unit {
    var ops := Operands(u.nextId, addrs, |addrs|);
    u.(window := u.window + [Instr(u.nextId, |ops|, false, false)],
       live := u.live + ops,
       nextId := u.nextId + 1,
       sta := u.sta + Ids(ops),
       fetched := u.fetched + Tokens(ops))
  }

  /** add_store_queue for operand p. */
  function Added(u: Unit, p: nat): Unit
    requires p < |u.live| && u.tail < |u.sq| && u.sta != []
  {
    var s := u.live[p];
    u.(live := u.live[p := s.(added := true, sqIndex := u.tail)],
       sq := u.sq[u.tail := Slot(s.addr, s.id, s.d)],
       tail := Wrap(u.tail + 1, |u.sq|),
       occupancy := u.occupancy + 1,
       sta := u.sta[1..],
       entered := u.entered + [Token(s.id, s.d)])
  }

  /** Retirement frees the slot of the oldest operand, which must be the head of the queue. */
  function Released(u: Unit): Unit
    requires u.live != [] && 0 <= u.live[0].sqIndex < |u.sq| && u.occupancy > 0
  {
    u.(live := u.live[1..],
       sq := u.sq[u.live[0].sqIndex := FREE],
       head := Wrap(u.head + 1, |u.sq|),
       occupancy := u.occupancy - 1,
       freed := u.freed + 1)
  }

  /** Retire the oldest instruction after its operands have been released. */
  function Dropped(u: Unit): Unit
    requires u.window != []
  {
    u.(window := u.window[1..])
  }

  datatype Step =
    | Fetch(addrs: seq<nat>)
    | AddStore(p: nat)
    | Issue(i: nat)
    | Finish(i: nat)
    | ReleaseSlot
    | Drop

  /** AddStore carries the conditions check_and_add_lsq tests, in operand order; memory scheduling
      issues an instruction once all its stores have been added; an instruction with stores executes
      only after that; operands are released before the instruction. The index ranges say where the
      arrays are touched; in every reachable state they follow from the other conditions. */
  ghost predicate Enabled(u: Unit, a: Step) {
    match a
    case Fetch(addrs) => |u.window| < u.robSize && |addrs| <= DESTS
    case AddStore(p) =>
      && p < |u.live| && !u.live[p].added && u.occupancy < |u.sq| && u.tail < |u.sq|
      && u.sta != [] && u.sta[0] == u.live[p].id
      && forall q :: 0 <= q < p && u.live[q].id == u.live[p].id ==> u.live[q].added
    case Issue(i) =>
      i < |u.window| && forall q :: 0 <= q < |u.live| && u.live[q].id == u.window[i].id ==> u.live[q].added
    case Finish(i) => i < |u.window| && (u.window[i].stores > 0 ==> u.window[i].issued)
    case ReleaseSlot =>
      && u.window != [] && u.window[0].done && u.live != [] && u.live[0].id == u.window[0].id
      && 0 <= u.live[0].sqIndex < |u.sq| && u.occupancy > 0
    case Drop =>
      u.window != [] && u.window[0].done && (u.live != [] ==> u.live[0].id != u.window[0].id)
  }

  ghost predicate Shape(u: Unit) {
    0 < |u.sq| && u.head < |u.sq| && u.tail < |u.sq| && u.occupancy <= |u.sq|
  }

  function Marked(u: Unit, i: nat, x: Instr): Unit
    requires i < |u.window|
  {
    u.(window := u.window[i := x])
  }

  ghost function Apply(u: Unit, a: Step): Unit
    requires Enabled(u, a)
  {
    match a
    case Fetch(addrs) => Fetched(u, addrs)
    case AddStore(p) => Added(u, p)
    case Issue(i) => Marked(u, i, u.window[i].(issued := true))
    case Finish(i) => Marked(u, i, u.window[i].(done := true))
    case ReleaseSlot => Released(u)
    case Drop => Dropped(u)
  }

  // ---------------------------------------------------------------------------------------------
  // The invariant

  /** Operand p has a slot exactly when it is among the `occupancy` oldest, and then its slot lies
      at that distance from the head of the queue. */
  ghost predicate OperandOk(u: Unit, p: nat)
    requires Shape(u) && p < |u.live|
  {
    var s := u.live[p];
    && s.addr != 0
    && (s.added <==> p < u.occupancy)
    && s.sqIndex == (if p < u.occupancy then Wrap(u.head + p, |u.sq|) else -1)
    && (p < u.occupancy ==> u.sq[Wrap(u.head + p, |u.sq|)] == Slot(s.addr, s.id, s.d))
    && (p >= u.occupancy ==> p - u.occupancy < |u.sta| && u.sta[p - u.occupancy] == s.id)
    && u.freed + p < |u.fetched| && u.fetched[u.freed + p] == Token(s.id, s.d)
  }

  /** Operands come in program order and belong to instructions of the window. */
  ghost predicate Ordered(u: Unit) {
    && (forall p, q :: 0 <= p < q < |u.live| ==>
          u.live[p].id < u.live[q].id || (u.live[p].id == u.live[q].id && u.live[p].d < u.live[q].d))
    && (forall i :: 0 <= i < |u.window| ==> u.window[i].id == u.nextId - |u.window| + i)
    && (forall p :: 0 <= p < |u.live| ==> u.nextId - |u.window| <= u.live[p].id < u.nextId && u.live[p].d < DESTS)
    && |u.window| <= u.robSize && |u.window| <= u.nextId
  }

  /** The operands of an instruction that was issued or has executed all have a slot; an instruction
      that counts no stores has no operands. */
  ghost predicate DoneOk(u: Unit) {
    forall i, p :: 0 <= i < |u.window| && 0 <= p < |u.live| && u.live[p].id == u.window[i].id ==>
      u.window[i].stores > 0 && (u.window[i].issued || u.window[i].done ==> u.live[p].added)
  }

  ghost predicate Inv(u: Unit) {
    && Shape(u) && Ordered(u) && DoneOk(u)
    && u.tail == Wrap(u.head + u.occupancy, |u.sq|)
    && u.occupancy <= |u.live| && |u.sta| == |u.live| - u.occupancy
    && |u.fetched| == u.freed + |u.live|
    && u.entered == u.fetched[..u.freed + u.occupancy]
    && (forall p :: 0 <= p < |u.live| ==> OperandOk(u, p))
    && (forall k :: u.occupancy <= k < |u.sq| ==> FreeAt(u, k))
  }

  ghost predicate FreeAt(u: Unit, k: nat)
    requires Shape(u) && k < |u.sq|
  {
    u.sq[Wrap(u.head + k, |u.sq|)] == FREE
  }

  ghost predicate Init(u: Unit) {
    && 0 < |u.sq|
    && u == Unit(u.robSize, [], [], 0, [], seq(|u.sq|, _ => FREE), 0, 0, 0, [], [], 0)
  }

  // ---------------------------------------------------------------------------------------------

  lemma InitInv(u: Unit)
    requires Init(u)
    ensures Inv(u)
  {
  }

  /** The conditions tested before add_store_queue single out the oldest operand without a slot. */
  lemma AddsOldest(u: Unit, p: nat)
    requires Inv(u) && Enabled(u, AddStore(p))
    ensures p == u.occupancy && u.sq[u.tail] == FREE
  {
    assert OperandOk(u, p);
    assert OperandOk(u, u.occupancy);
    assert FreeAt(u, u.occupancy);
  }

  lemma AddedOperand(u: Unit, p: nat, q: nat)
    requires Inv(u) && p == u.occupancy < |u.live| && u.occupancy < |u.sq| && q < |u.live|
    ensures OperandOk(Added(u, p), q)
  {
    assert OperandOk(u, q);
    assert OperandOk(u, p);
  }

  lemma AddKeeps(u: Unit, p: nat)
    requires Inv(u) && Enabled(u, AddStore(p))
    ensures Inv(Added(u, p))
  {
    AddsOldest(u, p);
    var t := Added(u, p);
    forall q | 0 <= q < |t.live| ensures OperandOk(t, q) { AddedOperand(u, p, q); }
    forall k | t.occupancy <= k < |t.sq| ensures FreeAt(t, k) { assert FreeAt(u, k); }
    assert t.entered == t.fetched[..t.freed + t.occupancy] by { assert OperandOk(u, p); }
  }

  lemma FetchedOperand(u: Unit, addrs: seq<nat>, q: nat)
    requires Inv(u) && Enabled(u, Fetch(addrs)) && q < |Fetched(u, addrs).live|
    ensures OperandOk(Fetched(u, addrs), q)
  {
    var t, ops := Fetched(u, addrs), Operands(u.nextId, addrs, |addrs|);
    OperandsShape(u.nextId, addrs, |addrs|);
    if q < |u.live| {
      assert OperandOk(u, q);
    } else {
      var n := q - |u.live|;
      assert t.live[q] == ops[n];
      assert t.sta[q - t.occupancy] == Ids(ops)[n];
      assert t.fetched[t.freed + q] == Tokens(ops)[n];
    }
  }

  lemma FetchedOrdered(u: Unit, addrs: seq<nat>)
    requires Ordered(u) && Enabled(u, Fetch(addrs))
    ensures Ordered(Fetched(u, addrs))
  {
    OperandsShape(u.nextId, addrs, |addrs|);
  }

  lemma FetchKeeps(u: Unit, addrs: seq<nat>)
    requires Inv(u) && Enabled(u, Fetch(addrs))
    ensures Inv(Fetched(u, addrs))
  {
    var t := Fetched(u, addrs);
    FetchedOrdered(u, addrs);
    OperandsShape(u.nextId, addrs, |addrs|);
    forall q | 0 <= q < |t.live| ensures OperandOk(t, q) { FetchedOperand(u, addrs, q); }
    forall k | t.occupancy <= k < |t.sq| ensures FreeAt(t, k) { assert FreeAt(u, k); }
    assert t.entered == t.fetched[..t.freed + t.occupancy];
  }

  /** Setting a flag of instruction i keeps the invariant if its operands all have slots. */
  lemma MarkKeeps(u: Unit, i: nat, x: Instr)
    requires Inv(u) && i < |u.window| && x.id == u.window[i].id && x.stores == u.window[i].stores
    requires forall p :: 0 <= p < |u.live| && u.live[p].id == x.id ==> u.live[p].added
    ensures Inv(Marked(u, i, x))
  {
    var t := Marked(u, i, x);
    forall q | 0 <= q < |t.live| ensures OperandOk(t, q) { assert OperandOk(u, q); }
    forall k | t.occupancy <= k < |t.sq| ensures FreeAt(t, k) { assert FreeAt(u, k); }
  }

  /** What retirement tests is all that releasing a slot needs. */
  lemma ReleaseReady(u: Unit)
    requires Inv(u) && u.window != [] && u.window[0].done && u.live != [] && u.live[0].id == u.window[0].id
    ensures Enabled(u, ReleaseSlot)
  {
    assert OperandOk(u, 0);
  }

  /** The slot freed at retirement is the head of the store queue. */
  lemma ReleaseFreesHead(u: Unit)
    requires Inv(u) && Enabled(u, ReleaseSlot)
    ensures u.live[0].sqIndex == u.head && u.occupancy > 0
    ensures u.sq[u.head] == Slot(u.live[0].addr, u.live[0].id, u.live[0].d)
  {
    assert OperandOk(u, 0);
  }

  lemma ReleasedFree(u: Unit, k: nat)
    requires Inv(u) && Enabled(u, ReleaseSlot) && u.live[0].sqIndex == u.head && u.occupancy > 0
    requires u.occupancy - 1 <= k < |u.sq|
    ensures FreeAt(Released(u), k)
  {
    var up := k + 1;
    if up < |u.sq| { assert FreeAt(u, up); }
  }

  lemma ReleasedOperand(u: Unit, q: nat)
    requires Inv(u) && Enabled(u, ReleaseSlot) && u.live[0].sqIndex == u.head && u.occupancy > 0 && q < |Released(u).live|
    ensures OperandOk(Released(u), q)
  {
    var up := q + 1;
    assert OperandOk(u, up);
  }

  lemma ReleaseKeeps(u: Unit)
    requires Inv(u) && Enabled(u, ReleaseSlot) && u.live[0].sqIndex == u.head && u.occupancy > 0
    ensures Inv(Released(u))
  {
    var t := Released(u);
    forall q | 0 <= q < |t.live| ensures OperandOk(t, q) { ReleasedOperand(u, q); }
    forall k | t.occupancy <= k < |t.sq| ensures FreeAt(t, k) { ReleasedFree(u, k); }
    assert t.entered == t.fetched[..t.freed + t.occupancy];
  }

  lemma DropKeeps(u: Unit)
    requires Inv(u) && Enabled(u, Drop)
    ensures Inv(Dropped(u))
  {
    var t := Dropped(u);
    forall q | 0 <= q < |t.live| ensures OperandOk(t, q) && t.live[q].id != u.window[0].id {
      assert OperandOk(u, q);
      assert u.live[0].id <= u.live[q].id;
    }
    forall k | t.occupancy <= k < |t.sq| ensures FreeAt(t, k) { assert FreeAt(u, k); }
  }

  lemma StepKeeps(u: Unit, a: Step)
    requires Inv(u) && Enabled(u, a)
    ensures Inv(Apply(u, a))
  {
    match a {
      case Fetch(addrs) => FetchKeeps(u, addrs);
      case AddStore(p) => AddKeeps(u, p);
      case Issue(i) => MarkKeeps(u, i, u.window[i].(issued := true));
      case Finish(i) => MarkKeeps(u, i, u.window[i].(done := true));
      case ReleaseSlot => ReleaseFreesHead(u); ReleaseKeeps(u);
      case Drop => DropKeeps(u);
    }
  }

  // ---------------------------------------------------------------------------------------------
  // Runs

  ghost predicate Next(u: Unit, t: Unit) { exists a :: Enabled(u, a) && t == Apply(u, a) }

  /** The k-th state of the sequence follows from the one before it by a step. */
  ghost predicate StepAt(run: seq<Unit>, k: nat)
    requires 0 < k < |run|
  {
    Next(run[k - 1], run[k])
  }

  ghost predicate Run(run: seq<Unit>) {
    && 0 < |run| && Init(run[0])
    && forall k :: 0 < k < |run| ==> StepAt(run, k)
  }

  lemma {:induction false} RunInv(run: seq<Unit>, k: nat)
    requires Run(run) && k < |run|
    ensures Inv(run[k])
  {
    if k == 0 {
      InitInv(run[0]);
    } else {
      RunInv(run, k - 1);
      assert StepAt(run, k);
      var a :| Enabled(run[k - 1], a) && run[k] == Apply(run[k - 1], a);
      StepKeeps(run[k - 1], a);
    }
  }

  /** u is the state of some run. */
  ghost predicate Reached(u: Unit) { Folded(u, 3) }

  /** The same at any depth, which has no meaning of its own: a recursive definition is not unfolded at
      every use. */
  ghost predicate Folded(u: Unit, depth: nat) {
    if depth == 0 then exists run :: Run(run) && run[|run| - 1] == u else Folded(u, depth - 1)
  }

  lemma ReachedBy(run: seq<Unit>)
    requires Run(run)
    ensures Reached(run[|run| - 1])
  {
    var u := run[|run| - 1];
    assert Folded(u, 0);
    assert Folded(u, 1);
    assert Folded(u, 2);
  }

  lemma RunTo(u: Unit) returns (run: seq<Unit>)
    requires Reached(u)
    ensures Run(run) && run[|run| - 1] == u
  {
    assert Folded(u, 2);
    assert Folded(u, 1);
    assert Folded(u, 0);
    run :| Run(run) && run[|run| - 1] == u;
  }

  lemma ReachedInit(u: Unit)
    requires Init(u)
    ensures Reached(u)
  {
    var run := [u];
    ReachedBy(run);
  }

  lemma ReachedInv(u: Unit)
    requires Reached(u)
    ensures Inv(u)
  {
    var run := RunTo(u);
    RunInv(run, |run| - 1);
  }

  lemma ReachedStep(u: Unit, a: Step)
    requires Reached(u) && Enabled(u, a)
    ensures Reached(Apply(u, a))
  {
    var run := RunTo(u);
    var more := run + [Apply(u, a)];
    forall k | 0 < k < |more| ensures StepAt(more, k) {
      assert k < |run| ==> StepAt(run, k);
    }
    ReachedBy(more);
  }

  /** Stores enter the store queue in program order: what has entered is a prefix of what was
      fetched, and the fetched stores not yet released are exactly the operands in the window. */
  lemma StoresEnterInOrder(run: seq<Unit>, k: nat)
    requires Run(run) && k < |run|
    ensures run[k].entered <= run[k].fetched
    ensures |run[k].entered| == run[k].freed + run[k].occupancy
    ensures run[k].fetched[run[k].freed..] == Tokens(run[k].live)
  {
    RunInv(run, k);
    var u := run[k];
    forall p | 0 <= p < |u.live| ensures u.fetched[u.freed..][p] == Tokens(u.live)[p] {
      assert OperandOk(u, p);
    }
  }

  lemma {:induction false} Spread(u: Unit, p: nat)
    requires Ordered(u) && p < |u.live|
    ensures DESTS * u.live[p].id + u.live[p].d >= DESTS * (u.nextId - |u.window|) + p
  {
    if p > 0 { Spread(u, p - 1); }
  }

  /** The STA ring, sized for every destination of every window entry, never overflows. */
  lemma StaNeverOverflows(run: seq<Unit>, k: nat)
    requires Run(run) && k < |run|
    ensures |run[k].sta| <= |run[k].live| <= DESTS * run[k].robSize
  {
    RunInv(run, k);
    LiveBound(run[k]);
  }

  lemma LiveBound(u: Unit)
    requires Ordered(u)
    ensures |u.live| <= DESTS * u.robSize
  {
    if u.live != [] { Spread(u, |u.live| - 1); }
  }

  /** Occupancy is the ring distance from head to tail, and the occupied slots are contiguous. */
  lemma QueueIsContiguous(run: seq<Unit>, k: nat)
    requires Run(run) && k < |run|
    ensures var u := run[k];
      && Shape(u) && u.tail == Wrap(u.head + u.occupancy, |u.sq|)
      && (forall n :: 0 <= n < |u.sq| ==> (SlotAt(u, n).addr != 0 <==> n < u.occupancy))
  {
    RunInv(run, k);
    var u := run[k];
    forall n | 0 <= n < |u.sq| ensures SlotAt(u, n).addr != 0 <==> n < u.occupancy {
      if n < u.occupancy { assert OperandOk(u, n); } else { assert FreeAt(u, n); }
    }
  }

  function SlotAt(u: Unit, n: nat): Slot
    requires u.head < |u.sq| && n < |u.sq|
  {
    u.sq[Wrap(u.head + n, |u.sq|)]
  }
}
