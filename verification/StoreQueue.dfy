/**
 The store side of the core as it runs (src/ooo_cpu.cc): the STA ring and the store queue are
 arrays with head and tail indices. Every method is a sequence of enabled steps of `StoreOrder`.
 */
module StoreQueue {
  import opened Basics
  import opened StoreOrder

  /** The STA ring; -1 stands for the empty mark (UINT64_MAX). */
  class StaRing {
    const slots: array<int>
    var head: nat
    var tail: nat
    ghost var contents: seq<nat>

    ghost predicate Valid()
      reads this, slots
    {
      && head < slots.Length && tail < slots.Length && |contents| <= slots.Length
      && tail == Wrap(head + |contents|, slots.Length)
      && forall i :: 0 <= i < slots.Length ==>
        var n := if i >= head then i - head else i - head + slots.Length;
        slots[i] == if n < |contents| then contents[n] else -1
    }

    constructor (size: nat)
      requires 0 < size
      ensures Valid() && fresh(slots) && slots.Length == size && contents == []
    {
      slots := new int[size](_ => -1);
      head, tail, contents := 0, 0, [];
    }

    /** The oldest id, or the empty mark. */
    method Front() returns (r: int)
      requires Valid()
      ensures r == if contents == [] then -1 else contents[0]
    {
      r := slots[head];
    }

    method Push(id: nat)
      requires Valid() && |contents| < slots.Length
      modifies this, slots
      ensures Valid() && contents == old(contents) + [id]
    {
      assert slots[tail] == -1;  // the sanity check of the source
      slots[tail] := id;
      contents := contents + [id];
      tail := tail + 1;
      if tail == slots.Length { tail := 0; }
    }

    method Pop()
      requires Valid() && contents != []
      modifies this, slots
      ensures Valid() && contents == old(contents)[1..]
    {
      slots[head] := -1;
      contents := contents[1..];
      head := head + 1;
      if head == slots.Length { head := 0; }
    }
  }

  class StoreUnit {
    const robSize: nat
    const sta: StaRing
    const sq: array<Slot>
    var head: nat
    var tail: nat
    var occupancy: nat
    var window: seq<Instr>
    var live: seq<Store>
    var nextId: nat
    ghost var fetched: seq<Token>
    ghost var entered: seq<Token>
    ghost var freed: nat

    ghost function Snapshot(): Unit
      reads this, sq, sta
    {
      Unit(robSize, window, live, nextId, sta.contents, sq[..], head, tail, occupancy, fetched, entered, freed)
    }

    ghost predicate Linked()
      reads this, sta, sta.slots
    {
      sta.Valid() && sta.slots.Length == DESTS * robSize
    }

    /** The object is in the state of some run of the store side. */
    ghost predicate Valid()
      reads this, sq, sta, sta.slots
    {
      // compared with true, the conjunction is proved whole instead of conjunct by conjunct
      (Linked() && Reached(Snapshot())) == true
    }

    constructor (robSize: nat, sqSize: nat)
      requires 0 < robSize && 0 < sqSize
      ensures Valid() && fresh(sta) && fresh(sta.slots) && fresh(sq)
      ensures this.robSize == robSize && sq.Length == sqSize && window == [] && live == []
    {
      this.robSize := robSize;
      sta := new StaRing(DESTS * robSize);
      sq := new Slot[sqSize](_ => FREE);
      head, tail, occupancy, window, live, nextId := 0, 0, 0, [], [], 0;
      fetched, entered, freed := [], [], 0;
      new;
      assert sq[..] == seq(|sq[..]|, _ => FREE);
      ReachedInit(Snapshot());
    }

    /** The loop over the destinations of an instruction being read: its id goes on the STA ring
        once per store operand. The ring never overflows, whatever the history. */
    method PushStores(addrs: seq<nat>) returns (ops: seq<Store>)
      requires Valid() && |window| < robSize && |addrs| <= DESTS
      modifies sta, sta.slots
      ensures Linked() && ops == Operands(nextId, addrs, |addrs|)
      ensures sta.contents == old(sta.contents) + Ids(ops)
    {
      ghost var room := DESTS * robSize;
      FetchBound(Snapshot(), addrs);
      ops := [];
      for i := 0 to |addrs|
        invariant sta.Valid() && sta.slots.Length == room
        invariant ops == Operands(nextId, addrs, i)
        invariant sta.contents == old(sta.contents) + Ids(ops)
      {
        if addrs[i] != 0 {
          OperandsMore(nextId, addrs, i);
          sta.Push(nextId);
          IdsPush(ops, Store(nextId, i, addrs[i], false, -1));
          ops := ops + [Store(nextId, i, addrs[i], false, -1)];
        }
      }
    }

    method Fetch(addrs: seq<nat>)
      requires Valid() && |window| < robSize && |addrs| <= DESTS
      modifies this, sta, sta.slots
      ensures Valid() && Snapshot() == Fetched(old(Snapshot()), addrs)
    {
      FetchReached(Snapshot(), addrs);
      var ops := PushStores(addrs);
      fetched := fetched + Tokens(ops);
      window := window + [Instr(nextId, |ops|, false, false)];
      live := live + ops;
      nextId := nextId + 1;
    }

    /** add_store_queue; the slot at the tail is free. */
    method AddStoreQueue(p: nat)
      requires Valid() && Enabled(Snapshot(), AddStore(p))
      modifies this, sq, sta, sta.slots
      ensures Valid() && occupancy == old(occupancy) + 1
      ensures p < |old(live)| && 0 <= old(tail) < sq.Length
      ensures old(sta.contents) != [] && Snapshot() == Added(old(Snapshot()), p)
    {
      ghost var u := Snapshot();
      AddReached(u, p);
      assert sq[tail].addr == 0;  // the sanity check of the source
      var s := live[p];
      sq[tail] := Slot(s.addr, s.id, s.d);
      live := live[p := s.(added := true, sqIndex := tail)];
      occupancy := occupancy + 1;
      tail := tail + 1;
      if tail == sq.Length { tail := 0; }
      sta.Pop();
      entered := entered + [Token(s.id, s.d)];
    }

    /** The store half of check_and_add_lsq. When operands are left over, the queue is full or a
        store of an older instruction still has no slot. */
    method CheckAndAdd(id: nat) returns (left: nat)
      requires Valid()
      modifies this, sq, sta, sta.slots
      ensures Valid() && window == old(window) && freed == old(freed) && head == old(head)
      ensures Tokens(live) == old(Tokens(live))
      ensures forall p :: 0 <= p < |live| && live[p].id != id ==> live[p] == old(live[p])
      ensures left == 0 <==> forall p :: 0 <= p < |live| && live[p].id == id ==> live[p].added
      ensures left > 0 ==>
        occupancy == sq.Length || (occupancy < |live| && !live[occupancy].added && live[occupancy].id < id)
    {
      left := 0;
      for i := 0 to |live|
        invariant Valid() && window == old(window) && freed == old(freed) && head == old(head)
        invariant Tokens(live) == old(Tokens(live)) && |live| == |old(live)|
        invariant forall p :: 0 <= p < |live| && (live[p].id != id || i <= p) ==> live[p] == old(live[p])
        invariant left == 0 <==> forall p :: 0 <= p < i && live[p].id == id ==> live[p].added
        invariant left > 0 ==> occupancy == sq.Length || sta.contents == [] || sta.contents[0] != id
      {
        if live[i].id == id && !live[i].added {
          var front := sta.Front();
          if occupancy < sq.Length && front == id {
            TailInRange(Snapshot());
            AddStoreQueue(i);
          } else {
            ReachedInv(Snapshot());
            left := left + 1;
          }
        }
      }
      if left > 0 { ReachedInv(Snapshot()); LeftOver(Snapshot(), id); }
    }

    /** do_memory_scheduling: the instruction is issued once every operand has a slot. */
    method DoMemoryScheduling(i: nat) returns (left: nat)
      requires Valid() && i < |window|
      modifies this, sq, sta, sta.slots
      ensures Valid() && freed == old(freed) && |live| == |old(live)| && |window| == |old(window)|
      ensures window == if left == 0 then old(window)[i := old(window)[i].(issued := true)] else old(window)
      ensures left == 0 <==> forall p :: 0 <= p < |live| && live[p].id == old(window)[i].id ==> live[p].added
    {
      left := CheckAndAdd(window[i].id);
      if left == 0 {
        ReachedStep(Snapshot(), StoreOrder.Issue(i));
        window := window[i := window[i].(issued := true)];
      }
    }

    /** An instruction has executed; one with stores has been issued before. */
    method Finish(i: nat)
      requires Valid() && i < |window| && (window[i].stores > 0 ==> window[i].issued)
      modifies this
      ensures Valid() && window == old(window)[i := old(window)[i].(done := true)]
      ensures live == old(live) && occupancy == old(occupancy) && entered == old(entered) && freed == old(freed)
    {
      ReachedStep(Snapshot(), StoreOrder.Finish(i));
      window := window[i := window[i].(done := true)];
    }

    /** The body of the release loop: the slot named by the operand is the head of the queue. */
    method ReleaseHead()
      requires Valid() && Enabled(Snapshot(), ReleaseSlot)
      modifies this, sq
      ensures Valid() && window == old(window) && live == old(live)[1..] && nextId == old(nextId)
      ensures tail == old(tail) && occupancy == old(occupancy) - 1 && 0 <= old(head) < sq.Length
      ensures old(live)[0].sqIndex == old(head) && head == Wrap(old(head) + 1, sq.Length)
      ensures sq[..] == old(sq[..])[old(head) := FREE]
      ensures fetched == old(fetched) && entered == old(entered) && freed == old(freed) + 1
    {
      ReleaseReached(Snapshot());
      var index := live[0].sqIndex;
      assert index == head;
      sq[index] := FREE;
      occupancy := occupancy - 1;
      head := head + 1;
      if head == sq.Length { head := 0; }
      live := live[1..];
      freed := freed + 1;
    }

    /** Frees the slots of the oldest instruction's operands, which are the oldest n operands. */
    method ReleaseStores() returns (n: nat)
      requires Valid() && window != [] && window[0].done
      modifies this, sq
      ensures Valid() && window == old(window) && entered == old(entered) && tail == old(tail)
      ensures n <= old(occupancy) && occupancy == old(occupancy) - n && freed == old(freed) + n
      ensures n <= |old(live)| && live == old(live)[n..]
      ensures forall p :: 0 <= p < n ==> old(live)[p].id == window[0].id
      ensures live != [] ==> live[0].id != window[0].id
    {
      n := 0;
      while live != [] && live[0].id == window[0].id
        invariant Valid() && window == old(window) && entered == old(entered) && tail == old(tail)
        invariant n <= old(occupancy) && occupancy == old(occupancy) - n && freed == old(freed) + n
        invariant n <= |old(live)| && live == old(live)[n..]
        invariant forall p :: 0 <= p < n ==> old(live)[p].id == window[0].id
        decreases |live|
      {
        ReachedInv(Snapshot());
        ReleaseReady(Snapshot());
        ReleaseHead();
        n := n + 1;
      }
    }

    /** Retirement of the oldest instruction: its operands, and only those, leave with it. */
    method Retire()
      requires Valid() && window != [] && window[0].done
      modifies this, sq
      ensures Valid() && window == old(window)[1..] && entered == old(entered) && tail == old(tail)
      ensures var n := freed - old(freed);
        && 0 <= n <= old(occupancy) && n <= |old(live)| && occupancy == old(occupancy) - n
        && live == old(live)[n..]
        && (forall p :: 0 <= p < |old(live)| ==> (old(live)[p].id == old(window)[0].id <==> p < n))
    {
      ghost var u := Snapshot();
      var n := ReleaseStores();
      NoneLeft(u, n);
      DropReached(Snapshot());
      window := window[1..];
    }
  }

  lemma FetchReached(u: Unit, addrs: seq<nat>)
    requires Reached(u) && Enabled(u, Fetch(addrs))
    ensures Reached(Fetched(u, addrs))
  {
    ReachedStep(u, Fetch(addrs));
  }

  lemma OperandsMore(id: nat, addrs: seq<nat>, i: nat)
    requires i < |addrs| && addrs[i] != 0
    ensures |Operands(id, addrs, i)| < |Operands(id, addrs, |addrs|)|
  {
    OperandsPrefix(id, addrs, i + 1, |addrs|);
  }

  /** There is room on the STA ring for every operand of a fetched instruction. */
  lemma FetchBound(u: Unit, addrs: seq<nat>)
    requires Reached(u) && Enabled(u, Fetch(addrs))
    ensures |u.sta| + |Operands(u.nextId, addrs, |addrs|)| <= DESTS * u.robSize
  {
    FetchReached(u, addrs);
    StaBound(Fetched(u, addrs));
  }

  lemma StaBound(t: Unit)
    requires Reached(t)
    ensures |t.sta| <= DESTS * t.robSize
  {
    ReachedInv(t);
    LiveBound(t);
  }

  lemma IdsPush(ops: seq<Store>, s: Store)
    ensures Ids(ops + [s]) == Ids(ops) + [s.id]
  {
  }

  /** What add_store_queue finds: a free tail slot and a pending id. */
  lemma AddReached(u: Unit, p: nat)
    requires Reached(u) && Enabled(u, AddStore(p))
    ensures u.sq[u.tail] == FREE && Reached(Added(u, p))
  {
    ReachedStep(u, AddStore(p));
    ReachedInv(u);
    AddsOldest(u, p);
  }

  lemma ReleaseReached(u: Unit)
    requires Reached(u) && Enabled(u, ReleaseSlot)
    ensures u.live[0].sqIndex == u.head < |u.sq| && u.occupancy > 0 && Reached(Released(u))
  {
    ReachedStep(u, ReleaseSlot);
    ReachedInv(u);
    ReleaseFreesHead(u);
  }

  lemma TailInRange(u: Unit)
    requires Reached(u)
    ensures u.tail < |u.sq|
  {
    ReachedInv(u);
  }

  lemma DropReached(u: Unit)
    requires Reached(u) && Enabled(u, Drop)
    ensures Reached(Dropped(u))
  {
    ReachedStep(u, Drop);
  }

  /** An operand left without a slot while the queue has room waits for an older store. */
  lemma LeftOver(u: Unit, id: nat)
    requires Inv(u) && (u.occupancy == |u.sq| || u.sta == [] || u.sta[0] != id)
    requires exists p :: 0 <= p < |u.live| && u.live[p].id == id && !u.live[p].added
    ensures u.occupancy == |u.sq|
      || (u.occupancy < |u.live| && !u.live[u.occupancy].added && u.live[u.occupancy].id < id)
  {
    var p :| 0 <= p < |u.live| && u.live[p].id == id && !u.live[p].added;
    assert OperandOk(u, p);
    assert OperandOk(u, u.occupancy);
  }

  lemma NoneLeft(u: Unit, n: nat)
    requires Reached(u) && u.window != [] && n <= |u.live|
    requires n < |u.live| ==> u.live[n].id != u.window[0].id
    ensures forall p :: n <= p < |u.live| ==> u.live[p].id != u.window[0].id
  {
    ReachedInv(u);
    if n < |u.live| {
      assert u.live[n].id >= u.window[0].id;
    }
  }
}
