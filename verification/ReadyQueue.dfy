/** The rings RTE0 and RTE1 of the core (src/ooo_cpu.cc). */
module ReadyQueue {

  /** One of the rings RTE0 and RTE1; a slot holding the ring size is empty. */
  class ReadyRing {
    const size: nat
    const slots: array<nat>
    var head: nat
    var tail: nat
    ghost var contents: seq<nat>

    ghost predicate Valid()
      reads this, slots
    {
      && 0 < size == slots.Length && head < size && tail < size && |contents| <= size
      && tail == (if head + |contents| >= size then head + |contents| - size else head + |contents|)
      && (forall k :: 0 <= k < |contents| ==> contents[k] < size)
      && forall i :: 0 <= i < size ==>
        var d := if i >= head then i - head else i - head + size;
        slots[i] == if d < |contents| then contents[d] else size
    }

    constructor (n: nat)
      requires 0 < n
      ensures Valid() && fresh(slots) && size == n && contents == []
    {
      size, head, tail, contents := n, 0, 0, [];
      slots := new nat[n](_ => n);
    }

    /** The value the issue loop reads: the oldest element, or the ring size when empty. */
    method Front() returns (r: nat)
      requires Valid()
      ensures r < size <==> contents != []
      ensures contents != [] ==> r == contents[0]
    {
      r := slots[head];
    }

    method Push(x: nat)
      requires Valid() && |contents| < size && x < size
      modifies this, slots
      ensures Valid() && contents == old(contents) + [x]
    {
      assert slots[tail] == size;  // the sanity check of the source
      slots[tail] := x;
      contents := contents + [x];
      tail := tail + 1;
      if tail == size { tail := 0; }
    }

    method Pop()
      requires Valid() && contents != []
      modifies this, slots
      ensures Valid() && contents == old(contents)[1..]
    {
      slots[head] := size;
      contents := contents[1..];
      head := head + 1;
      if head == size { head := 0; }
    }
  }
}
