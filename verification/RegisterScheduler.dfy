/**
 The register side of the out-of-order core (src/ooo_cpu.cc): the reorder buffer as a ring,
 read-after-write links from producers to consumers, the two ready-to-execute queues, and
 in-order retirement, as a state machine over values.

 Cycle counts are left to the environment: a stage may or may not act on an entry that is ready
 in every other respect, and instructions may be scheduled in any order.
 */
module RegisterScheduler {
  import opened Basics

  /** Source-register slots of one instruction (NUM_INSTR_SOURCES). */
  const SOURCES: nat := 4

  /** The values 0, INFLIGHT and COMPLETED of the stage fields. */
  datatype Stage = Idle | InFlight | Completed

  /** What the trace supplies for one instruction; register 0 means "none". */
  datatype RawInstr = Instr(isMemory: bool, src: seq<nat>, dst: seq<nat>, memOps: nat)
  type Instr = x: RawInstr | |x.src| == SOURCES witness RawInstr.Instr(false, [0, 0, 0, 0], [], 0)

  datatype RawEntry = Entry(
    occupied: bool, id: nat, isMemory: bool, src: seq<nat>, dst: seq<nat>, memOps: nat,
    scheduled: Stage, executed: Stage, regReady: bool, numDep: int, checked: seq<bool>,
    isProducer: bool, dependents: set<nat>, slotDeps: seq<set<nat>>)

  type Entry = e: RawEntry | |e.src| == |e.checked| == |e.slotDeps| == SOURCES witness EMPTY_ENTRY

  const NONE_CHECKED: seq<bool> := [false, false, false, false]

  const EMPTY_ENTRY: RawEntry :=
    RawEntry.Entry(false, 0, false, [0, 0, 0, 0], [], 0, Idle, Idle, false, 0,
                   NONE_CHECKED, false, {}, [{}, {}, {}, {}])

  /** `entered` and `retired` record the ids pushed to a ready queue and the ids retired so far. */
  datatype Core = Core(
    rob: seq<Entry>, head: nat, tail: nat, occupancy: nat, nextId: nat,
    rte0: seq<nat>, rte1: seq<nat>, entered: seq<nat>, retired: seq<nat>)

  // ---------------------------------------------------------------------------------------------
  // The ring


  /** Distance from the head of the ring, which is program order within the window. */
  function Age(s: Core, i: int): int { if i >= s.head then i - s.head else i - s.head + |s.rob| }

  predicate InWindow(s: Core, i: int) { 0 <= i < |s.rob| && Age(s, i) < s.occupancy }

  ghost predicate Shape(s: Core) {
    && 0 < |s.rob|
    && s.head < |s.rob|
    && s.occupancy <= |s.rob|
    && s.tail == Wrap(s.head + s.occupancy, |s.rob|)
    && s.nextId == |s.retired| + s.occupancy
  }

  // ---------------------------------------------------------------------------------------------
  // Writers, producers and links

  predicate Writes(e: Entry, r: nat) { r != 0 && r in e.dst }

  /** w is the youngest instruction in the window, older than i, that writes register r. */
  ghost predicate YoungestWriter(s: Core, w: int, i: int, r: nat) {
    && InWindow(s, w) && InWindow(s, i) && Age(s, w) < Age(s, i) && Writes(s.rob[w], r)
    && forall q :: InWindow(s, q) && Age(s, w) < Age(s, q) < Age(s, i) ==> !Writes(s.rob[q], r)
  }

  predicate PendingWriter(s: Core, p: int, r: nat) {
    InWindow(s, p) && s.rob[p].executed != Completed && Writes(s.rob[p], r)
  }

  /** p is the youngest incomplete writer older than i, at age lo or above, of i's source slot j. */
  ghost predicate Produces(s: Core, p: int, i: int, j: int, lo: int) {
    && 0 <= j < SOURCES && InWindow(s, i) && PendingWriter(s, p, s.rob[i].src[j])
    && lo <= Age(s, p) < Age(s, i)
    && forall q :: PendingWriter(s, q, s.rob[i].src[j]) && Age(s, q) < Age(s, i) ==> Age(s, q) <= Age(s, p)
  }

  function Pairs(n: nat): (r: set<(int, int)>)
    ensures forall x :: x in r <==> 0 <= x.0 < n && 0 <= x.1 < SOURCES
  {
    set p, j | 0 <= p < n && 0 <= j < SOURCES :: (p, j)
  }

  /** The dependence scan goes from young to old producers, slot by slot: with the producer at
      age `lo` handled for the slots below `upto`, slot j has been searched down to this age. */
  function Bound(lo: int, upto: int, j: int): int { if j < upto then lo else lo + 1 }

  ghost predicate Found(s: Core, p: int, i: int, j: int, lo: int, upto: int) {
    Produces(s, p, i, j, Bound(lo, upto, j))
  }

  /** p has been found to produce some slot of i. */
  ghost predicate Feeds(s: Core, p: int, i: int, lo: int, upto: int) {
    exists j :: Found(s, p, i, j, lo, upto)
  }

  /** Some producer has been found for slot j of i. */
  ghost predicate Fed(s: Core, i: int, j: int, lo: int, upto: int) {
    exists p :: Found(s, p, i, j, lo, upto)
  }

  ghost function NewLinks(s: Core, i: int, lo: int, upto: int): set<(int, int)> {
    set x | x in Pairs(|s.rob|) && Found(s, x.0, i, x.1, lo, upto)
  }

  /** The links a completed producer has still to release: (producer, source slot) pairs. */
  ghost function Links(s: Core, c: int): set<(int, int)> {
    set x | x in Pairs(|s.rob|) && Linked(s, x.0, x.1, c)
  }

  predicate Linked(s: Core, p: int, j: int, c: int) {
    && InWindow(s, p) && 0 <= j < SOURCES
    && s.rob[p].executed != Completed && c in s.rob[p].slotDeps[j]
  }

  // ---------------------------------------------------------------------------------------------
  // The steps

  function NewEntry(x: Instr, id: nat): Entry {
    RawEntry.Entry(true, id, x.isMemory, x.src, x.dst, x.memOps, Idle, Idle, false, 0,
                   NONE_CHECKED, false, {}, [{}, {}, {}, {}])
  }

  function Added(s: Core, x: Instr): Core
    requires s.tail < |s.rob|
  {
    s.(rob := s.rob[s.tail := NewEntry(x, s.nextId)],
       tail := Wrap(s.tail + 1, |s.rob|),
       occupancy := s.occupancy + 1,
       nextId := s.nextId + 1)
  }

  /** The entry of p once the slots of i found to be produced by p have been linked. */
  ghost function AsProducer(s: Core, p: int, i: int, lo: int, upto: int): Entry
    requires 0 <= p < |s.rob|
  {
    var e := s.rob[p];
    var produces := Feeds(s, p, i, lo, upto);
    e.(isProducer := e.isProducer || produces,
       dependents := if produces then e.dependents + {i} else e.dependents,
       slotDeps := seq(SOURCES, j requires 0 <= j < SOURCES =>
         if Found(s, p, i, j, lo, upto) then e.slotDeps[j] + {i} else e.slotDeps[j]))
  }

  ghost function AsConsumer(s: Core, i: int, lo: int, upto: int): Entry
    requires 0 <= i < |s.rob|
  {
    var e := s.rob[i];
    e.(regReady := NewLinks(s, i, lo, upto) == {},
       numDep := e.numDep + |NewLinks(s, i, lo, upto)|,
       checked := seq(SOURCES, j requires 0 <= j < SOURCES =>
         e.checked[j] || Fed(s, i, j, lo, upto)))
  }

  ghost function LinkedEntry(s: Core, p: int, i: int, lo: int, upto: int): Entry
    requires 0 <= p < |s.rob|
  {
    if p == i then AsConsumer(s, p, lo, upto) else AsProducer(s, p, i, lo, upto)
  }

  /** reg_dependency(i), once the scan has come down to age lo and slot upto. */
  ghost function LinkedRob(s: Core, i: int, lo: int, upto: int): seq<Entry> {
    seq<Entry>(|s.rob|, p requires 0 <= p < |s.rob| => LinkedEntry(s, p, i, lo, upto))
  }

  ghost function Scheduled(s: Core, i: int): Core
    requires 0 <= i < |s.rob|
  {
    var rob := LinkedRob(s, i, 0, SOURCES);
    var e := rob[i].(scheduled := if rob[i].isMemory then InFlight else Completed);
    var ready := !e.isMemory && e.regReady;
    s.(rob := rob[i := e],
       rte1 := if ready then s.rte1 + [i] else s.rte1,
       entered := if ready then s.entered + [e.id] else s.entered)
  }

  function Executed(s: Core, i: int): seq<Entry>
    requires 0 <= i < |s.rob|
  {
    s.rob[i := s.rob[i].(executed := InFlight)]
  }

  /** The slots of consumer c that the entry e at index p feeds. */
  function Slots(e: Entry, p: nat, c: int): set<(int, int)> {
    set x | x in Pairs(p + 1) && x.0 == p && c in e.slotDeps[x.1]
  }

  function Relieved(e: Entry, released: nat): Entry {
    if released == 0 then e
    else if e.numDep == released then
      e.(numDep := 0, regReady := true, scheduled := if e.isMemory then InFlight else Completed)
    else e.(numDep := e.numDep - released)
  }

  /** Completion of p turns c, a non-memory instruction, ready to execute. */
  predicate Wakes(s: Core, p: nat, c: int) {
    && p < |s.rob| && 0 <= c < |s.rob|
    && var k := |Slots(s.rob[p], p, c)|;
       k > 0 && s.rob[c].numDep == k && !s.rob[c].isMemory
  }

  /** The consumers below k that p wakes, in the order the dependence set is walked. */
  function Woken(s: Core, p: nat, k: nat): (r: seq<nat>)
    requires k <= |s.rob|
    ensures forall c :: c in r <==> 0 <= c < k && Wakes(s, p, c)
    ensures forall a, b :: 0 <= a < b < |r| ==> r[a] < r[b]
  {
    if k == 0 then []
    else
      var rest := Woken(s, p, k - 1);
      assert forall a :: 0 <= a < |rest| ==> rest[a] in rest;
      if Wakes(s, p, k - 1) then rest + [k - 1] else rest
  }

  function Ids(s: Core, at: seq<nat>): (r: seq<nat>)
    requires forall k :: 0 <= k < |at| ==> at[k] < |s.rob|
    ensures |r| == |at| && forall k :: 0 <= k < |at| ==> r[k] == s.rob[at[k]].id
  {
    seq<nat>(|at|, k requires 0 <= k < |at| => s.rob[at[k]].id)
  }

  function Complete(s: Core, p: nat): Core
    requires p < |s.rob|
  {
    var woken := Woken(s, p, |s.rob|);
    assert forall k :: 0 <= k < |woken| ==> woken[k] in woken;
    s.(rob := seq<Entry>(|s.rob|, c requires 0 <= c < |s.rob| =>
         if c == p then s.rob[p].(executed := Completed)
         else Relieved(s.rob[c], |Slots(s.rob[p], p, c)|)),
       rte0 := s.rte0 + woken,
       entered := s.entered + Ids(s, woken))
  }

  function Retire(s: Core): Core
    requires s.head < |s.rob| && s.occupancy > 0
  {
    s.(rob := s.rob[s.head := EMPTY_ENTRY],
       head := Wrap(s.head + 1, |s.rob|),
       occupancy := s.occupancy - 1,
       retired := s.retired + [s.rob[s.head].id])
  }

  datatype Step =
    | Add(x: Instr)
    | Schedule(i: int)
    | Execute0
    | Execute1
    | MemIssue(i: int)
    | MemDone(i: int)
    | Finish(i: int)
    | RetireHead

  ghost predicate Enabled(s: Core, a: Step) {
    match a
    case Add(_) => s.occupancy < |s.rob| && s.tail < |s.rob|
    case Schedule(i) => InWindow(s, i) && s.rob[i].scheduled == Idle
    case Execute0 => s.rte0 != [] && s.rte0[0] < |s.rob|
    case Execute1 => s.rte1 != [] && s.rte1[0] < |s.rob|
    case MemIssue(i) =>
      InWindow(s, i) && s.rob[i].isMemory && s.rob[i].regReady && s.rob[i].scheduled == InFlight
    case MemDone(i) => InWindow(s, i) && s.rob[i].isMemory && s.rob[i].memOps > 0
    case Finish(i) =>
      InWindow(s, i) && s.rob[i].executed == InFlight && (s.rob[i].isMemory ==> s.rob[i].memOps == 0)
    case RetireHead =>
      s.head < |s.rob| && s.rob[s.head].occupied && s.occupancy > 0 && s.rob[s.head].executed == Completed
  }

  ghost function Apply(s: Core, a: Step): Core
    requires Enabled(s, a)
  {
    match a
    case Add(x) => Added(s, x)
    case Schedule(i) => Scheduled(s, i)
    case Execute0 => s.(rob := Executed(s, s.rte0[0]), rte0 := s.rte0[1..])
    case Execute1 => s.(rob := Executed(s, s.rte1[0]), rte1 := s.rte1[1..])
    case MemIssue(i) =>
      s.(rob := s.rob[i := s.rob[i].(
        scheduled := Completed, executed := if s.rob[i].executed == Idle then InFlight else s.rob[i].executed)])
    case MemDone(i) => s.(rob := s.rob[i := s.rob[i].(memOps := s.rob[i].memOps - 1)])
    case Finish(i) => Complete(s, i)
    case RetireHead => Retire(s)
  }

  // ---------------------------------------------------------------------------------------------
  // The invariant

  /** Window entries are the occupied ones and carry consecutive ids in age order. */
  ghost predicate WindowOk(s: Core) {
    && (forall i :: 0 <= i < |s.rob| ==> (s.rob[i].occupied <==> InWindow(s, i)))
    && (forall i :: InWindow(s, i) ==> s.rob[i].id == |s.retired| + Age(s, i))
  }

  /** A link runs from an older producer to a younger, scheduled consumer. */
  ghost predicate LinkOk(s: Core, p: int, c: int) {
    && InWindow(s, p) && InWindow(s, c) && Age(s, p) < Age(s, c) && s.rob[c].scheduled != Idle
    && c in s.rob[p].dependents && s.rob[p].isProducer
  }

  ghost predicate LinksOk(s: Core) {
    forall p, j, c :: InWindow(s, p) && 0 <= j < SOURCES && c in s.rob[p].slotDeps[j] ==> LinkOk(s, p, c)
  }

  /** num_reg_dependent is the number of live links, and decides readiness. */
  ghost predicate CountOk(s: Core, c: int)
    requires 0 <= c < |s.rob|
  {
    && s.rob[c].numDep == |Links(s, c)|
    && (s.rob[c].scheduled == Idle ==> !s.rob[c].regReady && s.rob[c].checked == NONE_CHECKED)
    && (s.rob[c].scheduled != Idle ==> (s.rob[c].regReady <==> s.rob[c].numDep == 0))
    && (!s.rob[c].isMemory ==> s.rob[c].scheduled != InFlight)
    && (s.rob[c].executed != Idle ==> s.rob[c].regReady)
  }

  ghost predicate CountsOk(s: Core) { forall c :: InWindow(s, c) ==> CountOk(s, c) }

  /** A scheduled instruction is linked to the youngest writer of each source until it completes. */
  ghost predicate CoverOk(s: Core) {
    forall w, c, j ::
      (&& InWindow(s, c) && 0 <= j < SOURCES && s.rob[c].scheduled != Idle
       && YoungestWriter(s, w, c, s.rob[c].src[j]) && s.rob[w].executed != Completed)
      ==> c in s.rob[w].slotDeps[j]
  }

  predicate Waiting(e: Entry) { !e.isMemory && e.regReady && e.executed == Idle }

  /** The ready queues hold each waiting non-memory instruction once and nothing else. */
  ghost predicate QueuesOk(s: Core) {
    && Distinct(s.rte0 + s.rte1)
    && forall i :: i in s.rte0 + s.rte1 <==> InWindow(s, i) && Waiting(s.rob[i])
  }

  /** The push history has no repetition and matches what is in the window. */
  ghost predicate HistoryOk(s: Core) {
    && Distinct(s.entered)
    && (forall id :: id in s.entered ==> id < s.nextId)
    && (forall i :: InWindow(s, i) ==>
          (s.rob[i].id in s.entered <==> !s.rob[i].isMemory && s.rob[i].regReady))
    && (forall k :: 0 <= k < |s.retired| ==> s.retired[k] == k)
  }

  ghost predicate Inv(s: Core) {
    Shape(s) && WindowOk(s) && LinksOk(s) && CountsOk(s) && CoverOk(s) && QueuesOk(s) && HistoryOk(s)
  }

  ghost predicate Init(s: Core) {
    && 0 < |s.rob|
    && s == Core(seq(|s.rob|, _ => EMPTY_ENTRY), 0, 0, 0, 0, [], [], [], [])
  }
}
