/**
 One channel of the memory controller (src/dram_controller.cc) as a state machine over values:
 a read and a write queue that share the banks and the data bus, the write-mode switch that takes
 back requests in flight, and the cached indices of the next request to schedule and to process.

 All cores share one clock.
 */
module DramChannel {
  import opened DramAddress

  const MAX_CYCLE: nat := 0xFFFF_FFFF_FFFF_FFFF
  const NO_ROW: nat := 0xFFFF_FFFF

  /** Geometry, latencies and watermarks. */
  datatype Config = Config(
    geometry: Geometry, tCAS: nat, tRP: nat, tRCD: nat, busTime: nat, turnAround: nat, highMark: nat, lowMark: nat)

  function Latency(g: Config, hit: bool): nat { if hit then g.tCAS else g.tRP + g.tRCD + g.tCAS }

  /** `tag` identifies the request; address 0 marks a free slot. */
  datatype Packet = Packet(address: nat, scheduled: bool, eventCycle: nat, tag: nat)

  const FREE: Packet := Packet(0, false, MAX_CYCLE, 0)

  /** `since` records the cycle of the latest scheduling. */
  datatype Bank = Bank(
    working: bool, cycleAvailable: nat, openRow: nat, requestIndex: int, rowHit: bool,
    isWrite: bool, isRead: bool, since: nat)

  datatype Queue = Queue(
    entry: seq<Packet>, occupancy: int, scheduleCycle: nat, scheduleIndex: nat, processCycle: nat, processIndex: nat)

  datatype Transfer = Transfer(tag: nat, cycle: nat, since: nat, hit: bool)

  /** `accepted` and `log` record the requests taken in and the transfers done so far. */
  datatype Channel = Channel(
    rq: Queue, wq: Queue, banks: seq<Bank>, writeMode: bool, scheduledReads: int, scheduledWrites: int, busFree: nat,
    accepted: multiset<nat>, log: seq<Transfer>)

  ghost predicate Shaped(g: Config, c: Channel) { |c.banks| == g.geometry.ranks * g.geometry.banks }

  function QueueOf(c: Channel, w: bool): Queue { if w then c.wq else c.rq }

  function WithQueue(c: Channel, w: bool, q: Queue): Channel { if w then c.(wq := q) else c.(rq := q) }

  // ---------------------------------------------------------------------------------------------
  // Oldest-first scans

  /** The scan all four loops share: first index below n with the least event cycle. */
  function Scan(q: seq<Packet>, want: seq<bool>, n: nat): (r: (nat, nat))
    requires n <= |q| == |want|
  {
    if n == 0 then (MAX_CYCLE, |q|)
    else
      var best := Scan(q, want, n - 1);
      if want[n - 1] && q[n - 1].eventCycle < best.0 then (q[n - 1].eventCycle, n - 1) else best
  }

  function Unscheduled(q: seq<Packet>): (r: seq<bool>)
    ensures |r| == |q|
  {
    seq(|q|, i requires 0 <= i < |q| => q[i].address != 0 && !q[i].scheduled)
  }

  function Count(want: seq<bool>): (r: nat)
    ensures r <= |want|
  {
    if want == [] then 0 else Count(want[..|want| - 1]) + if want[|want| - 1] then 1 else 0
  }

  function InFlight(q: seq<Packet>): (r: seq<bool>)
    ensures |r| == |q|
  {
    seq(|q|, i requires 0 <= i < |q| => q[i].scheduled)
  }

  predicate Eligible(g: Config, banks: seq<Bank>, p: Packet)
    requires |banks| == g.geometry.ranks * g.geometry.banks
  {
    && p.address != 0 && !p.scheduled
    && !banks[FlatBank(g.geometry, p.address)].working
  }

  predicate RowHit(g: Config, banks: seq<Bank>, p: Packet)
    requires |banks| == g.geometry.ranks * g.geometry.banks
  {
    Eligible(g, banks, p) && banks[FlatBank(g.geometry, p.address)].openRow == RowOf(g.geometry, p.address)
  }

  function EligibleMask(g: Config, banks: seq<Bank>, q: seq<Packet>): (r: seq<bool>)
    requires |banks| == g.geometry.ranks * g.geometry.banks
    ensures |r| == |q|
  {
    seq(|q|, i requires 0 <= i < |q| => Eligible(g, banks, q[i]))
  }

  function RowHitMask(g: Config, banks: seq<Bank>, q: seq<Packet>): (r: seq<bool>)
    requires |banks| == g.geometry.ranks * g.geometry.banks
    ensures |r| == |q|
  {
    seq(|q|, i requires 0 <= i < |q| => RowHit(g, banks, q[i]))
  }

  /** The request schedule() picks, and whether it is a row-buffer hit; |q| when there is none. */
  function Choice(g: Config, banks: seq<Bank>, q: seq<Packet>): (nat, bool)
    requires |banks| == g.geometry.ranks * g.geometry.banks
  {
    var hit := Scan(q, RowHitMask(g, banks, q), |q|).1;
    if hit < |q| then (hit, true) else (Scan(q, EligibleMask(g, banks, q), |q|).1, false)
  }

  // ---------------------------------------------------------------------------------------------
  // Operations

  function WithScheduleScan(q: Queue): Queue {
    var best := Scan(q.entry, Unscheduled(q.entry), |q.entry|);
    q.(scheduleCycle := best.0, scheduleIndex := best.1)
  }

  function WithProcessScan(q: Queue): Queue {
    var best := Scan(q.entry, InFlight(q.entry), |q.entry|);
    q.(processCycle := best.0, processIndex := best.1)
  }

  datatype Outcome = Forwarded(slot: nat) | Merged(slot: nat) | Accepted(slot: nat) | Dropped

  /** The first slot holding this address, or |q|. */
  function Find(q: seq<Packet>, address: nat): (r: nat)
    ensures r <= |q| && (r < |q| ==> q[r].address == address)
    ensures forall i :: 0 <= i < r ==> q[i].address != address
  {
    if q == [] then 0
    else if q[0].address == address then 0
    else
      var r := 1 + Find(q[1..], address);
      assert forall i :: 1 <= i < r ==> q[i] == q[1..][i - 1];
      r
  }

  /** Put p in the first free slot, if any, and rescan. */
  function Placed(q: Queue, p: Packet): Queue {
    var slot := Find(q.entry, 0);
    WithScheduleScan(
      if slot < |q.entry| then q.(entry := q.entry[slot := p], occupancy := q.occupancy + 1) else q)
  }

  function Insert(c: Channel, w: bool, p: Packet): Channel {
    var q := QueueOf(c, w);
    WithQueue(c, w, Placed(q, p)).(
      accepted := if Find(q.entry, 0) < |q.entry| then c.accepted + multiset{p.tag} else c.accepted)
  }

  function AddReadOutcome(c: Channel, p: Packet): Outcome {
    var inWrites, inReads := Find(c.wq.entry, p.address), Find(c.rq.entry, p.address);
    if inWrites < |c.wq.entry| then Forwarded(inWrites)
    else if inReads < |c.rq.entry| then Merged(inReads)
    else if Find(c.rq.entry, 0) < |c.rq.entry| then Accepted(Find(c.rq.entry, 0))
    else Dropped
  }

  function AddRead(c: Channel, p: Packet): Channel {
    if AddReadOutcome(c, p).Forwarded? || AddReadOutcome(c, p).Merged? then c else Insert(c, false, p)
  }

  function AddWriteOutcome(c: Channel, p: Packet): Outcome {
    var inWrites := Find(c.wq.entry, p.address);
    if inWrites < |c.wq.entry| then Merged(inWrites)
    else if Find(c.wq.entry, 0) < |c.wq.entry| then Accepted(Find(c.wq.entry, 0))
    else Dropped
  }

  function AddWrite(c: Channel, p: Packet): Channel {
    if AddWriteOutcome(c, p).Merged? then c else Insert(c, true, p)
  }

  function Released(b: Bank): Bank {
    b.(working := false, requestIndex := -1, rowHit := false, isWrite := false, isRead := false)
  }

  function ResetPacket(p: Packet, now: nat): Packet {
    if p.scheduled then p.(scheduled := false, eventCycle := now) else p
  }

  /** A bank taken back from request p keeps p's row open if the row had been activated by now. */
  function ResetBank(g: Config, bank: Bank, p: Packet, now: nat): Bank {
    var active := bank.cycleAvailable >= g.tCAS && bank.cycleAvailable - g.tCAS <= now;
    Released(bank).(openRow := if active then RowOf(g.geometry, p.address) else NO_ROW, cycleAvailable := now)
  }

  /** reset_remain_requests, up to slot n: requests in flight go back to the queue. */
  function ResetBelow(g: Config, c: Channel, w: bool, n: nat, now: nat): (r: Channel)
    requires Shaped(g, c) && n <= |QueueOf(c, w).entry|
    ensures Shaped(g, r)
  {
    var q := QueueOf(c, w);
    var k := Count(InFlight(q.entry[..n]));
    WithQueue(c, w, q.(entry := seq(|q.entry|, i requires 0 <= i < |q.entry| =>
        if i < n then ResetPacket(q.entry[i], now) else q.entry[i]))).(
      banks := seq(|c.banks|, b requires 0 <= b < |c.banks| =>
        var bank := c.banks[b];
        if bank.working && 0 <= bank.requestIndex < n then ResetBank(g, bank, q.entry[bank.requestIndex], now) else bank),
      scheduledWrites := if w then c.scheduledWrites - k else c.scheduledWrites,
      scheduledReads := if w then c.scheduledReads else c.scheduledReads - k)
  }

  function Rescan(c: Channel): Channel {
    c.(rq := WithProcessScan(WithScheduleScan(c.rq)), wq := WithProcessScan(WithScheduleScan(c.wq)))
  }

  function Reset(g: Config, c: Channel, w: bool, now: nat): (r: Channel)
    requires Shaped(g, c)
    ensures Shaped(g, r)
  {
    Rescan(ResetBelow(g, c, w, |QueueOf(c, w).entry|, now))
  }

  /** The watermark rule: whether the channel leaves its present mode. */
  predicate Switches(g: Config, c: Channel) {
    if !c.writeMode then c.wq.occupancy >= g.highMark || (c.rq.occupancy == 0 && c.wq.occupancy > 0)
    else c.wq.occupancy == 0 || (c.rq.occupancy != 0 && c.wq.occupancy < g.lowMark)
  }

  function SwitchMode(g: Config, c: Channel, now: nat): (r: Channel)
    requires Shaped(g, c)
    ensures Shaped(g, r)
  {
    if !Switches(g, c) then c
    else
      var r := Reset(g, c.(writeMode := !c.writeMode), c.writeMode, now);
      r.(busFree := r.busFree + g.turnAround)
  }

  function Schedule(g: Config, c: Channel, w: bool, now: nat): (r: Channel)
    requires Shaped(g, c)
    ensures Shaped(g, r)
  {
    var q := QueueOf(c, w);
    var (k, hit) := Choice(g, c.banks, q.entry);
    if k < |q.entry| then Taken(g, c, w, k, hit, now) else c
  }

  /** Request k of queue w is given its bank. */
  function Taken(g: Config, c: Channel, w: bool, k: nat, hit: bool, now: nat): (r: Channel)
    requires Shaped(g, c) && k < |QueueOf(c, w).entry|
    ensures Shaped(g, r)
  {
    Rescanned(Reserved(g, c, w, k, hit, now), w)
  }

  function Reserved(g: Config, c: Channel, w: bool, k: nat, hit: bool, now: nat): (r: Channel)
    requires Shaped(g, c) && k < |QueueOf(c, w).entry|
    ensures Shaped(g, r)
  {
    var q := QueueOf(c, w);
    var p := q.entry[k];
    var b := FlatBank(g.geometry, p.address);
    var ready := now + Latency(g, hit);
    WithQueue(c, w, q.(entry := q.entry[k := p.(scheduled := true, eventCycle := ready)])).(
      banks := c.banks[b := Bank(true, ready, RowOf(g.geometry, p.address), k, hit, w, !w, now)],
      scheduledWrites := if w then c.scheduledWrites + 1 else c.scheduledWrites,
      scheduledReads := if w then c.scheduledReads else c.scheduledReads + 1)
  }

  /** Both cached indices of queue w are computed again. */
  function Rescanned(c: Channel, w: bool): Channel {
    WithQueue(c, w, WithProcessScan(WithScheduleScan(QueueOf(c, w))))
  }

  /** process(): the request at the cached index, once its bank and the bus are free. */
  function Process(g: Config, c: Channel, w: bool, now: nat): (r: Channel)
    requires Shaped(g, c)
    ensures Shaped(g, r)
  {
    var q := QueueOf(c, w);
    if q.processIndex >= |q.entry| then c
    else
      var k, p := q.processIndex, q.entry[q.processIndex];
      var b := FlatBank(g.geometry, p.address);
      var bank := c.banks[b];
      if bank.cycleAvailable > now then c
      else if c.busFree > now then c.(banks := c.banks[b := bank.(cycleAvailable := c.busFree)])
      else Transferred(g, c, w, k, now)
  }

  /** The data of request k of queue w crosses the bus. */
  function Transferred(g: Config, c: Channel, w: bool, k: nat, now: nat): (r: Channel)
    requires Shaped(g, c) && k < |QueueOf(c, w).entry|
    ensures Shaped(g, r)
  {
    var q := QueueOf(c, w);
    var b := FlatBank(g.geometry, q.entry[k].address);
    var bank := c.banks[b];
    WithQueue(c, w, WithProcessScan(q.(entry := q.entry[k := FREE], occupancy := q.occupancy - 1))).(
      banks := c.banks[b := Released(bank)],
      busFree := now + g.busTime,
      scheduledWrites := if w then c.scheduledWrites - 1 else c.scheduledWrites,
      scheduledReads := if w then c.scheduledReads else c.scheduledReads - 1,
      log := c.log + [Transfer(q.entry[k].tag, now, bank.since, bank.rowHit)])
  }

  /** The two guarded steps of operate() on the queue of the current mode. */
  function ScheduleIfDue(g: Config, c: Channel, now: nat): (r: Channel)
    requires Shaped(g, c)
    ensures Shaped(g, r)
  {
    var q := QueueOf(c, c.writeMode);
    if q.scheduleIndex < |q.entry| && q.scheduleCycle <= now then Schedule(g, c, c.writeMode, now) else c
  }

  function ProcessIfDue(g: Config, c: Channel, now: nat): (r: Channel)
    requires Shaped(g, c)
    ensures Shaped(g, r)
  {
    var q := QueueOf(c, c.writeMode);
    if q.processIndex < |q.entry| && q.processCycle <= now then Process(g, c, c.writeMode, now) else c
  }

  function Operate(g: Config, c: Channel, now: nat): (r: Channel)
    requires Shaped(g, c)
    ensures Shaped(g, r)
  {
    ProcessIfDue(g, ScheduleIfDue(g, SwitchMode(g, c, now), now), now)
  }
}
