/** Runs of the whole memory controller: all channels, one clock. */
module DramRuns {
  import opened DramAddress
  import opened DramChannel
  import opened DramSafety

  // ---------------------------------------------------------------------------------------------
  // One channel

  lemma OperateKeeps(g: Config, id: nat, c: Channel, now: nat)
    requires Inv(g, id, c) && now + Latency(g, false) < MAX_CYCLE
    ensures Inv(g, id, Operate(g, c, now))
  {
    var a := SwitchKeeps(g, id, c, now);
    var b := a;
    if QueueOf(a, a.writeMode).scheduleIndex < |QueueOf(a, a.writeMode).entry| && QueueOf(a, a.writeMode).scheduleCycle <= now {
      b := ScheduleKeeps(g, id, a, now);
    }
    assert b == ScheduleIfDue(g, a, now);
    var d := b;
    if QueueOf(b, b.writeMode).processIndex < |QueueOf(b, b.writeMode).entry| && QueueOf(b, b.writeMode).processCycle <= now {
      d := ProcessKeeps(g, id, b, now);
    }
    assert d == ProcessIfDue(g, b, now);
  }

  lemma AddReadKeeps(g: Config, id: nat, c: Channel, p: Packet)
    requires Inv(g, id, c) && Fresh(g, id, p)
    ensures Inv(g, id, AddRead(c, p))
  {
    if !AddReadOutcome(c, p).Forwarded? && !AddReadOutcome(c, p).Merged? {
      var t := InsertKeeps(g, id, c, false, p);
    }
  }

  lemma AddWriteKeeps(g: Config, id: nat, c: Channel, p: Packet)
    requires Inv(g, id, c) && Fresh(g, id, p)
    ensures Inv(g, id, AddWrite(c, p))
  {
    if !AddWriteOutcome(c, p).Merged? {
      var t := InsertKeeps(g, id, c, true, p);
    }
  }

  /** A request for address 0 never reaches a queue: address 0 marks free slots. */
  lemma AddressZeroIsLost(c: Channel, p: Packet)
    requires p.address == 0
    ensures AddRead(c, p).rq.entry == c.rq.entry && AddRead(c, p).wq.entry == c.wq.entry
    ensures AddWrite(c, p).rq.entry == c.rq.entry && AddWrite(c, p).wq.entry == c.wq.entry
  {
  }

  // ---------------------------------------------------------------------------------------------
  // A request stays in its slot until it is served

  ghost predicate SameQueues(c: Channel, t: Channel) {
    SameRequests(c.rq.entry, t.rq.entry) && SameRequests(c.wq.entry, t.wq.entry) && t.log == c.log
  }

  lemma SwitchSame(g: Config, c: Channel, now: nat)
    requires Shaped(g, c)
    ensures SameQueues(c, SwitchMode(g, c, now))
  {
  }

  lemma ScheduleSame(g: Config, c: Channel, now: nat)
    requires Shaped(g, c)
    ensures SameQueues(c, ScheduleIfDue(g, c, now)) && ScheduleIfDue(g, c, now).writeMode == c.writeMode
  {
  }

  /** The request in slot i of queue w is still there, or this step transferred it. */
  ghost predicate Stays(c: Channel, t: Channel, w: bool, i: nat)
    requires i < |QueueOf(c, w).entry|
  {
    && i < |QueueOf(t, w).entry|
    && var p, r := QueueOf(c, w).entry[i], QueueOf(t, w).entry[i];
       || (r.address == p.address && r.tag == p.tag)
       || (r.address == 0 && |t.log| == |c.log| + 1 && t.log[..|c.log|] == c.log && t.log[|c.log|].tag == p.tag)
  }

  lemma ProcessStays(g: Config, c: Channel, now: nat, w: bool, i: nat)
    requires Shaped(g, c) && i < |QueueOf(c, w).entry|
    ensures Stays(c, ProcessIfDue(g, c, now), w, i)
  {
  }

  /** One cycle of the controller keeps every waiting request in its slot, through any mode
      switch, unless it is the one request that was transferred. */
  lemma OperateStays(g: Config, c: Channel, now: nat, w: bool, i: nat)
    requires Shaped(g, c) && i < |QueueOf(c, w).entry|
    ensures Stays(c, Operate(g, c, now), w, i)
  {
    var a := SwitchMode(g, c, now);
    SwitchSame(g, c, now);
    var b := ScheduleIfDue(g, a, now);
    ScheduleSame(g, a, now);
    assert SameQueues(c, b);
    ProcessStays(g, b, now, w, i);
  }

  /** Adding a request never touches a slot in use. */
  lemma AddStays(c: Channel, p: Packet, w: bool, i: nat)
    requires i < |QueueOf(c, w).entry| && QueueOf(c, w).entry[i].address != 0
    ensures Stays(c, AddRead(c, p), w, i) && Stays(c, AddWrite(c, p), w, i)
  {
  }

  // ---------------------------------------------------------------------------------------------
  // Runs of the controller: a sequence of channels sharing the clock

  datatype Event = Read(p: Packet) | Write(p: Packet) | Tick(now: nat)

  ghost predicate Enabled(g: Config, e: Event) {
    match e
    case Read(p) => !p.scheduled && p.eventCycle < MAX_CYCLE
    case Write(p) => !p.scheduled && p.eventCycle < MAX_CYCLE
    case Tick(now) => now + Latency(g, false) < MAX_CYCLE
  }

  ghost predicate AllShaped(g: Config, s: seq<Channel>) {
    |s| == g.geometry.channels && forall id :: 0 <= id < |s| ==> Shaped(g, s[id])
  }

  /** Requests go to the channel their address selects; operate() visits every channel. */
  function Apply(g: Config, s: seq<Channel>, e: Event): seq<Channel>
    requires AllShaped(g, s)
  {
    match e
    case Read(p) => var id := ChannelOf(g.geometry, p.address); s[id := AddRead(s[id], p)]
    case Write(p) => var id := ChannelOf(g.geometry, p.address); s[id := AddWrite(s[id], p)]
    case Tick(now) => seq(|s|, id requires 0 <= id < |s| => Operate(g, s[id], now))
  }

  function EmptyQueue(size: nat): Queue { Queue(seq(size, _ => FREE), 0, MAX_CYCLE, 0, MAX_CYCLE, 0) }

  function EmptyChannel(g: Config, rqSize: nat, wqSize: nat): Channel {
    Channel(EmptyQueue(rqSize), EmptyQueue(wqSize),
            seq(g.geometry.ranks * g.geometry.banks, _ => Bank(false, 0, NO_ROW, -1, false, false, false, 0)),
            false, 0, 0, 0, multiset{}, [])
  }

  ghost predicate ControllerOk(g: Config, s: seq<Channel>) {
    |s| == g.geometry.channels && forall id :: 0 <= id < |s| ==> Inv(g, id, s[id])
  }

  ghost predicate Next(g: Config, s: seq<Channel>, t: seq<Channel>) {
    AllShaped(g, s) && exists e :: Enabled(g, e) && t == Apply(g, s, e)
  }

  /** The k-th state of the sequence follows from the one before it by a step. */
  ghost predicate StepAt(g: Config, run: seq<seq<Channel>>, k: nat)
    requires 0 < k < |run|
  {
    Next(g, run[k - 1], run[k])
  }

  ghost predicate Run(g: Config, rqSize: nat, wqSize: nat, run: seq<seq<Channel>>) {
    && 0 < |run| && run[0] == seq(g.geometry.channels, _ => EmptyChannel(g, rqSize, wqSize))
    && forall k :: 0 < k < |run| ==> StepAt(g, run, k)
  }

  lemma EmptyQueueOk(g: Config, id: nat, size: nat)
    ensures QueueOk(g, id, EmptyQueue(size)) && ScheduleCacheOk(EmptyQueue(size)) && ProcessCacheOk(EmptyQueue(size))
    ensures forall x :: Pending(EmptyQueue(size).entry, x) == 0
    ensures NoneInFlight(EmptyQueue(size).entry)
  {
    var q := EmptyQueue(size);
    CountZero(Busy(q.entry));
    ScanMeaning(q.entry, Unscheduled(q.entry), size);
    ScanMeaning(q.entry, InFlight(q.entry), size);
    forall x ensures Pending(q.entry, x) == 0 { CountZero(Tagged(q.entry, x)); }
  }

  lemma EmptyOk(g: Config, id: nat, rqSize: nat, wqSize: nat)
    ensures Inv(g, id, EmptyChannel(g, rqSize, wqSize))
  {
    var c := EmptyChannel(g, rqSize, wqSize);
    EmptyQueueOk(g, id, rqSize);
    EmptyQueueOk(g, id, wqSize);
    IdleCoupled(g, c, false);
  }

  lemma StepKeeps(g: Config, s: seq<Channel>, e: Event)
    requires ControllerOk(g, s) && Enabled(g, e)
    ensures ControllerOk(g, Apply(g, s, e))
  {
    forall id | 0 <= id < |s| ensures Inv(g, id, Apply(g, s, e)[id]) {
      assert Inv(g, id, s[id]);
      match e {
        case Read(p) => if id == ChannelOf(g.geometry, p.address) { AddReadKeeps(g, id, s[id], p); }
        case Write(p) => if id == ChannelOf(g.geometry, p.address) { AddWriteKeeps(g, id, s[id], p); }
        case Tick(now) => OperateKeeps(g, id, s[id], now);
      }
    }
  }

  lemma {:induction false} RunInv(g: Config, rqSize: nat, wqSize: nat, run: seq<seq<Channel>>, k: nat)
    requires Run(g, rqSize, wqSize, run) && k < |run|
    ensures ControllerOk(g, run[k])
  {
    if k == 0 {
      forall id | 0 <= id < |run[0]| ensures Inv(g, id, run[0][id]) { EmptyOk(g, id, rqSize, wqSize); }
    } else {
      RunInv(g, rqSize, wqSize, run, k - 1);
      assert StepAt(g, run, k);
      var e :| Enabled(g, e) && run[k] == Apply(g, run[k - 1], e);
      StepKeeps(g, run[k - 1], e);
    }
  }

  /** In every reachable state a bank is working exactly when one slot of the current-mode queue is
      scheduled for it, that slot is the one it names, and the other queue has none scheduled. */
  lemma BankNamesItsRequest(g: Config, rqSize: nat, wqSize: nat, run: seq<seq<Channel>>, k: nat, id: nat, b: nat)
    requires Run(g, rqSize, wqSize, run) && k < |run| && id < |run[k]| && b < |run[k][id].banks|
    ensures var c := run[k][id];
      var q := QueueOf(c, c.writeMode).entry;
      && (c.banks[b].working <==> exists i :: 0 <= i < |q| && q[i].scheduled && FlatBank(g.geometry, q[i].address) == b)
      && (forall i :: 0 <= i < |q| && q[i].scheduled && FlatBank(g.geometry, q[i].address) == b ==> i == c.banks[b].requestIndex)
      && NoneInFlight(QueueOf(c, !c.writeMode).entry)
  {
    RunInv(g, rqSize, wqSize, run, k);
    var c := run[k][id];
    assert Inv(g, id, c) && BankOk(g, c, c.writeMode, b);
    var q := QueueOf(c, c.writeMode).entry;
    forall i | 0 <= i < |q| && q[i].scheduled && FlatBank(g.geometry, q[i].address) == b
      ensures c.banks[b].working && i == c.banks[b].requestIndex
    {
      assert Owns(g, c, c.writeMode, i);
    }
  }

  /** In every reachable state the counters, occupancies and cached indices agree with the queues. */
  lemma BookkeepingExact(g: Config, rqSize: nat, wqSize: nat, run: seq<seq<Channel>>, k: nat, id: nat)
    requires Run(g, rqSize, wqSize, run) && k < |run| && id < |run[k]|
    ensures var c := run[k][id];
      && c.scheduledReads == Count(InFlight(c.rq.entry)) && c.scheduledWrites == Count(InFlight(c.wq.entry))
      && c.rq.occupancy == Count(Busy(c.rq.entry)) && c.wq.occupancy == Count(Busy(c.wq.entry))
      && CachesOk(c)
      && (forall w, i, j :: 0 <= i < j < |QueueOf(c, w).entry| && QueueOf(c, w).entry[i].address != 0 ==>
            QueueOf(c, w).entry[i].address != QueueOf(c, w).entry[j].address)
  {
    RunInv(g, rqSize, wqSize, run, k);
    assert Inv(g, id, run[k][id]);
  }

  /** Every accepted request is waiting in a queue or has been served, and is counted once. */
  lemma RequestsConserved(g: Config, rqSize: nat, wqSize: nat, run: seq<seq<Channel>>, k: nat, id: nat, x: nat)
    requires Run(g, rqSize, wqSize, run) && k < |run| && id < |run[k]|
    ensures var c := run[k][id];
      c.accepted[x] == Pending(c.rq.entry, x) + Pending(c.wq.entry, x) + Served(c.log, x)
  {
    RunInv(g, rqSize, wqSize, run, k);
    assert Inv(g, id, run[k][id]);
  }

  lemma EventStays(g: Config, s: seq<Channel>, e: Event, id: nat, w: bool, i: nat)
    requires AllShaped(g, s) && id < |s| && i < |QueueOf(s[id], w).entry| && QueueOf(s[id], w).entry[i].address != 0
    ensures Stays(s[id], Apply(g, s, e)[id], w, i)
  {
    match e {
      case Read(p) => AddStays(s[id], p, w, i);
      case Write(p) => AddStays(s[id], p, w, i);
      case Tick(now) => OperateStays(g, s[id], now, w, i);
    }
  }

  /** In state k of the run, slot i of queue w of channel id holds the request with this address and tag. */
  ghost predicate SlotHolds(run: seq<seq<Channel>>, k: nat, id: nat, w: bool, i: nat, address: nat, tag: nat) {
    && k < |run| && id < |run[k]| && i < |QueueOf(run[k][id], w).entry|
    && QueueOf(run[k][id], w).entry[i].address == address && QueueOf(run[k][id], w).entry[i].tag == tag
  }

  ghost predicate HeldTo(run: seq<seq<Channel>>, k: nat, m: nat, id: nat, w: bool, i: nat, address: nat, tag: nat) {
    forall x :: k <= x < m ==> SlotHolds(run, x, id, w, i, address, tag)
  }

  /** The event that leads to state j transferred the request with this tag. */
  ghost predicate ServedAt(run: seq<seq<Channel>>, j: nat, id: nat, tag: nat) {
    && 0 < j < |run| && id < |run[j - 1]| && id < |run[j]|
    && |run[j][id].log| == |run[j - 1][id].log| + 1 && run[j][id].log[..|run[j - 1][id].log|] == run[j - 1][id].log
    && run[j][id].log[|run[j - 1][id].log|].tag == tag
  }

  /** A waiting request stays in its slot through any number of events and mode switches, up to the very
      event that logs its transfer. */
  lemma {:induction false} RequestStays(
    g: Config, rqSize: nat, wqSize: nat, run: seq<seq<Channel>>, k: nat, m: nat, id: nat, w: bool, i: nat, address: nat, tag: nat)
    requires Run(g, rqSize, wqSize, run) && k <= m < |run| && address != 0 && SlotHolds(run, k, id, w, i, address, tag)
    ensures HeldTo(run, k, m + 1, id, w, i, address, tag)
      || exists j :: k < j <= m && ServedAt(run, j, id, tag) && HeldTo(run, k, j, id, w, i, address, tag)
    decreases m
  {
    if k < m {
      RequestStays(g, rqSize, wqSize, run, k, m - 1, id, w, i, address, tag);
      if HeldTo(run, k, m, id, w, i, address, tag) {
        assert SlotHolds(run, m - 1, id, w, i, address, tag);
        HeldOrServed(g, rqSize, wqSize, run, m, id, w, i, address, tag);
        if SlotHolds(run, m, id, w, i, address, tag) { HeldOn(run, k, m, id, w, i, address, tag); }
      } else {
        var j :| k < j <= m - 1 && ServedAt(run, j, id, tag) && HeldTo(run, k, j, id, w, i, address, tag);
        assert k < j <= m;
      }
    } else {
      HeldOn(run, k, k, id, w, i, address, tag);
    }
  }

  lemma HeldOn(run: seq<seq<Channel>>, k: nat, m: nat, id: nat, w: bool, i: nat, address: nat, tag: nat)
    requires k <= m && HeldTo(run, k, m, id, w, i, address, tag) && SlotHolds(run, m, id, w, i, address, tag)
    ensures HeldTo(run, k, m + 1, id, w, i, address, tag)
  {
  }

  lemma HeldOrServed(
    g: Config, rqSize: nat, wqSize: nat, run: seq<seq<Channel>>, m: nat, id: nat, w: bool, i: nat, address: nat, tag: nat)
    requires Run(g, rqSize, wqSize, run) && 0 < m < |run| && address != 0 && SlotHolds(run, m - 1, id, w, i, address, tag)
    ensures SlotHolds(run, m, id, w, i, address, tag) || ServedAt(run, m, id, tag)
  {
    RunEvent(g, rqSize, wqSize, run, m, id, w, i);
  }

  lemma RunEvent(g: Config, rqSize: nat, wqSize: nat, run: seq<seq<Channel>>, m: nat, id: nat, w: bool, i: nat)
    requires Run(g, rqSize, wqSize, run) && 0 < m < |run| && id < |run[m - 1]|
    requires i < |QueueOf(run[m - 1][id], w).entry| && QueueOf(run[m - 1][id], w).entry[i].address != 0
    ensures |run[m]| == |run[m - 1]| && Stays(run[m - 1][id], run[m][id], w, i)
  {
    assert StepAt(g, run, m);
    var e :| Enabled(g, e) && run[m] == Apply(g, run[m - 1], e);
    EventStays(g, run[m - 1], e, id, w, i);
  }

  /** No transfer comes before its access latency has passed, nor within the bus time of an
      earlier transfer on the channel. */
  lemma TransfersRespectTiming(g: Config, rqSize: nat, wqSize: nat, run: seq<seq<Channel>>, k: nat, id: nat, n: nat)
    requires Run(g, rqSize, wqSize, run) && k < |run| && id < |run[k]| && n < |run[k][id].log|
    ensures var log := run[k][id].log;
      && log[n].cycle >= log[n].since + (if log[n].hit then g.tCAS else g.tRP + g.tRCD + g.tCAS)
      && forall j :: 0 <= j < n ==> log[n].cycle >= log[j].cycle + g.busTime
  {
    RunInv(g, rqSize, wqSize, run, k);
    assert Inv(g, id, run[k][id]);
  }

  /** c is what some run of the controller leaves in channel id. */
  ghost predicate Reached(g: Config, id: nat, c: Channel) { Folded(g, id, c, 3) }

  /** The same at any depth, which has no meaning of its own: a recursive definition is not unfolded at
      every use. */
  ghost predicate Folded(g: Config, id: nat, c: Channel, depth: nat) {
    if depth == 0 then exists rqSize, wqSize, run :: LeadsTo(g, rqSize, wqSize, run, id, c) else Folded(g, id, c, depth - 1)
  }

  ghost predicate LeadsTo(g: Config, rqSize: nat, wqSize: nat, run: seq<seq<Channel>>, id: nat, c: Channel) {
    Run(g, rqSize, wqSize, run) && id < |run[|run| - 1]| && run[|run| - 1][id] == c
  }

  lemma ReachedBy(g: Config, rqSize: nat, wqSize: nat, run: seq<seq<Channel>>, id: nat, c: Channel)
    requires LeadsTo(g, rqSize, wqSize, run, id, c)
    ensures Reached(g, id, c)
  {
    assert Folded(g, id, c, 0);
    assert Folded(g, id, c, 1);
    assert Folded(g, id, c, 2);
  }

  lemma RunTo(g: Config, id: nat, c: Channel) returns (rqSize: nat, wqSize: nat, run: seq<seq<Channel>>)
    requires Reached(g, id, c)
    ensures LeadsTo(g, rqSize, wqSize, run, id, c)
  {
    assert Folded(g, id, c, 2);
    assert Folded(g, id, c, 1);
    assert Folded(g, id, c, 0);
    rqSize, wqSize, run :| LeadsTo(g, rqSize, wqSize, run, id, c);
  }

  lemma ReachedInv(g: Config, id: nat, c: Channel)
    requires Reached(g, id, c)
    ensures Inv(g, id, c)
  {
    var rqSize, wqSize, run := RunTo(g, id, c);
    RunInv(g, rqSize, wqSize, run, |run| - 1);
  }

  lemma ReachedEmpty(g: Config, id: nat, rqSize: nat, wqSize: nat)
    requires id < g.geometry.channels
    ensures Reached(g, id, EmptyChannel(g, rqSize, wqSize))
  {
    var run := [seq(g.geometry.channels, _ => EmptyChannel(g, rqSize, wqSize))];
    ReachedBy(g, rqSize, wqSize, run, id, EmptyChannel(g, rqSize, wqSize));
  }

  /** What event e makes of the channel it concerns. */
  function After(g: Config, c: Channel, e: Event): Channel
    requires Shaped(g, c)
  {
    match e
    case Read(p) => AddRead(c, p)
    case Write(p) => AddWrite(c, p)
    case Tick(now) => Operate(g, c, now)
  }

  lemma RunShaped(g: Config, rqSize: nat, wqSize: nat, run: seq<seq<Channel>>)
    requires Run(g, rqSize, wqSize, run)
    ensures AllShaped(g, run[|run| - 1])
  {
    var s := run[|run| - 1];
    RunInv(g, rqSize, wqSize, run, |run| - 1);
    assert forall id :: 0 <= id < |s| ==> Inv(g, id, s[id]);
  }

  lemma RunExtends(g: Config, rqSize: nat, wqSize: nat, run: seq<seq<Channel>>, e: Event)
    requires Run(g, rqSize, wqSize, run) && Enabled(g, e) && AllShaped(g, run[|run| - 1])
    ensures Run(g, rqSize, wqSize, run + [Apply(g, run[|run| - 1], e)])
  {
    var more := run + [Apply(g, run[|run| - 1], e)];
    forall k | 0 < k < |more| ensures StepAt(g, more, k) {
      assert k < |run| ==> StepAt(g, run, k);
    }
  }

  /** One more event of the controller, seen from the channel it concerns. */
  lemma ReachedStep(g: Config, id: nat, c: Channel, e: Event)
    requires Reached(g, id, c) && Enabled(g, e) && (!e.Tick? ==> ChannelOf(g.geometry, e.p.address) == id)
    ensures Shaped(g, c) && Reached(g, id, After(g, c, e))
  {
    var rqSize, wqSize, run := RunTo(g, id, c);
    RunShaped(g, rqSize, wqSize, run);
    RunExtends(g, rqSize, wqSize, run, e);
    var more := run + [Apply(g, run[|run| - 1], e)];
    ReachedBy(g, rqSize, wqSize, more, id, After(g, c, e));
  }
}
