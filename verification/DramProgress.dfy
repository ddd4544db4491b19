/**
 A DRAM channel makes progress (src/dram_controller.cc): the watermark rule in terms of occupancies, and
 that a channel which is ticked at growing cycles serves every pending request.
 */
module DramProgress {
  import opened DramAddress
  import opened DramChannel
  import opened DramSafety
  import opened DramRows

  // ---------------------------------------------------------------------------------------------
  // The modes

  /** From read mode: the write queue is nearly full, or there are only writes. */
  predicate WantsWrites(g: Config, c: Channel) {
    c.wq.occupancy >= g.highMark || (c.rq.occupancy == 0 && c.wq.occupancy > 0)
  }

  /** From write mode: there are no writes, or there are reads and the write queue has been drained enough. */
  predicate WantsReads(g: Config, c: Channel) {
    c.wq.occupancy == 0 || (c.rq.occupancy != 0 && c.wq.occupancy < g.lowMark)
  }

  ghost predicate Settled(g: Config, c: Channel) { if c.writeMode then !WantsReads(g, c) else !WantsWrites(g, c) }

  /** The watermarks do not make the channel change its mode to and fro. */
  predicate MarksOk(g: Config) { 0 < g.highMark && g.lowMark <= g.highMark }

  ghost predicate SameLoad(c: Channel, t: Channel) {
    && t.rq.occupancy == c.rq.occupancy && t.wq.occupancy == c.wq.occupancy && t.log == c.log
    && |t.rq.entry| == |c.rq.entry| && |t.wq.entry| == |c.wq.entry|
  }

  lemma SwitchRule(g: Config, c: Channel, now: nat)
    requires Shaped(g, c)
    ensures var a := SwitchMode(g, c, now);
      && a.writeMode == (if c.writeMode then !WantsReads(g, c) else WantsWrites(g, c)) && SameLoad(c, a)
      && (Settled(g, c) ==> a == c) && (MarksOk(g) ==> Settled(g, a))
  {
  }

  /** Scheduling and processing do not change the mode. */
  lemma StagesKeepMode(g: Config, c: Channel, now: nat)
    requires Shaped(g, c)
    ensures ScheduleIfDue(g, c, now).writeMode == c.writeMode == ProcessIfDue(g, c, now).writeMode
    ensures SameLoad(c, ScheduleIfDue(g, c, now))
  {
  }

  /** The mode after a cycle, by occupancies and watermarks. */
  lemma ModeRule(g: Config, c: Channel, now: nat)
    requires Shaped(g, c)
    ensures !c.writeMode ==>
      (Operate(g, c, now).writeMode <==> c.wq.occupancy >= g.highMark || (c.rq.occupancy == 0 && c.wq.occupancy > 0))
    ensures c.writeMode ==>
      (!Operate(g, c, now).writeMode <==> c.wq.occupancy == 0 || (c.rq.occupancy != 0 && c.wq.occupancy < g.lowMark))
  {
    SwitchRule(g, c, now);
    StagesKeepMode(g, SwitchMode(g, c, now), now);
    StagesKeepMode(g, ScheduleIfDue(g, SwitchMode(g, c, now), now), now);
  }

  // ---------------------------------------------------------------------------------------------
  // Times

  /** Requests that wait are due by y, and those in flight by y and a latency. */
  ghost predicate Due(g: Config, q: seq<Packet>, y: nat) {
    forall i :: 0 <= i < |q| && q[i].address != 0 ==> q[i].eventCycle <= if q[i].scheduled then y + Latency(g, false) else y
  }

  /** The bank of a request in flight is available by y, or when the request is due, or when the bus is free. */
  ghost predicate BankBy(g: Config, c: Channel, i: nat, y: nat)
    requires Shaped(g, c) && i < |QueueOf(c, c.writeMode).entry|
  {
    var p := QueueOf(c, c.writeMode).entry[i];
    var at := c.banks[FlatBank(g.geometry, p.address)].cycleAvailable;
    at <= y || at <= p.eventCycle || at <= c.busFree
  }

  ghost predicate BanksBy(g: Config, c: Channel, y: nat)
    requires Shaped(g, c)
  {
    forall i :: 0 <= i < |QueueOf(c, c.writeMode).entry| && QueueOf(c, c.writeMode).entry[i].scheduled ==> BankBy(g, c, i, y)
  }

  ghost predicate Times(g: Config, c: Channel, y: nat)
    requires Shaped(g, c)
  {
    Due(g, c.rq.entry, y) && Due(g, c.wq.entry, y) && BanksBy(g, c, y)
  }

  /** The bus is free soon after y; a change of mode since the last transfer delays it once. */
  ghost predicate BusBy(g: Config, c: Channel, y: nat) {
    c.busFree <= y + g.busTime + if Settled(g, c) then g.turnAround else 0
  }

  /** What may pass before the next transfer. */
  function Slack(g: Config): nat { Latency(g, false) + g.turnAround + g.busTime }

  lemma SwitchTimes(g: Config, id: nat, c: Channel, now: nat, y: nat) returns (a: Channel)
    requires Inv(g, id, c) && Times(g, c, y) && now <= y && now < MAX_CYCLE
    ensures a == SwitchMode(g, c, now) && Inv(g, id, a) && Times(g, a, y)
  {
    a := SwitchKeeps(g, id, c, now);
    if Switches(g, c) {
      SwitchTakesBack(g, id, c, now);
      var r, q := QueueOf(a, c.writeMode).entry, QueueOf(c, c.writeMode).entry;
      assert Due(g, r, y) by {
        forall i | 0 <= i < |r| && r[i].address != 0 ensures r[i].eventCycle <= y { assert q[i].address != 0; }
      }
    }
  }

  lemma SwitchBus(g: Config, c: Channel, now: nat, y: nat)
    requires Shaped(g, c) && MarksOk(g) && BusBy(g, c, y)
    ensures BusBy(g, SwitchMode(g, c, now), y)
  {
    SwitchRule(g, c, now);
    SwitchDelays(g, c, now);
  }

  lemma SwitchDelays(g: Config, c: Channel, now: nat)
    requires Shaped(g, c)
    ensures SwitchMode(g, c, now).busFree == if Settled(g, c) then c.busFree else c.busFree + g.turnAround
  {
  }

  // ---------------------------------------------------------------------------------------------
  // Schedule

  /** A request of the current queue is in flight and due by x. */
  ghost predicate Flying(c: Channel, x: nat) { exists i :: InFlightBy(c, i, x) }

  ghost predicate InFlightBy(c: Channel, i: int, x: nat) {
    var q := QueueOf(c, c.writeMode).entry; 0 <= i < |q| && q[i].scheduled && q[i].eventCycle <= x
  }

  ghost predicate KeepsFlying(c: Channel, t: Channel) { forall x :: Flying(c, x) ==> Flying(t, x) }

  lemma SomeBusy(q: seq<Packet>)
    requires Count(Busy(q)) > 0
    ensures exists i :: 0 <= i < |q| && q[i].address != 0
  {
    CountZero(Busy(q));
    var i :| 0 <= i < |q| && Busy(q)[i];
    assert q[i].address != 0;
  }

  /** While a request waits, something is in flight or something can be scheduled. */
  lemma CanSchedule(g: Config, id: nat, c: Channel, now: nat)
    requires Inv(g, id, c) && QueueOf(c, c.writeMode).occupancy > 0 && Due(g, QueueOf(c, c.writeMode).entry, now) && now < MAX_CYCLE
    requires NoneInFlight(QueueOf(c, c.writeMode).entry)
    ensures var q := QueueOf(c, c.writeMode);
      q.scheduleIndex < |q.entry| && q.scheduleCycle <= now && Choice(g, c.banks, q.entry).0 < |q.entry|
  {
    var q := QueueOf(c, c.writeMode);
    SomeBusy(q.entry);
    var i :| 0 <= i < |q.entry| && q.entry[i].address != 0;
    var b := FlatBank(g.geometry, q.entry[i].address);
    assert BankOk(g, c, c.writeMode, b);
    assert Eligible(g, c.banks, q.entry[i]);
    ChoiceMeaning(g, id, c, c.writeMode);
    var want := Unscheduled(q.entry);
    assert want[i];
    forall k | 0 <= k < |q.entry| && want[k] ensures q.entry[k].eventCycle < MAX_CYCLE { assert PacketOk(g, id, q.entry[k]); }
    ScanOldest(q.entry, want);
  }

  lemma TakenTimes(g: Config, id: nat, c: Channel, t: Channel, k: nat, hit: bool, now: nat, y: nat)
    requires Inv(g, id, c) && Takes(g, c, t, c.writeMode, k, hit, now) && Times(g, c, y) && now <= y
    ensures Times(g, t, y)
  {
    var m := c.writeMode;
    forall i | 0 <= i < |QueueOf(t, m).entry| && QueueOf(t, m).entry[i].scheduled ensures BankBy(g, t, i, y) {
      if i != k {
        assert QueueOf(t, m).entry[i] == QueueOf(c, m).entry[i];
        assert BankBy(g, c, i, y) && Owns(g, c, m, i);
      }
    }
    assert Due(g, QueueOf(t, m).entry, y);
  }

  lemma TakenFlies(g: Config, c: Channel, t: Channel, k: nat, hit: bool, now: nat)
    requires Takes(g, c, t, c.writeMode, k, hit, now)
    ensures Flying(t, now + Latency(g, false)) && KeepsFlying(c, t)
  {
    assert InFlightBy(t, k, now + Latency(g, false));
    forall x | Flying(c, x) ensures Flying(t, x) {
      var i :| InFlightBy(c, i, x);
      assert InFlightBy(t, i, x);
    }
  }

  lemma StillFlying(g: Config, id: nat, c: Channel, y: nat)
    requires Inv(g, id, c) && Due(g, QueueOf(c, c.writeMode).entry, y) && !NoneInFlight(QueueOf(c, c.writeMode).entry)
    ensures Flying(c, y + Latency(g, false))
  {
    var q := QueueOf(c, c.writeMode).entry;
    var i :| 0 <= i < |q| && q[i].scheduled;
    assert PacketOk(g, id, q[i]);
    assert InFlightBy(c, i, y + Latency(g, false));
  }

  /** What the scheduling stage leaves, whether it takes a request or not. */
  ghost predicate Prepared(g: Config, c: Channel, t: Channel, y: nat)
    requires Shaped(g, t)
  {
    && t.writeMode == c.writeMode && t.busFree == c.busFree && SameLoad(c, t) && Times(g, t, y) && KeepsFlying(c, t)
  }

  lemma NothingTaken(g: Config, id: nat, c: Channel, y: nat)
    requires Inv(g, id, c) && Times(g, c, y)
    requires QueueOf(c, c.writeMode).occupancy > 0 ==> !NoneInFlight(QueueOf(c, c.writeMode).entry)
    ensures QueueOf(c, c.writeMode).occupancy > 0 ==> Flying(c, y + Latency(g, false))
  {
    if QueueOf(c, c.writeMode).occupancy > 0 { StillFlying(g, id, c, y); }
  }

  lemma SomeTaken(g: Config, c: Channel, t: Channel, k: nat, hit: bool, now: nat, y: nat)
    requires Takes(g, c, t, c.writeMode, k, hit, now) && Shaped(g, t) && Times(g, t, y) && now <= y
    ensures Prepared(g, c, t, y) && Flying(t, y + Latency(g, false))
  {
    TakenFlies(g, c, t, k, hit, now);
    FlyingLater(t, now + Latency(g, false), y + Latency(g, false));
  }

  lemma ScheduleTimes(g: Config, id: nat, c: Channel, now: nat, y: nat) returns (t: Channel)
    requires Inv(g, id, c) && now + Latency(g, false) < MAX_CYCLE && Times(g, c, y) && now <= y
    ensures t == ScheduleIfDue(g, c, now) && Inv(g, id, t) && Prepared(g, c, t, y)
    ensures now == y && QueueOf(c, c.writeMode).occupancy > 0 ==> Flying(t, y + Latency(g, false))
  {
    var m := c.writeMode;
    var q := QueueOf(c, m);
    if now == y && q.occupancy > 0 && NoneInFlight(q.entry) { CanSchedule(g, id, c, now); }
    t := c;
    var (k, hit) := Choice(g, c.banks, q.entry);
    if q.scheduleIndex < |q.entry| && q.scheduleCycle <= now && k < |q.entry| {
      t := ScheduleKeeps(g, id, c, now);
      ChoiceMeaning(g, id, c, m);
      ScheduleEffect(g, c, m, k, hit, now);
      TakenTimes(g, id, c, t, k, hit, now, y);
      SomeTaken(g, c, t, k, hit, now, y);
    } else {
      if now == y { NothingTaken(g, id, c, y); }
    }
  }

  // ---------------------------------------------------------------------------------------------
  // Process

  /** One transfer: the log grows by one, the current queue shrinks by one, and the bus is taken. */
  ghost predicate Served1(g: Config, c: Channel, t: Channel, now: nat) {
    && |t.log| == |c.log| + 1 && t.busFree == now + g.busTime
    && QueueOf(t, c.writeMode).occupancy == QueueOf(c, c.writeMode).occupancy - 1
    && QueueOf(t, !c.writeMode).occupancy == QueueOf(c, !c.writeMode).occupancy
  }

  /** Whatever processing does: it serves one request, or leaves all of them where they are. */
  ghost predicate Processed(g: Config, c: Channel, t: Channel, now: nat) {
    t.writeMode == c.writeMode && (Served1(g, c, t, now) || (SameLoad(c, t) && t.busFree == c.busFree && KeepsFlying(c, t)))
  }

  lemma DueFlight(g: Config, id: nat, c: Channel, now: nat, i: int)
    requires Inv(g, id, c) && now < MAX_CYCLE && InFlightBy(c, i, now)
    ensures var q := QueueOf(c, c.writeMode);
      q.processCycle <= now && q.processIndex < |q.entry| && q.entry[q.processIndex].eventCycle <= now
  {
    var q := QueueOf(c, c.writeMode);
    var want := InFlight(q.entry);
    assert want[i];
    forall k | 0 <= k < |q.entry| && want[k] ensures q.entry[k].eventCycle < MAX_CYCLE { assert PacketOk(g, id, q.entry[k]); }
    ScanOldest(q.entry, want);
  }

  /** With a request in flight that is due, and the bus free, processing transfers one. */
  lemma ProcessServes(g: Config, id: nat, c: Channel, now: nat)
    requires Inv(g, id, c) && now < MAX_CYCLE && Times(g, c, now) && Flying(c, now) && c.busFree <= now
    ensures Served1(g, c, ProcessIfDue(g, c, now), now)
  {
    var m := c.writeMode;
    var q := QueueOf(c, m);
    var i :| InFlightBy(c, i, now);
    DueFlight(g, id, c, now, i);
    CachedRequestOwned(g, id, c, now);
    assert BankBy(g, c, q.processIndex, now);
    ProcessEffect(g, c, m, now);
  }

  lemma DelayTimes(g: Config, c: Channel, t: Channel, b: nat, y: nat)
    requires Shaped(g, c) && Times(g, c, y) && b < |c.banks| && t == c.(banks := c.banks[b := c.banks[b].(cycleAvailable := c.busFree)])
    ensures Times(g, t, y) && SameLoad(c, t) && KeepsFlying(c, t)
  {
    forall i | 0 <= i < |QueueOf(t, t.writeMode).entry| && QueueOf(t, t.writeMode).entry[i].scheduled ensures BankBy(g, t, i, y) {
      assert BankBy(g, c, i, y);
    }
    forall x | Flying(c, x) ensures Flying(t, x) {
      var i :| InFlightBy(c, i, x);
      assert InFlightBy(t, i, x);
    }
  }

  lemma TransferTimes(g: Config, c: Channel, t: Channel, k: nat, now: nat, y: nat)
    requires Transfers(g, c, t, c.writeMode, k, now) && Times(g, c, y) && now <= y
    ensures Times(g, t, y) && Served1(g, c, t, now)
  {
    var m := c.writeMode;
    forall i | 0 <= i < |QueueOf(t, m).entry| && QueueOf(t, m).entry[i].scheduled ensures BankBy(g, t, i, y) {
      assert QueueOf(t, m).entry[i] == QueueOf(c, m).entry[i];
      assert BankBy(g, c, i, y);
    }
  }

  lemma ProcessTimes(g: Config, id: nat, c: Channel, now: nat, y: nat) returns (t: Channel)
    requires Inv(g, id, c) && now < MAX_CYCLE && Times(g, c, y) && now <= y
    ensures t == ProcessIfDue(g, c, now) && Inv(g, id, t) && Times(g, t, y) && Processed(g, c, t, now)
  {
    var m := c.writeMode;
    var q := QueueOf(c, m);
    t := c;
    if q.processIndex < |q.entry| && q.processCycle <= now {
      t := ProcessKeeps(g, id, c, now);
      CachedRequestOwned(g, id, c, now);
      ProcessEffect(g, c, m, now);
      var b := FlatBank(g.geometry, q.entry[q.processIndex].address);
      if c.banks[b].cycleAvailable <= now {
        if c.busFree > now { DelayTimes(g, c, t, b, y); } else { TransferTimes(g, c, t, q.processIndex, now, y); }
      }
    }
  }

  // ---------------------------------------------------------------------------------------------
  // Cycles

  function Load(c: Channel): int { c.rq.occupancy + c.wq.occupancy }

  /** The channel is consistent, and everything in it is due by y. */
  ghost predicate Good(g: Config, id: nat, c: Channel, y: nat) {
    // compared with true, the conjunction is proved whole instead of conjunct by conjunct
    (Inv(g, id, c) && Times(g, c, y) && BusBy(g, c, y)) == true
  }

  /** What one cycle at `now`, with everything due by y, does towards a transfer. */
  ghost predicate Advances(g: Config, c: Channel, t: Channel, now: nat, y: nat) {
    && |c.log| <= |t.log| && Load(t) + |t.log| == Load(c) + |c.log|
    && t.rq.occupancy <= c.rq.occupancy && t.wq.occupancy <= c.wq.occupancy
    && 0 <= t.rq.occupancy && 0 <= t.wq.occupancy
    && (|t.log| == |c.log| ==> SameLoad(c, t) && Settled(g, t))
    && (|t.log| == |c.log| && now == y && Load(c) > 0 ==> Flying(t, y + Latency(g, false)))
    && (|t.log| == |c.log| && Settled(g, c) ==> t.busFree == c.busFree && KeepsFlying(c, t))
    && (Settled(g, c) && now == y && Flying(c, now) && c.busFree <= now ==> |t.log| > |c.log|)
  }

  /** A settled channel with a request waiting has one in the queue of its mode. */
  lemma SettledWaits(g: Config, c: Channel)
    requires Settled(g, c) && Load(c) > 0 && c.rq.occupancy >= 0 && c.wq.occupancy >= 0
    ensures QueueOf(c, c.writeMode).occupancy > 0
  {
  }

  /** a, b and t are the channel after each stage of a cycle. */
  lemma TickStages(g: Config, id: nat, c: Channel, now: nat, y: nat) returns (a: Channel, b: Channel, t: Channel)
    requires MarksOk(g) && Inv(g, id, c) && Times(g, c, y) && now + Latency(g, false) < MAX_CYCLE && now <= y
    ensures Inv(g, id, a) && Inv(g, id, b) && Inv(g, id, t) && t == Operate(g, c, now)
    ensures a == SwitchMode(g, c, now) && Times(g, a, y) && Prepared(g, a, b, y)
    ensures t == ProcessIfDue(g, b, now) && Times(g, t, y) && Processed(g, b, t, now)
    ensures now == y && QueueOf(a, a.writeMode).occupancy > 0 ==> Flying(b, y + Latency(g, false))
  {
    a := SwitchTimes(g, id, c, now, y);
    b := ScheduleTimes(g, id, a, now, y);
    t := ProcessTimes(g, id, b, now, y);
  }

  lemma StagesServe(g: Config, id: nat, c: Channel, a: Channel, b: Channel, t: Channel, now: nat)
    requires Inv(g, id, b) && now < MAX_CYCLE && a == c && Prepared(g, a, b, now) && t == ProcessIfDue(g, b, now)
    requires Flying(c, now) && c.busFree <= now
    ensures |t.log| > |c.log|
  {
    ProcessServes(g, id, b, now);
  }

  lemma StagesAdvance(g: Config, id: nat, c: Channel, a: Channel, b: Channel, t: Channel, now: nat, y: nat)
    requires MarksOk(g) && Shaped(g, c) && Inv(g, id, b) && now < MAX_CYCLE && now <= y
    requires c.rq.occupancy >= 0 && c.wq.occupancy >= 0 && t.rq.occupancy >= 0 && t.wq.occupancy >= 0
    requires a == SwitchMode(g, c, now) && Prepared(g, a, b, y)
    requires t == ProcessIfDue(g, b, now) && Processed(g, b, t, now)
    requires now == y && QueueOf(a, a.writeMode).occupancy > 0 ==> Flying(b, y + Latency(g, false))
    ensures Advances(g, c, t, now, y)
  {
    SwitchRule(g, c, now);
    if now == y && Load(c) > 0 { SettledWaits(g, a); }
    if Settled(g, c) && now == y && Flying(c, now) && c.busFree <= now { StagesServe(g, id, c, a, b, t, now); }
  }

  lemma BusAfter(g: Config, c: Channel, a: Channel, b: Channel, t: Channel, now: nat, y: nat)
    requires Shaped(g, c) && MarksOk(g) && BusBy(g, c, y) && a == SwitchMode(g, c, now) && now <= y
    requires Shaped(g, b) && Prepared(g, a, b, y) && Processed(g, b, t, now)
    ensures BusBy(g, t, y)
  {
    SwitchBus(g, c, now, y);
  }

  lemma Occupied(g: Config, id: nat, c: Channel)
    requires Inv(g, id, c)
    ensures c.rq.occupancy >= 0 && c.wq.occupancy >= 0
  {
  }

  lemma TickAdvances(g: Config, id: nat, c: Channel, now: nat, y: nat)
    requires MarksOk(g) && Good(g, id, c, y) && now + Latency(g, false) < MAX_CYCLE && now <= y
    ensures Shaped(g, c) && Good(g, id, Operate(g, c, now), y) && Advances(g, c, Operate(g, c, now), now, y) == true
  {
    var a, b, t := TickStages(g, id, c, now, y);
    Occupied(g, id, c);
    Occupied(g, id, t);
    StagesAdvance(g, id, c, a, b, t, now, y);
    BusAfter(g, c, a, b, t, now, y);
  }

  lemma Later(g: Config, id: nat, c: Channel, y: nat, z: nat)
    requires Good(g, id, c, y) && y <= z
    ensures Good(g, id, c, z)
  {
    forall i | 0 <= i < |QueueOf(c, c.writeMode).entry| && QueueOf(c, c.writeMode).entry[i].scheduled ensures BankBy(g, c, i, z) {
      assert BankBy(g, c, i, y);
    }
  }

  // ---------------------------------------------------------------------------------------------
  // Many cycles

  /** cs are the states of a channel that is ticked at the growing times ts and receives no requests. */
  ghost predicate Cycles(g: Config, cs: seq<Channel>, ts: seq<nat>) {
    && |cs| == |ts| + 1 && (forall n :: 0 <= n < |ts| ==> CycleAt(g, cs, ts, n))
    && forall n, m :: 0 <= n <= m < |ts| ==> ts[n] <= ts[m]
  }

  ghost predicate CycleAt(g: Config, cs: seq<Channel>, ts: seq<nat>, n: nat)
    requires n < |ts| && |cs| == |ts| + 1
  {
    Shaped(g, cs[n]) && cs[n + 1] == Operate(g, cs[n], ts[n]) && ts[n] + Latency(g, false) < MAX_CYCLE
  }

  /** By when everything is due after the first n cycles, if it was by h before them. */
  function DueAfter(ts: seq<nat>, h: nat, n: nat): nat
    requires n <= |ts|
  {
    if n == 0 || ts[n - 1] < h then h else ts[n - 1]
  }

  lemma CycleKeeps(g: Config, id: nat, cs: seq<Channel>, ts: seq<nat>, h: nat, n: nat)
    requires MarksOk(g) && Cycles(g, cs, ts) && n < |ts| && Good(g, id, cs[n], DueAfter(ts, h, n))
    ensures Good(g, id, cs[n + 1], DueAfter(ts, h, n + 1)) && Advances(g, cs[n], cs[n + 1], ts[n], DueAfter(ts, h, n + 1)) == true
  {
    assert CycleAt(g, cs, ts, n);
    Later(g, id, cs[n], DueAfter(ts, h, n), DueAfter(ts, h, n + 1));
    TickAdvances(g, id, cs[n], ts[n], DueAfter(ts, h, n + 1));
  }

  lemma {:induction false} CyclesKeep(g: Config, id: nat, cs: seq<Channel>, ts: seq<nat>, h: nat, n: nat)
    requires MarksOk(g) && Cycles(g, cs, ts) && Good(g, id, cs[0], h) && n <= |ts|
    ensures Good(g, id, cs[n], DueAfter(ts, h, n)) == true
  {
    if n > 0 {
      CyclesKeep(g, id, cs, ts, h, n - 1);
      CycleKeeps(g, id, cs, ts, h, n - 1);
    }
  }

  /** What the progress argument needs of the cycles, without the cycles themselves. */
  ghost predicate Facts(g: Config, cs: seq<Channel>, ts: seq<nat>, h: nat) {
    && |cs| == |ts| + 1 && (forall n :: 0 <= n < |ts| ==> FactAt(g, cs, ts, h, n))
    && forall n, m :: 0 <= n <= m < |ts| ==> ts[n] <= ts[m]
  }

  ghost predicate FactAt(g: Config, cs: seq<Channel>, ts: seq<nat>, h: nat, n: nat)
    requires n < |ts| && |cs| == |ts| + 1
  {
    Advances(g, cs[n], cs[n + 1], ts[n], DueAfter(ts, h, n + 1)) && BusBy(g, cs[n + 1], DueAfter(ts, h, n + 1))
  }

  lemma CyclesFacts(g: Config, id: nat, cs: seq<Channel>, ts: seq<nat>, h: nat)
    requires MarksOk(g) && Cycles(g, cs, ts) && Good(g, id, cs[0], h)
    ensures Facts(g, cs, ts, h)
  {
    forall n | 0 <= n < |ts| ensures FactAt(g, cs, ts, h, n) {
      CyclesKeep(g, id, cs, ts, h, n);
      CycleKeeps(g, id, cs, ts, h, n);
    }
  }

  ghost predicate Underway(g: Config, c: Channel, x: nat) {
    Settled(g, c) && Flying(c, x + Latency(g, false)) && c.busFree <= x + g.busTime + g.turnAround
  }

  /** Until something is transferred, what the first of these cycles has set under way stays under way. */
  lemma {:induction false} StaysUnderway(g: Config, cs: seq<Channel>, ts: seq<nat>, h: nat, i: nat, n: nat)
    requires Facts(g, cs, ts, h) && i < n <= |ts| && h <= ts[i] && Load(cs[i]) > 0
    ensures |cs[n].log| >= |cs[i].log| && (|cs[n].log| == |cs[i].log| ==> Underway(g, cs[n], ts[i]))
  {
    assert FactAt(g, cs, ts, h, n - 1);
    if n > i + 1 { StaysUnderway(g, cs, ts, h, i, n - 1); }
  }

  /** Of any cycles that span the slack, one transfers a request if one is pending at the first. */
  lemma SlackServes(g: Config, cs: seq<Channel>, ts: seq<nat>, h: nat, i: nat, j: nat)
    requires Facts(g, cs, ts, h) && i < j < |ts| && h <= ts[i] && ts[i] + Slack(g) <= ts[j] && Load(cs[i]) > 0
    ensures |cs[j + 1].log| > |cs[i].log|
  {
    StaysUnderway(g, cs, ts, h, i, j);
    assert FactAt(g, cs, ts, h, j);
    if |cs[j].log| == |cs[i].log| { FlyingLater(cs[j], ts[i] + Latency(g, false), ts[j]); }
  }

  lemma FlyingLater(c: Channel, x: nat, z: nat)
    requires Flying(c, x) && x <= z
    ensures Flying(c, z)
  {
    var i :| InFlightBy(c, i, x);
    assert InFlightBy(c, i, z);
  }

  /** Any p successive cycles span the slack. */
  ghost predicate Paced(g: Config, ts: seq<nat>, p: nat) {
    2 <= p && forall n, m :: 0 <= n < m < |ts| && m - n == p - 1 ==> ts[n] + Slack(g) <= ts[m]
  }

  /** The simulator ticks in every cycle, which is such a pace. */
  lemma EveryCycle(g: Config, ts: seq<nat>)
    requires forall n, m :: 0 <= n < m < |ts| ==> ts[m] == ts[n] + (m - n)
    ensures Paced(g, ts, Slack(g) + 2)
  {
  }

  /** What some cycles have done: the load has gone into the log, and either none is left or there were at
      least k transfers. */
  ghost predicate Drained(c: Channel, t: Channel, k: nat) {
    && 0 <= t.rq.occupancy <= c.rq.occupancy && 0 <= t.wq.occupancy <= c.wq.occupancy
    && Load(t) + |t.log| == Load(c) + |c.log| && (Load(t) == 0 || |t.log| >= |c.log| + k)
  }

  lemma {:induction false} LoadFalls(g: Config, cs: seq<Channel>, ts: seq<nat>, h: nat, i: nat, n: nat)
    requires Facts(g, cs, ts, h) && i <= n <= |ts| && cs[i].rq.occupancy >= 0 && cs[i].wq.occupancy >= 0
    ensures Drained(cs[i], cs[n], 0)
  {
    if i < n {
      LoadFalls(g, cs, ts, h, i, n - 1);
      assert FactAt(g, cs, ts, h, n - 1);
    }
  }

  lemma DrainedMore(c: Channel, s: Channel, t: Channel, k: nat)
    requires Drained(c, s, k) && Drained(s, t, 0) && (Load(s) > 0 ==> |t.log| > |s.log|)
    ensures Drained(c, t, k + 1)
  {
  }

  lemma {:induction false} ServesSome(g: Config, cs: seq<Channel>, ts: seq<nat>, h: nat, p: nat, k: nat, n: nat)
    requires Facts(g, cs, ts, h) && Paced(g, ts, p) && n == p * k <= |ts| && (|ts| > 0 ==> h <= ts[0])
    requires cs[0].rq.occupancy >= 0 && cs[0].wq.occupancy >= 0
    ensures Drained(cs[0], cs[n], k)
  {
    if k > 0 {
      var i := n - p;
      assert i == p * (k - 1);
      ServesSome(g, cs, ts, h, p, k - 1, i);
      LoadFalls(g, cs, ts, h, i, n);
      if Load(cs[i]) > 0 { SlackServes(g, cs, ts, h, i, n - 1); }
      DrainedMore(cs[0], cs[i], cs[n], k - 1);
    }
  }

  /** In p cycles for each pending request, a channel serves all of them. */
  lemma ServesAll(g: Config, id: nat, cs: seq<Channel>, ts: seq<nat>, h: nat, p: nat, k: nat, n: nat)
    requires MarksOk(g) && Cycles(g, cs, ts) && Good(g, id, cs[0], h) && Paced(g, ts, p) && (|ts| > 0 ==> h <= ts[0])
    requires n == p * k <= |ts|
    ensures Drained(cs[0], cs[n], k)
    ensures Load(cs[0]) <= k ==>
      cs[n].rq.occupancy == 0 && cs[n].wq.occupancy == 0 && |cs[n].log| == |cs[0].log| + Load(cs[0])
  {
    CyclesFacts(g, id, cs, ts, h);
    Occupied(g, id, cs[0]);
    ServesSome(g, cs, ts, h, p, k, n);
  }

  /** With only writes pending, it is a write that p cycles serve. */
  lemma WritesServed(g: Config, id: nat, cs: seq<Channel>, ts: seq<nat>, h: nat, p: nat)
    requires MarksOk(g) && Cycles(g, cs, ts) && Good(g, id, cs[0], h) && Paced(g, ts, p) && (|ts| > 0 ==> h <= ts[0])
    requires p <= |ts| && cs[0].rq.occupancy == 0 && cs[0].wq.occupancy > 0
    ensures cs[p].wq.occupancy < cs[0].wq.occupancy && |cs[p].log| > |cs[0].log|
  {
    ServesAll(g, id, cs, ts, h, p, 1, p);
  }

  lemma {:induction false} PacketsEnd(q: seq<Packet>) returns (h: nat)
    ensures forall i :: 0 <= i < |q| ==> q[i].eventCycle <= h
  {
    h := 0;
    if q != [] {
      h := PacketsEnd(q[..|q| - 1]);
      if h < q[|q| - 1].eventCycle { h := q[|q| - 1].eventCycle; }
    }
  }

  lemma {:induction false} BanksEnd(banks: seq<Bank>) returns (h: nat)
    ensures forall b :: 0 <= b < |banks| ==> banks[b].cycleAvailable <= h
  {
    h := 0;
    if banks != [] {
      h := BanksEnd(banks[..|banks| - 1]);
      if h < banks[|banks| - 1].cycleAvailable { h := banks[|banks| - 1].cycleAvailable; }
    }
  }

  lemma AllDue(g: Config, id: nat, c: Channel, h: nat)
    requires Inv(g, id, c) && c.busFree <= h
    requires forall i :: 0 <= i < |c.rq.entry| ==> c.rq.entry[i].eventCycle <= h
    requires forall i :: 0 <= i < |c.wq.entry| ==> c.wq.entry[i].eventCycle <= h
    requires forall b :: 0 <= b < |c.banks| ==> c.banks[b].cycleAvailable <= h
    ensures Good(g, id, c, h)
  {
  }

  /** Cycles from c at pace p, none before h, of which the first n are p for each pending request. */
  ghost predicate From(g: Config, c: Channel, cs: seq<Channel>, ts: seq<nat>, h: nat, p: nat, n: nat) {
    && Cycles(g, cs, ts) && cs[0] == c && Paced(g, ts, p) && n == p * Load(c) && n <= |ts| && (|ts| > 0 ==> h <= ts[0])
  }

  /** t has served everything that was pending in c. */
  ghost predicate AllServed(c: Channel, t: Channel) {
    t.rq.occupancy == 0 && t.wq.occupancy == 0 && |t.log| == |c.log| + Load(c)
  }

  /** From every state of every run there is a time from which any pace serves everything pending. */
  lemma ServesEventually(g: Config, id: nat, c: Channel) returns (h: nat)
    requires MarksOk(g) && Inv(g, id, c)
    ensures forall cs, ts, p: nat, n: nat :: From(g, c, cs, ts, h, p, n) ==> AllServed(c, cs[n])
  {
    var r := PacketsEnd(c.rq.entry);
    var w := PacketsEnd(c.wq.entry);
    var b := BanksEnd(c.banks);
    h := r + w + b + c.busFree;
    AllDue(g, id, c, h);
    Occupied(g, id, c);
    forall cs, ts, p: nat, n: nat | From(g, c, cs, ts, h, p, n) ensures AllServed(c, cs[n]) {
      ServesAll(g, id, cs, ts, h, p, Load(c), n);
    }
  }

  // ---------------------------------------------------------------------------------------------
  // Without such watermarks

  /** By its occupancies the channel wants to leave either mode. */
  ghost predicate Flaps(g: Config, c: Channel) { WantsWrites(g, c) && WantsReads(g, c) }

  function Holding(r: nat, w: nat): Channel {
    Channel(Queue([], r, 0, 0, 0, 0), Queue([], w, 0, 0, 0, 0), [], false, 0, 0, 0, multiset{}, [])
  }

  /** The watermarks exclude such occupancies exactly when the high one is positive and not below the low one. */
  lemma MarksIff(g: Config)
    ensures MarksOk(g) <==> forall r: nat, w: nat :: !Flaps(g, Holding(r, w))
  {
    if !MarksOk(g) {
      assert Flaps(g, Holding(1, g.highMark));
    }
  }

  lemma SwitchEmpties(g: Config, id: nat, c: Channel, now: nat)
    requires Inv(g, id, c) && now < MAX_CYCLE && Flaps(g, c)
    ensures var a := SwitchMode(g, c, now); NoneInFlight(a.rq.entry) && NoneInFlight(a.wq.entry) && a.writeMode == !c.writeMode
  {
    var m := c.writeMode;
    var d := c.(writeMode := !m);
    SameButMode(g, id, c, d, m);
    ResetFreesBanks(g, d, m, now);
  }

  /** Nothing in flight is due by now. */
  ghost predicate NoneDue(q: Queue, now: nat) { forall i :: 0 <= i < |q.entry| && q.entry[i].scheduled ==> q.entry[i].eventCycle > now }

  lemma LaterProcess(g: Config, id: nat, q: Queue, now: nat)
    requires QueueOk(g, id, q) && ProcessCacheOk(q) && now < MAX_CYCLE && NoneDue(q, now)
    ensures q.processCycle > now
  {
    var want := InFlight(q.entry);
    forall k | 0 <= k < |q.entry| && want[k] ensures q.entry[k].eventCycle < MAX_CYCLE { assert PacketOk(g, id, q.entry[k]); }
    ScanOldest(q.entry, want);
  }

  lemma NotProcessed(g: Config, id: nat, c: Channel, now: nat)
    requires Inv(g, id, c) && now < MAX_CYCLE && NoneDue(QueueOf(c, c.writeMode), now)
    ensures ProcessIfDue(g, c, now) == c
  {
    LaterProcess(g, id, QueueOf(c, c.writeMode), now);
  }

  lemma TakenNotDue(g: Config, c: Channel, t: Channel, k: nat, hit: bool, now: nat)
    requires Takes(g, c, t, c.writeMode, k, hit, now) && NoneInFlight(QueueOf(c, c.writeMode).entry) && 0 < g.tCAS
    ensures NoneDue(QueueOf(t, t.writeMode), now)
  {
  }

  lemma ScheduleNotDue(g: Config, id: nat, c: Channel, now: nat)
    requires Inv(g, id, c) && NoneInFlight(QueueOf(c, c.writeMode).entry) && 0 < g.tCAS
    ensures NoneDue(QueueOf(ScheduleIfDue(g, c, now), c.writeMode), now)
  {
    var m, q := c.writeMode, QueueOf(c, c.writeMode);
    var (k, hit) := Choice(g, c.banks, q.entry);
    if q.scheduleIndex < |q.entry| && q.scheduleCycle <= now && k < |q.entry| {
      ChoiceMeaning(g, id, c, m);
      ScheduleEffect(g, c, m, k, hit, now);
      TakenNotDue(g, c, Schedule(g, c, m, now), k, hit, now);
    }
  }

  /** Such a channel takes everything back in every cycle and transfers nothing. */
  lemma FlapTransfersNothing(g: Config, id: nat, c: Channel, now: nat)
    requires Inv(g, id, c) && now + Latency(g, false) < MAX_CYCLE && Flaps(g, c) && 0 < g.tCAS
    ensures var t := Operate(g, c, now); Inv(g, id, t) && Flaps(g, t) && t.log == c.log && t.writeMode == !c.writeMode
  {
    var a := SwitchKeeps(g, id, c, now);
    SwitchRule(g, c, now);
    SwitchEmpties(g, id, c, now);
    ScheduleNotDue(g, id, a, now);
    StagesKeepMode(g, a, now);
    var b := ScheduleIfDue(g, a, now);
    if QueueOf(a, a.writeMode).scheduleIndex < |QueueOf(a, a.writeMode).entry| && QueueOf(a, a.writeMode).scheduleCycle <= now {
      b := ScheduleKeeps(g, id, a, now);
    }
    NotProcessed(g, id, b, now);
  }

  lemma FlapCycle(g: Config, id: nat, cs: seq<Channel>, ts: seq<nat>, n: nat)
    requires Cycles(g, cs, ts) && n < |ts| && Inv(g, id, cs[n]) && Flaps(g, cs[n]) && 0 < g.tCAS && ts[n] + Latency(g, false) < MAX_CYCLE
    ensures (Inv(g, id, cs[n + 1]) && Flaps(g, cs[n + 1]) && cs[n + 1].log == cs[n].log) == true
  {
    assert CycleAt(g, cs, ts, n);
    FlapTransfersNothing(g, id, cs[n], ts[n]);
  }

  /** So it never transfers anything, however long it is ticked: the condition on the watermarks is needed. */
  lemma {:induction false} FlapsForEver(g: Config, id: nat, cs: seq<Channel>, ts: seq<nat>, n: nat)
    requires Cycles(g, cs, ts) && Inv(g, id, cs[0]) && Flaps(g, cs[0]) && 0 < g.tCAS && n <= |ts|
    requires forall k :: 0 <= k < |ts| ==> ts[k] + Latency(g, false) < MAX_CYCLE
    ensures (Inv(g, id, cs[n]) && Flaps(g, cs[n]) && cs[n].log == cs[0].log) == true
  {
    if n > 0 {
      FlapsForEver(g, id, cs, ts, n - 1);
      FlapCycle(g, id, cs, ts, n - 1);
    }
  }
}
