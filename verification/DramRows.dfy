/**
 Open rows (src/dram_controller.cc): over every run a working bank has the row of its request open, a
 transfer leaves that row open, and a request is scheduled as a row hit exactly when its row was open.
 */
module DramRows {
  import opened DramAddress
  import opened DramChannel
  import opened DramSafety
  import opened DramRuns

  ghost predicate RowAt(g: Config, c: Channel, b: nat)
    requires b < |c.banks|
  {
    var q := QueueOf(c, c.writeMode).entry;
    0 <= c.banks[b].requestIndex < |q| && c.banks[b].openRow == RowOf(g.geometry, q[c.banks[b].requestIndex].address)
  }

  ghost predicate RowsOk(g: Config, c: Channel) { forall b :: 0 <= b < |c.banks| && c.banks[b].working ==> RowAt(g, c, b) }

  lemma SwitchRows(g: Config, id: nat, c: Channel, now: nat)
    requires Inv(g, id, c) && RowsOk(g, c) && now < MAX_CYCLE
    ensures RowsOk(g, SwitchMode(g, c, now))
  {
    if Switches(g, c) {
      var d := c.(writeMode := !c.writeMode);
      SameButMode(g, id, c, d, c.writeMode);
      ResetFreesBanks(g, d, c.writeMode, now);
    }
  }

  lemma TakesRows(g: Config, id: nat, c: Channel, t: Channel, k: nat, hit: bool, now: nat)
    requires Inv(g, id, c) && RowsOk(g, c) && Takes(g, c, t, c.writeMode, k, hit, now)
    ensures RowsOk(g, t)
  {
    forall b | 0 <= b < |t.banks| && t.banks[b].working ensures RowAt(g, t, b) {
      if b != FlatBank(g.geometry, QueueOf(c, c.writeMode).entry[k].address) {
        assert RowAt(g, c, b) && BankOk(g, c, c.writeMode, b);
      }
    }
  }

  lemma ScheduleRows(g: Config, id: nat, c: Channel, now: nat)
    requires Inv(g, id, c) && RowsOk(g, c)
    ensures RowsOk(g, ScheduleIfDue(g, c, now))
  {
    var m, q := c.writeMode, QueueOf(c, c.writeMode);
    var (k, hit) := Choice(g, c.banks, q.entry);
    if q.scheduleIndex < |q.entry| && q.scheduleCycle <= now && k < |q.entry| {
      ChoiceMeaning(g, id, c, m);
      ScheduleEffect(g, c, m, k, hit, now);
      TakesRows(g, id, c, Schedule(g, c, m, now), k, hit, now);
    }
  }

  lemma TransfersRows(g: Config, id: nat, c: Channel, t: Channel, k: nat, now: nat)
    requires Inv(g, id, c) && RowsOk(g, c) && Transfers(g, c, t, c.writeMode, k, now)
    ensures RowsOk(g, t)
  {
    forall b | 0 <= b < |t.banks| && t.banks[b].working ensures RowAt(g, t, b) {
      assert RowAt(g, c, b) && BankOk(g, c, c.writeMode, b);
    }
  }

  lemma ProcessRows(g: Config, id: nat, c: Channel, now: nat)
    requires Inv(g, id, c) && RowsOk(g, c) && now < MAX_CYCLE
    ensures RowsOk(g, ProcessIfDue(g, c, now))
  {
    var q := QueueOf(c, c.writeMode);
    if q.processIndex < |q.entry| && q.processCycle <= now {
      var t := Process(g, c, c.writeMode, now);
      CachedRequestOwned(g, id, c, now);
      ProcessEffect(g, c, c.writeMode, now);
      var b := FlatBank(g.geometry, q.entry[q.processIndex].address);
      if c.banks[b].cycleAvailable <= now && c.busFree <= now {
        TransfersRows(g, id, c, t, q.processIndex, now);
      } else {
        forall x | 0 <= x < |t.banks| && t.banks[x].working ensures RowAt(g, t, x) { assert RowAt(g, c, x); }
      }
    }
  }

  lemma OperateRows(g: Config, id: nat, c: Channel, now: nat)
    requires Inv(g, id, c) && RowsOk(g, c) && now + Latency(g, false) < MAX_CYCLE
    ensures RowsOk(g, Operate(g, c, now))
  {
    var a := SwitchKeeps(g, id, c, now);
    SwitchRows(g, id, c, now);
    ScheduleRows(g, id, a, now);
    var b := ScheduleIfDue(g, a, now);
    if QueueOf(a, a.writeMode).scheduleIndex < |QueueOf(a, a.writeMode).entry| && QueueOf(a, a.writeMode).scheduleCycle <= now {
      b := ScheduleKeeps(g, id, a, now);
    }
    ProcessRows(g, id, b, now);
  }

  lemma InsertRows(g: Config, id: nat, c: Channel, w: bool, p: Packet)
    requires Inv(g, id, c) && RowsOk(g, c)
    ensures RowsOk(g, Insert(c, w, p))
  {
    var t := Insert(c, w, p);
    forall b | 0 <= b < |t.banks| && t.banks[b].working ensures RowAt(g, t, b) {
      assert RowAt(g, c, b) && BankOk(g, c, c.writeMode, b);
      assert PacketOk(g, id, QueueOf(c, c.writeMode).entry[c.banks[b].requestIndex]);
    }
  }

  ghost predicate AllRowsOk(g: Config, s: seq<Channel>) { forall id :: 0 <= id < |s| ==> RowsOk(g, s[id]) }

  lemma EventRows(g: Config, s: seq<Channel>, e: Event)
    requires AllShaped(g, s) && ControllerOk(g, s) && Enabled(g, e) && AllRowsOk(g, s)
    ensures AllRowsOk(g, Apply(g, s, e))
  {
    forall id | 0 <= id < |s| ensures RowsOk(g, Apply(g, s, e)[id]) {
      assert Inv(g, id, s[id]) && RowsOk(g, s[id]);
      match e {
        case Read(p) => InsertRows(g, id, s[id], false, p);
        case Write(p) => InsertRows(g, id, s[id], true, p);
        case Tick(now) => OperateRows(g, id, s[id], now);
      }
    }
  }

  /** Over every run of all channels a working bank has the row of the request it works for open. */
  lemma {:induction false} WorkingRowOpen(g: Config, rqSize: nat, wqSize: nat, run: seq<seq<Channel>>, k: nat)
    requires Run(g, rqSize, wqSize, run) && k < |run|
    ensures AllRowsOk(g, run[k])
  {
    if k > 0 {
      WorkingRowOpen(g, rqSize, wqSize, run, k - 1);
      RunInv(g, rqSize, wqSize, run, k - 1);
      assert StepAt(g, run, k);
      var e :| Enabled(g, e) && run[k] == Apply(g, run[k - 1], e);
      EventRows(g, run[k - 1], e);
    }
  }

  /** A request is scheduled as a row hit, with the short latency, exactly when its row was open. */
  lemma HitIff(g: Config, id: nat, c: Channel, w: bool, now: nat)
    requires Shaped(g, c) && QueueOk(g, id, QueueOf(c, w))
    ensures var q, (k, hit) := QueueOf(c, w).entry, Choice(g, c.banks, QueueOf(c, w).entry);
      k < |q| ==>
        var p, t := q[k], Schedule(g, c, w, now);
        var b := FlatBank(g.geometry, p.address);
        && (t.banks[b].rowHit <==> c.banks[b].openRow == RowOf(g.geometry, p.address))
        && t.banks[b].working && t.banks[b].requestIndex == k && t.banks[b].openRow == RowOf(g.geometry, p.address)
        && t.banks[b].cycleAvailable == now + (if t.banks[b].rowHit then g.tCAS else g.tRP + g.tRCD + g.tCAS)
        && t.banks[b].isWrite == w
  {
    ChoiceMeaning(g, id, c, w);
    var (k, hit) := Choice(g, c.banks, QueueOf(c, w).entry);
    if k < |QueueOf(c, w).entry| {
      ScheduleEffect(g, c, w, k, hit, now);
      if !hit { assert !RowHit(g, c.banks, QueueOf(c, w).entry[k]); }
      if hit { assert RowHitMask(g, c.banks, QueueOf(c, w).entry)[k]; }
    }
  }

  /** A transfer is of the row that its bank has open, and leaves it open for the next request. */
  lemma TransferLeavesRow(g: Config, id: nat, c: Channel, t: Channel, k: nat, now: nat)
    requires Inv(g, id, c) && RowsOk(g, c) && Transfers(g, c, t, c.writeMode, k, now)
    ensures var p := QueueOf(c, c.writeMode).entry[k];
      var b := FlatBank(g.geometry, p.address);
      !t.banks[b].working && t.banks[b].openRow == RowOf(g.geometry, p.address)
  {
    assert Owns(g, c, c.writeMode, k);
    assert RowAt(g, c, FlatBank(g.geometry, QueueOf(c, c.writeMode).entry[k].address));
  }

  // ---------------------------------------------------------------------------------------------
  // What a change of mode takes back

  /** The part of the latency before the row of a request is open. */
  function Opening(g: Config, hit: bool): nat { if hit then 0 else g.tRP + g.tRCD }

  /** The bank is free from now on; it keeps a row open only if that row is open by now. */
  ghost predicate TakenBack(g: Config, b: Bank, p: Packet, t: Bank, now: nat) {
    && !t.working && t.cycleAvailable == now
    && (t.openRow == NO_ROW || (t.openRow == RowOf(g.geometry, p.address) && b.since + Opening(g, b.rowHit) <= now))
    && (b.cycleAvailable == b.since + Latency(g, b.rowHit) && b.since + Opening(g, b.rowHit) <= now ==> t.openRow != NO_ROW)
  }

  /** A change of mode takes back exactly the requests in flight: they are due at once, nothing else in the
      queues changes, and a bank taken back keeps its row open exactly if the row has been opened, unless the
      bank waits for the bus. */
  lemma SwitchTakesBack(g: Config, id: nat, c: Channel, now: nat)
    requires Inv(g, id, c) && Switches(g, c)
    ensures var q, t := QueueOf(c, c.writeMode).entry, SwitchMode(g, c, now);
      var r := QueueOf(t, c.writeMode).entry;
      && t.writeMode != c.writeMode && QueueOf(t, !c.writeMode).entry == QueueOf(c, !c.writeMode).entry
      && |r| == |q| && (forall i :: 0 <= i < |q| ==>
           r[i] == if q[i].scheduled then Packet(q[i].address, false, now, q[i].tag) else q[i])
      && |t.banks| == |c.banks| && forall b :: 0 <= b < |c.banks| ==>
           if c.banks[b].working then
             0 <= c.banks[b].requestIndex < |q| && TakenBack(g, c.banks[b], q[c.banks[b].requestIndex], t.banks[b], now)
           else t.banks[b] == c.banks[b]
  {
    var q, t := QueueOf(c, c.writeMode).entry, SwitchMode(g, c, now);
    forall b | 0 <= b < |c.banks|
      ensures if c.banks[b].working then
          0 <= c.banks[b].requestIndex < |q| && TakenBack(g, c.banks[b], q[c.banks[b].requestIndex], t.banks[b], now)
        else t.banks[b] == c.banks[b]
    {
      assert BankOk(g, c, c.writeMode, b) && BankTimed(g, c.banks[b]);
    }
  }
}
