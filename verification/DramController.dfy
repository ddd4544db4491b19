/**
 A DRAM channel as the controller runs it (src/dram_controller.cc, src/block.cc): arrays of packets
 and banks updated in place by loops, proved equal to the operations of `DramChannel`.
 */
module DramController {
  import opened DramAddress
  import opened DramChannel
  import opened DramSafety
  import opened DramRuns
  import opened DramProgress

  lemma FindIs(q: seq<Packet>, address: nat, r: nat)
    requires r <= |q| && (r < |q| ==> q[r].address == address) && forall i :: 0 <= i < r ==> q[i].address != address
    ensures Find(q, address) == r
  {
  }

  class PacketQueue {
    const entry: array<Packet>
    var occupancy: int
    var scheduleCycle: nat
    var scheduleIndex: nat
    var processCycle: nat
    var processIndex: nat

    ghost function View(): Queue
      reads this, entry
    {
      Queue(entry[..], occupancy, scheduleCycle, scheduleIndex, processCycle, processIndex)
    }

    constructor (size: nat)
      ensures View() == EmptyQueue(size) && fresh(entry)
    {
      entry := new Packet[size](_ => FREE);
      occupancy, scheduleCycle, scheduleIndex, processCycle, processIndex := 0, MAX_CYCLE, 0, MAX_CYCLE, 0;
      new;
      assert entry[..] == seq(size, _ => FREE);
    }

    method UpdateScheduleCycle()
      modifies this
      ensures View() == WithScheduleScan(old(View()))
    {
      var minCycle, minIndex := MAX_CYCLE, entry.Length;
      for i := 0 to entry.Length
        invariant (minCycle, minIndex) == Scan(entry[..], Unscheduled(entry[..]), i)
      {
        assert Unscheduled(entry[..])[i] == (entry[i].address != 0 && !entry[i].scheduled);
        if entry[i].address != 0 && !entry[i].scheduled && entry[i].eventCycle < minCycle {
          minCycle, minIndex := entry[i].eventCycle, i;
        }
      }
      scheduleCycle, scheduleIndex := minCycle, minIndex;
    }

    method UpdateProcessCycle()
      modifies this
      ensures View() == WithProcessScan(old(View()))
    {
      var minCycle, minIndex := MAX_CYCLE, entry.Length;
      for i := 0 to entry.Length
        invariant (minCycle, minIndex) == Scan(entry[..], InFlight(entry[..]), i)
      {
        assert InFlight(entry[..])[i] == entry[i].scheduled;
        if entry[i].scheduled && entry[i].eventCycle < minCycle {
          minCycle, minIndex := entry[i].eventCycle, i;
        }
      }
      processCycle, processIndex := minCycle, minIndex;
    }

    /** The first slot with this address, or the queue size. */
    method CheckDramQueue(address: nat) returns (index: nat)
      ensures index == Find(entry[..], address)
    {
      index := 0;
      while index < entry.Length
        invariant index <= entry.Length && forall i :: 0 <= i < index ==> entry[i].address != address
      {
        if entry[index].address == address {
          FindIs(entry[..], address, index);
          return;
        }
        index := index + 1;
      }
      FindIs(entry[..], address, index);
    }

    /** Copy the packet to the first empty slot, if there is one, and rescan. */
    method Place(p: Packet) returns (slot: nat)
      modifies this, entry
      ensures View() == Placed(old(View()), p) && slot == old(Find(entry[..], 0))
    {
      slot := CheckDramQueue(0);
      ghost var q := entry[..];
      if slot < entry.Length {
        entry[slot] := p;
        occupancy := occupancy + 1;
        assert entry[..] == q[slot := p];
      }
      UpdateScheduleCycle();
    }
  }

  /** One more slot of the reset loop. */
  lemma ResetNext(g: Config, c: Channel, w: bool, n: nat, now: nat)
    requires Coupled(g, c, w) && n < |QueueOf(c, w).entry|
    ensures var q, t, u := QueueOf(c, w), ResetBelow(g, c, w, n, now), ResetBelow(g, c, w, n + 1, now);
      var p := q.entry[n];
      var b := FlatBank(g.geometry, p.address);
      && QueueOf(t, w).entry[n] == p
      && if p.scheduled then
           && t.banks[b] == c.banks[b] && c.banks[b].isWrite == w && c.banks[b].isRead == !w
           && QueueOf(u, w).entry == QueueOf(t, w).entry[n := ResetPacket(p, now)]
           && u == WithQueue(t, w, QueueOf(u, w)).(
                banks := t.banks[b := ResetBank(g, c.banks[b], p, now)],
                scheduledWrites := if w then t.scheduledWrites - 1 else t.scheduledWrites,
                scheduledReads := if w then t.scheduledReads else t.scheduledReads - 1)
         else u == t
  {
    var q, t, u := QueueOf(c, w), ResetBelow(g, c, w, n, now), ResetBelow(g, c, w, n + 1, now);
    var p := q.entry[n];
    var b := FlatBank(g.geometry, p.address);
    assert InFlight(q.entry[..n + 1])[..n] == InFlight(q.entry[..n]);
    forall x | 0 <= x < |c.banks| && x != b ensures u.banks[x] == t.banks[x] {
      assert BankOk(g, c, w, x);
    }
    if p.scheduled {
      assert Owns(g, c, w, n) && BankOk(g, c, w, b);
      assert QueueOf(u, w).entry == QueueOf(t, w).entry[n := ResetPacket(p, now)];
      assert u.banks == t.banks[b := ResetBank(g, c.banks[b], p, now)];
    } else {
      assert BankOk(g, c, w, b);
      assert QueueOf(u, w).entry == QueueOf(t, w).entry;
      assert u.banks == t.banks;
    }
  }

  class ChannelController {
    const g: Config
    const id: nat
    const rq: PacketQueue
    const wq: PacketQueue
    const banks: array<Bank>
    var writeMode: bool
    var scheduledReads: int
    var scheduledWrites: int
    var busFree: nat
    ghost var accepted: multiset<nat>
    ghost var log: seq<Transfer>

    ghost function Snapshot(): Channel
      reads this, rq, rq.entry, wq, wq.entry, banks
    {
      Channel(rq.View(), wq.View(), banks[..], writeMode, scheduledReads, scheduledWrites, busFree, accepted, log)
    }

    ghost predicate Separate()
      reads this
    {
      rq != wq && rq.entry != wq.entry && banks.Length == g.geometry.ranks * g.geometry.banks
    }

    /** The channel is in a state that a run of the controller leaves it in. */
    ghost predicate Valid()
      reads this, rq, rq.entry, wq, wq.entry, banks
    {
      // compared with true, the conjunction is proved whole instead of conjunct by conjunct
      (Separate() && Reached(g, id, Snapshot())) == true
    }

    constructor (g: Config, id: nat, rqSize: nat, wqSize: nat)
      requires id < g.geometry.channels
      ensures Valid() && Snapshot() == EmptyChannel(g, rqSize, wqSize) && this.g == g && this.id == id
    {
      this.g, this.id := g, id;
      rq := new PacketQueue(rqSize);
      wq := new PacketQueue(wqSize);
      banks := new Bank[g.geometry.ranks * g.geometry.banks](_ => Bank(false, 0, NO_ROW, -1, false, false, false, 0));
      writeMode, scheduledReads, scheduledWrites, busFree, accepted, log := false, 0, 0, 0, multiset{}, [];
      new;
      assert Snapshot() == EmptyChannel(g, rqSize, wqSize);
      ReachedEmpty(g, id, rqSize, wqSize);
    }

    /** After warm-up: answer from the write queue, merge with a queued read, or queue the read. */
    method AddRq(p: Packet) returns (r: Outcome)
      requires Valid() && Fresh(g, id, p)
      modifies this`accepted, rq, rq.entry
      ensures Valid() && r == AddReadOutcome(old(Snapshot()), p) && Snapshot() == AddRead(old(Snapshot()), p)
      ensures r.Accepted? ==> r.slot < rq.entry.Length && old(rq.entry[r.slot].address) == 0 && rq.entry[r.slot] == p
      ensures r.Forwarded? ==> r.slot < wq.entry.Length && wq.entry[r.slot].address == p.address
      ensures r.Merged? ==> r.slot < rq.entry.Length && rq.entry[r.slot].address == p.address
    {
      ghost var s := Snapshot();
      ReachedStep(g, id, s, Read(p));
      var index := wq.CheckDramQueue(p.address);
      if index < wq.entry.Length { return Forwarded(index); }
      index := rq.CheckDramQueue(p.address);
      if index < rq.entry.Length { return Merged(index); }
      var slot := rq.Place(p);
      if slot < rq.entry.Length {
        accepted := accepted + multiset{p.tag};
        r := Accepted(slot);
      } else {
        r := Dropped;
      }
    }

    /** After warm-up: merge with a queued write, or queue the write. */
    method AddWq(p: Packet) returns (r: Outcome)
      requires Valid() && Fresh(g, id, p)
      modifies this`accepted, wq, wq.entry
      ensures Valid() && r == AddWriteOutcome(old(Snapshot()), p) && Snapshot() == AddWrite(old(Snapshot()), p)
      ensures r.Accepted? ==> r.slot < wq.entry.Length && old(wq.entry[r.slot].address) == 0 && wq.entry[r.slot] == p
      ensures r.Merged? ==> r.slot < wq.entry.Length && wq.entry[r.slot].address == p.address
    {
      ghost var s := Snapshot();
      ReachedStep(g, id, s, Write(p));
      var index := wq.CheckDramQueue(p.address);
      if index < wq.entry.Length { return Merged(index); }
      var slot := wq.Place(p);
      if slot < wq.entry.Length {
        accepted := accepted + multiset{p.tag};
        r := Accepted(slot);
      } else {
        r := Dropped;
      }
    }

    /** Take back slot i of queue w if it is in flight. */
    method ResetSlot(w: bool, i: nat, now: nat)
      requires Separate() && i < (if w then wq else rq).entry.Length
      requires var p := (if w then wq else rq).entry[i];
        p.scheduled ==> var bank := banks[FlatBank(g.geometry, p.address)]; bank.isWrite == w && bank.isRead == !w
      modifies this, rq.entry, wq.entry, banks
      ensures Separate()
      ensures var c, t, q := old(Snapshot()), Snapshot(), QueueOf(old(Snapshot()), w);
        var p := q.entry[i];
        var b := FlatBank(g.geometry, p.address);
        if !p.scheduled then t == c
        else t == WithQueue(c, w, q.(entry := q.entry[i := ResetPacket(p, now)])).(
          banks := c.banks[b := ResetBank(g, c.banks[b], p, now)],
          scheduledWrites := if w then c.scheduledWrites - 1 else c.scheduledWrites,
          scheduledReads := if w then c.scheduledReads else c.scheduledReads - 1)
    {
      ghost var c := Snapshot();
      var q := if w then wq else rq;
      if q.entry[i].scheduled {
        var p := q.entry[i];
        var b := FlatBank(g.geometry, p.address);
        var bank := banks[b];
        var active := bank.cycleAvailable >= g.tCAS && bank.cycleAvailable - g.tCAS <= now;
        bank := bank.(openRow := if active then RowOf(g.geometry, p.address) else NO_ROW);
        bank := bank.(requestIndex := -1, rowHit := false, working := false, cycleAvailable := now);
        if bank.isWrite {
          scheduledWrites := scheduledWrites - 1;
          bank := bank.(isWrite := false);
        } else if bank.isRead {
          scheduledReads := scheduledReads - 1;
          bank := bank.(isRead := false);
        }
        banks[b] := bank;
        q.entry[i] := p.(scheduled := false, eventCycle := now);
        assert banks[..] == c.banks[b := bank];
        assert q.entry[..] == QueueOf(c, w).entry[i := ResetPacket(p, now)];
      }
    }
  
    method RescanBoth()
      requires Separate()
      modifies rq, wq
      ensures Separate() && Snapshot() == Rescan(old(Snapshot()))
    {
      rq.UpdateScheduleCycle();
      wq.UpdateScheduleCycle();
      rq.UpdateProcessCycle();
      wq.UpdateProcessCycle();
    }

    /** Take back everything in flight in queue w, then rescan both queues. */
    method ResetRemainRequests(w: bool, now: nat)
      requires Separate() && Coupled(g, Snapshot(), w)
      modifies this, rq, rq.entry, wq, wq.entry, banks
      ensures Separate() && Snapshot() == Reset(g, old(Snapshot()), w, now)
      ensures (if w then scheduledWrites else scheduledReads) == 0  // the sanity check of the source
    {
      ghost var c := Snapshot();
      var q := if w then wq else rq;
      ResetStart(g, c, w, now);
      for n := 0 to q.entry.Length
        invariant Separate() && Snapshot() == ResetBelow(g, c, w, n, now)
      {
        ResetNext(g, c, w, n, now);
        assert q.entry[n] == QueueOf(Snapshot(), w).entry[n];
        ResetSlot(w, n, now);
      }
      RescanBoth();
      ResetFreesBanks(g, c, w, now);
    }

    /** The two scans of schedule(): oldest row hit, else oldest request, over idle banks. */
    method Select(w: bool) returns (k: nat, hit: bool)
      requires Separate()
      ensures (k, hit) == Choice(g, Snapshot().banks, QueueOf(Snapshot(), w).entry)
    {
      var q := if w then wq else rq;
      var oldest := MAX_CYCLE;
      k := q.entry.Length;
      for i := 0 to q.entry.Length
        invariant (oldest, k) == Scan(q.entry[..], RowHitMask(g, banks[..], q.entry[..]), i)
      {
        var p := q.entry[i];
        assert RowHitMask(g, banks[..], q.entry[..])[i] == RowHit(g, banks[..], p);
        if p.scheduled || p.address == 0 { continue; }
        var bank := banks[FlatBank(g.geometry, p.address)];
        if bank.working || bank.openRow != RowOf(g.geometry, p.address) { continue; }
        if p.eventCycle < oldest { oldest, k := p.eventCycle, i; }
      }
      hit := k < q.entry.Length;
      if !hit {
        oldest, k := MAX_CYCLE, q.entry.Length;
        for i := 0 to q.entry.Length
          invariant (oldest, k) == Scan(q.entry[..], EligibleMask(g, banks[..], q.entry[..]), i)
        {
          var p := q.entry[i];
          assert EligibleMask(g, banks[..], q.entry[..])[i] == Eligible(g, banks[..], p);
          if p.scheduled || p.address == 0 { continue; }
          if banks[FlatBank(g.geometry, p.address)].working { continue; }
          if p.eventCycle < oldest { oldest, k := p.eventCycle, i; }
        }
      }
    }
  
    /** Store the new packet of slot k in queue w, and count it in (+1) or out (-1). */
    method Store(w: bool, k: nat, p: Packet, delta: int)
      requires Separate() && k < (if w then wq else rq).entry.Length
      modifies this`scheduledReads, this`scheduledWrites, rq.entry, wq.entry
      ensures Separate()
      ensures var c := old(Snapshot());
        Snapshot() == WithQueue(c, w, QueueOf(c, w).(entry := QueueOf(c, w).entry[k := p])).(
          scheduledWrites := if w then c.scheduledWrites + delta else c.scheduledWrites,
          scheduledReads := if w then c.scheduledReads else c.scheduledReads + delta)
    {
      ghost var c := Snapshot();
      if w {
        scheduledWrites := scheduledWrites + delta;
        wq.entry[k] := p;
        assert wq.entry[..] == c.wq.entry[k := p];
      } else {
        scheduledReads := scheduledReads + delta;
        rq.entry[k] := p;
        assert rq.entry[..] == c.rq.entry[k := p];
      }
    }

    /** Mark request k and its bank as belonging to each other. */
    method Reserve(w: bool, k: nat, hit: bool, now: nat)
      requires Separate() && k < (if w then wq else rq).entry.Length
      modifies this, rq.entry, wq.entry, banks
      ensures Separate() && Snapshot() == Reserved(g, old(Snapshot()), w, k, hit, now)
    {
      ghost var c := Snapshot();
      var latency := if hit then g.tCAS else g.tRP + g.tRCD + g.tCAS;
      var p := (if w then wq else rq).entry[k];
      var b := FlatBank(g.geometry, p.address);
      banks[b] := Bank(true, now + latency, RowOf(g.geometry, p.address), k, hit, w, !w, now);
      assert banks[..] == c.banks[b := banks[b]];
      Store(w, k, p.(scheduled := true, eventCycle := now + latency), 1);
    }

    /** Compute both cached indices of queue w again. */
    method RescanQueue(w: bool)
      requires Separate()
      modifies rq, wq
      ensures Separate() && Snapshot() == Rescanned(old(Snapshot()), w)
    {
      if w {
        wq.UpdateScheduleCycle();
        wq.UpdateProcessCycle();
      } else {
        rq.UpdateScheduleCycle();
        rq.UpdateProcessCycle();
      }
    }

    /** Give request k its bank. */
    method Take(w: bool, k: nat, hit: bool, now: nat)
      requires Separate() && k < (if w then wq else rq).entry.Length
      modifies this, rq, rq.entry, wq, wq.entry, banks
      ensures Separate() && Snapshot() == Taken(g, old(Snapshot()), w, k, hit, now)
    {
      Reserve(w, k, hit, now);
      RescanQueue(w);
    }

    /** Pick a request and, if there is one, give it its bank. */
    method Schedule(w: bool, now: nat)
      requires Separate()
      modifies this, rq, rq.entry, wq, wq.entry, banks
      ensures Separate() && Snapshot() == DramChannel.Schedule(g, old(Snapshot()), w, now)
    {
      var k, hit := Select(w);
      if k < (if w then wq else rq).entry.Length {
        Take(w, k, hit, now);
      }
    }

    /** The transfer itself: bus, bank, counter and slot. */
    method Transfer(w: bool, k: nat, now: nat)
      requires Separate() && k < (if w then wq else rq).entry.Length
      modifies this, rq, rq.entry, wq, wq.entry, banks
      ensures Separate() && Snapshot() == Transferred(g, old(Snapshot()), w, k, now)
    {
      ghost var c := Snapshot();
      var q := if w then wq else rq;
      var p := q.entry[k];
      var b := FlatBank(g.geometry, p.address);
      busFree := now + g.busTime;
      log := log + [DramChannel.Transfer(p.tag, now, banks[b].since, banks[b].rowHit)];
      banks[b] := banks[b].(requestIndex := -1, rowHit := false, working := false, isWrite := false, isRead := false);
      assert banks[..] == c.banks[b := Released(c.banks[b])];
      Store(w, k, FREE, -1);
      q.occupancy := q.occupancy - 1;
      q.UpdateProcessCycle();
    }

    /** Transfer the cached request if its bank and the bus are ready, else wait for the bus. */
    method Process(w: bool, now: nat)
      requires Separate()
      requires var q := if w then wq else rq;
        q.processIndex < q.entry.Length
        && banks[FlatBank(g.geometry, q.entry[q.processIndex].address)].requestIndex == q.processIndex
      modifies this, rq, rq.entry, wq, wq.entry, banks
      ensures Separate() && Snapshot() == DramChannel.Process(g, old(Snapshot()), w, now)
    {
      ghost var c := Snapshot();
      var q := if w then wq else rq;
      var k := q.processIndex;
      var b := FlatBank(g.geometry, q.entry[k].address);
      assert banks[b].requestIndex == k;  // the sanity check of the source
      if banks[b].cycleAvailable <= now {
        if busFree <= now {
          Transfer(w, k, now);
        } else {
          banks[b] := banks[b].(cycleAvailable := busFree);
          assert banks[..] == c.banks[b := banks[b]];
        }
      }
    }

    method SwitchIfDue(now: nat)
      requires Separate() && Coupled(g, Snapshot(), writeMode)
      modifies this, rq, rq.entry, wq, wq.entry, banks
      ensures Separate() && Snapshot() == SwitchMode(g, old(Snapshot()), now)
    {
      ghost var c := Snapshot();
      var switch := if !writeMode
        then wq.occupancy >= g.highMark || (rq.occupancy == 0 && wq.occupancy > 0)
        else wq.occupancy == 0 || (rq.occupancy != 0 && wq.occupancy < g.lowMark);
      if switch {
        var w := writeMode;
        writeMode := !writeMode;
        CoupledAnyMode(g, c, Snapshot(), w);
        ResetRemainRequests(w, now);
        busFree := busFree + g.turnAround;
      }
    }

    method ScheduleStage(now: nat)
      requires Separate()
      modifies this, rq, rq.entry, wq, wq.entry, banks
      ensures Separate() && Snapshot() == ScheduleIfDue(g, old(Snapshot()), now)
    {
      var q := if writeMode then wq else rq;
      if q.scheduleIndex < q.entry.Length && q.scheduleCycle <= now {
        Schedule(writeMode, now);
      }
    }

    method ProcessStage(now: nat)
      requires Separate()
      requires var q := QueueOf(Snapshot(), writeMode);
        q.processCycle <= now ==>
          (&& q.processIndex < |q.entry|
           && banks[FlatBank(g.geometry, q.entry[q.processIndex].address)].requestIndex == q.processIndex)
      modifies this, rq, rq.entry, wq, wq.entry, banks
      ensures Separate() && Snapshot() == ProcessIfDue(g, old(Snapshot()), now)
    {
      var q := if writeMode then wq else rq;
      if q.processIndex < q.entry.Length && q.processCycle <= now {
        Process(writeMode, now);
      }
    }

    /** One cycle: switch mode if the watermarks say so, then schedule and process what is due. */
    method Operate(now: nat)
      requires Valid() && now + Latency(g, false) < MAX_CYCLE
      modifies this, rq, rq.entry, wq, wq.entry, banks
      ensures Valid() && Shaped(g, old(Snapshot())) && Snapshot() == DramChannel.Operate(g, old(Snapshot()), now)
      ensures !old(writeMode) ==>
        (writeMode <==> old(wq.occupancy) >= g.highMark || (old(rq.occupancy) == 0 && old(wq.occupancy) > 0))
      ensures old(writeMode) ==>
        (!writeMode <==> old(wq.occupancy) == 0 || (old(rq.occupancy) != 0 && old(wq.occupancy) < g.lowMark))
    {
      ghost var c := Snapshot();
      assert Coupled(g, c, writeMode) by { ReachedInv(g, id, c); }
      ModeRule(g, c, now);
      SwitchIfDue(now);
      ScheduleStage(now);
      ghost var b := Snapshot();
      if QueueOf(b, b.writeMode).processCycle <= now { ProcessFacts(g, id, c, b, now); }
      ProcessStage(now);
      ReachedStep(g, id, c, Tick(now));
    }
  }

  lemma CoupledAnyMode(g: Config, c: Channel, t: Channel, m: bool)
    requires Coupled(g, c, m) && t == c.(writeMode := t.writeMode)
    ensures Coupled(g, t, m)
  {
    forall i | 0 <= i < |QueueOf(t, m).entry| && QueueOf(t, m).entry[i].scheduled ensures Owns(g, t, m, i) {
      assert Owns(g, c, m, i);
    }
    forall b | 0 <= b < |t.banks| ensures BankOk(g, t, m, b) { assert BankOk(g, c, m, b); }
  }

  /** When process() runs, the bank of the cached request names that request. */
  lemma ProcessFacts(g: Config, id: nat, c: Channel, b: Channel, now: nat)
    requires Reached(g, id, c) && now + Latency(g, false) < MAX_CYCLE && Shaped(g, c)
    requires b == ScheduleIfDue(g, SwitchMode(g, c, now), now)
    requires QueueOf(b, b.writeMode).processCycle <= now
    ensures var q := QueueOf(b, b.writeMode);
      && Shaped(g, b) && q.processIndex < |q.entry|
      && b.banks[FlatBank(g.geometry, q.entry[q.processIndex].address)].requestIndex == q.processIndex
  {
    ReachedInv(g, id, c);
    var a := SwitchKeeps(g, id, c, now);
    var d := a;
    if QueueOf(a, a.writeMode).scheduleIndex < |QueueOf(a, a.writeMode).entry| && QueueOf(a, a.writeMode).scheduleCycle <= now {
      d := ScheduleKeeps(g, id, a, now);
    }
    assert d == b;
    CachedRequestOwned(g, id, b, now);
  }

  lemma ResetStart(g: Config, c: Channel, w: bool, now: nat)
    requires Shaped(g, c)
    ensures ResetBelow(g, c, w, 0, now) == c
  {
  }
}
