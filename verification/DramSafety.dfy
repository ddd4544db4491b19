/**
 Every operation of a DRAM channel keeps its bookkeeping consistent: banks, queues, counters and
 cached indices agree, requests are neither lost nor served twice, and the DRAM timings hold.
 */
module DramSafety {
  import opened DramAddress
  import opened DramChannel

  // ---------------------------------------------------------------------------------------------
  // Scans

  /** A scan finds the first wanted packet with the least event cycle, if there is one. */
  lemma {:induction false} ScanMeaning(q: seq<Packet>, want: seq<bool>, n: nat)
    requires n <= |q| == |want|
    ensures var r := Scan(q, want, n);
      && r.1 <= |q| && r.0 <= MAX_CYCLE
      && (r.1 < |q| ==> r.1 < n && want[r.1] && r.0 == q[r.1].eventCycle < MAX_CYCLE)
      && (r.1 == |q| <==> r.0 == MAX_CYCLE)
      && (forall j :: 0 <= j < n && want[j] ==> r.0 <= q[j].eventCycle || q[j].eventCycle >= MAX_CYCLE)
      && (forall j :: 0 <= j < r.1 && j < n && want[j] ==> r.0 < q[j].eventCycle || q[j].eventCycle >= MAX_CYCLE)
  {
    if n > 0 { ScanMeaning(q, want, n - 1); }
  }

  /** A scan reads the event cycles of wanted packets only. */
  lemma {:induction false} ScanSame(q: seq<Packet>, q': seq<Packet>, want: seq<bool>, n: nat)
    requires n <= |q| == |q'| == |want|
    requires forall j :: 0 <= j < n && want[j] ==> q'[j].eventCycle == q[j].eventCycle
    ensures Scan(q', want, n) == Scan(q, want, n)
  {
    if n > 0 { ScanSame(q, q', want, n - 1); }
  }

  // ---------------------------------------------------------------------------------------------
  // Counts and tags

  lemma {:induction false} CountUpdate(want: seq<bool>, i: nat, v: bool)
    requires i < |want|
    ensures Count(want[i := v]) == Count(want) - (if want[i] then 1 else 0) + (if v then 1 else 0)
  {
    var n := |want| - 1;
    if i < n {
      CountUpdate(want[..n], i, v);
      assert want[i := v][..n] == want[..n][i := v];
    } else {
      assert want[i := v][..n] == want[..n];
    }
  }

  lemma {:induction false} CountZero(want: seq<bool>)
    ensures Count(want) == 0 <==> forall i :: 0 <= i < |want| ==> !want[i]
  {
    if want != [] { CountZero(want[..|want| - 1]); }
  }

  lemma {:induction false} CountAll(want: seq<bool>)
    ensures Count(want) == |want| <==> forall i :: 0 <= i < |want| ==> want[i]
  {
    if want != [] { CountAll(want[..|want| - 1]); }
  }

  function Busy(q: seq<Packet>): (r: seq<bool>)
    ensures |r| == |q|
  {
    seq(|q|, i requires 0 <= i < |q| => q[i].address != 0)
  }

  function Tagged(q: seq<Packet>, x: nat): (r: seq<bool>)
    ensures |r| == |q|
  {
    seq(|q|, i requires 0 <= i < |q| => q[i].address != 0 && q[i].tag == x)
  }

  /** How many requests with identity x wait in a queue. */
  function Pending(q: seq<Packet>, x: nat): nat { Count(Tagged(q, x)) }

  function Carries(p: Packet, x: nat): int { if p.address != 0 && p.tag == x then 1 else 0 }

  lemma PendingUpdate(q: seq<Packet>, i: nat, p: Packet, x: nat)
    requires i < |q|
    ensures Pending(q[i := p], x) == Pending(q, x) - Carries(q[i], x) + Carries(p, x)
  {
    assert Tagged(q[i := p], x) == Tagged(q, x)[i := p.address != 0 && p.tag == x];
    CountUpdate(Tagged(q, x), i, p.address != 0 && p.tag == x);
  }

  /** How often a request with identity x has been transferred. */
  function Served(log: seq<Transfer>, x: nat): nat {
    if log == [] then 0 else Served(log[..|log| - 1], x) + if log[|log| - 1].tag == x then 1 else 0
  }

  // ---------------------------------------------------------------------------------------------
  // The invariant

  /** The cached indices agree with a full scan; only at the sentinel cycle may the index differ. */
  ghost predicate ScheduleCacheOk(q: Queue) {
    var best := Scan(q.entry, Unscheduled(q.entry), |q.entry|);
    q.scheduleCycle == best.0 && (q.scheduleCycle < MAX_CYCLE ==> q.scheduleIndex == best.1)
  }

  ghost predicate ProcessCacheOk(q: Queue) {
    var best := Scan(q.entry, InFlight(q.entry), |q.entry|);
    q.processCycle == best.0 && (q.processCycle < MAX_CYCLE ==> q.processIndex == best.1)
  }

  ghost predicate PacketOk(g: Config, id: nat, p: Packet) {
    && (p.scheduled ==> p.address != 0)
    && (p.address != 0 ==> p.eventCycle < MAX_CYCLE && ChannelOf(g.geometry, p.address) == id)
  }

  /** Addresses are distinct and belong to this channel; occupancy counts them. */
  ghost predicate QueueOk(g: Config, id: nat, q: Queue) {
    && (forall i :: 0 <= i < |q.entry| ==> PacketOk(g, id, q.entry[i]))
    && (forall i, j :: 0 <= i < j < |q.entry| && q.entry[i].address != 0 ==> q.entry[i].address != q.entry[j].address)
    && q.occupancy == Count(Busy(q.entry))
  }

  /** A scheduled slot owns the bank its address maps to. */
  ghost predicate Owns(g: Config, c: Channel, m: bool, i: nat)
    requires Shaped(g, c) && i < |QueueOf(c, m).entry|
  {
    var p := QueueOf(c, m).entry[i];
    p.address != 0 && c.banks[FlatBank(g.geometry, p.address)].working
      && c.banks[FlatBank(g.geometry, p.address)].requestIndex == i
  }

  /** A working bank names the one scheduled slot of the current queue that maps to it. */
  ghost predicate BankOk(g: Config, c: Channel, m: bool, b: nat)
    requires b < |c.banks|
  {
    var bank, q := c.banks[b], QueueOf(c, m);
    if bank.working then
      && 0 <= bank.requestIndex < |q.entry| && q.entry[bank.requestIndex].scheduled
      && FlatBank(g.geometry, q.entry[bank.requestIndex].address) == b && bank.isWrite == m && bank.isRead == !m
    else bank.requestIndex == -1 && !bank.rowHit && !bank.isWrite && !bank.isRead
  }

  ghost predicate CountersOk(c: Channel) {
    && c.scheduledReads == Count(InFlight(c.rq.entry))
    && c.scheduledWrites == Count(InFlight(c.wq.entry))
  }

  ghost predicate NoneInFlight(q: seq<Packet>) { forall i :: 0 <= i < |q| ==> !q[i].scheduled }

  /** Banks and queues agree, with m telling which queue (write or read) may be in flight. */
  ghost predicate Coupled(g: Config, c: Channel, m: bool) {
    && Shaped(g, c)
    && NoneInFlight(QueueOf(c, !m).entry)
    && (forall i :: 0 <= i < |QueueOf(c, m).entry| && QueueOf(c, m).entry[i].scheduled ==> Owns(g, c, m, i))
    && (forall b :: 0 <= b < |c.banks| ==> BankOk(g, c, m, b))
    && CountersOk(c)
  }

  ghost predicate BankTimed(g: Config, b: Bank) {
    b.working ==> b.cycleAvailable >= b.since + Latency(g, b.rowHit)
  }

  ghost predicate Timed(g: Config, c: Channel) {
    && (forall b :: 0 <= b < |c.banks| ==> BankTimed(g, c.banks[b]))
    && (forall k :: 0 <= k < |c.log| ==> c.log[k].cycle >= c.log[k].since + Latency(g, c.log[k].hit))
    && (forall j, k :: 0 <= j < k < |c.log| ==> c.log[k].cycle >= c.log[j].cycle + g.busTime)
    && (c.log != [] ==> c.log[|c.log| - 1].cycle + g.busTime <= c.busFree)
  }

  /** Every accepted request is pending in one of the queues or has been served. */
  ghost predicate Conserved(c: Channel) {
    forall x :: c.accepted[x] == Pending(c.rq.entry, x) + Pending(c.wq.entry, x) + Served(c.log, x)
  }

  ghost predicate Sound(g: Config, id: nat, c: Channel, m: bool) {
    && QueueOk(g, id, c.rq) && QueueOk(g, id, c.wq) && Coupled(g, c, m) && Timed(g, c) && Conserved(c)
  }

  ghost predicate CachesOk(c: Channel) {
    ScheduleCacheOk(c.rq) && ScheduleCacheOk(c.wq) && ProcessCacheOk(c.rq) && ProcessCacheOk(c.wq)
  }

  ghost predicate Inv(g: Config, id: nat, c: Channel) { Sound(g, id, c, c.writeMode) && CachesOk(c) }

  // ---------------------------------------------------------------------------------------------
  // One slot and one bank change

  /** Slot i of queue m becomes p', its bank becomes bank', nothing else changes but counters. */
  ghost predicate Moves(g: Config, c: Channel, t: Channel, m: bool, i: nat, p': Packet, bank': Bank) {
    && Shaped(g, c) && i < |QueueOf(c, m).entry|
    && QueueOf(t, m).entry == QueueOf(c, m).entry[i := p']
    && QueueOf(t, !m).entry == QueueOf(c, !m).entry
    && t.banks == c.banks[FlatBank(g.geometry, QueueOf(c, m).entry[i].address) := bank']
  }

  lemma InFlightUpdate(q: seq<Packet>, i: nat, p: Packet)
    requires i < |q|
    ensures Count(InFlight(q[i := p])) == Count(InFlight(q)) - (if q[i].scheduled then 1 else 0) + (if p.scheduled then 1 else 0)
    ensures Count(Busy(q[i := p])) == Count(Busy(q)) - (if q[i].address != 0 then 1 else 0) + (if p.address != 0 then 1 else 0)
  {
    assert InFlight(q[i := p]) == InFlight(q)[i := p.scheduled];
    CountUpdate(InFlight(q), i, p.scheduled);
    assert Busy(q[i := p]) == Busy(q)[i := p.address != 0];
    CountUpdate(Busy(q), i, p.address != 0);
  }

  /** Giving back a scheduled slot and its bank keeps banks and queues in agreement. */
  lemma FreeKeeps(g: Config, c: Channel, t: Channel, m: bool, i: nat, p': Packet, bank': Bank)
    requires Coupled(g, c, m) && Moves(g, c, t, m, i, p', bank')
    requires QueueOf(c, m).entry[i].scheduled && !p'.scheduled
    requires !bank'.working && bank'.requestIndex == -1 && !bank'.rowHit && !bank'.isWrite && !bank'.isRead
    requires CountersOk(t)
    ensures Coupled(g, t, m)
  {
    var b := FlatBank(g.geometry, QueueOf(c, m).entry[i].address);
    assert Owns(g, c, m, i);
    forall k | 0 <= k < |QueueOf(t, m).entry| && QueueOf(t, m).entry[k].scheduled ensures Owns(g, t, m, k) {
      assert Owns(g, c, m, k);
    }
    forall x | 0 <= x < |t.banks| ensures BankOk(g, t, m, x) {
      assert BankOk(g, c, m, x);
    }
  }

  /** Taking an idle bank for an unscheduled slot keeps banks and queues in agreement. */
  lemma TakeKeeps(g: Config, c: Channel, t: Channel, m: bool, i: nat, p': Packet, bank': Bank)
    requires Coupled(g, c, m) && Moves(g, c, t, m, i, p', bank')
    requires Eligible(g, c.banks, QueueOf(c, m).entry[i])
    requires p'.scheduled && p'.address == QueueOf(c, m).entry[i].address
    requires bank'.working && bank'.requestIndex == i && bank'.isWrite == m && bank'.isRead == !m
    requires CountersOk(t)
    ensures Coupled(g, t, m)
  {
    var b := FlatBank(g.geometry, p'.address);
    assert BankOk(g, c, m, b);
    forall k | 0 <= k < |QueueOf(t, m).entry| && QueueOf(t, m).entry[k].scheduled ensures Owns(g, t, m, k) {
      if k != i { assert Owns(g, c, m, k); }
    }
    forall x | 0 <= x < |t.banks| ensures BankOk(g, t, m, x) {
      assert BankOk(g, c, m, x);
    }
  }

  lemma QueueKept(g: Config, id: nat, q: Queue, t: Queue, i: nat, p': Packet)
    requires QueueOk(g, id, q) && i < |q.entry| && t.entry == q.entry[i := p'] && PacketOk(g, id, p')
    requires p'.address == q.entry[i].address || p'.address == 0
    requires t.occupancy == q.occupancy - if p'.address == 0 && q.entry[i].address != 0 then 1 else 0
    ensures QueueOk(g, id, t)
  {
    InFlightUpdate(q.entry, i, p');
  }

  lemma CountersMove(c: Channel, t: Channel, m: bool, i: nat, p': Packet)
    requires CountersOk(c) && i < |QueueOf(c, m).entry|
    requires QueueOf(t, m).entry == QueueOf(c, m).entry[i := p'] && QueueOf(t, !m).entry == QueueOf(c, !m).entry
    requires var d := (if p'.scheduled then 1 else 0) - if QueueOf(c, m).entry[i].scheduled then 1 else 0;
      && t.scheduledWrites == c.scheduledWrites + (if m then d else 0)
      && t.scheduledReads == c.scheduledReads + (if m then 0 else d)
    ensures CountersOk(t)
  {
    InFlightUpdate(QueueOf(c, m).entry, i, p');
  }

  lemma TimedMove(g: Config, c: Channel, t: Channel, b: nat)
    requires Timed(g, c) && b < |c.banks| && |t.banks| == |c.banks| && t.banks == c.banks[b := t.banks[b]]
    requires BankTimed(g, t.banks[b]) && t.log == c.log && t.busFree >= c.busFree
    ensures Timed(g, t)
  {
  }

  // ---------------------------------------------------------------------------------------------
  // Write-mode switch

  /** With everything taken back no bank is working and both counters are zero. */
  lemma ResetFreesBanks(g: Config, c: Channel, m: bool, now: nat)
    requires Coupled(g, c, m)
    ensures var t := ResetBelow(g, c, m, |QueueOf(c, m).entry|, now);
      && NoneInFlight(t.rq.entry) && NoneInFlight(t.wq.entry)
      && t.scheduledReads == 0 && t.scheduledWrites == 0
      && (forall b :: 0 <= b < |t.banks| ==> Idle(t.banks[b]))
  {
    var q := QueueOf(c, m).entry;
    assert q[..|q|] == q;
    CountZero(InFlight(QueueOf(c, !m).entry));
    var t := ResetBelow(g, c, m, |q|, now);
    forall b | 0 <= b < |t.banks| ensures Idle(t.banks[b]) {
      assert BankOk(g, c, m, b);
    }
  }

  ghost predicate Idle(b: Bank) { !b.working && b.requestIndex == -1 && !b.rowHit && !b.isWrite && !b.isRead }

  /** With nothing in flight the channel is consistent in either mode. */
  lemma IdleCoupled(g: Config, c: Channel, m: bool)
    requires Shaped(g, c) && NoneInFlight(c.rq.entry) && NoneInFlight(c.wq.entry)
    requires c.scheduledReads == 0 && c.scheduledWrites == 0
    requires forall b :: 0 <= b < |c.banks| ==> Idle(c.banks[b])
    ensures Coupled(g, c, m)
  {
    CountZero(InFlight(c.rq.entry));
    CountZero(InFlight(c.wq.entry));
    forall b | 0 <= b < |c.banks| ensures BankOk(g, c, m, b) { assert Idle(c.banks[b]); }
  }

  /** Same addresses and tags, slot by slot. */
  ghost predicate SameRequests(q: seq<Packet>, r: seq<Packet>) {
    |r| == |q| && forall i :: 0 <= i < |q| ==> r[i].address == q[i].address && r[i].tag == q[i].tag
  }

  lemma SamePending(q: seq<Packet>, r: seq<Packet>, x: nat)
    requires SameRequests(q, r)
    ensures Pending(q, x) == Pending(r, x)
  {
    assert Tagged(q, x) == Tagged(r, x);
  }

  lemma ResetQueueOk(g: Config, id: nat, q: Queue, r: Queue, now: nat)
    requires QueueOk(g, id, q) && now < MAX_CYCLE && r.occupancy == q.occupancy && |r.entry| == |q.entry|
    requires forall i :: 0 <= i < |q.entry| ==> r.entry[i] == ResetPacket(q.entry[i], now)
    ensures QueueOk(g, id, r) && SameRequests(q.entry, r.entry)
  {
    forall i | 0 <= i < |q.entry| ensures PacketOk(g, id, r.entry[i]) && r.entry[i].address == q.entry[i].address {
      assert PacketOk(g, id, q.entry[i]);
    }
    assert Busy(r.entry) == Busy(q.entry);
  }

  lemma ResetBelowKeeps(g: Config, id: nat, c: Channel, m: bool, now: nat)
    requires Sound(g, id, c, m) && now < MAX_CYCLE
    ensures var t := ResetBelow(g, c, m, |QueueOf(c, m).entry|, now);
      Sound(g, id, t, !m) && t.writeMode == c.writeMode && t.scheduledReads == 0 && t.scheduledWrites == 0
  {
    var t := ResetBelow(g, c, m, |QueueOf(c, m).entry|, now);
    ResetFreesBanks(g, c, m, now);
    IdleCoupled(g, t, !m);
    ResetQueueOk(g, id, QueueOf(c, m), QueueOf(t, m), now);
    ConservedSame(c, t);
  }

  lemma RescanKeeps(g: Config, id: nat, c: Channel, m: bool)
    requires Sound(g, id, c, m)
    ensures Sound(g, id, Rescan(c), m) && CachesOk(Rescan(c))
  {
    var t := Rescan(c);
    assert t.rq.entry == c.rq.entry && t.wq.entry == c.wq.entry && t.banks == c.banks;
    assert Coupled(g, t, m) by {
      forall i | 0 <= i < |QueueOf(t, m).entry| && QueueOf(t, m).entry[i].scheduled ensures Owns(g, t, m, i) {
        assert Owns(g, c, m, i);
      }
      forall b | 0 <= b < |t.banks| ensures BankOk(g, t, m, b) { assert BankOk(g, c, m, b); }
    }
  }

  /** reset_remain_requests takes back everything in flight; its sanity check holds. */
  lemma ResetKeeps(g: Config, id: nat, c: Channel, m: bool, now: nat) returns (t: Channel)
    requires Sound(g, id, c, m) && now < MAX_CYCLE
    ensures t == Reset(g, c, m, now) && Sound(g, id, t, !m) && CachesOk(t) && t.writeMode == c.writeMode
    ensures t.scheduledReads == 0 && t.scheduledWrites == 0
  {
    ResetBelowKeeps(g, id, c, m, now);
    var u, o := ResetBelow(g, c, m, |QueueOf(c, m).entry|, now), !m;
    RescanKeeps(g, id, u, o);
    t := Rescan(u);
  }

  lemma SwitchKeeps(g: Config, id: nat, c: Channel, now: nat) returns (t: Channel)
    requires Inv(g, id, c) && now < MAX_CYCLE
    ensures t == SwitchMode(g, c, now) && Inv(g, id, t)
  {
    t := c;
    if Switches(g, c) {
      var m := c.writeMode;
      var c' := c.(writeMode := !m);
      SameButMode(g, id, c, c', m);
      var r := ResetKeeps(g, id, c', m, now);
      TurnAroundKeeps(g, id, r);
      t := r.(busFree := r.busFree + g.turnAround);
    }
  }

  lemma TurnAroundKeeps(g: Config, id: nat, r: Channel)
    requires Inv(g, id, r)
    ensures Inv(g, id, r.(busFree := r.busFree + g.turnAround))
  {
    SameButMode(g, id, r, r.(busFree := r.busFree + g.turnAround), r.writeMode);
  }

  lemma SameButMode(g: Config, id: nat, c: Channel, t: Channel, m: bool)
    requires Sound(g, id, c, m) && t == c.(writeMode := t.writeMode, busFree := t.busFree) && t.busFree >= c.busFree
    ensures Sound(g, id, t, m)
  {
    assert Coupled(g, t, m) by {
      forall i | 0 <= i < |QueueOf(t, m).entry| && QueueOf(t, m).entry[i].scheduled ensures Owns(g, t, m, i) {
        assert Owns(g, c, m, i);
      }
      forall b | 0 <= b < |t.banks| ensures BankOk(g, t, m, b) { assert BankOk(g, c, m, b); }
    }
  }

  // ---------------------------------------------------------------------------------------------
  // Schedule

  /** i is the first of the wanted packets with the least event cycle. */
  ghost predicate Oldest(q: seq<Packet>, want: seq<bool>, i: nat)
    requires |want| == |q|
  {
    && i < |q| && want[i]
    && forall j :: 0 <= j < |q| && want[j] ==> q[i].eventCycle <= q[j].eventCycle && (j < i ==> q[i].eventCycle < q[j].eventCycle)
  }

  lemma ScanOldest(q: seq<Packet>, want: seq<bool>)
    requires |want| == |q| && forall i :: 0 <= i < |q| && want[i] ==> q[i].eventCycle < MAX_CYCLE
    ensures var r := Scan(q, want, |q|);
      if r.1 < |q| then Oldest(q, want, r.1) && r.0 == q[r.1].eventCycle < MAX_CYCLE
      else r == (MAX_CYCLE, |q|) && forall i :: 0 <= i < |q| ==> !want[i]
  {
    ScanMeaning(q, want, |q|);
  }

  /** schedule() picks the oldest row hit among idle banks, else the oldest request for an idle
      bank, and picks something whenever any request is eligible. */
  lemma ChoiceMeaning(g: Config, id: nat, c: Channel, w: bool)
    requires Shaped(g, c) && QueueOk(g, id, QueueOf(c, w))
    ensures var q := QueueOf(c, w).entry;
      var (k, hit) := Choice(g, c.banks, q);
      && k <= |q|
      && (k < |q| <==> exists i :: 0 <= i < |q| && Eligible(g, c.banks, q[i]))
      && (k < |q| ==> Eligible(g, c.banks, q[k]))
      && (hit <==> exists i :: 0 <= i < |q| && RowHit(g, c.banks, q[i]))
      && (hit ==> Oldest(q, RowHitMask(g, c.banks, q), k))
      && (!hit && k < |q| ==> Oldest(q, EligibleMask(g, c.banks, q), k))
  {
    var q := QueueOf(c, w).entry;
    assert forall i :: 0 <= i < |q| ==> PacketOk(g, id, q[i]);
    var hits, idle := RowHitMask(g, c.banks, q), EligibleMask(g, c.banks, q);
    ScanOldest(q, hits);
    ScanOldest(q, idle);
    assert forall i :: 0 <= i < |q| ==> (hits[i] <==> RowHit(g, c.banks, q[i]));
    assert forall i :: 0 <= i < |q| ==> (idle[i] <==> Eligible(g, c.banks, q[i]));
  }

  /** Slot k takes its idle bank at cycle now. */
  ghost predicate Takes(g: Config, c: Channel, t: Channel, m: bool, k: nat, hit: bool, now: nat) {
    && Shaped(g, c) && k < |QueueOf(c, m).entry| && Eligible(g, c.banks, QueueOf(c, m).entry[k])
    && var p := QueueOf(c, m).entry[k];
       var ready := now + Latency(g, hit);
       && Moves(g, c, t, m, k, p.(scheduled := true, eventCycle := ready),
                Bank(true, ready, RowOf(g.geometry, p.address), k, hit, m, !m, now))
       && t.scheduledWrites == (if m then c.scheduledWrites + 1 else c.scheduledWrites)
       && t.scheduledReads == (if m then c.scheduledReads else c.scheduledReads + 1)
       && QueueOf(t, !m) == QueueOf(c, !m) && QueueOf(t, m).occupancy == QueueOf(c, m).occupancy
       && ScheduleCacheOk(QueueOf(t, m)) && ProcessCacheOk(QueueOf(t, m))
       && t.log == c.log && t.accepted == c.accepted && t.busFree == c.busFree && t.writeMode == c.writeMode
  }

  lemma TakesCoupled(g: Config, c: Channel, t: Channel, m: bool, k: nat, hit: bool, now: nat)
    requires Coupled(g, c, m) && Takes(g, c, t, m, k, hit, now)
    ensures Coupled(g, t, m)
  {
    var p := QueueOf(c, m).entry[k];
    var p' := p.(scheduled := true, eventCycle := now + Latency(g, hit));
    CountersMove(c, t, m, k, p');
    TakeKeeps(g, c, t, m, k, p', t.banks[FlatBank(g.geometry, p.address)]);
  }

  lemma TakesQueue(g: Config, id: nat, c: Channel, t: Channel, m: bool, k: nat, hit: bool, now: nat)
    requires QueueOk(g, id, QueueOf(c, m)) && Takes(g, c, t, m, k, hit, now) && now + Latency(g, hit) < MAX_CYCLE
    ensures QueueOk(g, id, QueueOf(t, m)) && SameRequests(QueueOf(c, m).entry, QueueOf(t, m).entry)
  {
    var p := QueueOf(c, m).entry[k];
    var p' := p.(scheduled := true, eventCycle := now + Latency(g, hit));
    assert PacketOk(g, id, p') by { assert PacketOk(g, id, p); }
    QueueKept(g, id, QueueOf(c, m), QueueOf(t, m), k, p');
  }

  lemma ConservedSame(c: Channel, t: Channel)
    requires Conserved(c) && t.accepted == c.accepted && t.log == c.log
    requires SameRequests(c.rq.entry, t.rq.entry) && SameRequests(c.wq.entry, t.wq.entry)
    ensures Conserved(t)
  {
    forall x ensures Pending(t.rq.entry, x) == Pending(c.rq.entry, x) && Pending(t.wq.entry, x) == Pending(c.wq.entry, x) {
      SamePending(c.rq.entry, t.rq.entry, x);
      SamePending(c.wq.entry, t.wq.entry, x);
    }
  }

  lemma TakesKeeps(g: Config, id: nat, c: Channel, t: Channel, k: nat, hit: bool, now: nat)
    requires Inv(g, id, c) && Takes(g, c, t, c.writeMode, k, hit, now) && now + Latency(g, hit) < MAX_CYCLE
    ensures Inv(g, id, t)
  {
    var m := c.writeMode;
    TakesCoupled(g, c, t, m, k, hit, now);
    TakesQueue(g, id, c, t, m, k, hit, now);
    TimedMove(g, c, t, FlatBank(g.geometry, QueueOf(c, m).entry[k].address));
    ConservedSame(c, t);
  }

  lemma ScheduleEffect(g: Config, c: Channel, m: bool, k: nat, hit: bool, now: nat)
    requires Shaped(g, c) && (k, hit) == Choice(g, c.banks, QueueOf(c, m).entry)
    requires k < |QueueOf(c, m).entry| && Eligible(g, c.banks, QueueOf(c, m).entry[k])
    ensures Takes(g, c, Schedule(g, c, m, now), m, k, hit, now)
  {
  }

  lemma ScheduleKeeps(g: Config, id: nat, c: Channel, now: nat) returns (t: Channel)
    requires Inv(g, id, c) && now + Latency(g, false) < MAX_CYCLE
    ensures t == Schedule(g, c, c.writeMode, now) && Inv(g, id, t)
  {
    t := Schedule(g, c, c.writeMode, now);
    ChoiceMeaning(g, id, c, c.writeMode);
    var (k, hit) := Choice(g, c.banks, QueueOf(c, c.writeMode).entry);
    if k < |QueueOf(c, c.writeMode).entry| {
      ScheduleEffect(g, c, c.writeMode, k, hit, now);
      TakesKeeps(g, id, c, t, k, hit, now);
    }
  }

  // ---------------------------------------------------------------------------------------------
  // Process

  /** The cached request is in flight and its bank names it, so the sanity checks hold. */
  lemma CachedRequestOwned(g: Config, id: nat, c: Channel, now: nat)
    requires Inv(g, id, c) && now < MAX_CYCLE
    requires QueueOf(c, c.writeMode).processCycle <= now
    ensures var q := QueueOf(c, c.writeMode);
      && q.processIndex < |q.entry| && q.entry[q.processIndex].scheduled
      && Owns(g, c, c.writeMode, q.processIndex)
      && Oldest(q.entry, InFlight(q.entry), q.processIndex)
  {
    var q := QueueOf(c, c.writeMode);
    forall i | 0 <= i < |q.entry| && q.entry[i].scheduled ensures q.entry[i].eventCycle < MAX_CYCLE {
      assert PacketOk(g, id, q.entry[i]);
    }
    ScanOldest(q.entry, InFlight(q.entry));
    assert ProcessCacheOk(q);
  }

  /** Slot k has been transferred at cycle now and is free again. */
  ghost predicate Transfers(g: Config, c: Channel, t: Channel, m: bool, k: nat, now: nat) {
    && Shaped(g, c) && k < |QueueOf(c, m).entry|
    && var p := QueueOf(c, m).entry[k];
       var bank := c.banks[FlatBank(g.geometry, p.address)];
       && p.scheduled && bank.cycleAvailable <= now && c.busFree <= now
       && Moves(g, c, t, m, k, FREE, Released(bank))
       && t.scheduledWrites == (if m then c.scheduledWrites - 1 else c.scheduledWrites)
       && t.scheduledReads == (if m then c.scheduledReads else c.scheduledReads - 1)
       && QueueOf(t, !m) == QueueOf(c, !m) && QueueOf(t, m).occupancy == QueueOf(c, m).occupancy - 1
       && QueueOf(t, m).scheduleCycle == QueueOf(c, m).scheduleCycle
       && QueueOf(t, m).scheduleIndex == QueueOf(c, m).scheduleIndex
       && ProcessCacheOk(QueueOf(t, m))
       && t.log == c.log + [Transfer(p.tag, now, bank.since, bank.rowHit)]
       && t.accepted == c.accepted && t.busFree == now + g.busTime && t.writeMode == c.writeMode
  }

  lemma TransfersCoupled(g: Config, c: Channel, t: Channel, m: bool, k: nat, now: nat)
    requires Coupled(g, c, m) && Transfers(g, c, t, m, k, now)
    ensures Coupled(g, t, m)
  {
    CountersMove(c, t, m, k, FREE);
    FreeKeeps(g, c, t, m, k, FREE, t.banks[FlatBank(g.geometry, QueueOf(c, m).entry[k].address)]);
  }

  lemma TransfersQueue(g: Config, id: nat, c: Channel, t: Channel, m: bool, k: nat, now: nat)
    requires QueueOk(g, id, QueueOf(c, m)) && Transfers(g, c, t, m, k, now) && ScheduleCacheOk(QueueOf(c, m))
    ensures QueueOk(g, id, QueueOf(t, m)) && ScheduleCacheOk(QueueOf(t, m))
  {
    var q, r := QueueOf(c, m), QueueOf(t, m);
    assert PacketOk(g, id, q.entry[k]);
    QueueKept(g, id, q, r, k, FREE);
    assert Unscheduled(r.entry) == Unscheduled(q.entry);
    ScanSame(q.entry, r.entry, Unscheduled(q.entry), |q.entry|);
  }

  lemma TransfersTimed(g: Config, c: Channel, t: Channel, m: bool, k: nat, now: nat)
    requires Coupled(g, c, m) && Timed(g, c) && Transfers(g, c, t, m, k, now)
    ensures Timed(g, t)
  {
  }

  lemma TransfersConserved(g: Config, id: nat, c: Channel, t: Channel, m: bool, k: nat, now: nat)
    requires Conserved(c) && Transfers(g, c, t, m, k, now) && PacketOk(g, id, QueueOf(c, m).entry[k])
    ensures Conserved(t)
  {
    forall x ensures t.accepted[x] == Pending(t.rq.entry, x) + Pending(t.wq.entry, x) + Served(t.log, x) {
      PendingUpdate(QueueOf(c, m).entry, k, FREE, x);
      assert t.log[..|t.log| - 1] == c.log;
    }
  }

  lemma TransfersKeeps(g: Config, id: nat, c: Channel, t: Channel, k: nat, now: nat)
    requires Inv(g, id, c) && Transfers(g, c, t, c.writeMode, k, now)
    ensures Inv(g, id, t)
  {
    var m := c.writeMode;
    TransfersCoupled(g, c, t, m, k, now);
    TransfersQueue(g, id, c, t, m, k, now);
    TransfersTimed(g, c, t, m, k, now);
    TransfersConserved(g, id, c, t, m, k, now);
  }

  /** Fast-forwarding a bank to the cycle the bus frees up changes nothing else. */
  lemma DelayKeeps(g: Config, id: nat, c: Channel, t: Channel, b: nat)
    requires Inv(g, id, c) && b < |c.banks| && c.busFree >= c.banks[b].cycleAvailable
    requires t == c.(banks := c.banks[b := c.banks[b].(cycleAvailable := c.busFree)])
    ensures Inv(g, id, t)
  {
    var m := c.writeMode;
    assert Coupled(g, t, m) by {
      forall i | 0 <= i < |QueueOf(t, m).entry| && QueueOf(t, m).entry[i].scheduled ensures Owns(g, t, m, i) {
        assert Owns(g, c, m, i);
      }
      forall x | 0 <= x < |t.banks| ensures BankOk(g, t, m, x) { assert BankOk(g, c, m, x); }
    }
    TimedMove(g, c, t, b);
  }

  /** The three things process() may do. */
  lemma ProcessEffect(g: Config, c: Channel, m: bool, now: nat)
    requires Shaped(g, c) && QueueOf(c, m).processIndex < |QueueOf(c, m).entry|
    requires QueueOf(c, m).entry[QueueOf(c, m).processIndex].scheduled
    ensures var t, k := Process(g, c, m, now), QueueOf(c, m).processIndex;
      var b := FlatBank(g.geometry, QueueOf(c, m).entry[k].address);
      if c.banks[b].cycleAvailable > now then t == c
      else if c.busFree > now then t == c.(banks := c.banks[b := c.banks[b].(cycleAvailable := c.busFree)])
      else Transfers(g, c, t, m, k, now)
  {
  }

  lemma ProcessKeeps(g: Config, id: nat, c: Channel, now: nat) returns (t: Channel)
    requires Inv(g, id, c) && now < MAX_CYCLE && QueueOf(c, c.writeMode).processCycle <= now
    ensures t == Process(g, c, c.writeMode, now) && Inv(g, id, t)
  {
    var m := c.writeMode;
    CachedRequestOwned(g, id, c, now);
    ProcessEffect(g, c, m, now);
    t := Process(g, c, m, now);
    var k := QueueOf(c, m).processIndex;
    var b := FlatBank(g.geometry, QueueOf(c, m).entry[k].address);
    if c.banks[b].cycleAvailable <= now {
      if c.busFree > now {
        DelayKeeps(g, id, c, t, b);
      } else {
        TransfersKeeps(g, id, c, t, k, now);
      }
    }
  }

  // ---------------------------------------------------------------------------------------------
  // Insert

  /** The caller's side of add_rq and add_wq: a new request for this channel, not yet scheduled. Address 0
      is allowed; it matches a free slot, so it is never placed. */
  ghost predicate Fresh(g: Config, id: nat, p: Packet) {
    !p.scheduled && p.eventCycle < MAX_CYCLE && ChannelOf(g.geometry, p.address) == id
  }

  lemma PlacedKeeps(g: Config, id: nat, q: Queue, p: Packet)
    requires QueueOk(g, id, q) && ProcessCacheOk(q) && Fresh(g, id, p) && Find(q.entry, p.address) == |q.entry|
    ensures QueueOk(g, id, Placed(q, p)) && ScheduleCacheOk(Placed(q, p)) && ProcessCacheOk(Placed(q, p))
    ensures InFlight(Placed(q, p).entry) == InFlight(q.entry)
  {
    var slot, r := Find(q.entry, 0), Placed(q, p);
    if slot < |q.entry| {
      assert PacketOk(g, id, q.entry[slot]) && PacketOk(g, id, p);
      InFlightUpdate(q.entry, slot, p);
      assert InFlight(r.entry) == InFlight(q.entry);
      ScanSame(q.entry, r.entry, InFlight(q.entry), |q.entry|);
    }
  }

  lemma PlacedPending(g: Config, id: nat, q: Queue, p: Packet, x: nat)
    requires Find(q.entry, p.address) == |q.entry|
    ensures Pending(Placed(q, p).entry, x) == Pending(q.entry, x) + if Find(q.entry, 0) < |q.entry| && p.tag == x then 1 else 0
  {
    var slot := Find(q.entry, 0);
    if slot < |q.entry| { PendingUpdate(q.entry, slot, p, x); }
  }

  /** Banks refer to scheduled slots only, which filling a free slot does not touch. */
  lemma InsertCoupled(g: Config, id: nat, c: Channel, w: bool, p: Packet, m: bool)
    requires Coupled(g, c, m) && QueueOk(g, id, QueueOf(c, w)) && ProcessCacheOk(QueueOf(c, w))
    requires Fresh(g, id, p) && Find(QueueOf(c, w).entry, p.address) == |QueueOf(c, w).entry|
    ensures Coupled(g, Insert(c, w, p), m)
  {
    var t, q, r := Insert(c, w, p), QueueOf(c, w), Placed(QueueOf(c, w), p);
    PlacedKeeps(g, id, q, p);
    assert QueueOf(t, w) == r && QueueOf(t, !w) == QueueOf(c, !w) && t.banks == c.banks;
    forall i | 0 <= i < |q.entry| ensures r.entry[i].scheduled == q.entry[i].scheduled
      && (q.entry[i].scheduled ==> r.entry[i] == q.entry[i])
    {
      assert InFlight(r.entry)[i] == InFlight(q.entry)[i];
      assert PacketOk(g, id, q.entry[i]);
    }
    forall i | 0 <= i < |QueueOf(t, m).entry| && QueueOf(t, m).entry[i].scheduled ensures Owns(g, t, m, i) {
      assert Owns(g, c, m, i);
    }
    forall b | 0 <= b < |t.banks| ensures BankOk(g, t, m, b) { assert BankOk(g, c, m, b); }
  }

  lemma InsertConserved(g: Config, id: nat, c: Channel, w: bool, p: Packet)
    requires Conserved(c) && Find(QueueOf(c, w).entry, p.address) == |QueueOf(c, w).entry|
    ensures Conserved(Insert(c, w, p))
  {
    var t := Insert(c, w, p);
    forall x ensures t.accepted[x] == Pending(t.rq.entry, x) + Pending(t.wq.entry, x) + Served(t.log, x) {
      PlacedPending(g, id, QueueOf(c, w), p, x);
    }
  }

  lemma InsertKeeps(g: Config, id: nat, c: Channel, w: bool, p: Packet) returns (t: Channel)
    requires Inv(g, id, c) && Fresh(g, id, p) && Find(QueueOf(c, w).entry, p.address) == |QueueOf(c, w).entry|
    ensures t == Insert(c, w, p) && Inv(g, id, t)
  {
    t := Insert(c, w, p);
    PlacedKeeps(g, id, QueueOf(c, w), p);
    InsertCoupled(g, id, c, w, p, c.writeMode);
    InsertConserved(g, id, c, w, p);
  }

  /** No slot has this address. */
  predicate Absent(q: seq<Packet>, address: nat) { forall i :: 0 <= i < |q| ==> q[i].address != address }

  lemma RoomIff(q: seq<Packet>)
    ensures Find(q, 0) < |q| <==> Count(Busy(q)) < |q|
  {
    CountAll(Busy(q));
    assert forall i :: 0 <= i < |q| ==> (Busy(q)[i] <==> q[i].address != 0);
  }

  /** A request reaches its queue exactly when its address is queued nowhere it is looked for and
      the queue has room; a full queue drops it. */
  lemma AcceptedIffRoom(g: Config, id: nat, c: Channel, p: Packet)
    requires Inv(g, id, c) && Fresh(g, id, p)
    ensures AddReadOutcome(c, p).Accepted? <==>
      c.rq.occupancy < |c.rq.entry| && Absent(c.rq.entry, p.address) && Absent(c.wq.entry, p.address)
    ensures AddWriteOutcome(c, p).Accepted? <==> c.wq.occupancy < |c.wq.entry| && Absent(c.wq.entry, p.address)
  {
    RoomIff(c.rq.entry);
    RoomIff(c.wq.entry);
  }
}
