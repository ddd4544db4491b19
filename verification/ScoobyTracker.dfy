/**
 The prefetch tracker of Scooby (prefetcher/scooby.cc): decisions wait in a queue, are rewarded when
 their address is demanded or when they are trained, and reach the learner in consecutive pairs.
 track_multiple and reward_all are off.
 */
module ScoobyTracker {
  import opened Basics

  /** The address that stands for "no prefetch"; it is not block aligned. */
  const NONE_ADDR: nat := 0xdeadbeef

  datatype Kind = CorrectTimely | CorrectUntimely | Incorrect | NoPrefetch | OutOfBounds | TrackerHit

  /** A tracked decision. */
  datatype Decision = Decision(addr: nat, state: nat, action: nat, filled: bool, reward: Option<Kind>)

  /** A decision as it was made: when, and with which reward assigned on the spot. */
  datatype Made = Made(addr: nat, state: nat, action: nat, born: nat, pre: Option<Kind>)

  datatype Learn = Learn(state: nat, action: nat, reward: Kind, nextState: nat, nextAction: nat)

  datatype Event = Tracked(addr: nat) | Demanded(addr: nat) | Filled(addr: nat)

  /** The tracker and the decision that left it last; and, as a record, all decisions made, the times
      at which decisions left the tracker, the calls to the learner, and the events so far. */
  datatype Agent = Agent(
    size: nat, tracker: seq<Decision>, last: Option<Decision>,
    made: seq<Made>, left: seq<nat>, learned: seq<Learn>, log: seq<Event>)

  predicate Present(tracker: seq<Decision>, addr: nat) { exists i :: 0 <= i < |tracker| && tracker[i].addr == addr }

  /** i is the oldest decision with this address. */
  predicate Oldest(tracker: seq<Decision>, addr: nat, i: nat) {
    i < |tracker| && tracker[i].addr == addr && forall j :: 0 <= j < i ==> tracker[j].addr != addr
  }

  function FinalReward(d: Decision): Kind {
    if d.reward.Some? then d.reward.value else if d.addr == NONE_ADDR then NoPrefetch else Incorrect
  }

  /** The oldest decision leaves a full tracker, and the one before it is trained. */
  function MakeRoom(a: Agent): Agent
    requires 0 < |a.tracker|
  {
    var out := a.tracker[0];
    a.(tracker := a.tracker[1..],
       last := Some(out),
       left := a.left + [|a.log|],
       learned := match a.last
                  case None => a.learned
                  case Some(p) => a.learned + [Learn(p.state, p.action, FinalReward(p), out.state, out.action)])
  }

  /** track, with the reward that predict assigns straight after it for out-of-bounds decisions and
      tracker hits. */
  function Track(a: Agent, addr: nat, state: nat, action: nat, pre: Option<Kind>): Agent
    requires 0 < a.size
  {
    if addr != NONE_ADDR && Present(a.tracker, addr) then a
    else
      var b := if |a.tracker| >= a.size then MakeRoom(a) else a;
      b.(tracker := b.tracker + [Decision(addr, state, action, false, pre)],
         made := b.made + [Made(addr, state, action, |b.log|, pre)],
         log := b.log + [Tracked(addr)])
  }

  function DemandedOne(d: Decision): Decision {
    if d.reward.Some? then d else d.(reward := Some(if d.filled then CorrectTimely else CorrectUntimely))
  }

  /** A demand rewards the oldest decision with its address, found at i if there is one. */
  function Demand(a: Agent, addr: nat, i: nat): Agent {
    a.(log := a.log + [Demanded(addr)],
       tracker := if i < |a.tracker| then a.tracker[i := DemandedOne(a.tracker[i])] else a.tracker)
  }

  function Fill(a: Agent, addr: nat, i: nat): Agent {
    a.(log := a.log + [Filled(addr)],
       tracker := if i < |a.tracker| then a.tracker[i := a.tracker[i].(filled := true)] else a.tracker)
  }

  /** What search_pt returns: the oldest match, or the length of the tracker. */
  ghost predicate Search(tracker: seq<Decision>, addr: nat, i: nat) {
    Oldest(tracker, addr, i) || (i == |tracker| && !Present(tracker, addr))
  }

  /** The demand finds a decision not to prefetch that has no reward yet. */
  predicate Misleads(tracker: seq<Decision>, addr: nat, i: nat) {
    addr == NONE_ADDR && i < |tracker| && tracker[i].reward.None?
  }

  // ---------------------------------------------------------------------------------------------
  // What the events say about a decision

  ghost predicate DemandIn(log: seq<Event>, addr: nat, from: nat, to: nat) {
    exists t :: from < t < to && t < |log| && log[t] == Demanded(addr)
  }

  ghost predicate FillIn(log: seq<Event>, addr: nat, from: nat, to: nat) {
    exists t :: from < t < to && t < |log| && log[t] == Filled(addr)
  }

  /** A fill came before every demand. */
  ghost predicate FillFirst(log: seq<Event>, addr: nat, from: nat, to: nat) {
    exists t {:trigger DemandIn(log, addr, from, t)} ::
      from < t < to && t < |log| && log[t] == Filled(addr) && !DemandIn(log, addr, from, t)
  }

  /** The reward that a decision deserves for the events between from and to; None before any. */
  ghost function Deserved(log: seq<Event>, m: Made, to: nat): Option<Kind> {
    if m.addr == NONE_ADDR then m.pre
    else if !DemandIn(log, m.addr, m.born, to) then None
    else if FillFirst(log, m.addr, m.born, to) then Some(CorrectTimely) else Some(CorrectUntimely)
  }

  ghost predicate Matches(log: seq<Event>, m: Made, d: Decision, to: nat) {
    && d.addr == m.addr && d.state == m.state && d.action == m.action && m.born < |log|
    && d.reward == Deserved(log, m, to)
    && (m.addr != NONE_ADDR ==> (d.filled <==> FillIn(log, m.addr, m.born, to)))
  }

  // ---------------------------------------------------------------------------------------------
  // One event

  lemma DemandGrows(log: seq<Event>, e: Event, addr: nat, from: nat)
    requires from < |log|
    ensures DemandIn(log + [e], addr, from, |log| + 1) <==> DemandIn(log, addr, from, |log|) || e == Demanded(addr)
    ensures FillIn(log + [e], addr, from, |log| + 1) <==> FillIn(log, addr, from, |log|) || e == Filled(addr)
  {
    var more := log + [e];
    assert more[|log|] == e;
    if DemandIn(log, addr, from, |log|) {
      var t :| from < t < |log| && log[t] == Demanded(addr);
      assert more[t] == Demanded(addr);
    }
    if FillIn(log, addr, from, |log|) {
      var t :| from < t < |log| && log[t] == Filled(addr);
      assert more[t] == Filled(addr);
    }
  }

  /** Later events do not change what happened before a time. */
  lemma PastFixed(log: seq<Event>, e: Event, addr: nat, from: nat, to: nat)
    requires to <= |log|
    ensures DemandIn(log + [e], addr, from, to) <==> DemandIn(log, addr, from, to)
    ensures FillIn(log + [e], addr, from, to) <==> FillIn(log, addr, from, to)
  {
    var more := log + [e];
    assert forall t :: 0 <= t < |log| ==> more[t] == log[t];
  }

  lemma FillFirstGrows(log: seq<Event>, e: Event, addr: nat, from: nat)
    requires from < |log|
    ensures FillFirst(log + [e], addr, from, |log| + 1) <==>
      FillFirst(log, addr, from, |log|) || (e == Filled(addr) && !DemandIn(log, addr, from, |log|))
  {
    var more := log + [e];
    if FillFirst(log, addr, from, |log|) {
      var t :| from < t < |log| && log[t] == Filled(addr) && !DemandIn(log, addr, from, t);
      PastFixed(log, e, addr, from, t);
      assert more[t] == Filled(addr);
    }
    if e == Filled(addr) && !DemandIn(log, addr, from, |log|) {
      PastFixed(log, e, addr, from, |log|);
      assert more[|log|] == e;
    }
    if FillFirst(more, addr, from, |log| + 1) {
      var t :| from < t < |log| + 1 && more[t] == Filled(addr) && !DemandIn(more, addr, from, t);
      PastFixed(log, e, addr, from, t);
    }
  }

  lemma FillFirstPast(log: seq<Event>, e: Event, addr: nat, from: nat, to: nat)
    requires to <= |log|
    ensures FillFirst(log + [e], addr, from, to) <==> FillFirst(log, addr, from, to)
  {
    var more := log + [e];
    forall t | from < t < to ensures more[t] == log[t] && (DemandIn(more, addr, from, t) <==> DemandIn(log, addr, from, t)) {
      PastFixed(log, e, addr, from, t);
    }
    if FillFirst(log, addr, from, to) {
      var t :| from < t < to && log[t] == Filled(addr) && !DemandIn(log, addr, from, t);
      assert more[t] == Filled(addr);
    }
  }

  /** A decision outside the tracker deserves what it deserved when it left. */
  lemma DeservedPast(log: seq<Event>, e: Event, m: Made, to: nat)
    requires to <= |log|
    ensures Deserved(log + [e], m, to) == Deserved(log, m, to)
  {
    PastFixed(log, e, m.addr, m.born, to);
    FillFirstPast(log, e, m.addr, m.born, to);
  }

  /** Without a demand, a fill so far is a fill that came first. */
  lemma FillWasFirst(log: seq<Event>, addr: nat, from: nat, to: nat)
    requires !DemandIn(log, addr, from, to)
    ensures FillFirst(log, addr, from, to) <==> FillIn(log, addr, from, to)
  {
    if FillIn(log, addr, from, to) {
      var t :| from < t < to && t < |log| && log[t] == Filled(addr);
      assert !DemandIn(log, addr, from, t);
    }
  }

  lemma EventElsewhere(log: seq<Event>, e: Event, m: Made, d: Decision)
    requires Matches(log, m, d, |log|) && (m.addr != NONE_ADDR ==> e.Tracked? || e.addr != m.addr)
    ensures Matches(log + [e], m, d, |log| + 1)
  {
    DemandGrows(log, e, m.addr, m.born);
    FillFirstGrows(log, e, m.addr, m.born);
  }

  lemma DemandHere(log: seq<Event>, m: Made, d: Decision)
    requires Matches(log, m, d, |log|) && m.addr != NONE_ADDR
    ensures Matches(log + [Demanded(m.addr)], m, DemandedOne(d), |log| + 1)
  {
    var e := Demanded(m.addr);
    DemandGrows(log, e, m.addr, m.born);
    FillFirstGrows(log, e, m.addr, m.born);
    if d.reward.None? { FillWasFirst(log, m.addr, m.born, |log|); }
  }

  lemma FillHere(log: seq<Event>, m: Made, d: Decision)
    requires Matches(log, m, d, |log|) && m.addr != NONE_ADDR
    ensures Matches(log + [Filled(m.addr)], m, d.(filled := true), |log| + 1)
  {
    var e := Filled(m.addr);
    DemandGrows(log, e, m.addr, m.born);
    FillFirstGrows(log, e, m.addr, m.born);
  }

  // ---------------------------------------------------------------------------------------------
  // The invariant

  ghost function Due(deserved: Option<Kind>, addr: nat): Kind {
    if deserved.Some? then deserved.value else if addr == NONE_ADDR then NoPrefetch else Incorrect
  }

  /** The k-th call to the learner is about decisions k and k + 1, with the reward decision k deserves
      for the time it was tracked. */
  ghost predicate LearnOk(a: Agent, k: nat)
    requires k < |a.learned| && k + 1 < |a.made| && k < |a.left|
  {
    var m, next := a.made[k], a.made[k + 1];
    a.learned[k] == Learn(m.state, m.action, Due(Deserved(a.log, m, a.left[k]), m.addr), next.state, next.action)
  }

  ghost predicate Counts(a: Agent) {
    && 0 < a.size && |a.tracker| <= a.size && |a.made| == |a.left| + |a.tracker|
    && (a.last.Some? <==> |a.left| > 0)
    && |a.learned| == (if |a.left| == 0 then 0 else |a.left| - 1)
    && (forall k :: 0 <= k < |a.left| ==> a.left[k] <= |a.log|)
    && (|a.left| > 0 ==> |a.tracker| == a.size)
  }

  /** A real address is tracked once at a time. */
  ghost predicate TrackedOnce(tracker: seq<Decision>) {
    forall i, j :: 0 <= i < j < |tracker| && tracker[i].addr == tracker[j].addr ==> tracker[i].addr == NONE_ADDR
  }

  ghost predicate TrackerOk(a: Agent)
    requires Counts(a)
  {
    forall i :: 0 <= i < |a.tracker| ==> Matches(a.log, a.made[|a.left| + i], a.tracker[i], |a.log|)
  }

  ghost predicate LastOk(a: Agent)
    requires Counts(a)
  {
    |a.left| > 0 ==> Matches(a.log, a.made[|a.left| - 1], a.last.value, a.left[|a.left| - 1])
  }

  ghost predicate LearnedOk(a: Agent)
    requires Counts(a)
  {
    forall k :: 0 <= k < |a.learned| ==> LearnOk(a, k)
  }

  ghost predicate Inv(a: Agent) {
    Counts(a) && TrackerOk(a) && LastOk(a) && LearnedOk(a) && TrackedOnce(a.tracker)
  }

  // ---------------------------------------------------------------------------------------------
  // Every step keeps it

  lemma MatchesPast(log: seq<Event>, e: Event, m: Made, d: Decision, to: nat)
    requires Matches(log, m, d, to) && to <= |log|
    ensures Matches(log + [e], m, d, to)
  {
    DeservedPast(log, e, m, to);
    PastFixed(log, e, m.addr, m.born, to);
  }

  /** The decisions that have left see nothing of a new event. */
  lemma PastKeeps(a: Agent, b: Agent, e: Event)
    requires Counts(a) && LastOk(a) && LearnedOk(a)
    requires Counts(b) && b.log == a.log + [e] && b.left == a.left && b.learned == a.learned && b.last == a.last
    requires |a.made| <= |b.made| && b.made[..|a.made|] == a.made
    ensures LastOk(b) && LearnedOk(b)
  {
    if |a.left| > 0 { MatchesPast(a.log, e, a.made[|a.left| - 1], a.last.value, a.left[|a.left| - 1]); }
    forall k | 0 <= k < |b.learned| ensures LearnOk(b, k) {
      assert LearnOk(a, k);
      DeservedPast(a.log, e, a.made[k], a.left[k]);
    }
  }

  /** Only the decision found has the address, unless it is the one that stands for no prefetch. */
  lemma OneMatch(tracker: seq<Decision>, addr: nat, i: nat, j: nat)
    requires TrackedOnce(tracker) && Search(tracker, addr, i) && j < |tracker|
    ensures j == i ==> tracker[j].addr == addr
    ensures j != i ==> tracker[j].addr == NONE_ADDR || tracker[j].addr != addr
  {
  }

  /** A tracked decision after a demand. */
  lemma DemandEither(log: seq<Event>, m: Made, d: Decision, addr: nat, here: bool)
    requires Matches(log, m, d, |log|) && (here && addr == NONE_ADDR ==> d.reward.Some?)
    requires if here then m.addr == addr else m.addr == NONE_ADDR || m.addr != addr
    ensures Matches(log + [Demanded(addr)], m, if here then DemandedOne(d) else d, |log| + 1)
  {
    if here && addr != NONE_ADDR { DemandHere(log, m, d); } else { EventElsewhere(log, Demanded(addr), m, d); }
  }

  /** A tracked decision after a fill. */
  lemma FillEither(log: seq<Event>, m: Made, d: Decision, addr: nat, here: bool)
    requires Matches(log, m, d, |log|)
    requires if here then m.addr == addr else m.addr == NONE_ADDR || m.addr != addr
    ensures Matches(log + [Filled(addr)], m, if here then d.(filled := true) else d, |log| + 1)
  {
    if here && addr != NONE_ADDR { FillHere(log, m, d); } else { EventElsewhere(log, Filled(addr), m, d); }
  }

  lemma SameAddresses(t: seq<Decision>, t': seq<Decision>)
    requires TrackedOnce(t) && |t'| == |t| && forall i :: 0 <= i < |t| ==> t'[i].addr == t[i].addr
    ensures TrackedOnce(t')
  {
  }

  lemma DemandKeeps(a: Agent, addr: nat, i: nat)
    requires Inv(a) && Search(a.tracker, addr, i) && !Misleads(a.tracker, addr, i)
    ensures Inv(Demand(a, addr, i))
  {
    var b := Demand(a, addr, i);
    PastKeeps(a, b, Demanded(addr));
    SameAddresses(a.tracker, b.tracker);
    forall j | 0 <= j < |b.tracker| ensures Matches(b.log, b.made[|b.left| + j], b.tracker[j], |b.log|) {
      var m, d := a.made[|a.left| + j], a.tracker[j];
      OneMatch(a.tracker, addr, i, j);
      assert Matches(a.log, m, d, |a.log|);
      DemandEither(a.log, m, d, addr, j == i);
    }
  }

  lemma FillKeeps(a: Agent, addr: nat, i: nat)
    requires Inv(a) && Search(a.tracker, addr, i)
    ensures Inv(Fill(a, addr, i))
  {
    var b := Fill(a, addr, i);
    PastKeeps(a, b, Filled(addr));
    SameAddresses(a.tracker, b.tracker);
    forall j | 0 <= j < |b.tracker| ensures Matches(b.log, b.made[|b.left| + j], b.tracker[j], |b.log|) {
      var m, d := a.made[|a.left| + j], a.tracker[j];
      OneMatch(a.tracker, addr, i, j);
      assert Matches(a.log, m, d, |a.log|);
      FillEither(a.log, m, d, addr, j == i);
    }
  }

  lemma MakeRoomKeeps(a: Agent)
    requires Inv(a) && |a.tracker| == a.size
    ensures var b := MakeRoom(a);
      && |b.tracker| == a.size - 1 && |b.made| == |b.left| + |b.tracker| && b.last.Some?
      && |b.learned| == |b.left| - 1 && b.made == a.made && b.log == a.log && b.size == a.size
      && b.left == a.left + [|a.log|]
      && (forall k :: 0 <= k < |b.learned| ==> LearnOk(b, k))
      && Matches(b.log, b.made[|b.left| - 1], b.last.value, b.left[|b.left| - 1])
      && (forall i :: 0 <= i < |b.tracker| ==> Matches(b.log, b.made[|b.left| + i], b.tracker[i], |b.log|))
      && TrackedOnce(b.tracker)
  {
    var b := MakeRoom(a);
    assert Matches(a.log, a.made[|a.left|], a.tracker[0], |a.log|);
    forall i | 0 <= i < |b.tracker| ensures Matches(b.log, b.made[|b.left| + i], b.tracker[i], |b.log|) {
      var up := i + 1;
      assert Matches(a.log, a.made[|a.left| + up], a.tracker[up], |a.log|);
    }
    forall k | 0 <= k < |b.learned| ensures LearnOk(b, k) {
      if k < |a.learned| { assert LearnOk(a, k); }
    }
  }

  /** A decision that has just been made deserves what was assigned on the spot, and nothing more. */
  lemma MadeNow(log: seq<Event>, addr: nat, state: nat, action: nat, pre: Option<Kind>)
    requires addr != NONE_ADDR ==> pre == None
    ensures Matches(log + [Tracked(addr)], Made(addr, state, action, |log|, pre), Decision(addr, state, action, false, pre), |log| + 1)
  {
  }

  function Appended(b: Agent, addr: nat, state: nat, action: nat, pre: Option<Kind>): Agent {
    b.(tracker := b.tracker + [Decision(addr, state, action, false, pre)],
       made := b.made + [Made(addr, state, action, |b.log|, pre)],
       log := b.log + [Tracked(addr)])
  }

  lemma AppendPast(b: Agent, addr: nat, state: nat, action: nat, pre: Option<Kind>, k: nat)
    requires k < |b.learned| && k + 1 < |b.made| && k < |b.left| && b.left[k] <= |b.log| && LearnOk(b, k)
    ensures LearnOk(Appended(b, addr, state, action, pre), k)
  {
    DeservedPast(b.log, Tracked(addr), b.made[k], b.left[k]);
  }

  lemma AppendKeeps(b: Agent, addr: nat, state: nat, action: nat, pre: Option<Kind>)
    requires 0 < b.size && |b.tracker| < b.size && |b.made| == |b.left| + |b.tracker|
    requires |b.left| > 0 ==> |b.tracker| == b.size - 1
    requires (b.last.Some? <==> |b.left| > 0) && |b.learned| == (if |b.left| == 0 then 0 else |b.left| - 1)
    requires forall k :: 0 <= k < |b.left| ==> b.left[k] <= |b.log|
    requires forall k :: 0 <= k < |b.learned| ==> LearnOk(b, k)
    requires |b.left| > 0 ==> Matches(b.log, b.made[|b.left| - 1], b.last.value, b.left[|b.left| - 1])
    requires forall i :: 0 <= i < |b.tracker| ==> Matches(b.log, b.made[|b.left| + i], b.tracker[i], |b.log|)
    requires TrackedOnce(b.tracker) && (addr != NONE_ADDR ==> pre == None && !Present(b.tracker, addr))
    ensures Inv(Appended(b, addr, state, action, pre))
  {
    var e, t := Tracked(addr), Appended(b, addr, state, action, pre);
    MadeNow(b.log, addr, state, action, pre);
    forall i | 0 <= i < |b.tracker| ensures Matches(t.log, b.made[|b.left| + i], b.tracker[i], |t.log|) {
      EventElsewhere(b.log, e, b.made[|b.left| + i], b.tracker[i]);
    }
    if |b.left| > 0 { MatchesPast(b.log, e, b.made[|b.left| - 1], b.last.value, b.left[|b.left| - 1]); }
    forall k | 0 <= k < |t.learned| ensures LearnOk(t, k) { AppendPast(b, addr, state, action, pre, k); }
  }

  lemma TrackKeeps(a: Agent, addr: nat, state: nat, action: nat, pre: Option<Kind>)
    requires Inv(a) && (addr != NONE_ADDR ==> pre == None)
    ensures Inv(Track(a, addr, state, action, pre))
  {
    if addr != NONE_ADDR && Present(a.tracker, addr) {
    } else if |a.tracker| >= a.size {
      MakeRoomKeeps(a);
      AppendKeeps(MakeRoom(a), addr, state, action, pre);
    } else {
      AppendKeeps(a, addr, state, action, pre);
    }
  }

  // ---------------------------------------------------------------------------------------------
  // Runs

  datatype Step =
    | MakeDecision(addr: nat, state: nat, action: nat, pre: Option<Kind>)
    | SeeDemand(addr: nat, i: nat)
    | SeeFill(addr: nat, i: nat)

  /** Demands do not mislead; block-aligned ones never do. */
  ghost predicate Enabled(a: Agent, s: Step) {
    match s
    case MakeDecision(addr, state, action, pre) => 0 < a.size && (addr != NONE_ADDR ==> pre == None)
    case SeeDemand(addr, i) => Search(a.tracker, addr, i) && !Misleads(a.tracker, addr, i)
    case SeeFill(addr, i) => Search(a.tracker, addr, i)
  }

  ghost function Apply(a: Agent, s: Step): Agent
    requires Enabled(a, s)
  {
    match s
    case MakeDecision(addr, state, action, pre) => Track(a, addr, state, action, pre)
    case SeeDemand(addr, i) => Demand(a, addr, i)
    case SeeFill(addr, i) => Fill(a, addr, i)
  }

  lemma StepKeeps(a: Agent, s: Step)
    requires Inv(a) && Enabled(a, s)
    ensures Inv(Apply(a, s))
  {
    match s
    case MakeDecision(addr, state, action, pre) => TrackKeeps(a, addr, state, action, pre);
    case SeeDemand(addr, i) => DemandKeeps(a, addr, i);
    case SeeFill(addr, i) => FillKeeps(a, addr, i);
  }

  ghost predicate Next(a: Agent, b: Agent) { exists s :: Enabled(a, s) && b == Apply(a, s) }

  ghost predicate Init(a: Agent) { 0 < a.size && a == Agent(a.size, [], None, [], [], [], []) }

  /** The k-th state of the sequence follows from the one before it by a step. */
  ghost predicate StepAt(run: seq<Agent>, k: nat)
    requires 0 < k < |run|
  {
    Next(run[k - 1], run[k])
  }

  ghost predicate Run(run: seq<Agent>) {
    0 < |run| && Init(run[0]) && forall k :: 0 < k < |run| ==> StepAt(run, k)
  }

  lemma {:induction false} RunInv(run: seq<Agent>, k: nat)
    requires Run(run) && k < |run|
    ensures Inv(run[k])
  {
    if k > 0 {
      RunInv(run, k - 1);
      assert StepAt(run, k);
      var s :| Enabled(run[k - 1], s) && run[k] == Apply(run[k - 1], s);
      StepKeeps(run[k - 1], s);
    }
  }

  /** a is the state of some run. */
  ghost predicate Reached(a: Agent) { Folded(a, 3) }

  /** The same at any depth, which has no meaning of its own: a recursive definition is not unfolded at
      every use. */
  ghost predicate Folded(a: Agent, depth: nat) {
    if depth == 0 then exists run :: Run(run) && run[|run| - 1] == a else Folded(a, depth - 1)
  }

  lemma ReachedBy(run: seq<Agent>)
    requires Run(run)
    ensures Reached(run[|run| - 1])
  {
    var a := run[|run| - 1];
    assert Folded(a, 0);
    assert Folded(a, 1);
    assert Folded(a, 2);
  }

  lemma RunTo(a: Agent) returns (run: seq<Agent>)
    requires Reached(a)
    ensures Run(run) && run[|run| - 1] == a
  {
    assert Folded(a, 2);
    assert Folded(a, 1);
    assert Folded(a, 0);
    run :| Run(run) && run[|run| - 1] == a;
  }

  lemma ReachedInit(a: Agent)
    requires Init(a)
    ensures Reached(a)
  {
    ReachedBy([a]);
  }

  lemma ReachedStep(a: Agent, s: Step)
    requires Reached(a) && Enabled(a, s)
    ensures Reached(Apply(a, s))
  {
    var run := RunTo(a);
    var more := run + [Apply(a, s)];
    forall k | 0 < k < |more| ensures StepAt(more, k) {
      assert k < |run| ==> StepAt(run, k);
    }
    ReachedBy(more);
  }

  lemma ReachedInv(a: Agent)
    requires Reached(a)
    ensures Inv(a)
  {
    var run := RunTo(a);
    RunInv(run, |run| - 1);
  }

  /** The calls to the learner are exactly the consecutive pairs of decisions, in the order in which
      they were made, up to the decision that left the tracker last. */
  lemma LearnsConsecutivePairs(run: seq<Agent>, k: nat)
    requires Run(run) && k < |run|
    ensures var a := run[k];
      && |a.learned| == (if |a.made| <= a.size then 0 else |a.made| - a.size - 1)
      && forall n :: 0 <= n < |a.learned| ==>
           && a.learned[n].state == a.made[n].state && a.learned[n].action == a.made[n].action
           && a.learned[n].nextState == a.made[n + 1].state && a.learned[n].nextAction == a.made[n + 1].action
  {
    RunInv(run, k);
    var a := run[k];
    forall n | 0 <= n < |a.learned|
      ensures a.learned[n].state == a.made[n].state && a.learned[n].action == a.made[n].action
        && a.learned[n].nextState == a.made[n + 1].state && a.learned[n].nextAction == a.made[n + 1].action
    {
      assert LearnOk(a, n);
    }
  }

  /** A trained prefetch was rewarded as correct exactly when its address was demanded while it was
      tracked, and as timely exactly when a fill came before the first such demand. */
  lemma RewardedAsDeserved(run: seq<Agent>, k: nat, n: nat)
    requires Run(run) && k < |run| && n < |run[k].learned| < |run[k].made| && n < |run[k].left|
    requires run[k].made[n].addr != NONE_ADDR
    ensures var a, m := run[k], run[k].made[n];
      var demanded, first := DemandIn(a.log, m.addr, m.born, a.left[n]), FillFirst(a.log, m.addr, m.born, a.left[n]);
      && (a.learned[n].reward == CorrectTimely <==> demanded && first)
      && (a.learned[n].reward == CorrectUntimely <==> demanded && !first)
      && (a.learned[n].reward == Incorrect <==> !demanded)
  {
    RunInv(run, k);
    assert LearnOk(run[k], n);
  }

  /** A decision of no prefetch is trained with the reward assigned on the spot, or as no prefetch. */
  lemma NoPrefetchReward(run: seq<Agent>, k: nat, n: nat)
    requires Run(run) && k < |run| && n < |run[k].learned| < |run[k].made|
    requires run[k].made[n].addr == NONE_ADDR
    ensures run[k].learned[n].reward == if run[k].made[n].pre.Some? then run[k].made[n].pre.value else NoPrefetch
  {
    RunInv(run, k);
    assert LearnOk(run[k], n);
  }

  /** Rewards are assigned once: a step leaves every reward that is there as it is. */
  lemma RewardsAreFinal(a: Agent, s: Step, n: nat)
    requires Inv(a) && Enabled(a, s) && n < |a.tracker| && a.tracker[n].reward.Some?
    ensures var b, gone := Apply(a, s), |Apply(a, s).left| - |a.left|;
      && 0 <= gone <= 1
      && (n >= gone ==> b.tracker[n - gone].reward == a.tracker[n].reward)
      && (n < gone ==> b.last.Some? && b.last.value.reward == a.tracker[n].reward)
  {
  }

  /** With a demand to the reserved address the claim fails: a decision not to prefetch is rewarded
      as a correct prefetch. */
  lemma ReservedDemandMisleads()
    ensures var a := Track(Agent(1, [], None, [], [], [], []), NONE_ADDR, 0, 0, None);
      && Search(a.tracker, NONE_ADDR, 0)
      && Demand(a, NONE_ADDR, 0).tracker[0].reward == Some(CorrectUntimely)
  {
    var a := Track(Agent(1, [], None, [], [], [], []), NONE_ADDR, 0, 0, None);
    assert a.tracker == [Decision(NONE_ADDR, 0, 0, false, None)];
  }

  /** The exact condition: a demand leaves every reward as deserved unless it is to the reserved address
      and finds a decision not to prefetch that has no reward yet. The demands of the cache are block
      aligned, and the reserved address is not. */
  lemma DemandKeepsIff(a: Agent, addr: nat, i: nat)
    requires Inv(a) && Search(a.tracker, addr, i)
    ensures Inv(Demand(a, addr, i)) <==> !Misleads(a.tracker, addr, i)
    ensures addr % 64 == 0 ==> !Misleads(a.tracker, addr, i)
  {
    if Misleads(a.tracker, addr, i) {
      var m := a.made[|a.left| + i];
      assert Matches(a.log, m, a.tracker[i], |a.log|);
      var b := Demand(a, addr, i);
      assert Inv(b) ==> Matches(b.log, b.made[|b.left| + i], b.tracker[i], |b.log|);
    } else {
      DemandKeeps(a, addr, i);
    }
  }
}
