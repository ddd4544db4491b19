/**
 Scooby's tracker against the calls made to it (prefetcher/scooby.cc): which decisions it takes up, what it
 remembers of them, and that the rewards are those of the calls.
 */
module ScoobyTrace {
  import opened ScoobyTracker

  /** A run with the steps that were taken. */
  ghost predicate Trace(run: seq<Agent>, steps: seq<Step>) {
    && |run| == |steps| + 1 && Init(run[0])
    && forall k :: 0 <= k < |steps| ==> Took(run, steps, k)
  }

  ghost predicate Took(run: seq<Agent>, steps: seq<Step>, k: nat)
    requires k < |steps| && |run| == |steps| + 1
  {
    Enabled(run[k], steps[k]) && run[k + 1] == Apply(run[k], steps[k])
  }

  lemma TraceInv(run: seq<Agent>, steps: seq<Step>, k: nat)
    requires Trace(run, steps) && k <= |steps|
    ensures Run(run) && Inv(run[k])
  {
    forall n | 0 < n < |run| ensures StepAt(run, n) { assert Took(run, steps, n - 1); }
    RunInv(run, k);
  }

  // ---------------------------------------------------------------------------------------------
  // What the calls say

  /** A decision is taken up unless its address is that of one of the latest `size` ones; decisions not to
      prefetch always are. */
  predicate TakenUp(ds: seq<Made>, size: nat, addr: nat) {
    addr == NONE_ADDR || forall j :: 0 <= j < |ds| && |ds| - size <= j ==> ds[j].addr != addr
  }

  /** The decisions taken up by a call, after these, and the events that it causes. */
  function NewDecisions(s: Step, ds: seq<Made>, size: nat, now: nat): seq<Made> {
    if s.MakeDecision? && TakenUp(ds, size, s.addr) then [Made(s.addr, s.state, s.action, now, s.pre)] else []
  }

  function NewEvents(s: Step, ds: seq<Made>, size: nat): seq<Event> {
    match s
    case MakeDecision(addr, _, _, _) => if TakenUp(ds, size, addr) then [Tracked(addr)] else []
    case SeeDemand(addr, _) => [Demanded(addr)]
    case SeeFill(addr, _) => [Filled(addr)]
  }

  function Decisions(steps: seq<Step>, size: nat): seq<Made> {
    if steps == [] then []
    else
      var before := steps[..|steps| - 1];
      var ds := Decisions(before, size);
      ds + NewDecisions(steps[|steps| - 1], ds, size, |Events(before, size)|)
  }

  function Events(steps: seq<Step>, size: nat): seq<Event> {
    if steps == [] then []
    else
      var before := steps[..|steps| - 1];
      Events(before, size) + NewEvents(steps[|steps| - 1], Decisions(before, size), size)
  }

  ghost predicate Records(a: Agent, ds: seq<Made>, log: seq<Event>) { a.made == ds && a.log == log }

  /** The tracker holds the latest decisions, as many as fit, with their addresses, states and actions. */
  ghost predicate HoldsLatest(a: Agent, ds: seq<Made>) {
    && |a.tracker| == (if |ds| < a.size then |ds| else a.size)
    && forall i :: 0 <= i < |a.tracker| ==> SameDecision(a.tracker[i], ds[|ds| - |a.tracker| + i])
  }

  predicate SameDecision(d: Decision, m: Made) { d.addr == m.addr && d.state == m.state && d.action == m.action }

  lemma InvHoldsLatest(a: Agent)
    requires Inv(a)
    ensures HoldsLatest(a, a.made)
  {
    forall i | 0 <= i < |a.tracker| ensures SameDecision(a.tracker[i], a.made[|a.made| - |a.tracker| + i]) {
      assert Matches(a.log, a.made[|a.left| + i], a.tracker[i], |a.log|);
    }
  }

  lemma PresentIff(a: Agent, addr: nat)
    requires HoldsLatest(a, a.made)
    ensures addr != NONE_ADDR && Present(a.tracker, addr) <==> !TakenUp(a.made, a.size, addr)
  {
    var from := |a.made| - |a.tracker|;
    if i :| 0 <= i < |a.tracker| && a.tracker[i].addr == addr {
      assert SameDecision(a.tracker[i], a.made[from + i]);
    }
    if j :| 0 <= j < |a.made| && |a.made| - a.size <= j && a.made[j].addr == addr {
      assert SameDecision(a.tracker[j - from], a.made[from + (j - from)]);
    }
  }

  /** A decision leaves when the one `size` places later is made. */
  ghost predicate LeaveInTime(a: Agent) {
    forall n :: 0 <= n < |a.left| ==> n + a.size < |a.made| && a.left[n] == a.made[n + a.size].born
  }

  /** One step adds to the records what the call says. */
  lemma StepRecords(a: Agent, s: Step)
    requires Inv(a) && LeaveInTime(a) && Enabled(a, s)
    ensures Apply(a, s).size == a.size && LeaveInTime(Apply(a, s))
    ensures Records(Apply(a, s), a.made + NewDecisions(s, a.made, a.size, |a.log|), a.log + NewEvents(s, a.made, a.size))
  {
    InvHoldsLatest(a);
    if s.MakeDecision? { PresentIff(a, s.addr); }
  }

  /** In every state of every run the record of decisions and the log of events are those of the calls, and
      the tracker holds the latest decisions taken up. */
  lemma {:induction false} TrackerIsLatest(run: seq<Agent>, steps: seq<Step>, k: nat)
    requires Trace(run, steps) && k <= |steps|
    ensures run[k].size == run[0].size && HoldsLatest(run[k], Decisions(steps[..k], run[0].size))
    ensures Records(run[k], Decisions(steps[..k], run[0].size), Events(steps[..k], run[0].size)) && LeaveInTime(run[k])
  {
    TraceInv(run, steps, k);
    InvHoldsLatest(run[k]);
    if k > 0 {
      TrackerIsLatest(run, steps, k - 1);
      TraceInv(run, steps, k - 1);
      assert Took(run, steps, k - 1);
      StepRecords(run[k - 1], steps[k - 1]);
      assert steps[..k][..k - 1] == steps[..k - 1];
    }
  }

  /** The reward that the demands and fills of a prefetch's address deserve. */
  ghost predicate FairReward(log: seq<Event>, m: Made, end: nat, reward: Kind) {
    var demanded, first := DemandIn(log, m.addr, m.born, end), FillFirst(log, m.addr, m.born, end);
    && (reward == CorrectTimely <==> demanded && first)
    && (reward == CorrectUntimely <==> demanded && !first)
    && (reward == Incorrect <==> !demanded)
  }

  /** The learner against the calls: it was given exactly the consecutive pairs of decisions taken up, each
      prefetch with the reward deserved from when it was made until the decision `size` places later was. */
  lemma LearnsFromCalls(run: seq<Agent>, steps: seq<Step>, k: nat, n: nat)
    requires Trace(run, steps) && k <= |steps|
    ensures var ds, size := Decisions(steps[..k], run[0].size), run[0].size;
      |run[k].learned| == if |ds| <= size then 0 else |ds| - size - 1
    ensures n < |run[k].learned| ==> LearnedFrom(Decisions(steps[..k], run[0].size), Events(steps[..k], run[0].size), run[0].size, n, run[k].learned[n])
  {
    TraceInv(run, steps, k);
    TrackerIsLatest(run, steps, k);
    LearnsConsecutivePairs(run, k);
    if n < |run[k].learned| && run[k].made[n].addr != NONE_ADDR { RewardedAsDeserved(run, k, n); }
  }

  ghost predicate LearnedFrom(ds: seq<Made>, log: seq<Event>, size: nat, n: nat, r: Learn) {
    && n + 1 < |ds| && n + size < |ds|
    && r.state == ds[n].state && r.action == ds[n].action
    && r.nextState == ds[n + 1].state && r.nextAction == ds[n + 1].action
    && (ds[n].addr != NONE_ADDR ==> FairReward(log, ds[n], ds[n + size].born, r.reward))
  }
}
