/**
 The reorder buffer never gets stuck (src/ooo_cpu.cc): as long as an instruction is in it some step other
 than adding is possible, every such step uses up work, and without additions all instructions retire.
 */
module RegisterProgress {
  import opened RegisterScheduler
  import opened RegisterSafety

  function StagesLeft(s: Stage): nat {
    match s
    case Idle => 2
    case InFlight => 1
    case Completed => 0
  }

  /** The steps that are at most left for this entry. */
  function Rank(e: Entry): nat {
    if e.occupied then 1 + StagesLeft(e.scheduled) + StagesLeft(e.executed) + e.memOps else 0
  }

  function Work(rob: seq<Entry>): nat {
    if rob == [] then 0 else Work(rob[..|rob| - 1]) + Rank(rob[|rob| - 1])
  }

  ghost predicate NoMore(d: seq<Entry>, e: seq<Entry>) {
    |d| == |e| && forall k :: 0 <= k < |d| ==> Rank(e[k]) <= Rank(d[k])
  }

  lemma {:induction false} WorkFalls(d: seq<Entry>, e: seq<Entry>, i: int)
    requires NoMore(d, e) && (0 <= i < |d| ==> Rank(e[i]) < Rank(d[i]))
    ensures Work(e) <= Work(d) && (0 <= i < |d| ==> Work(e) < Work(d))
  {
    if d != [] { WorkFalls(d[..|d| - 1], e[..|d| - 1], i); }
  }

  /** A memory instruction whose operations have all been issued has started executing. */
  predicate IssuedOk(e: Entry) { e.occupied && e.isMemory && e.scheduled == Completed ==> e.executed != Idle }

  ghost predicate AllIssuedOk(s: Core) { forall k :: 0 <= k < |s.rob| ==> IssuedOk(s.rob[k]) }

  /** What a step does to one entry. */
  ghost predicate Advances(d: Entry, e: Entry, strict: bool) {
    && (IssuedOk(d) ==> IssuedOk(e)) && Rank(e) <= Rank(d) && (strict ==> Rank(e) < Rank(d))
  }

  lemma ScheduleAdvances(s: Core, i: int, k: int)
    requires InWindow(s, i) && s.rob[i].scheduled == Idle && s.rob[i].occupied && 0 <= k < |s.rob|
    ensures Advances(s.rob[k], Scheduled(s, i).rob[k], k == i)
  {
    assert k != i ==> Scheduled(s, i).rob[k] == AsProducer(s, k, i, 0, SOURCES);
  }

  /** A consumer that is relieved of its last link had not been issued. */
  lemma FinishAdvances(s: Core, p: int, k: int)
    requires Inv(s) && InWindow(s, p) && s.rob[p].executed == InFlight && 0 <= k < |s.rob| && IssuedOk(s.rob[k])
    ensures Advances(s.rob[k], Complete(s, p).rob[k], k == p)
  {
    assert InWindow(s, k) ==> CountOk(s, k);
    assert s.rob[k].occupied <==> InWindow(s, k);
    assert s.rob[p].occupied <==> InWindow(s, p);
  }

  /** The entry that the step is about. */
  ghost function Subject(s: Core, a: Step): int
    requires Enabled(s, a)
  {
    match a
    case Add(_) => s.tail
    case Schedule(i) => i
    case Execute0 => s.rte0[0]
    case Execute1 => s.rte1[0]
    case MemIssue(i) => i
    case MemDone(i) => i
    case Finish(i) => i
    case RetireHead => s.head
  }

  lemma FrontWaits(s: Core, a: Step)
    requires Inv(s) && Enabled(s, a) && (a.Execute0? || a.Execute1?)
    ensures var i := Subject(s, a); InWindow(s, i) && Waiting(s.rob[i]) && s.rob[i].occupied
  {
    var q := s.rte0 + s.rte1;
    assert q[if a.Execute0? then 0 else |s.rte0|] == Subject(s, a);
    assert Subject(s, a) in q;
  }

  lemma EntryAdvances(s: Core, a: Step, k: int)
    requires Inv(s) && Enabled(s, a) && !a.Add? && 0 <= k < |s.rob| && IssuedOk(s.rob[k])
    ensures Advances(s.rob[k], Apply(s, a).rob[k], k == Subject(s, a))
  {
    assert forall i :: InWindow(s, i) ==> s.rob[i].occupied;
    match a {
      case Schedule(i) => ScheduleAdvances(s, i, k);
      case Execute0 => FrontWaits(s, a);
      case Execute1 => FrontWaits(s, a);
      case MemIssue(i) =>
      case MemDone(i) =>
      case Finish(i) => FinishAdvances(s, i, k);
      case RetireHead =>
    }
  }

  lemma AllAdvance(d: seq<Entry>, e: seq<Entry>, i: int)
    requires 0 <= i < |d| == |e| && forall k :: 0 <= k < |d| ==> IssuedOk(d[k]) && Advances(d[k], e[k], k == i)
    ensures Work(e) < Work(d) && forall k :: 0 <= k < |e| ==> IssuedOk(e[k])
  {
    WorkFalls(d, e, i);
  }

  /** Every step but an addition uses up work. */
  lemma StepUsesWork(s: Core, a: Step)
    requires Inv(s) && AllIssuedOk(s) && Enabled(s, a) && !a.Add?
    ensures Work(Apply(s, a).rob) < Work(s.rob) && AllIssuedOk(Apply(s, a))
  {
    var t := Apply(s, a);
    forall k | 0 <= k < |s.rob| ensures Advances(s.rob[k], t.rob[k], k == Subject(s, a)) { EntryAdvances(s, a, k); }
    if a.Execute0? || a.Execute1? { FrontWaits(s, a); }
    AllAdvance(s.rob, t.rob, Subject(s, a));
  }

  lemma StepIssuedOk(s: Core, a: Step)
    requires Inv(s) && AllIssuedOk(s) && Enabled(s, a)
    ensures AllIssuedOk(Apply(s, a))
  {
    if !a.Add? { StepUsesWork(s, a); }
  }

  lemma {:induction false} RunIssuedOk(run: seq<Core>, k: nat)
    requires Run(run) && k < |run|
    ensures AllIssuedOk(run[k])
  {
    if k > 0 {
      RunIssuedOk(run, k - 1);
      RunInv(run, k - 1);
      assert StepAt(run, k);
      var a :| Enabled(run[k - 1], a) && run[k] == Apply(run[k - 1], a);
      StepIssuedOk(run[k - 1], a);
    }
  }

  // ---------------------------------------------------------------------------------------------
  // No deadlock

  /** What the oldest instruction can do next. */
  ghost function HeadStep(s: Core): Step
    requires s.head < |s.rob|
  {
    var h := s.rob[s.head];
    if h.scheduled == Idle then Schedule(s.head)
    else if h.executed == Completed then RetireHead
    else if h.executed == InFlight then (if h.isMemory && h.memOps > 0 then MemDone(s.head) else Finish(s.head))
    else if h.isMemory then MemIssue(s.head)
    else if s.rte0 != [] then Execute0 else Execute1
  }

  /** In every state of every run: as long as the reorder buffer is not empty, some step other than adding
      an instruction is possible; one that concerns its head, or the front of a ready queue. */
  lemma NeverStuck(run: seq<Core>, k: nat)
    requires Run(run) && k < |run| && run[k].occupancy > 0
    ensures run[k].head < |run[k].rob| && !HeadStep(run[k]).Add? && Enabled(run[k], HeadStep(run[k]))
  {
    var s := run[k];
    RunInv(run, k);
    RunIssuedOk(run, k);
    HeadNeverWaits(run, k);
    assert InWindow(s, s.head) && CountOk(s, s.head) && s.rob[s.head].occupied;
    assert IssuedOk(s.rob[s.head]);
    if Waiting(s.rob[s.head]) { WaitingQueued(s, s.head); }
  }

  lemma WaitingQueued(s: Core, i: int)
    requires QueuesOk(s) && InWindow(s, i) && Waiting(s.rob[i])
    ensures Enabled(s, if s.rte0 != [] then Execute0 else Execute1)
  {
    var q := s.rte0 + s.rte1;
    assert i in q;
    assert q[0] in q;
    assert q[0] == if s.rte0 != [] then s.rte0[0] else s.rte1[0];
  }

  /** The k-th state follows from the one before it by a step other than an addition. */
  ghost predicate QuietAt(run: seq<Core>, k: nat)
    requires 0 < k < |run|
  {
    exists a: Step :: !a.Add? && Enabled(run[k - 1], a) && run[k] == Apply(run[k - 1], a)
  }

  /** From its k-th state on, the run adds nothing. */
  ghost predicate QuietFrom(run: seq<Core>, k: nat) { forall j :: k < j < |run| ==> QuietAt(run, j) }

  lemma QuietUsesWork(run: seq<Core>, m: nat)
    requires Run(run) && 0 < m < |run| && QuietAt(run, m)
    ensures Work(run[m].rob) < Work(run[m - 1].rob)
  {
    RunInv(run, m - 1);
    RunIssuedOk(run, m - 1);
    var a: Step :| !a.Add? && Enabled(run[m - 1], a) && run[m] == Apply(run[m - 1], a);
    StepUsesWork(run[m - 1], a);
  }

  /** Without additions no run is longer than the work at its start. */
  lemma {:induction false} QuietRunsEnd(run: seq<Core>, k: nat, m: nat)
    requires Run(run) && k <= m < |run| && QuietFrom(run, k)
    ensures Work(run[m].rob) + (m - k) <= Work(run[k].rob)
  {
    if k < m {
      QuietRunsEnd(run, k, m - 1);
      QuietUsesWork(run, m);
    }
  }

  lemma HeadUsesWork(run: seq<Core>)
    requires Run(run) && run[|run| - 1].occupancy > 0
    ensures var s := run[|run| - 1];
      && s.head < |s.rob| && !HeadStep(s).Add? && Enabled(s, HeadStep(s))
      && Work(Apply(s, HeadStep(s)).rob) < Work(s.rob)
  {
    NeverStuck(run, |run| - 1);
    RunInv(run, |run| - 1);
    RunIssuedOk(run, |run| - 1);
    StepUsesWork(run[|run| - 1], HeadStep(run[|run| - 1]));
  }

  lemma Extended(run: seq<Core>, k: nat, a: Step) returns (more: seq<Core>)
    requires Run(run) && k < |run| && Enabled(run[|run| - 1], a) && !a.Add? && QuietFrom(run, k)
    ensures Run(more) && |more| == |run| + 1 && more[..|run|] == run && more[|run|] == Apply(run[|run| - 1], a)
    ensures QuietFrom(more, k)
  {
    more := run + [Apply(run[|run| - 1], a)];
    forall j | 0 < j < |more| ensures StepAt(more, j) { assert j < |run| ==> StepAt(run, j); }
    forall j | k < j < |more| ensures QuietAt(more, j) { assert j < |run| ==> QuietAt(run, j); }
  }

  /** Every run can be continued without additions until every instruction in the buffer has retired. */
  lemma {:induction false} Drains(run: seq<Core>, k: nat) returns (more: seq<Core>)
    requires Run(run) && k < |run| && QuietFrom(run, k)
    ensures Run(more) && |run| <= |more| && more[..|run|] == run && QuietFrom(more, k)
    ensures more[|more| - 1].occupancy == 0
    decreases Work(run[|run| - 1].rob)
  {
    var s := run[|run| - 1];
    if s.occupancy == 0 {
      more := run;
    } else {
      HeadUsesWork(run);
      var next := Extended(run, k, HeadStep(s));
      more := Drains(next, k);
      assert more[..|run|] == more[..|next|][..|run|];
    }
  }
}
