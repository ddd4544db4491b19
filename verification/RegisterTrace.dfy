/**
 The register scheduler against the program that was added to it (src/ooo_cpu.cc): what is in the reorder
 buffer is the instruction that the trace supplied, and read-after-write safety holds of that program.
 */
module RegisterTrace {
  import opened Basics
  import opened RegisterScheduler
  import opened RegisterSafety

  /** A run with the steps that were taken. */
  ghost predicate Trace(run: seq<Core>, steps: seq<Step>) {
    && |run| == |steps| + 1 && Init(run[0])
    && forall k :: 0 <= k < |steps| ==> Took(run, steps, k)
  }

  ghost predicate Took(run: seq<Core>, steps: seq<Step>, k: nat)
    requires k < |steps| && |run| == |steps| + 1
  {
    Enabled(run[k], steps[k]) && run[k + 1] == Apply(run[k], steps[k])
  }

  /** The instructions added so far, in program order. */
  function Program(steps: seq<Step>): seq<Instr> {
    if steps == [] then []
    else
      var last := steps[|steps| - 1];
      Program(steps[..|steps| - 1]) + if last.Add? then [last.x] else []
  }

  lemma TraceIsRun(run: seq<Core>, steps: seq<Step>)
    requires Trace(run, steps)
    ensures Run(run)
  {
    forall k | 0 < k < |run| ensures StepAt(run, k) { assert Took(run, steps, k - 1); }
  }

  /** Every run has such steps. */
  lemma {:induction false} StepsOf(run: seq<Core>) returns (steps: seq<Step>)
    requires Run(run)
    ensures Trace(run, steps)
  {
    if |run| == 1 {
      steps := [];
    } else {
      var n := |run| - 1;
      forall k | 0 < k < n ensures StepAt(run[..n], k) { assert StepAt(run, k); }
      var rest := StepsOf(run[..n]);
      assert StepAt(run, n);
      var a :| Enabled(run[n - 1], a) && run[n] == Apply(run[n - 1], a);
      steps := rest + [a];
      forall k | 0 <= k < |steps| ensures Took(run, steps, k) { assert k < |rest| ==> Took(run[..n], rest, k); }
    }
  }

  /** The entry carries this instruction; memory operations are counted down. */
  predicate Carries(e: Entry, x: Instr) {
    e.isMemory == x.isMemory && e.src == x.src && e.dst == x.dst && e.memOps <= x.memOps
  }

  ghost predicate Agrees(s: Core, prog: seq<Instr>) {
    && |prog| == s.nextId
    && forall i :: InWindow(s, i) ==> s.rob[i].id < |prog| && Carries(s.rob[i], prog[s.rob[i].id])
  }

  predicate SameCarried(d: Entry, e: Entry) {
    e.id == d.id && e.isMemory == d.isMemory && e.src == d.src && e.dst == d.dst && e.memOps <= d.memOps
  }

  lemma ScheduleCarries(s: Core, i: int, k: int)
    requires 0 <= i < |s.rob| && 0 <= k < |s.rob|
    ensures SameCarried(s.rob[k], Scheduled(s, i).rob[k])
  {
    assert k != i ==> Scheduled(s, i).rob[k] == AsProducer(s, k, i, 0, SOURCES);
  }

  lemma FinishCarries(s: Core, p: nat, k: int)
    requires p < |s.rob| && 0 <= k < |s.rob|
    ensures SameCarried(s.rob[k], Complete(s, p).rob[k])
  {
  }

  /** Steps other than additions keep what an entry carries. */
  lemma EntryKept(s: Core, a: Step, k: int)
    requires Shape(s) && Enabled(s, a) && !a.Add? && 0 <= k < |s.rob| && InWindow(Apply(s, a), k)
    ensures InWindow(s, k) && SameCarried(s.rob[k], Apply(s, a).rob[k])
  {
    match a {
      case Schedule(i) => ScheduleCarries(s, i, k);
      case Execute0 =>
      case Execute1 =>
      case MemIssue(i) =>
      case MemDone(i) =>
      case Finish(i) => FinishCarries(s, i, k);
      case RetireHead =>
    }
  }

  lemma StepAgrees(s: Core, a: Step, prog: seq<Instr>)
    requires Inv(s) && Enabled(s, a) && Agrees(s, prog)
    ensures Agrees(Apply(s, a), prog + if a.Add? then [a.x] else [])
  {
    var t, more := Apply(s, a), prog + if a.Add? then [a.x] else [];
    forall i | InWindow(t, i) ensures t.rob[i].id < |more| && Carries(t.rob[i], more[t.rob[i].id]) {
      if a.Add? { assert i != s.tail ==> InWindow(s, i); } else { EntryKept(s, a, i); }
    }
  }

  /** In every state of every run each instruction in the buffer is the one the program has at its id. */
  lemma {:induction false} WindowIsProgram(run: seq<Core>, steps: seq<Step>, k: nat)
    requires Trace(run, steps) && k <= |steps|
    ensures Agrees(run[k], Program(steps[..k]))
  {
    if k > 0 {
      WindowIsProgram(run, steps, k - 1);
      TraceIsRun(run, steps);
      RunInv(run, k - 1);
      assert Took(run, steps, k - 1);
      StepAgrees(run[k - 1], steps[k - 1], Program(steps[..k - 1]));
      assert steps[..k][..k - 1] == steps[..k - 1];
    }
  }

  /** m is the latest instruction before n that writes register r. */
  ghost predicate LatestWriter(prog: seq<Instr>, m: nat, n: nat, r: nat) {
    m < n <= |prog| && r != 0 && r in prog[m].dst && forall q :: m < q < n ==> r !in prog[q].dst
  }

  /** The place of instruction m in the window. */
  function IndexOf(s: Core, m: nat): int
    requires |s.retired| <= m
  {
    Wrap(s.head + m - |s.retired|, |s.rob|)
  }

  lemma IndexHolds(s: Core, m: nat)
    requires Inv(s) && |s.retired| <= m < s.nextId
    ensures InWindow(s, IndexOf(s, m)) && s.rob[IndexOf(s, m)].id == m
  {
  }

  /** When an instruction has left the idle state, the latest earlier instruction of the program that
      writes one of its sources has retired or has completed in the window. */
  lemma ProgramRawSafety(run: seq<Core>, steps: seq<Step>, k: nat, i: int, j: nat, m: nat)
    requires Trace(run, steps) && k <= |steps| && InWindow(run[k], i) && run[k].rob[i].executed != Idle && j < SOURCES
    requires var prog, n := Program(steps[..k]), run[k].rob[i].id;
      n < |prog| && LatestWriter(prog, m, n, prog[n].src[j])
    ensures m < |run[k].retired| || (InWindow(run[k], IndexOf(run[k], m)) && run[k].rob[IndexOf(run[k], m)].id == m
      && run[k].rob[IndexOf(run[k], m)].executed == Completed)
  {
    var s, prog := run[k], Program(steps[..k]);
    TraceIsRun(run, steps);
    RunInv(run, k);
    WindowIsProgram(run, steps, k);
    if m >= |s.retired| {
      var w := IndexOf(s, m);
      IndexHolds(s, m);
      var r := s.rob[i].src[j];
      assert Age(s, w) == m - |s.retired| < Age(s, i);
      forall q | InWindow(s, q) && Age(s, w) < Age(s, q) < Age(s, i) ensures !Writes(s.rob[q], r) {
        assert Carries(s.rob[q], prog[s.rob[q].id]);
      }
      assert YoungestWriter(s, w, i, r);
      RawSafety(run, k, i, j, w);
    }
  }

  // ---------------------------------------------------------------------------------------------
  // No instruction waits for a register that it does not read

  ghost predicate LinksWrite(s: Core) {
    forall p, j, c :: InWindow(s, p) && 0 <= j < SOURCES && c in s.rob[p].slotDeps[j] ==> LinkWrites(s, p, j, c)
  }

  ghost predicate LinkWrites(s: Core, p: int, j: int, c: int)
    requires InWindow(s, p) && 0 <= j < SOURCES
  {
    0 <= c < |s.rob| && Writes(s.rob[p], s.rob[c].src[j])
  }

  lemma ScheduleLinksWrite(s: Core, i: int)
    requires Inv(s) && LinksWrite(s) && InWindow(s, i)
    ensures LinksWrite(Scheduled(s, i))
  {
    var t := Scheduled(s, i);
    forall p, j, c | InWindow(t, p) && 0 <= j < SOURCES && c in t.rob[p].slotDeps[j] ensures LinkWrites(t, p, j, c) {
      ScheduleCarries(s, i, p);
      assert p != i ==> t.rob[p] == AsProducer(s, p, i, 0, SOURCES);
      if c in s.rob[p].slotDeps[j] {
        assert LinkWrites(s, p, j, c) && LinkOk(s, p, c);
        ScheduleCarries(s, i, c);
      } else {
        assert c == i && Found(s, p, i, j, 0, SOURCES);
        ScheduleCarries(s, i, i);
      }
    }
  }

  lemma FinishLinksWrite(s: Core, p: nat)
    requires Inv(s) && LinksWrite(s) && p < |s.rob|
    ensures LinksWrite(Complete(s, p))
  {
    var t := Complete(s, p);
    forall q, j, c | InWindow(t, q) && 0 <= j < SOURCES && c in t.rob[q].slotDeps[j] ensures LinkWrites(t, q, j, c) {
      FinishCarries(s, p, q);
      assert LinkWrites(s, q, j, c);
      FinishCarries(s, p, c);
    }
  }

  lemma AddLinksWrite(s: Core, t: Core)
    requires Inv(s) && LinksWrite(s) && s.occupancy < |s.rob| && AddStep(s, t)
    ensures LinksWrite(t)
  {
    AddWindow(s, t);
    forall p, j, c | InWindow(t, p) && 0 <= j < SOURCES && c in t.rob[p].slotDeps[j] ensures LinkWrites(t, p, j, c) {
      assert p != s.tail;
      assert LinkWrites(s, p, j, c) && LinkOk(s, p, c);
    }
  }

  lemma RetireLinksWrite(s: Core, t: Core)
    requires Inv(s) && LinksWrite(s) && RetireStep(s, t)
    ensures LinksWrite(t)
  {
    RetireWindow(s, t);
    forall p, j, c | InWindow(t, p) && 0 <= j < SOURCES && c in t.rob[p].slotDeps[j] ensures LinkWrites(t, p, j, c) {
      assert LinkWrites(s, p, j, c) && LinkOk(s, p, c);
      assert c != s.head;
    }
  }

  lemma StageLinksWrite(s: Core, t: Core, i: int)
    requires LinksWrite(s) && StageStep(s, t, i)
    ensures LinksWrite(t)
  {
    forall p, j, c | InWindow(t, p) && 0 <= j < SOURCES && c in t.rob[p].slotDeps[j] ensures LinkWrites(t, p, j, c) {
      assert InWindow(s, p) && LinkWrites(s, p, j, c);
    }
  }

  lemma StepLinksWrite(s: Core, a: Step)
    requires Inv(s) && LinksWrite(s) && Enabled(s, a)
    ensures LinksWrite(Apply(s, a))
  {
    var t := Apply(s, a);
    match a {
      case Add(x) => AddLinksWrite(s, t);
      case Schedule(i) => ScheduleLinksWrite(s, i);
      case Execute0 => FrontIsReady(s, a); StageLinksWrite(s, t, s.rte0[0]);
      case Execute1 => FrontIsReady(s, a); StageLinksWrite(s, t, s.rte1[0]);
      case MemIssue(i) => StageLinksWrite(s, t, i);
      case MemDone(i) => StageLinksWrite(s, t, i);
      case Finish(i) => FinishLinksWrite(s, i);
      case RetireHead => RetireLinksWrite(s, t);
    }
  }

  lemma FrontIsReady(s: Core, a: Step)
    requires Inv(s) && Enabled(s, a) && (a.Execute0? || a.Execute1?)
    ensures StageStep(s, Apply(s, a), if a.Execute0? then s.rte0[0] else s.rte1[0])
  {
    var i := if a.Execute0? then s.rte0[0] else s.rte1[0];
    assert (s.rte0 + s.rte1)[if a.Execute0? then 0 else |s.rte0|] == i;
    assert i in s.rte0 + s.rte1;
    assert CountOk(s, i);
  }

  lemma InitLinksWrite(s: Core)
    requires Init(s)
    ensures LinksWrite(s)
  {
  }

  lemma NextLinksWrite(s: Core, t: Core)
    requires Inv(s) && LinksWrite(s) && Next(s, t)
    ensures LinksWrite(t)
  {
    var a :| Enabled(s, a) && t == Apply(s, a);
    StepLinksWrite(s, a);
  }

  lemma {:induction false} RunLinksWrite(run: seq<Core>, k: nat)
    requires Run(run) && k < |run|
    ensures LinksWrite(run[k])
  {
    if k == 0 {
      InitLinksWrite(run[0]);
    } else {
      RunLinksWrite(run, k - 1);
      RunInv(run, k - 1);
      assert StepAt(run, k);
      NextLinksWrite(run[k - 1], run[k]);
    }
  }

  /** A scheduled instruction that is not register-ready waits for an earlier instruction of the program
      that writes one of its sources and has not completed. */
  lemma WaitsForWriter(run: seq<Core>, steps: seq<Step>, k: nat, i: int) returns (p: int, j: nat)
    requires Trace(run, steps) && k <= |steps| && InWindow(run[k], i)
    requires run[k].rob[i].scheduled != Idle && !run[k].rob[i].regReady
    ensures InWindow(run[k], p) && run[k].rob[p].executed != Completed && j < SOURCES
    ensures var prog, m, n := Program(steps[..k]), run[k].rob[p].id, run[k].rob[i].id;
      m < n < |prog| && prog[n].src[j] != 0 && prog[n].src[j] in prog[m].dst
  {
    var s := run[k];
    TraceIsRun(run, steps);
    RunInv(run, k);
    RunLinksWrite(run, k);
    WindowIsProgram(run, steps, k);
    assert CountOk(s, i);
    assert Links(s, i) != {};
    var x :| x in Links(s, i);
    p, j := x.0, x.1;
    assert LinkWrites(s, p, j, i) && LinkOk(s, p, i);
  }

  /** Instructions retire in program order: the n-th to retire is the n-th of the program. */
  lemma RetiresProgram(run: seq<Core>, steps: seq<Step>, k: nat)
    requires Trace(run, steps) && k <= |steps|
    ensures |run[k].retired| + run[k].occupancy == |Program(steps[..k])|
    ensures forall n :: 0 <= n < |run[k].retired| ==> run[k].retired[n] == n
  {
    TraceIsRun(run, steps);
    RunInv(run, k);
    WindowIsProgram(run, steps, k);
  }

  // ---------------------------------------------------------------------------------------------
  // Memory operations

  predicate MemDoneOf(s: Core, a: Step, id: nat) { a.MemDone? && 0 <= a.i < |s.rob| && s.rob[a.i].id == id }

  /** The memory operations of an instruction that have completed in the first k steps. */
  function MemDones(run: seq<Core>, steps: seq<Step>, k: nat, id: nat): nat
    requires k <= |steps| && |run| == |steps| + 1
  {
    if k == 0 then 0 else MemDones(run, steps, k - 1, id) + if MemDoneOf(run[k - 1], steps[k - 1], id) then 1 else 0
  }

  lemma SameId(s: Core, p: int, i: int)
    requires Shape(s) && WindowOk(s) && InWindow(s, p) && InWindow(s, i) && s.rob[p].id == s.rob[i].id
    ensures p == i
  {
  }

  lemma ScheduleOps(s: Core, p: int, i: int)
    requires 0 <= p < |s.rob| && 0 <= i < |s.rob|
    ensures Scheduled(s, p).rob[i].memOps == s.rob[i].memOps
  {
    if i != p { assert Scheduled(s, p).rob[i] == AsProducer(s, i, p, 0, SOURCES); }
  }

  /** Other steps leave the operations of an entry alone. */
  lemma StepOps(s: Core, a: Step, i: int)
    requires Shape(s) && Enabled(s, a) && !a.Add? && !a.MemDone? && 0 <= i < |s.rob| && InWindow(Apply(s, a), i)
    ensures Apply(s, a).rob[i].memOps == s.rob[i].memOps
  {
    match a {
      case Schedule(p) => ScheduleOps(s, p, i);
      case Execute0 =>
      case Execute1 =>
      case MemIssue(p) =>
      case Finish(p) =>
      case RetireHead =>
    }
  }

  /** A step counts down the operations of the entry that it is about. */
  lemma MemStep(s: Core, a: Step, i: int)
    requires Inv(s) && Enabled(s, a) && 0 <= i < |s.rob| && InWindow(Apply(s, a), i) && !(a.Add? && i == s.tail)
    ensures var t := Apply(s, a);
      && InWindow(s, i) && t.rob[i].id == s.rob[i].id
      && s.rob[i].memOps == t.rob[i].memOps + if MemDoneOf(s, a, s.rob[i].id) then 1 else 0
  {
    if a.Add? {
    } else {
      EntryKept(s, a, i);
      if a.MemDone? {
        if s.rob[a.i].id == s.rob[i].id { SameId(s, a.i, i); }
      } else {
        StepOps(s, a, i);
      }
    }
  }

  lemma SameSize(s: Core, a: Step)
    requires Shape(s) && Enabled(s, a)
    ensures |Apply(s, a).rob| == |s.rob|
  {
  }

  lemma MemAdded(s: Core, a: Step)
    requires Inv(s) && Enabled(s, a) && a.Add?
    ensures var t := Apply(s, a); s.tail < |t.rob| && t.rob[s.tail].id == s.nextId && t.rob[s.tail].memOps == a.x.memOps
  {
  }

  lemma MemNew(s: Core, a: Step, id: nat)
    requires Inv(s) && Enabled(s, a) && id >= Apply(s, a).nextId
    ensures id >= s.nextId && !MemDoneOf(s, a, id)
  {
  }

  /** What step k does to the entry at i, or that it adds it. */
  lemma MemBefore(run: seq<Core>, steps: seq<Step>, k: nat, i: int)
    requires Trace(run, steps) && k < |steps| && InWindow(run[k + 1], i)
    ensures if steps[k].Add? && i == run[k].tail then
        run[k + 1].rob[i].id == run[k].nextId && run[k + 1].rob[i].memOps == steps[k].x.memOps
      else
        && InWindow(run[k], i) && run[k + 1].rob[i].id == run[k].rob[i].id
        && run[k].rob[i].memOps == run[k + 1].rob[i].memOps + if MemDoneOf(run[k], steps[k], run[k].rob[i].id) then 1 else 0
  {
    TraceIsRun(run, steps);
    RunInv(run, k);
    assert Took(run, steps, k);
    if steps[k].Add? && i == run[k].tail { MemAdded(run[k], steps[k]); } else { SameSize(run[k], steps[k]); MemStep(run[k], steps[k], i); }
  }

  lemma {:induction false} NoneYet(run: seq<Core>, steps: seq<Step>, k: nat, id: nat)
    requires Trace(run, steps) && k <= |steps| && id >= run[k].nextId
    ensures MemDones(run, steps, k, id) == 0
  {
    if k > 0 {
      TraceIsRun(run, steps);
      RunInv(run, k - 1);
      assert Took(run, steps, k - 1);
      MemNew(run[k - 1], steps[k - 1], id);
      NoneYet(run, steps, k - 1, id);
    }
  }

  lemma ProgramGrows(steps: seq<Step>, k: nat)
    requires k < |steps|
    ensures Program(steps[..k + 1]) == Program(steps[..k]) + if steps[k].Add? then [steps[k].x] else []
  {
    assert steps[..k + 1][..k] == steps[..k];
  }

  /** An entry still waits for as many operations as its instruction has in the program and have not completed. */
  lemma {:induction false} OperationsLeft(run: seq<Core>, steps: seq<Step>, k: nat, i: int)
    requires Trace(run, steps) && k <= |steps| && InWindow(run[k], i)
    ensures var prog, id := Program(steps[..k]), run[k].rob[i].id;
      id < |prog| && run[k].rob[i].memOps + MemDones(run, steps, k, id) == prog[id].memOps
  {
    assert k > 0;
    MemBefore(run, steps, k - 1, i);
    ProgramGrows(steps, k - 1);
    WindowIsProgram(run, steps, k - 1);
    if steps[k - 1].Add? && i == run[k - 1].tail {
      NoneYet(run, steps, k - 1, run[k - 1].nextId);
    } else {
      OperationsLeft(run, steps, k - 1, i);
    }
  }

  /** A memory instruction completes only when all its operations have. */
  lemma CompletesAfterMemory(run: seq<Core>, steps: seq<Step>, k: nat)
    requires Trace(run, steps) && k < |steps| && steps[k].Finish?
    ensures var prog, i := Program(steps[..k]), steps[k].i;
      && InWindow(run[k], i) && run[k].rob[i].id < |prog|
      && (prog[run[k].rob[i].id].isMemory ==>
          MemDones(run, steps, k, run[k].rob[i].id) == prog[run[k].rob[i].id].memOps)
  {
    assert Took(run, steps, k);
    OperationsLeft(run, steps, k, steps[k].i);
    WindowIsProgram(run, steps, k);
  }
}
