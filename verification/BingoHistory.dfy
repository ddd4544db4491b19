/**
 The history table against the generations that were sent (prefetcher/bingo.cc): what a lookup finds is the
 footprint of the latest generation whose trigger had this PC and block.
 */
module BingoHistory {
  import opened Bits
  import opened BingoKeys
  import opened Rotation
  import opened BingoGenerations
  import opened BingoLife

  /** The history key of a generation that has ended. */
  function KeyOf(s: Setup, e: Ended): nat { BuildKey(s.c, e.g.pc, e.region * Pow2(s.p) + e.g.offset) }

  /** The i-th generation sent is the latest with this key, and its footprint is the latest one. */
  ghost predicate LatestAt(s: Setup, l: Life, key: nat, i: nat) {
    && i < |l.sent| && key in l.latest && KeyOf(s, l.sent[i]) == key && l.latest[key].pattern == l.sent[i].g.pattern
    && forall j :: i < j < |l.sent| ==> KeyOf(s, l.sent[j]) != key
  }

  ghost predicate LatestOk(s: Setup, l: Life) { forall key :: key in l.latest ==> exists i :: LatestAt(s, l, key, i) }

  lemma SendLatest(s: Setup, l: Life, k: nat, after: map<nat, seq<bool>>)
    requires LatestOk(s, l) && k in l.acc
    ensures LatestOk(s, Sent(s, l, k, after))
  {
    var t := Sent(s, l, k, after);
    var added := KeyOf(s, t.sent[|l.sent|]);
    forall key | key in t.latest ensures exists i :: LatestAt(s, t, key, i) {
      if key == added {
        assert LatestAt(s, t, key, |l.sent|);
      } else {
        var i :| LatestAt(s, l, key, i);
        assert LatestAt(s, t, key, i);
      }
    }
  }

  lemma SameLatest(s: Setup, l: Life, t: Life)
    requires LatestOk(s, l) && t.latest == l.latest && t.sent == l.sent
    ensures LatestOk(s, t)
  {
    forall key | key in t.latest ensures exists i :: LatestAt(s, t, key, i) {
      var i :| LatestAt(s, l, key, i);
      assert LatestAt(s, t, key, i);
    }
  }

  lemma OnlySendRecords(s: Setup, l: Life, a: Step)
    requires Enabled(s, l, a) && !a.Send?
    ensures Apply(s, l, a).latest == l.latest && Apply(s, l, a).sent == l.sent
  {
    match a {
      case Mark(_, _, _) =>
      case Trip(_, _, _) =>
      case Repeat(_, _) =>
      case Begin(_, _, _) =>
      case Forget(_) =>
    }
  }

  lemma NextLatest(s: Setup, l: Life, t: Life)
    requires LatestOk(s, l) && Next(s, l, t)
    ensures LatestOk(s, t)
  {
    var a :| Enabled(s, l, a) && t == Apply(s, l, a);
    if a.Send? {
      SendLatest(s, l, a.k, a.after);
    } else {
      OnlySendRecords(s, l, a);
      SameLatest(s, l, t);
    }
  }

  lemma {:induction false} RunLatest(s: Setup, run: seq<Life>, k: nat)
    requires Run(s, run) && k < |run|
    ensures LatestOk(s, run[k])
  {
    if k > 0 {
      RunLatest(s, run, k - 1);
      assert StepAt(s, run, k);
      NextLatest(s, run[k - 1], run[k]);
    }
  }

  /** The block that began a generation. */
  function TriggerBlock(s: Setup, t: Touch): nat { t.region * Pow2(s.p) + t.offset }

  /** The access that triggered generation i had this PC and address, as far as the keys keep them. */
  ghost predicate TriggeredBy(s: Setup, l: Life, i: nat, pc: nat, block: nat)
    requires i < |l.sent|
  {
    var e := l.sent[i];
    e.born < |l.touches| && SamePcAddress(s.c, pc, block, l.touches[e.born].pc, TriggerBlock(s, l.touches[e.born]))
  }

  lemma KeyTriggered(s: Setup, l: Life, i: nat, pc: nat, block: nat)
    requires WidthsOk(s.c) && i < |l.sent| && EndedOk(l.touches, l.sent[i])
    ensures KeyOf(s, l.sent[i]) == BuildKey(s.c, pc, block) <==> TriggeredBy(s, l, i, pc, block)
  {
    var e := l.sent[i];
    KeyIff(s.c, pc, block, e.g.pc, e.region * Pow2(s.p) + e.g.offset);
  }

  /** In every state of every run: while the history has an entry for a PC and a block, looking it up gives the
      footprint of the latest generation that an access with this PC to this block began, which is exactly
      the set of offsets accessed in it. */
  lemma LookupIsLatestGeneration(s: Setup, run: seq<Life>, k: nat, pc: nat, block: nat) returns (i: nat)
    requires SetupOk(s) && Run(s, run) && k < |run| && BuildKey(s.c, pc, block) in run[k].history
    ensures i < |run[k].sent| && TriggeredBy(s, run[k], i, pc, block)
    ensures forall j :: i < j < |run[k].sent| ==> !TriggeredBy(s, run[k], j, pc, block)
    ensures |run[k].history[BuildKey(s.c, pc, block)]| == Pow2(s.p)
    ensures Rotate(run[k].history[BuildKey(s.c, pc, block)], block % Pow2(s.p)) == run[k].sent[i].g.pattern
    ensures EndedOk(run[k].touches, run[k].sent[i])
  {
    var l, key := run[k], BuildKey(s.c, pc, block);
    LookupReturnsLatest(s, run, k, pc, block);
    RunLatest(s, run, k);
    FootprintsExact(s, run, k);
    i :| LatestAt(s, l, key, i);
    KeyTriggered(s, l, i, pc, block);
    forall j | i < j < |l.sent| ensures !TriggeredBy(s, l, j, pc, block) { KeyTriggered(s, l, j, pc, block); }
  }

  /** The plan for a footprint: one fill level for its blocks, 0 for the others. */
  predicate Planned(pattern: seq<bool>, level: nat, plan: seq<nat>) {
    |plan| == |pattern| && forall o :: 0 <= o < |plan| ==> plan[o] == if pattern[o] then level else 0
  }

  /** The plan holds the level at exactly the offsets accessed in generation i, which is the latest generation
      begun by an access with this PC to this block. */
  ghost predicate LearntAt(s: Setup, l: Life, pc: nat, block: nat, level: nat, plan: seq<nat>, i: nat) {
    && i < |l.sent| && TriggeredBy(s, l, i, pc, block) && (forall j :: i < j < |l.sent| ==> !TriggeredBy(s, l, j, pc, block))
    && |plan| == Pow2(s.p)
    && forall o :: 0 <= o < |plan| ==>
         plan[o] == if TouchedIn(l.touches, l.sent[i].region, o, l.sent[i].born, l.sent[i].end) then level else 0
  }

  ghost predicate Learnt(s: Setup, l: Life, pc: nat, block: nat, level: nat, plan: seq<nat>) {
    exists i :: LearntAt(s, l, pc, block, level, plan, i)
  }

  lemma PlanLearnt(s: Setup, l: Life, pc: nat, block: nat, level: nat, plan: seq<nat>)
    requires SetupOk(s) && Reached(s, l) && BuildKey(s.c, pc, block) in l.history && BuildKey(s.c, pc, block) in l.latest
    requires Planned(l.latest[BuildKey(s.c, pc, block)].pattern, level, plan)
    ensures Learnt(s, l, pc, block, level, plan)
  {
    var run := RunTo(s, l);
    var i := LookupIsLatestGeneration(s, run, |run| - 1, pc, block);
    LookupReturnsLatest(s, run, |run| - 1, pc, block);
    assert Exactly(l.sent[i].g.pattern, l.touches, l.sent[i].region, l.sent[i].born, l.sent[i].end);
    assert LearntAt(s, l, pc, block, level, plan, i);
  }
}
