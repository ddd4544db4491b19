/**
 The scores of the multi-lookahead offset prefetcher (prefetcher/mlop.cc): one row per prediction
 depth, and the choice of offsets at the end of a round.
 */
module MlopScores {

  datatype State = Init | Access | Prefetch

  const FILL_L2: nat := 2
  const FILL_LLC: nat := 4

  /** Blocks per zone, prediction depths, accesses per round, and the two score thresholds. */
  datatype Config = Config(blocks: nat, degree: nat, updates: nat, l2: int, llc: int)

  predicate ConfigOk(c: Config) { 0 < c.blocks && 0 < c.degree && 0 < c.updates }

  function Offsets(c: Config): nat
    requires ConfigOk(c)
  {
    2 * c.blocks - 1
  }

  /** The place of offset 0 in a row of scores. */
  function Origin(c: Config): nat
    requires ConfigOk(c)
  {
    c.blocks - 1
  }

  /** The access map of a zone with its latest d accesses unmarked. */
  function Unmarked(m: seq<State>, queue: seq<nat>, d: nat): (r: seq<State>)
    requires d <= |queue| && forall i :: 0 <= i < |queue| ==> queue[i] < |m|
    ensures |r| == |m|
  {
    if d == 0 then m else Unmarked(m, queue, d - 1)[queue[d - 1] := Init]
  }

  /** The block that an access at z reaches back to by the offset in place x scores for that offset. */
  predicate Scores(c: Config, m: seq<State>, z: nat, x: nat)
    requires ConfigOk(c) && |m| == c.blocks
  {
    var i := z + Origin(c) - x;
    x != Origin(c) && 0 <= i < c.blocks && m[i] == Access
  }

  function Row(c: Config, row: seq<nat>, m: seq<State>, z: nat): (r: seq<nat>)
    requires ConfigOk(c) && |m| == c.blocks
    ensures |r| == |row|
  {
    seq<nat>(|row|, x requires 0 <= x < |row| => row[x] + if Scores(c, m, z, x) then 1 else 0)
  }

  predicate ZoneOk(c: Config, m: seq<State>, queue: seq<nat>) {
    |m| == c.blocks && |queue| < c.degree && forall i :: 0 <= i < |queue| ==> queue[i] < c.blocks
  }

  predicate Shaped(c: Config, scores: seq<seq<nat>>) {
    ConfigOk(c) && |scores| == c.degree && forall d :: 0 <= d < c.degree ==> |scores[d]| == Offsets(c)
  }

  /** The scores after an access at z: depth d looks past the latest d accesses. */
  function Scored(c: Config, scores: seq<seq<nat>>, m: seq<State>, queue: seq<nat>, z: nat): (r: seq<seq<nat>>)
    requires Shaped(c, scores) && ZoneOk(c, m, queue)
    ensures Shaped(c, r)
  {
    seq(|scores|, d requires 0 <= d < |scores| => Depth(c, scores, m, queue, z, d))
  }

  /** The row of depth d after an access; a short history has nothing to say about greater depths. */
  function Depth(c: Config, scores: seq<seq<nat>>, m: seq<State>, queue: seq<nat>, z: nat, d: nat): (r: seq<nat>)
    requires Shaped(c, scores) && ZoneOk(c, m, queue) && d < c.degree
    ensures |r| == Offsets(c)
  {
    if d <= |queue| then Row(c, scores[d], Unmarked(m, queue, d), z) else scores[d]
  }

  // ---------------------------------------------------------------------------------------------
  // The invariant of the score table

  ghost predicate RowsOk(c: Config, scores: seq<seq<nat>>, count: nat) {
    && Shaped(c, scores)
    && (forall d, x :: 0 <= d < c.degree && 0 <= x < Offsets(c) ==> scores[d][x] <= count)
    && (forall d :: 0 <= d < c.degree ==> scores[d][Origin(c)] == 0)
    && (forall d, e, x :: 0 <= d < e < c.degree && 0 <= x < Offsets(c) ==> scores[e][x] <= scores[d][x])
  }

  lemma {:induction false} UnmarkedShrinks(m: seq<State>, queue: seq<nat>, d: nat, e: nat, i: nat)
    requires d <= e <= |queue| && (forall k :: 0 <= k < |queue| ==> queue[k] < |m|) && i < |m|
    ensures Unmarked(m, queue, e)[i] == Access ==> Unmarked(m, queue, d)[i] == Access
  {
    if d < e { UnmarkedShrinks(m, queue, d, e - 1, i); }
  }

  /** A deeper prediction never scores where a shallower one does not. */
  lemma DeeperScoresLess(c: Config, scores: seq<seq<nat>>, m: seq<State>, queue: seq<nat>, z: nat, d: nat, e: nat, x: nat)
    requires Shaped(c, scores) && ZoneOk(c, m, queue) && d < e < c.degree && x < Offsets(c)
    requires scores[e][x] <= scores[d][x]
    ensures Scored(c, scores, m, queue, z)[e][x] <= Scored(c, scores, m, queue, z)[d][x]
  {
    if e <= |queue| {
      forall i | 0 <= i < c.blocks && Unmarked(m, queue, e)[i] == Access ensures Unmarked(m, queue, d)[i] == Access {
        UnmarkedShrinks(m, queue, d, e, i);
      }
      RowLess(c, scores[e], scores[d], Unmarked(m, queue, e), Unmarked(m, queue, d), z, x);
    }
  }

  lemma RowLess(c: Config, low: seq<nat>, high: seq<nat>, m: seq<State>, m': seq<State>, z: nat, x: nat)
    requires ConfigOk(c) && |m| == |m'| == c.blocks && x < |low| == |high| && low[x] <= high[x]
    requires forall i :: 0 <= i < c.blocks && m[i] == Access ==> m'[i] == Access
    ensures Row(c, low, m, z)[x] <= Row(c, high, m', z)[x]
  {
  }

  lemma ScoredKeeps(c: Config, scores: seq<seq<nat>>, count: nat, m: seq<State>, queue: seq<nat>, z: nat)
    requires RowsOk(c, scores, count) && ZoneOk(c, m, queue)
    ensures RowsOk(c, Scored(c, scores, m, queue, z), count + 1)
  {
    var t := Scored(c, scores, m, queue, z);
    forall d, e, x | 0 <= d < e < c.degree && 0 <= x < Offsets(c) ensures t[e][x] <= t[d][x] {
      DeeperScoresLess(c, scores, m, queue, z, d, e, x);
    }
  }

  // ---------------------------------------------------------------------------------------------
  // Which offset an access scores

  lemma {:induction false} UnmarkedIs(m: seq<State>, queue: seq<nat>, d: nat, b: nat)
    requires d <= |queue| && (forall i :: 0 <= i < |queue| ==> queue[i] < |m|) && b < |m|
    ensures Unmarked(m, queue, d)[b] == if b in queue[..d] then Init else m[b]
  {
    if d > 0 {
      UnmarkedIs(m, queue, d - 1, b);
      assert queue[..d] == queue[..d - 1] + [queue[d - 1]];
    }
  }

  /** Some earlier access to another block of the zone reaches this one by the offset in place p, which is the
      offset 0 at c.blocks - 1; the latest d accesses are left out. */
  ghost predicate Reaches(c: Config, m: seq<State>, queue: seq<nat>, z: nat, d: nat, p: nat) {
    d <= |queue| && exists b :: ReachesFrom(c, m, queue, z, d, p, b)
  }

  ghost predicate ReachesFrom(c: Config, m: seq<State>, queue: seq<nat>, z: nat, d: nat, p: nat, b: nat)
    requires d <= |queue|
  {
    b < |m| && b != z && p == c.blocks - 1 + z - b && m[b] == Access && b !in queue[..d]
  }

  /** An access at z raises the score of a place by one exactly when the offset of that place leads to z from a
      block accessed before, and changes no other score. */
  lemma ScoresIff(c: Config, scores: seq<seq<nat>>, m: seq<State>, queue: seq<nat>, z: nat, d: nat, p: nat)
    requires Shaped(c, scores) && ZoneOk(c, m, queue) && z < c.blocks && d < c.degree && p < 2 * c.blocks - 1
    ensures Scored(c, scores, m, queue, z)[d][p] == scores[d][p] + if Reaches(c, m, queue, z, d, p) then 1 else 0
  {
    if d <= |queue| {
      var live, b := Unmarked(m, queue, d), z + c.blocks - 1 - p;
      if 0 <= b < c.blocks { UnmarkedIs(m, queue, d, b); }
      if Scores(c, live, z, p) { assert ReachesFrom(c, m, queue, z, d, p, b); }
    }
  }

  // ---------------------------------------------------------------------------------------------
  // The choice at the end of a round

  ghost predicate IsMax(row: seq<nat>, m: nat) { m in row && forall x :: 0 <= x < |row| ==> row[x] <= m }

  function LevelFor(c: Config, max: nat): nat {
    if max >= c.l2 then FILL_L2 else if max >= c.llc then FILL_LLC else 0
  }

  /** Place x is chosen at some depth from d on. */
  ghost predicate ChosenFrom(chosen: seq<seq<nat>>, d: nat, x: nat) {
    exists e :: d <= e < |chosen| && x in chosen[e]
  }

  /** At each depth from d on: the level of its maximum, and the places with that maximum which no
      greater depth has taken. */
  ghost predicate Chosen(c: Config, scores: seq<seq<nat>>, max: seq<nat>, chosen: seq<seq<nat>>, levels: seq<nat>, d: nat)
    requires Shaped(c, scores) && |max| == |chosen| == |levels| == c.degree
  {
    forall e :: d <= e < c.degree ==> ChosenAt(c, scores[e], max[e], chosen, levels[e], e)
  }

  ghost predicate ChosenAt(c: Config, row: seq<nat>, max: nat, chosen: seq<seq<nat>>, level: nat, e: nat)
    requires e < |chosen|
  {
    && level == LevelFor(c, max)
    && (forall i, j :: 0 <= i < j < |chosen[e]| ==> chosen[e][i] < chosen[e][j])
    && (forall x: nat :: x in chosen[e] <==>
          level != 0 && x < |row| && row[x] == max && !ChosenFrom(chosen, e + 1, x))
  }

  /** A depth prefetches to the L2 exactly when some offset scores at least the first threshold there, to the
      LLC exactly when some scores at least the second and none the first; its offsets score as much as any. */
  lemma LevelsByScore(c: Config, scores: seq<seq<nat>>, max: seq<nat>, chosen: seq<seq<nat>>, levels: seq<nat>, d: nat)
    requires Shaped(c, scores) && |max| == |chosen| == |levels| == c.degree && d < c.degree
    requires IsMax(scores[d], max[d]) && Chosen(c, scores, max, chosen, levels, 0)
    ensures levels[d] == FILL_L2 <==> exists x :: 0 <= x < |scores[d]| && scores[d][x] >= c.l2
    ensures levels[d] == FILL_LLC <==>
      ((exists x :: 0 <= x < |scores[d]| && scores[d][x] >= c.llc) && forall x :: 0 <= x < |scores[d]| ==> scores[d][x] < c.l2)
    ensures levels[d] != FILL_L2 && levels[d] != FILL_LLC ==> levels[d] == 0
    ensures forall x, y :: x in chosen[d] && 0 <= y < |scores[d]| ==> x < |scores[d]| && scores[d][y] <= scores[d][x]
  {
    var at :| 0 <= at < |scores[d]| && scores[d][at] == max[d];
    assert ChosenAt(c, scores[d], max[d], chosen, levels[d], d);
  }

  /** The depths chosen are a prefix, and no depth prefetches nearer than a smaller one. */
  lemma LevelsArePrefix(c: Config, scores: seq<seq<nat>>, count: nat, max: seq<nat>, chosen: seq<seq<nat>>, levels: seq<nat>, d: nat, e: nat)
    requires RowsOk(c, scores, count) && |max| == |chosen| == |levels| == c.degree
    requires forall k :: 0 <= k < c.degree ==> IsMax(scores[k], max[k])
    requires Chosen(c, scores, max, chosen, levels, 0) && d < e < c.degree && levels[e] != 0
    ensures 0 < levels[d] <= levels[e]
  {
  }

  /** No offset is chosen at two depths, and with positive thresholds offset 0 is never chosen. */
  lemma OffsetsChosenOnce(c: Config, scores: seq<seq<nat>>, count: nat, max: seq<nat>, chosen: seq<seq<nat>>, levels: seq<nat>, d: nat, x: nat)
    requires RowsOk(c, scores, count) && |max| == |chosen| == |levels| == c.degree
    requires Chosen(c, scores, max, chosen, levels, 0) && d < c.degree && x in chosen[d]
    ensures forall e :: 0 <= e < c.degree && x in chosen[e] ==> e == d
    ensures 0 < c.l2 && 0 < c.llc ==> x != Origin(c)
  {
    assert ChosenAt(c, scores[d], max[d], chosen, levels[d], d);
    forall e | 0 <= e < c.degree && x in chosen[e] ensures e == d {
      assert ChosenAt(c, scores[e], max[e], chosen, levels[e], e);
      assert d < e ==> ChosenFrom(chosen, d + 1, x);
      assert e < d ==> ChosenFrom(chosen, e + 1, x);
    }
  }

  /** Every offset with the best score of a chosen depth is chosen there or at a greater depth. */
  lemma BestIsChosen(c: Config, scores: seq<seq<nat>>, max: seq<nat>, chosen: seq<seq<nat>>, levels: seq<nat>, d: nat, x: nat)
    requires Shaped(c, scores) && |max| == |chosen| == |levels| == c.degree
    requires Chosen(c, scores, max, chosen, levels, 0) && d < c.degree && levels[d] != 0
    requires x < Offsets(c) && scores[d][x] == max[d]
    ensures ChosenFrom(chosen, d, x)
  {
  }

  /** What the offsets in use always satisfy: the depths with a level are a prefix, levels never get nearer
      with depth, depths without a level prefetch nothing, no offset is used at two depths, and with
      positive thresholds offset 0 is not used. */
  ghost predicate Plan(c: Config, chosen: seq<seq<nat>>, levels: seq<nat>)
    requires ConfigOk(c)
  {
    && |chosen| == |levels| == c.degree
    && (forall d, e :: 0 <= d < e < c.degree && levels[e] != 0 ==> 0 < levels[d] <= levels[e])
    && (forall d :: 0 <= d < c.degree && levels[d] == 0 ==> chosen[d] == [])
    && (forall d, e, x :: 0 <= d < c.degree && 0 <= e < c.degree && x in chosen[d] && x in chosen[e] ==> d == e)
    && (0 < c.l2 && 0 < c.llc ==> forall d :: 0 <= d < c.degree ==> Origin(c) !in chosen[d])
  }

  lemma HasElement(s: seq<nat>)
    ensures s == [] || exists x :: x in s
  {
    if s != [] { assert s[0] in s; }
  }

  /** Every choice at the end of a round is such a plan. */
  lemma ChosenIsPlan(c: Config, scores: seq<seq<nat>>, count: nat, max: seq<nat>, chosen: seq<seq<nat>>, levels: seq<nat>)
    requires RowsOk(c, scores, count) && |max| == |chosen| == |levels| == c.degree
    requires forall k :: 0 <= k < c.degree ==> IsMax(scores[k], max[k])
    requires Chosen(c, scores, max, chosen, levels, 0)
    ensures Plan(c, chosen, levels)
  {
    forall d, e | 0 <= d < e < c.degree && levels[e] != 0 ensures 0 < levels[d] <= levels[e] {
      LevelsArePrefix(c, scores, count, max, chosen, levels, d, e);
    }
    forall d | 0 <= d < c.degree && levels[d] == 0 ensures chosen[d] == [] {
      assert ChosenAt(c, scores[d], max[d], chosen, levels[d], d);
      HasElement(chosen[d]);
    }
    forall d, x | 0 <= d < c.degree && x in chosen[d]
      ensures (forall e :: 0 <= e < c.degree && x in chosen[e] ==> e == d) && (0 < c.l2 && 0 < c.llc ==> x != Origin(c))
    {
      OffsetsChosenOnce(c, scores, count, max, chosen, levels, d, x);
    }
  }
}
