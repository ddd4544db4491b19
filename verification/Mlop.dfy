/** MLOP as it runs (prefetcher/mlop.cc, inc/mlop.h). */
module Mlop {
  import opened Basics
  import opened MlopScores
  import opened IndexHash
  import opened SetAssociative

  /** A zone: the state of its blocks, the level prefetched to, and its latest accesses, newest first. */
  datatype Zone = Zone(states: seq<State>, levels: seq<nat>, queue: seq<nat>)

  /** A stored zone has a block that is not in its initial state. */
  ghost predicate Stored(c: Config, z: Zone) {
    && ZoneOk(c, z.states, z.queue) && |z.levels| == c.blocks
    && exists i :: 0 <= i < c.blocks && z.states[i] != Init
  }

  /** A new state for one block. */
  function SetBlock(c: Config, z: Zone, offset: nat, state: State, level: nat): Zone
    requires ZoneOk(c, z.states, z.queue) && |z.levels| == c.blocks && offset < c.blocks
  {
    var pushed := [offset] + z.queue;
    var queue := if state != Access then z.queue
                 else if |pushed| >= c.degree then pushed[..|pushed| - 1] else pushed;
    Zone(z.states[offset := state], z.levels[offset := level], queue)
  }

  lemma SetBlockOk(c: Config, z: Zone, offset: nat, state: State, level: nat)
    requires 0 < c.degree && ZoneOk(c, z.states, z.queue) && |z.levels| == c.blocks && offset < c.blocks
    ensures var t := SetBlock(c, z, offset, state, level);
      && ZoneOk(c, t.states, t.queue) && |t.levels| == c.blocks
      && (state != Init ==> Stored(c, t))
      && (Stored(c, t) <==> exists i :: 0 <= i < c.blocks && t.states[i] != Init)
  {
    var t := SetBlock(c, z, offset, state, level);
    assert t.states[offset] == state;
  }

  /** At most one other key has gone, and no key but this one is new or has a new value. */
  ghost predicate Elsewhere(was: map<nat, Zone>, now: map<nat, Zone>, key: nat) {
    exists gone: set<nat> :: |gone| <= 1 && Without(was, now, key, gone)
  }

  ghost predicate Without(was: map<nat, Zone>, now: map<nat, Zone>, key: nat, gone: set<nat>) {
    now - {key} == was - {key} - gone
  }

  lemma ElsewhereSame(was: map<nat, Zone>, now: map<nat, Zone>, key: nat, gone: set<nat>)
    requires |gone| <= 1 && forall k :: k != key ==> (k in now <==> k in was && k !in gone) && (k in now ==> now[k] == was[k])
    ensures Elsewhere(was, now, key)
  {
    assert Without(was, now, key, gone);
  }

  lemma ElsewhereThen(was: map<nat, Zone>, now: map<nat, Zone>, then': map<nat, Zone>, key: nat)
    requires Elsewhere(was, now, key) && then' - {key} == now - {key}
    ensures Elsewhere(was, then', key)
  {
    var gone: set<nat> :| |gone| <= 1 && Without(was, now, key, gone);
    assert Without(was, then', key, gone);
  }

  lemma ElsewhereKept(was: map<nat, Zone>, now: map<nat, Zone>, key: nat, k: nat)
    requires Elsewhere(was, now, key) && k in now && k != key
    ensures k in was && now[k] == was[k]
  {
    var gone: set<nat> :| |gone| <= 1 && Without(was, now, key, gone);
    assert k in now - {key} && (now - {key})[k] == (was - {key} - gone)[k];
  }

  class AccessMapTable {
    const c: Config
    const indexLen: nat
    const table: LruCache<Zone>

    ghost predicate Valid()
      reads table
    {
      ConfigOk(c) && table.Valid() && forall k :: k in table.view.contents ==> Stored(c, table.view.contents[k])
    }

    constructor (c: Config, indexLen: nat, sets: nat, ways: nat)
      requires ConfigOk(c) && 0 < sets && 0 < ways
      ensures Valid() && fresh(table) && table.view.contents == map[] && this.c == c && this.indexLen == indexLen
    {
      this.c, this.indexLen := c, indexLen;
      table := new LruCache(sets, ways, Zone([], [], []));
    }

    method Find(zone: nat) returns (r: Option<Zone>)
      requires Valid()
      ensures r == if Hash(zone, indexLen) in table.view.contents then Some(table.view.contents[Hash(zone, indexLen)]) else None
      ensures r.Some? ==> Stored(c, r.value)
    {
      var key := HashIndex(zone, indexLen);
      r := table.Lookup(key);
    }

    /** The zone before the change, or a new one with every block in its initial state. */
    ghost function Before(zone: nat): (z: Zone)
      requires Valid()
      ensures ZoneOk(c, z.states, z.queue) && |z.levels| == c.blocks
      reads table
    {
      var key := Hash(zone, indexLen);
      if key in table.view.contents then table.view.contents[key]
      else Zone(seq(c.blocks, _ => Init), seq(c.blocks, _ => 0), [])
    }

    /** The zone stored under a key, after inserting a new one if there is none. */
    method FindOrInsert(key: nat) returns (z: Zone)
      requires table.Valid()
      modifies table
      ensures table.Valid() && key in table.view.contents && table.view.contents[key] == z
      ensures z == if key in old(table.view).contents then old(table.view).contents[key]
                   else Zone(seq(c.blocks, _ => Init), seq(c.blocks, _ => 0), [])
      ensures Elsewhere(old(table.view).contents, table.view.contents, key)
    {
      var entry := table.Lookup(key);
      if entry.Some? {
        ElsewhereSame(table.view.contents, table.view.contents, key, {});
        return entry.value;
      }
      z := Zone(seq(c.blocks, _ => Init), seq(c.blocks, _ => 0), []);
      var was := table.Insert(key, z);
      ElsewhereSame(old(table.view).contents, table.view.contents, key, if was.valid then {was.key} else {});
    }

    /** set_state: a zone is stored while some block of it is not in its initial state. */
    method SetState(zone: nat, offset: nat, state: State, level: nat)
      requires Valid() && offset < c.blocks
      modifies table
      ensures Valid()
      ensures Elsewhere(old(table.view).contents, table.view.contents, Hash(zone, indexLen))
      ensures var key, after := Hash(zone, indexLen), SetBlock(c, old(Before(zone)), offset, state, level);
        && (state != Init || (key in old(table.view).contents && Stored(c, after)) ==>
            key in table.view.contents && table.view.contents[key] == after)
        && (state == Init && !(key in old(table.view).contents && Stored(c, after)) ==> key !in table.view.contents)
    {
      var key := HashIndex(zone, indexLen);
      var entry := table.Find(key);
      ghost var was := table.view.contents;
      ElsewhereSame(was, was, key, {});
      if entry.None? && state == Init { return; }
      ghost var z := Before(zone);
      SetBlockOk(c, z, offset, state, level);
      var after := WriteBlock(key, offset, state, level, z);
      ghost var now := table.view.contents;
      if state == Init {
        DropIfEmpty(key, after);
        ElsewhereThen(was, now, table.view.contents, key);
      }
      forall k | k in table.view.contents && k != key ensures Stored(c, table.view.contents[k]) { ElsewhereKept(was, now, key, k); }
    }

    /** The new state of one block, in a zone that is inserted first if it is not there. */
    method WriteBlock(key: nat, offset: nat, state: State, level: nat, ghost z: Zone) returns (after: Zone)
      requires table.Valid() && ZoneOk(c, z.states, z.queue) && |z.levels| == c.blocks && offset < c.blocks
      requires z == if key in table.view.contents then table.view.contents[key]
                    else Zone(seq(c.blocks, _ => Init), seq(c.blocks, _ => 0), [])
      modifies table
      ensures table.Valid() && Elsewhere(old(table.view).contents, table.view.contents, key)
      ensures key in table.view.contents && table.view.contents[key] == after == SetBlock(c, z, offset, state, level)
    {
      var found := FindOrInsert(key);
      if state == MlopScores.Access { table.SetMru(key); }
      after := SetBlock(c, found, offset, state, level);
      ghost var now := table.view.contents;
      table.Update(key, after);
      ElsewhereThen(old(table.view).contents, now, table.view.contents, key);
    }

    /** A zone whose blocks are all in their initial state again leaves the table. */
    method DropIfEmpty(key: nat, z: Zone)
      requires table.Valid() && key in table.view.contents && table.view.contents[key] == z && |z.states| == c.blocks
      modifies table
      ensures table.Valid()
      ensures table.view.contents ==
        if exists i :: 0 <= i < c.blocks && z.states[i] != Init then old(table.view).contents else old(table.view).contents - {key}
    {
      var empty := AllInit(z.states);
      if empty { var _ := table.Erase(key); }
    }
  }

  method AllInit(m: seq<State>) returns (r: bool)
    ensures r <==> forall i :: 0 <= i < |m| ==> m[i] == Init
  {
    for i := 0 to |m|
      invariant forall k :: 0 <= k < i ==> m[k] == Init
    {
      if m[i] != Init { return false; }
    }
    return true;
  }

  class Mlop {
    const c: Config
    const zones: AccessMapTable
    var scores: seq<seq<nat>>
    var updateCount: nat
    var pfOffset: seq<seq<nat>>
    var pfLevel: seq<nat>

    ghost predicate Valid()
      reads this, zones.table
    {
      && zones.Valid() && zones.c == c && updateCount < c.updates && RowsOk(c, scores, updateCount)
      && Plan(c, pfOffset, pfLevel)
    }

    constructor (c: Config, indexLen: nat, sets: nat, ways: nat)
      requires ConfigOk(c) && 0 < sets && 0 < ways
      ensures Valid() && fresh(zones) && fresh(zones.table) && this.c == c
    {
      this.c := c;
      zones := new AccessMapTable(c, indexLen, sets, ways);
      scores := seq(c.degree, _ => seq<nat>(Offsets(c), _ => 0));
      updateCount := 0;
      pfOffset := seq(c.degree, _ => []);
      pfLevel := seq(c.degree, _ => 0);
    }

    /** A trigger access to block `offset` of a zone: the scores change as Scored says, and at the end
        of a round the offsets are chosen from them and the scores start again. */
    method Access(zone: nat, offset: nat) returns (finished: bool, ghost max: seq<nat>)
      requires Valid() && offset < c.blocks
      modifies this
      ensures Valid()
      ensures var key, contents := Hash(zone, zones.indexLen), zones.table.view.contents;
        if key !in contents || contents[key].states[offset] == MlopScores.Access then
          !finished && scores == old(scores) && updateCount == old(updateCount) && pfOffset == old(pfOffset) && pfLevel == old(pfLevel)
        else
          var scored := Scored(c, old(scores), contents[key].states, contents[key].queue, offset);
          && finished == (old(updateCount) + 1 == c.updates)
          && (!finished ==> scores == scored && updateCount == old(updateCount) + 1 && pfOffset == old(pfOffset) && pfLevel == old(pfLevel))
          && (finished ==>
              && updateCount == 0 && RowsOk(c, scored, c.updates)
              && |max| == c.degree && (forall d :: 0 <= d < c.degree ==> IsMax(scored[d], max[d]))
              && Chosen(c, scored, max, pfOffset, pfLevel, 0))
    {
      finished, max := false, [];
      var entry := zones.Find(zone);
      if entry.None? || entry.value.states[offset] == MlopScores.Access { return; }
      updateCount := updateCount + 1;
      scores := Update(c, scores, entry.value.states, entry.value.queue, offset);
      ScoredKeeps(c, old(scores), old(updateCount), entry.value.states, entry.value.queue, offset);
      if updateCount == c.updates {
        finished := true;
        max := FinishRound();
      }
    }

    /** The end of a round. */
    method FinishRound() returns (ghost max: seq<nat>)
      requires zones.Valid() && zones.c == c && RowsOk(c, scores, c.updates)
      modifies this
      ensures Valid() && updateCount == 0
      ensures |max| == c.degree && (forall d :: 0 <= d < c.degree ==> IsMax(old(scores)[d], max[d]))
      ensures Chosen(c, old(scores), max, pfOffset, pfLevel, 0)
    {
      updateCount := 0;
      var best := Maxima(c, scores);
      pfOffset, pfLevel := Choose(c, scores, best);
      max := best;
      ChosenIsPlan(c, scores, c.updates, best, pfOffset, pfLevel);
      scores := seq(c.degree, _ => seq<nat>(Offsets(c), _ => 0));
    }
  }

  /** The two loops that add an access to the scores. */
  method Update(c: Config, scores: seq<seq<nat>>, m: seq<State>, queue: seq<nat>, z: nat) returns (r: seq<seq<nat>>)
    requires Shaped(c, scores) && ZoneOk(c, m, queue) && z < c.blocks
    ensures r == Scored(c, scores, m, queue, z)
    ensures forall d, p :: 0 <= d < c.degree && 0 <= p < 2 * c.blocks - 1 ==>
      r[d][p] == scores[d][p] + if Reaches(c, m, queue, z, d, p) then 1 else 0
  {
    r := scores;
    var live := m;
    for d := 0 to |queue| + 1
      invariant |r| == c.degree && live == Unmarked(m, queue, if d == 0 then 0 else d - 1)
      invariant forall e :: 0 <= e < d ==> r[e] == Depth(c, scores, m, queue, z, e)
      invariant forall e :: d <= e < c.degree ==> r[e] == scores[e]
    {
      if d != 0 { live := live[queue[d - 1] := Init]; }
      assert live == Unmarked(m, queue, d);
      var row := AddRow(c, r[d], live, z);
      r := r[d := row];
    }
    assert forall e :: 0 <= e < c.degree ==> r[e] == Depth(c, scores, m, queue, z, e);
    forall d, p | 0 <= d < c.degree && 0 <= p < 2 * c.blocks - 1
      ensures r[d][p] == scores[d][p] + if Reaches(c, m, queue, z, d, p) then 1 else 0
    {
      ScoresIff(c, scores, m, queue, z, d, p);
    }
  }

  method AddRow(c: Config, row: seq<nat>, live: seq<State>, z: nat) returns (r: seq<nat>)
    requires ConfigOk(c) && |live| == c.blocks && |row| == Offsets(c) && z < c.blocks
    ensures r == Row(c, row, live, z)
  {
    r := row;
    for i := 0 to c.blocks
      invariant |r| == |row|
      invariant forall x :: 0 <= x < |row| ==>
        r[x] == row[x] + if Scores(c, live, z, x) && z + Origin(c) - x < i then 1 else 0
    {
      if live[i] == MlopScores.Access && z != i {
        var x := Origin(c) + z - i;
        var up: nat := r[x] + 1;
        r := r[x := up];
      }
    }
  }

  method Maxima(c: Config, scores: seq<seq<nat>>) returns (max: seq<nat>)
    requires Shaped(c, scores)
    ensures |max| == c.degree && forall d :: 0 <= d < c.degree ==> IsMax(scores[d], max[d])
  {
    max := [];
    for d := 0 to c.degree
      invariant |max| == d && forall e :: 0 <= e < d ==> IsMax(scores[e], max[e])
    {
      var row := scores[d];
      var best := row[0];
      for x := 1 to |row|
        invariant best in row && forall y :: 0 <= y < x ==> row[y] <= best
      {
        if row[x] > best { best := row[x]; }
      }
      max := max + [best];
    }
  }

  /** The choice of offsets, from the greatest depth down. */
  method Choose(c: Config, scores: seq<seq<nat>>, max: seq<nat>) returns (chosen: seq<seq<nat>>, levels: seq<nat>)
    requires Shaped(c, scores) && |max| == c.degree
    ensures |chosen| == |levels| == c.degree && Chosen(c, scores, max, chosen, levels, 0)
  {
    chosen, levels := seq(c.degree, _ => []), seq<nat>(c.degree, _ => 0);
    var taken := seq(Offsets(c), _ => false);
    var d: nat := c.degree;
    while d > 0
      invariant d <= c.degree && |chosen| == |levels| == c.degree && |taken| == Offsets(c)
      invariant forall e :: 0 <= e < d ==> chosen[e] == [] && levels[e] == 0
      invariant Chosen(c, scores, max, chosen, levels, d)
      invariant d >= 0 && forall x :: 0 <= x < Offsets(c) ==> (taken[x] <==> ChosenFrom(chosen, d, x))
    {
      d := d - 1;
      var level := if max[d] >= c.l2 then FILL_L2 else if max[d] >= c.llc then FILL_LLC else 0;
      var best := [];
      if level != 0 { best := Best(scores[d], max[d], taken); }
      assert forall i :: 0 <= i < |best| ==> best[i] in best;
      ChooseStep(c, scores, max, chosen, levels, d, level, best, taken);
      levels, chosen := levels[d := level], chosen[d := best];
      taken := MarkAll(taken, best);
    }
  }

  /** The places that have the best score of a row and are not taken, in order. */
  method Best(row: seq<nat>, max: nat, taken: seq<bool>) returns (best: seq<nat>)
    requires |taken| == |row|
    ensures forall i, j :: 0 <= i < j < |best| ==> best[i] < best[j]
    ensures forall x: nat :: x in best <==> x < |row| && row[x] == max && !taken[x]
  {
    best := [];
    for x := 0 to |row|
      invariant forall i, j :: 0 <= i < j < |best| ==> best[i] < best[j]
      invariant forall y: nat :: y in best <==> y < x && row[y] == max && !taken[y]
    {
      if row[x] == max && !taken[x] {
        assert forall i :: 0 <= i < |best| ==> best[i] in best;
        best := best + [x];
      }
    }
  }

  method MarkAll(taken: seq<bool>, best: seq<nat>) returns (r: seq<bool>)
    requires forall i :: 0 <= i < |best| ==> best[i] < |taken|
    ensures |r| == |taken| && forall x :: 0 <= x < |taken| ==> (r[x] <==> taken[x] || x in best)
  {
    r := taken;
    for i := 0 to |best|
      invariant |r| == |taken| && forall x :: 0 <= x < |taken| ==> (r[x] <==> taken[x] || x in best[..i])
    {
      r := r[best[i] := true];
      assert best[..i + 1] == best[..i] + [best[i]];
    }
  }

  lemma FromStep(chosen: seq<seq<nat>>, d: nat, best: seq<nat>, e: nat, x: nat)
    requires d < |chosen|
    ensures e > d ==> (ChosenFrom(chosen[d := best], e, x) <==> ChosenFrom(chosen, e, x))
    ensures ChosenFrom(chosen[d := best], d, x) <==> x in best || ChosenFrom(chosen, d + 1, x)
  {
    var more := chosen[d := best];
    if e > d && ChosenFrom(more, e, x) {
      var k :| e <= k < |more| && x in more[k];
      assert chosen[k] == more[k];
    }
    if e > d && ChosenFrom(chosen, e, x) {
      var k :| e <= k < |chosen| && x in chosen[k];
      assert chosen[k] == more[k];
    }
    if ChosenFrom(more, d, x) && x !in best {
      var k :| d <= k < |more| && x in more[k];
      assert d + 1 <= k < |chosen| && x in chosen[k];
    }
    if x in best { assert x in more[d]; }
    if ChosenFrom(chosen, d + 1, x) {
      var k :| d + 1 <= k < |chosen| && x in chosen[k];
      assert x in more[k];
    }
  }

  lemma ChooseStep(
    c: Config, scores: seq<seq<nat>>, max: seq<nat>, chosen: seq<seq<nat>>, levels: seq<nat>, d: nat,
    level: nat, best: seq<nat>, taken: seq<bool>)
    requires Shaped(c, scores) && |max| == |chosen| == |levels| == c.degree && d < c.degree && |taken| == Offsets(c)
    requires Chosen(c, scores, max, chosen, levels, d + 1) && level == LevelFor(c, max[d])
    requires forall x :: 0 <= x < Offsets(c) ==> (taken[x] <==> ChosenFrom(chosen, d + 1, x))
    requires forall i, j :: 0 <= i < j < |best| ==> best[i] < best[j]
    requires forall x: nat :: x in best <==> level != 0 && x < Offsets(c) && scores[d][x] == max[d] && !taken[x]
    ensures Chosen(c, scores, max, chosen[d := best], levels[d := level], d)
    ensures forall x :: 0 <= x < Offsets(c) ==> (ChosenFrom(chosen[d := best], d, x) <==> taken[x] || x in best)
  {
    var more := chosen[d := best];
    forall e, x: nat | d < e ensures ChosenFrom(more, e, x) == ChosenFrom(chosen, e, x) {
      FromStep(chosen, d, best, e, x);
    }
    forall e | d < e < c.degree ensures ChosenAt(c, scores[e], max[e], more, levels[e], e) {
      assert ChosenAt(c, scores[e], max[e], chosen, levels[e], e);
    }
    assert ChosenAt(c, scores[d], max[d], more, level, d);
    forall x | 0 <= x < Offsets(c) ensures ChosenFrom(more, d, x) <==> taken[x] || x in best {
      FromStep(chosen, d, best, d, x);
    }
  }
}
