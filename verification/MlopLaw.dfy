/**
 What MLOP's scores mean (prefetcher/mlop.cc): which offset an access scores at which depth, what the history of
 a zone holds, and that a stream of one stride scores that stride.
 */
module MlopLaw {
  import opened MlopScores
  import opened Mlop

  // ---------------------------------------------------------------------------------------------
  // The history of a zone

  function EmptyZone(c: Config): Zone { Zone(seq(c.blocks, _ => Init), seq(c.blocks, _ => 0), []) }

  ghost predicate Offsets0(c: Config, os: seq<nat>) { forall i :: 0 <= i < |os| ==> os[i] < c.blocks }

  /** A zone after accesses to these blocks. */
  ghost function ZoneAfter(c: Config, os: seq<nat>): (z: Zone)
    requires 0 < c.degree && Offsets0(c, os)
    ensures ZoneOk(c, z.states, z.queue) && |z.levels| == c.blocks
  {
    if os == [] then EmptyZone(c)
    else
      var z, o := ZoneAfter(c, os[..|os| - 1]), os[|os| - 1];
      SetBlockOk(c, z, o, MlopScores.Access, 0);
      SetBlock(c, z, o, MlopScores.Access, 0)
  }

  /** The queue holds the latest accesses, newest first, one less than there are depths; and the map marks exactly
      the blocks that were accessed. */
  lemma {:induction false} ZoneRemembers(c: Config, os: seq<nat>)
    requires 0 < c.degree && Offsets0(c, os)
    ensures var z := ZoneAfter(c, os);
      && |z.queue| == (if |os| < c.degree then |os| else c.degree - 1)
      && (forall i :: 0 <= i < |z.queue| ==> z.queue[i] == os[|os| - 1 - i])
      && (forall b :: 0 <= b < c.blocks ==> (z.states[b] == MlopScores.Access <==> b in os))
  {
    if os != [] {
      var n := |os| - 1;
      ZoneRemembers(c, os[..n]);
      assert os == os[..n] + [os[n]];
    }
  }

  /** A new state marks its block and no other, and only an access enters the history. */
  lemma SetBlockMeans(c: Config, z: Zone, offset: nat, state: State, level: nat, b: nat)
    requires ZoneOk(c, z.states, z.queue) && |z.levels| == c.blocks && offset < c.blocks && b < c.blocks
    ensures var t := SetBlock(c, z, offset, state, level);
      && t.states[b] == (if b == offset then state else z.states[b])
      && t.levels[b] == (if b == offset then level else z.levels[b])
      && (state != MlopScores.Access ==> t.queue == z.queue)
      && (state == MlopScores.Access && c.degree > 1 ==> t.queue != [] && t.queue[0] == offset)
  {
  }

  // ---------------------------------------------------------------------------------------------
  // Streams

  /** The first n blocks of a stream. */
  function Stream(k: nat, n: nat): (os: seq<nat>)
    ensures |os| == n
  {
    if n == 0 then [] else Stream(k, n - 1) + [k * (n - 1)]
  }

  lemma {:induction false} StreamAt(k: nat, n: nat, i: nat)
    requires i < n
    ensures Stream(k, n)[i] == k * i
  {
    if i < n - 1 { StreamAt(k, n - 1, i); }
  }

  lemma Ascends(k: nat, i: nat, j: nat)
    requires i <= j
    ensures k * i <= k * j && k * (i + 1) == k * i + k
  {
  }

  /** All scores zero. */
  function NoScores(c: Config): (r: seq<seq<nat>>)
    requires ConfigOk(c)
    ensures Shaped(c, r)
  {
    seq(c.degree, _ => seq<nat>(Offsets(c), _ => 0))
  }

  /** The scores after the first n accesses of a stream to one zone. */
  ghost function StreamScores(c: Config, k: nat, n: nat): (r: seq<seq<nat>>)
    requires ConfigOk(c) && Offsets0(c, Stream(k, n))
    ensures Shaped(c, r)
    decreases n
  {
    if n == 0 then NoScores(c)
    else
      assert Stream(k, n)[..n - 1] == Stream(k, n - 1);
      assert Stream(k, n)[n - 1] == k * (n - 1);
      assert forall i :: 0 <= i < n - 1 ==> Stream(k, n - 1)[i] == Stream(k, n)[i];
      var z := ZoneAfter(c, Stream(k, n - 1));
      Scored(c, StreamScores(c, k, n - 1), z.states, z.queue, k * (n - 1))
  }

  lemma StreamShorter(c: Config, k: nat, n: nat)
    requires n > 0 && Offsets0(c, Stream(k, n))
    ensures Offsets0(c, Stream(k, n - 1)) && k * (n - 1) < c.blocks
  {
    assert Stream(k, n)[..n - 1] == Stream(k, n - 1);
    assert Stream(k, n)[n - 1] == k * (n - 1);
    var os := Stream(k, n - 1);
    forall i | 0 <= i < |os| ensures os[i] < c.blocks { assert os[i] == Stream(k, n)[i]; }
  }

  /** The stride is reached from the block accessed just before. */
  lemma StrideReached(c: Config, k: nat, n: nat)
    requires ConfigOk(c) && n > 1 && k > 0 && Offsets0(c, Stream(k, n - 1)) && k * (n - 1) < c.blocks
    ensures var z := ZoneAfter(c, Stream(k, n - 1)); Reaches(c, z.states, z.queue, k * (n - 1), 0, c.blocks - 1 + k)
  {
    var z, b := ZoneAfter(c, Stream(k, n - 1)), k * (n - 2);
    ZoneRemembers(c, Stream(k, n - 1));
    StreamAt(k, n - 1, n - 2);
    Ascends(k, n - 2, n - 1);
    assert Stream(k, n - 1)[n - 2] in Stream(k, n - 1);
    assert ReachesFrom(c, z.states, z.queue, k * (n - 1), 0, c.blocks - 1 + k, b);
  }

  /** No descending offset is. */
  lemma NothingDescends(c: Config, k: nat, n: nat, j: nat)
    requires ConfigOk(c) && n > 0 && 0 < j < c.blocks && Offsets0(c, Stream(k, n - 1)) && k * (n - 1) < c.blocks
    ensures var z := ZoneAfter(c, Stream(k, n - 1)); !Reaches(c, z.states, z.queue, k * (n - 1), 0, c.blocks - 1 - j)
  {
    var z, p, at := ZoneAfter(c, Stream(k, n - 1)), c.blocks - 1 - j, k * (n - 1);
    ZoneRemembers(c, Stream(k, n - 1));
    if Reaches(c, z.states, z.queue, at, 0, p) {
      var b :| ReachesFrom(c, z.states, z.queue, at, 0, p, b);
      assert b in Stream(k, n - 1);
      var i: nat :| i < n - 1 && Stream(k, n - 1)[i] == b;
      StreamAt(k, n - 1, i);
      Ascends(k, i, n - 1);
      assert false;
    }
  }

  lemma NothingYet(c: Config, p: nat)
    requires ConfigOk(c)
    ensures var z := ZoneAfter(c, []); !Reaches(c, z.states, z.queue, 0, 0, p)
  {
  }

  /** What the n-th access adds. */
  lemma StreamStep(c: Config, k: nat, n: nat, j: nat)
    requires ConfigOk(c) && 0 < k < c.blocks && n > 0 && Offsets0(c, Stream(k, n)) && 0 < j < c.blocks
    ensures Offsets0(c, Stream(k, n - 1))
    ensures StreamScores(c, k, n)[0][c.blocks - 1 + k] == StreamScores(c, k, n - 1)[0][c.blocks - 1 + k] + if n > 1 then 1 else 0
    ensures StreamScores(c, k, n)[0][c.blocks - 1 - j] == StreamScores(c, k, n - 1)[0][c.blocks - 1 - j]
  {
    StreamShorter(c, k, n);
    var z, at := ZoneAfter(c, Stream(k, n - 1)), k * (n - 1);
    if n > 1 { StrideReached(c, k, n); } else { NothingYet(c, c.blocks - 1 + k); }
    NothingDescends(c, k, n, j);
    ScoresIff(c, StreamScores(c, k, n - 1), z.states, z.queue, at, 0, c.blocks - 1 + k);
    ScoresIff(c, StreamScores(c, k, n - 1), z.states, z.queue, at, 0, c.blocks - 1 - j);
  }

  /** An ascending stream of stride k gives the offset k a point with every access after the first, and no
      descending offset any. */
  lemma {:induction false} StreamScoresStride(c: Config, k: nat, n: nat, j: nat)
    requires ConfigOk(c) && 0 < k < c.blocks && Offsets0(c, Stream(k, n)) && 0 < j < c.blocks
    ensures StreamScores(c, k, n)[0][c.blocks - 1 + k] == if n == 0 then 0 else n - 1
    ensures StreamScores(c, k, n)[0][c.blocks - 1 - j] == 0
  {
    if n > 0 {
      StreamStep(c, k, n, j);
      StreamScoresStride(c, k, n - 1, j);
    }
  }
}
