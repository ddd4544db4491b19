/**
 The set-associative table of the prefetcher framework (inc/bakshalipour_framework.h): a way array
 per set, a tag-to-way index beside it, and last-touch times. The class refines a bounded map whose
 victims are the least recently touched keys of their set.
 */
module SetAssociative {
  import opened Basics

  datatype Entry<T> = Entry(key: nat, tag: nat, valid: bool, data: T)

  /** The tag index and the valid ways of a set are in bijection. */
  ghost predicate Indexed<T>(ways: seq<Entry<T>>, cam: map<nat, nat>) {
    && (forall tag :: tag in cam ==> cam[tag] < |ways| && ways[cam[tag]].valid && ways[cam[tag]].tag == tag)
    && (forall w :: 0 <= w < |ways| && ways[w].valid ==> ways[w].tag in cam && cam[ways[w].tag] == w)
  }

  /** Way w is the only valid way with this tag. */
  ghost predicate OnlyMatch<T>(ways: seq<Entry<T>>, tag: nat, w: nat) {
    && w < |ways| && ways[w].valid && ways[w].tag == tag
    && forall v :: 0 <= v < |ways| && ways[v].valid && ways[v].tag == tag ==> v == w
  }

  /** Looking a tag up in the index is a linear scan of the ways. */
  lemma IndexIsScan<T>(ways: seq<Entry<T>>, cam: map<nat, nat>, tag: nat)
    requires Indexed(ways, cam)
    ensures tag in cam ==> OnlyMatch(ways, tag, cam[tag])
    ensures tag !in cam <==> forall w :: 0 <= w < |ways| && ways[w].valid ==> ways[w].tag != tag
  {
  }

  /** Set index and tag determine the key. */
  lemma KeyParts(a: nat, b: nat, sets: nat)
    requires sets > 0 && a % sets == b % sets && a / sets == b / sets
    ensures a == b
  {
    assert a == sets * (a / sets) + a % sets;
    assert b == sets * (b / sets) + b % sets;
  }

  // ---------------------------------------------------------------------------------------------
  // Touch times

  /** One more than the position of the last touch of key; 0 when it was never touched. */
  ghost function Last(log: seq<nat>, key: nat): (r: nat)
    ensures r <= |log|
  {
    if log == [] then 0
    else if log[|log| - 1] == key then |log|
    else Last(log[..|log| - 1], key)
  }

  lemma LastTouch(log: seq<nat>, key: nat, k: nat)
    ensures Last(log + [key], k) == if k == key then |log| + 1 else Last(log, k)
  {
    var more := log + [key];
    assert more[..|more| - 1] == log;
  }

  lemma {:induction false} LastNames(log: seq<nat>, k: nat)
    requires Last(log, k) > 0
    ensures log[Last(log, k) - 1] == k
    decreases log
  {
    if log[|log| - 1] != k { LastNames(log[..|log| - 1], k); }
  }

  /** Distinct touched keys have distinct last touches. */
  lemma LastDistinct(log: seq<nat>, a: nat, b: nat)
    requires Last(log, a) > 0 && Last(log, a) == Last(log, b)
    ensures a == b
  {
    LastNames(log, a);
    LastNames(log, b);
  }

  // ---------------------------------------------------------------------------------------------
  // One set

  /** What the table stands for: the map it holds, the keys touched so far in order, and the keys
      inserted but not yet touched. */
  datatype View<T> = View(contents: map<nat, T>, log: seq<nat>, untouched: set<nat>)

  /** A valid way holds a key of its set, with the key's data and its last touch. */
  ghost predicate WayOk<T>(sets: nat, s: nat, e: Entry<T>, age: nat, v: View<T>)
    requires 0 < sets
  {
    e.valid ==>
      && e.key % sets == s && e.key / sets == e.tag
      && e.key in v.contents && v.contents[e.key] == e.data
      && (e.key !in v.untouched ==> age == Last(v.log, e.key) > 0)
  }

  ghost predicate SetOk<T>(sets: nat, s: nat, ways: seq<Entry<T>>, cam: map<nat, nat>, lru: seq<nat>, v: View<T>)
    requires 0 < sets && |ways| == |lru|
  {
    && Indexed(ways, cam)
    && (forall w :: 0 <= w < |ways| ==> WayOk(sets, s, ways[w], lru[w], v))
    && (forall k :: k in v.contents && k % sets == s ==> k / sets in cam)
  }

  /** The way of a key that is present. */
  lemma Located<T>(sets: nat, s: nat, ways: seq<Entry<T>>, cam: map<nat, nat>, lru: seq<nat>, v: View<T>, key: nat)
    requires 0 < sets && |ways| == |lru| && SetOk(sets, s, ways, cam, lru, v) && key % sets == s
    ensures key / sets in cam <==> key in v.contents
    ensures key in v.contents ==>
      cam[key / sets] < |ways| && ways[cam[key / sets]] == Entry(key, key / sets, true, v.contents[key])
  {
    var tag := key / sets;
    if tag in cam {
      assert WayOk(sets, s, ways[cam[tag]], lru[cam[tag]], v);
      KeyParts(ways[cam[tag]].key, key, sets);
    }
  }

  /** A set depends only on the keys that map to it. */
  lemma OtherSet<T>(sets: nat, s: nat, ways: seq<Entry<T>>, cam: map<nat, nat>, lru: seq<nat>, v: View<T>, v': View<T>)
    requires 0 < sets && |ways| == |lru| && SetOk(sets, s, ways, cam, lru, v)
    requires forall k: nat :: k % sets == s ==> SameFor(v, v', k)
    ensures SetOk(sets, s, ways, cam, lru, v')
  {
    forall w | 0 <= w < |ways| ensures WayOk(sets, s, ways[w], lru[w], v') {
      assert WayOk(sets, s, ways[w], lru[w], v);
      assert ways[w].valid ==> SameFor(v, v', ways[w].key);
    }
    forall k | k in v'.contents && k % sets == s ensures k / sets in cam { assert SameFor(v, v', k); }
  }

  ghost predicate SameFor<T>(v: View<T>, v': View<T>, k: nat) {
    && (k in v.contents <==> k in v'.contents)
    && (k in v.contents ==> v.contents[k] == v'.contents[k])
    && (k in v.untouched <==> k in v'.untouched)
    && Last(v.log, k) == Last(v'.log, k)
  }

  /** Two valid ways hold different keys. */
  lemma WaysDiffer<T>(sets: nat, s: nat, ways: seq<Entry<T>>, cam: map<nat, nat>, lru: seq<nat>, v: View<T>, w: nat, u: nat)
    requires 0 < sets && |ways| == |lru| && SetOk(sets, s, ways, cam, lru, v)
    requires w < |ways| && u < |ways| && w != u && ways[w].valid && ways[u].valid
    ensures ways[w].key != ways[u].key
  {
    assert WayOk(sets, s, ways[w], lru[w], v) && WayOk(sets, s, ways[u], lru[u], v);
    assert cam[ways[w].tag] == w;
  }

  function Assigned<T>(v: View<T>, key: nat, data: T): View<T> { v.(contents := v.contents[key := data]) }

  function Touched<T>(v: View<T>, key: nat): View<T> { v.(log := v.log + [key], untouched := v.untouched - {key}) }

  function Removed<T>(v: View<T>, key: nat): View<T> {
    v.(contents := v.contents - {key}, untouched := v.untouched - {key})
  }

  function Placed<T>(v: View<T>, was: Entry<T>, key: nat, data: T): View<T> {
    var rest := if was.valid then Removed(v, was.key) else v;
    rest.(contents := rest.contents[key := data], untouched := rest.untouched + {key})
  }

  lemma AssignKeeps<T>(sets: nat, s: nat, ways: seq<Entry<T>>, cam: map<nat, nat>, lru: seq<nat>, v: View<T>, w: nat, data: T)
    requires 0 < sets && |ways| == |lru| && SetOk(sets, s, ways, cam, lru, v) && w < |ways| && ways[w].valid
    ensures SetOk(sets, s, ways[w := ways[w].(data := data)], cam, lru, Assigned(v, ways[w].key, data))
  {
    var key := ways[w].key;
    assert WayOk(sets, s, ways[w], lru[w], v);
    forall u | 0 <= u < |ways| && u != w ensures WayOk(sets, s, ways[u], lru[u], Assigned(v, key, data)) {
      assert WayOk(sets, s, ways[u], lru[u], v);
      if ways[u].valid { WaysDiffer(sets, s, ways, cam, lru, v, w, u); }
    }
  }

  lemma TouchKeeps<T>(sets: nat, s: nat, ways: seq<Entry<T>>, cam: map<nat, nat>, lru: seq<nat>, v: View<T>, w: nat)
    requires 0 < sets && |ways| == |lru| && SetOk(sets, s, ways, cam, lru, v) && w < |ways| && ways[w].valid
    ensures SetOk(sets, s, ways, cam, lru[w := |v.log| + 1], Touched(v, ways[w].key))
  {
    var key := ways[w].key;
    LastTouch(v.log, key, key);
    assert WayOk(sets, s, ways[w], lru[w], v);
    forall u | 0 <= u < |ways| && u != w ensures WayOk(sets, s, ways[u], lru[u], Touched(v, key)) {
      assert WayOk(sets, s, ways[u], lru[u], v);
      if ways[u].valid { WaysDiffer(sets, s, ways, cam, lru, v, w, u); }
      LastTouch(v.log, key, ways[u].key);
    }
  }

  lemma TouchedElsewhere<T>(sets: nat, s: nat, ways: seq<Entry<T>>, cam: map<nat, nat>, lru: seq<nat>, v: View<T>, key: nat)
    requires 0 < sets && |ways| == |lru| && SetOk(sets, s, ways, cam, lru, v) && key % sets != s
    ensures SetOk(sets, s, ways, cam, lru, Touched(v, key))
  {
    forall k: nat | k % sets == s ensures SameFor(v, Touched(v, key), k) { LastTouch(v.log, key, k); }
    OtherSet(sets, s, ways, cam, lru, v, Touched(v, key));
  }

  lemma PlacedElsewhere<T>(
    sets: nat, s: nat, ways: seq<Entry<T>>, cam: map<nat, nat>, lru: seq<nat>, v: View<T>, was: Entry<T>, key: nat, data: T)
    requires 0 < sets && |ways| == |lru| && SetOk(sets, s, ways, cam, lru, v) && key % sets != s
    requires was.valid ==> was.key % sets != s
    ensures SetOk(sets, s, ways, cam, lru, Placed(v, was, key, data))
  {
    forall k: nat | k % sets == s ensures SameFor(v, Placed(v, was, key, data), k) { }
    OtherSet(sets, s, ways, cam, lru, v, Placed(v, was, key, data));
  }

  lemma PlacedKeys<T>(v: View<T>, was: Entry<T>, key: nat, data: T)
    requires v.untouched <= v.contents.Keys
    ensures Placed(v, was, key, data).untouched <= Placed(v, was, key, data).contents.Keys
  {
  }

  lemma RemoveKeeps<T>(sets: nat, s: nat, ways: seq<Entry<T>>, cam: map<nat, nat>, lru: seq<nat>, v: View<T>, w: nat)
    requires 0 < sets && |ways| == |lru| && SetOk(sets, s, ways, cam, lru, v) && w < |ways| && ways[w].valid
    ensures SetOk(sets, s, ways[w := ways[w].(valid := false)], cam - {ways[w].tag}, lru, Removed(v, ways[w].key))
  {
    var key := ways[w].key;
    assert WayOk(sets, s, ways[w], lru[w], v);
    forall u | 0 <= u < |ways| && u != w ensures WayOk(sets, s, ways[u], lru[u], Removed(v, key)) {
      assert WayOk(sets, s, ways[u], lru[u], v);
      if ways[u].valid { WaysDiffer(sets, s, ways, cam, lru, v, w, u); }
    }
    forall k | k in v.contents && k % sets == s && k != key ensures k / sets != ways[w].tag {
      if k / sets == ways[w].tag { KeyParts(k, key, sets); }
    }
  }

  lemma FillKeeps<T>(sets: nat, s: nat, ways: seq<Entry<T>>, cam: map<nat, nat>, lru: seq<nat>, v: View<T>, w: nat, key: nat, data: T)
    requires 0 < sets && |ways| == |lru| && SetOk(sets, s, ways, cam, lru, v)
    requires w < |ways| && !ways[w].valid && key % sets == s && key !in v.contents
    ensures var v' := v.(contents := v.contents[key := data], untouched := v.untouched + {key});
      SetOk(sets, s, ways[w := Entry(key, key / sets, true, data)], cam[key / sets := w], lru, v')
  {
    var v' := v.(contents := v.contents[key := data], untouched := v.untouched + {key});
    Located(sets, s, ways, cam, lru, v, key);
    forall u | 0 <= u < |ways| && u != w ensures WayOk(sets, s, ways[u], lru[u], v') {
      assert WayOk(sets, s, ways[u], lru[u], v);
    }
  }

  lemma PlaceKeeps<T>(sets: nat, s: nat, ways: seq<Entry<T>>, cam: map<nat, nat>, lru: seq<nat>, v: View<T>, w: nat, key: nat, data: T)
    requires 0 < sets && |ways| == |lru| && SetOk(sets, s, ways, cam, lru, v)
    requires w < |ways| && key % sets == s && key !in v.contents
    ensures SetOk(sets, s, ways[w := Entry(key, key / sets, true, data)],
      (if ways[w].valid then cam - {ways[w].tag} else cam)[key / sets := w], lru, Placed(v, ways[w], key, data))
  {
    var e := Entry(key, key / sets, true, data);
    if ways[w].valid {
      var less := ways[w := ways[w].(valid := false)];
      RemoveKeeps(sets, s, ways, cam, lru, v, w);
      FillKeeps(sets, s, less, cam - {ways[w].tag}, lru, Removed(v, ways[w].key), w, key, data);
      assert less[w := e] == ways[w := e];
    } else {
      FillKeeps(sets, s, ways, cam, lru, v, w, key, data);
    }
  }

  /** The victim of a full set was touched before every other key of the set. */
  lemma VictimIsLeastRecent<T>(sets: nat, s: nat, ways: seq<Entry<T>>, cam: map<nat, nat>, lru: seq<nat>, v: View<T>, w: nat, k: nat)
    requires 0 < sets && |ways| == |lru| && SetOk(sets, s, ways, cam, lru, v) && v.untouched == {}
    requires w < |ways| && ways[w].valid && forall u :: 0 <= u < |ways| ==> lru[w] <= lru[u]
    requires k in v.contents && k % sets == s && k != ways[w].key
    ensures 0 < Last(v.log, ways[w].key) < Last(v.log, k)
  {
    Located(sets, s, ways, cam, lru, v, k);
    var u := cam[k / sets];
    assert WayOk(sets, s, ways[w], lru[w], v) && WayOk(sets, s, ways[u], lru[u], v);
    if Last(v.log, ways[w].key) == Last(v.log, k) { LastDistinct(v.log, ways[w].key, k); }
  }

  /** A set never holds more keys than it has ways. */
  lemma KeysFitWays<T>(sets: nat, s: nat, ways: seq<Entry<T>>, cam: map<nat, nat>, lru: seq<nat>, v: View<T>, keys: seq<nat>)
    requires 0 < sets && |ways| == |lru| && SetOk(sets, s, ways, cam, lru, v)
    requires forall i :: 0 <= i < |keys| ==> keys[i] in v.contents && keys[i] % sets == s
    requires forall i, j :: 0 <= i < j < |keys| ==> keys[i] != keys[j]
    ensures |keys| <= |ways|
  {
    forall i | 0 <= i < |keys| ensures keys[i] / sets in cam { Located(sets, s, ways, cam, lru, v, keys[i]); }
    var taken := seq<nat>(|keys|, i requires 0 <= i < |keys| => cam[keys[i] / sets]);
    forall i | 0 <= i < |keys| ensures taken[i] < |ways| && ways[taken[i]].key == keys[i] {
      Located(sets, s, ways, cam, lru, v, keys[i]);
    }
    Pigeonhole(taken, |ways|);
  }

  // ---------------------------------------------------------------------------------------------
  // The table

  /** w is the first of the n ways with the least time. */
  ghost predicate FirstLeast(times: seq<nat>, w: nat, n: nat) {
    && w < n <= |times|
    && (forall v :: 0 <= v < n ==> times[w] <= times[v])
    && (forall v :: 0 <= v < w ==> times[w] < times[v])
  }

  class LruCache<T> {
    const sets: nat
    const ways: nat
    var entries: seq<seq<Entry<T>>>
    var cams: seq<map<nat, nat>>
    var lru: seq<seq<nat>>
    var t: nat
    ghost var view: View<T>

    ghost predicate Shape()
      reads this
    {
      && 0 < sets && 0 < ways && |entries| == |cams| == |lru| == sets
      && (forall s :: 0 <= s < sets ==> |entries[s]| == ways)
      && (forall s :: 0 <= s < sets ==> |lru[s]| == ways)
    }

    ghost predicate Row(s: nat, v: View<T>)
      requires Shape() && s < sets
      reads this
    {
      SetOk(sets, s, entries[s], cams[s], lru[s], v)
    }

    ghost predicate Valid()
      reads this
    {
      && Shape() && t == |view.log| + 1 && view.untouched <= view.contents.Keys
      && (forall s :: 0 <= s < sets ==> Row(s, view))
    }

    constructor (sets: nat, ways: nat, blank: T)
      requires 0 < sets && 0 < ways
      ensures Valid() && this.sets == sets && this.ways == ways && view == View(map[], [], {})
    {
      this.sets, this.ways := sets, ways;
      entries := seq(sets, _ => seq(ways, _ => Entry(0, 0, false, blank)));
      cams := seq(sets, _ => map[]);
      lru := seq(sets, _ => seq(ways, _ => 0));
      t, view := 1, View(map[], [], {});
    }

    /** The way of a present key, found through the tag index. */
    method Find(key: nat) returns (way: Option<nat>)
      requires Valid()
      ensures way.Some? <==> key in view.contents
      ensures way.Some? ==>
        way.value < ways && entries[key % sets][way.value] == Entry(key, key / sets, true, view.contents[key])
    {
      var index, tag := key % sets, key / sets;
      assert Row(index, view);
      Located(sets, index, entries[index], cams[index], lru[index], view, key);
      if tag in cams[index] { return Some(cams[index][tag]); }
      return None;
    }

    method Lookup(key: nat) returns (r: Option<T>)
      requires Valid()
      ensures r == if key in view.contents then Some(view.contents[key]) else None
    {
      var way := Find(key);
      match way
      case None => return None;
      case Some(w) => return Some(entries[key % sets][w].data);
    }

    /** Writing through the pointer that find returned. */
    method Update(key: nat, data: T)
      requires Valid() && key in view.contents
      modifies this`entries, this`view
      ensures Valid() && view == Assigned(old(view), key, data)
    {
      var way := Find(key);
      var s, w := key % sets, way.value;
      assert Row(s, view);
      AssignKeeps(sets, s, entries[s], cams[s], lru[s], view, w, data);
      entries := entries[s := entries[s][w := entries[s][w].(data := data)]];
      view := Assigned(view, key, data);
      forall s' | 0 <= s' < sets ensures Row(s', view) {
        assert old(Row(s', view));
        if s' != s { OtherSet(sets, s', entries[s'], cams[s'], lru[s'], old(view), view); }
      }
    }

    method SetMru(key: nat)
      requires Valid() && key in view.contents
      modifies this`lru, this`t, this`view
      ensures Valid() && view == Touched(old(view), key)
    {
      var way := Find(key);
      var s, w := key % sets, way.value;
      assert Row(s, view);
      TouchKeeps(sets, s, entries[s], cams[s], lru[s], view, w);
      var ages: seq<nat> := lru[s][w := t];
      lru := lru[s := ages];
      t := t + 1;
      view := Touched(view, key);
      forall s' | 0 <= s' < sets ensures Row(s', view) {
        assert old(Row(s', view));
        if s' != s {
          TouchedElsewhere(sets, s', entries[s'], cams[s'], lru[s'], old(view), key);
        }
      }
    }

    /** The first way with the smallest touch time; every way before it was touched later. */
    method SelectVictim(index: nat) returns (w: nat)
      requires Shape() && index < sets
      ensures w < ways && FirstLeast(lru[index], w, ways)
    {
      w := 0;
      for i := 1 to ways
        invariant w < i && FirstLeast(lru[index], w, i)
      {
        if lru[index][i] < lru[index][w] { w := i; }
      }
    }

    method FreeWay(index: nat) returns (way: Option<nat>)
      requires Shape() && index < sets
      ensures way.Some? ==> way.value < ways && !entries[index][way.value].valid
      ensures way.None? ==> forall w :: 0 <= w < ways ==> entries[index][w].valid
    {
      for i := 0 to ways
        invariant forall w :: 0 <= w < i ==> entries[index][w].valid
      {
        if !entries[index][i].valid { return Some(i); }
      }
      return None;
    }

    /** Puts a new entry in way w, over the entry that was there. */
    method Place(key: nat, data: T, w: nat) returns (was: Entry<T>)
      requires Valid() && key !in view.contents && w < ways
      modifies this`entries, this`cams, this`view
      ensures Valid() && was == old(entries)[key % sets][w] && view == Placed(old(view), was, key, data)
      ensures was.valid ==> Held(old(view), was, key)
    {
      var s, tag := key % sets, key / sets;
      was := entries[s][w];
      assert Row(s, view) && WayOk(sets, s, was, lru[s][w], view);
      ghost var after := Placed(view, was, key, data);
      PlaceRows(was, key, data);
      PlaceKeeps(sets, s, entries[s], cams[s], lru[s], view, w, key, data);
      PlacedKeys(view, was, key, data);
      var row := entries[s][w := Entry(key, tag, true, data)];
      var cam: map<nat, nat> := (if was.valid then cams[s] - {was.tag} else cams[s])[tag := w];
      assert SetOk(sets, s, row, cam, lru[s], after);
      entries := entries[s := row];
      cams := cams[s := cam];
      view := after;
      forall r | 0 <= r < sets ensures Row(r, view) {
        assert r != s ==> old(Row(r, after));
      }
    }

    /** Filling a way leaves every other set as it should be. */
    lemma PlaceRows(was: Entry<T>, key: nat, data: T)
      requires Valid() && (was.valid ==> was.key % sets == key % sets)
      ensures forall r :: 0 <= r < sets && r != key % sets ==> Row(r, Placed(view, was, key, data))
    {
      forall r | 0 <= r < sets && r != key % sets ensures Row(r, Placed(view, was, key, data)) {
        assert Row(r, view);
        PlacedElsewhere(sets, r, entries[r], cams[r], lru[r], view, was, key, data);
      }
    }

    /** was is an entry of the table in the set of key. */
    ghost predicate Held(v: View<T>, was: Entry<T>, key: nat)
      requires 0 < sets
    {
      was.key in v.contents && was.key % sets == key % sets && was.data == v.contents[was.key]
    }

    /** was was touched before every other key of its set. */
    ghost predicate LeastRecent(v: View<T>, was: Entry<T>)
      requires 0 < sets
    {
      forall k :: k in v.contents && k % sets == was.key % sets && k != was.key ==>
        0 < Last(v.log, was.key) < Last(v.log, k)
    }

    /** Insert as on a map; a full set first loses its least recently touched key. */
    method Insert(key: nat, data: T) returns (was: Entry<T>)
      requires Valid()
      modifies this`entries, this`cams, this`view
      ensures Valid() && (was.valid ==> Held(old(view), was, key))
      ensures key in old(view).contents ==> was.valid && was.key == key && view == Assigned(old(view), key, data)
      ensures key !in old(view).contents ==>
        && view == Placed(old(view), was, key, data)
        && (was.valid <==> forall w :: 0 <= w < ways ==> old(entries)[key % sets][w].valid)
        && (was.valid && old(view).untouched == {} ==> LeastRecent(old(view), was))
    {
      var s := key % sets;
      var way := Find(key);
      if way.Some? {
        was := entries[s][way.value];
        Update(key, data);
        return;
      }
      var free := FreeWay(s);
      var w;
      if free.Some? {
        w := free.value;
      } else {
        w := SelectVictim(s);
        if view.untouched == {} { LeastRecentWay(s, w); }
      }
      was := Place(key, data, w);
    }

    lemma LeastRecentWay(s: nat, w: nat)
      requires Valid() && s < sets && w < ways && entries[s][w].valid && view.untouched == {}
      requires forall u :: 0 <= u < ways ==> lru[s][w] <= lru[s][u]
      ensures LeastRecent(view, entries[s][w])
    {
      assert Row(s, view) && WayOk(sets, s, entries[s][w], lru[s][w], view);
      forall k | k in view.contents && k % sets == s && k != entries[s][w].key
        ensures 0 < Last(view.log, entries[s][w].key) < Last(view.log, k)
      {
        VictimIsLeastRecent(sets, s, entries[s], cams[s], lru[s], view, w, k);
      }
    }

    /** The use every table makes of insertion: insert, then mark as most recent. */
    method Put(key: nat, data: T) returns (was: Entry<T>)
      requires Valid() && view.untouched == {}
      modifies this
      ensures Valid() && view.untouched == {} && view.log == old(view).log + [key]
      ensures was.valid ==> Held(old(view), was, key)
      ensures key in old(view).contents ==> was.valid && was.key == key
      ensures view.contents == (if was.valid then old(view).contents - {was.key} else old(view).contents)[key := data]
      ensures key !in old(view).contents && was.valid ==> LeastRecent(old(view), was)
    {
      was := Insert(key, data);
      SetMru(key);
      assert was.valid && was.key == key ==>
        old(view).contents[key := data] == (old(view).contents - {key})[key := data];
    }

    method Erase(key: nat) returns (r: Option<T>)
      requires Valid()
      modifies this`entries, this`cams, this`view
      ensures Valid() && view == Removed(old(view), key)
      ensures r == if key in old(view).contents then Some(old(view).contents[key]) else None
    {
      var way := Find(key);
      if way.None? {
        assert view.contents - {key} == view.contents && view.untouched - {key} == view.untouched;
        return None;
      }
      var s, w := key % sets, way.value;
      var e := entries[s][w];
      assert Row(s, view);
      RemoveKeeps(sets, s, entries[s], cams[s], lru[s], view, w);
      entries := entries[s := entries[s][w := e.(valid := false)]];
      cams := cams[s := cams[s] - {e.tag}];
      view := Removed(view, key);
      forall s' | 0 <= s' < sets ensures Row(s', view) {
        assert old(Row(s', view));
        if s' != s { OtherSet(sets, s', entries[s'], cams[s'], lru[s'], old(view), view); }
      }
      return Some(e.data);
    }
  }
}
