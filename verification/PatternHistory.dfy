/**
 Bingo's pattern history table (inc/bingo.h): footprints are stored rotated to their trigger, and a
 lookup scans one set for a PC and address match or all PC and offset matches.
 */
module PatternHistory {
  import opened Basics
  import opened Bits
  import opened BingoKeys
  import opened Rotation
  import opened SetAssociative

  datatype Event = PcAddress | PcOffset | Miss

  /** keys lists, once each, the keys of contents that agree with key on PC and offset. */
  ghost predicate Enumerates<T>(c: Widths, contents: map<nat, T>, key: nat, keys: seq<nat>) {
    && (forall i :: 0 <= i < |keys| ==> keys[i] in contents && Low(keys[i], c.pc + c.min) == Low(key, c.pc + c.min))
    && (forall i, j :: 0 <= i < j < |keys| ==> keys[i] != keys[j])
    && (forall k :: k in contents && Low(k, c.pc + c.min) == Low(key, c.pc + c.min) ==> k in keys)
  }

  // ---------------------------------------------------------------------------------------------
  // The scan of one set

  /** The ways of a set, seen from a lookup for key: its valid ways are entries of the table, the two
      comparisons mean what they should, and every entry with the same PC and offset is here. */
  ghost predicate RowOk<T>(c: Widths, row: seq<Entry<T>>, contents: map<nat, T>, key: nat, tag: nat)
    requires WidthsOk(c)
  {
    && (forall w :: 0 <= w < |row| && row[w].valid ==> Compares(c, row[w], contents, key, tag))
    && (forall w, u :: 0 <= w < u < |row| && row[w].valid && row[u].valid ==> row[w].key != row[u].key)
    && (forall k :: k in contents && Low(k, c.pc + c.min) == Low(key, c.pc + c.min) ==> Somewhere(row, k))
  }

  ghost predicate Compares<T>(c: Widths, e: Entry<T>, contents: map<nat, T>, key: nat, tag: nat)
    requires WidthsOk(c)
  {
    && e.key in contents && e.data == contents[e.key]
    && (MinMatch(c, e.tag, tag) <==> Low(e.key, c.pc + c.min) == Low(key, c.pc + c.min))
    && (MaxMatch(c, e.tag, tag) <==> e.key == key)
  }

  ghost predicate Somewhere<T>(row: seq<Entry<T>>, k: nat) {
    exists w :: 0 <= w < |row| && row[w].valid && row[w].key == k
  }

  /** The valid ways below n that satisfy `some`, in order. */
  function Picks<T>(row: seq<Entry<T>>, some: Entry<T> -> bool, n: nat): seq<nat>
    requires n <= |row|
  {
    if n == 0 then []
    else if row[n - 1].valid && some(row[n - 1]) then Picks(row, some, n - 1) + [n - 1]
    else Picks(row, some, n - 1)
  }

  lemma {:induction false} PickSound<T>(row: seq<Entry<T>>, some: Entry<T> -> bool, n: nat, i: nat)
    requires n <= |row| && i < |Picks(row, some, n)|
    ensures var w := Picks(row, some, n)[i]; w < n && row[w].valid && some(row[w])
  {
    if i < |Picks(row, some, n - 1)| { PickSound(row, some, n - 1, i); }
  }

  lemma {:induction false} PickOrder<T>(row: seq<Entry<T>>, some: Entry<T> -> bool, n: nat, i: nat, j: nat)
    requires n <= |row| && i < j < |Picks(row, some, n)|
    ensures Picks(row, some, n)[i] < Picks(row, some, n)[j]
  {
    if j < |Picks(row, some, n - 1)| { PickOrder(row, some, n - 1, i, j); } else { PickSound(row, some, n - 1, i); }
  }

  lemma {:induction false} PickComplete<T>(row: seq<Entry<T>>, some: Entry<T> -> bool, n: nat, w: nat) returns (i: nat)
    requires w < n <= |row| && row[w].valid && some(row[w])
    ensures i < |Picks(row, some, n)| && Picks(row, some, n)[i] == w
  {
    if w == n - 1 { i := |Picks(row, some, n - 1)|; } else { i := PickComplete(row, some, n - 1, w); }
  }

  /** What the scan collects. */
  function Collected<T>(row: seq<Entry<T>>, some: Entry<T> -> bool, n: nat): (r: seq<T>)
    requires n <= |row|
  {
    if n == 0 then []
    else if row[n - 1].valid && some(row[n - 1]) then Collected(row, some, n - 1) + [row[n - 1].data]
    else Collected(row, some, n - 1)
  }

  lemma {:induction false} CollectedSize<T>(row: seq<Entry<T>>, some: Entry<T> -> bool, n: nat)
    requires n <= |row|
    ensures |Collected(row, some, n)| == |Picks(row, some, n)|
  {
    if n > 0 { CollectedSize(row, some, n - 1); }
  }

  lemma {:induction false} CollectedAt<T>(row: seq<Entry<T>>, some: Entry<T> -> bool, n: nat, i: nat)
    requires n <= |row| && i < |Picks(row, some, n)| == |Collected(row, some, n)|
    ensures Picks(row, some, n)[i] < |row| && Collected(row, some, n)[i] == row[Picks(row, some, n)[i]].data
  {
    PickSound(row, some, n, i);
    CollectedSize(row, some, n - 1);
    if i < |Picks(row, some, n - 1)| { CollectedAt(row, some, n - 1, i); }
  }

  /** The keys of the collected entries. */
  ghost function PickedKeys<T>(row: seq<Entry<T>>, some: Entry<T> -> bool, n: nat): (r: seq<nat>)
    requires n <= |row|
    ensures |r| == |Picks(row, some, n)|
  {
    if n == 0 then []
    else if row[n - 1].valid && some(row[n - 1]) then PickedKeys(row, some, n - 1) + [row[n - 1].key]
    else PickedKeys(row, some, n - 1)
  }

  lemma {:induction false} PickedKey<T>(row: seq<Entry<T>>, some: Entry<T> -> bool, n: nat, i: nat)
    requires n <= |row| && i < |Picks(row, some, n)|
    ensures Picks(row, some, n)[i] < |row| && PickedKeys(row, some, n)[i] == row[Picks(row, some, n)[i]].key
  {
    PickSound(row, some, n, i);
    if i < |Picks(row, some, n - 1)| { PickedKey(row, some, n - 1, i); }
  }

  /** The collected keys are the keys of the table with the same PC and offset. */
  lemma PicksEnumerate<T>(c: Widths, row: seq<Entry<T>>, contents: map<nat, T>, key: nat, tag: nat, some: Entry<T> -> bool)
    requires WidthsOk(c) && RowOk(c, row, contents, key, tag)
    requires forall w :: 0 <= w < |row| && row[w].valid ==> some(row[w]) == MinMatch(c, row[w].tag, tag)
    ensures Enumerates(c, contents, key, PickedKeys(row, some, |row|))
  {
    var keys := PickedKeys(row, some, |row|);
    forall i | 0 <= i < |keys| ensures keys[i] in contents && Low(keys[i], c.pc + c.min) == Low(key, c.pc + c.min) {
      PickedIsEntry(c, row, contents, key, tag, some, i);
    }
    forall i, j | 0 <= i < j < |keys| ensures keys[i] != keys[j] { PickedDiffer(c, row, contents, key, tag, some, i, j); }
    forall k | k in contents && Low(k, c.pc + c.min) == Low(key, c.pc + c.min) ensures k in keys {
      EntryIsPicked(c, row, contents, key, tag, some, k);
    }
  }

  lemma PickedIsEntry<T>(c: Widths, row: seq<Entry<T>>, contents: map<nat, T>, key: nat, tag: nat, some: Entry<T> -> bool, i: nat)
    requires WidthsOk(c) && RowOk(c, row, contents, key, tag) && i < |Picks(row, some, |row|)|
    requires forall w :: 0 <= w < |row| && row[w].valid ==> some(row[w]) == MinMatch(c, row[w].tag, tag)
    ensures |Collected(row, some, |row|)| == |Picks(row, some, |row|)|
    ensures var k := PickedKeys(row, some, |row|)[i];
      k in contents && Low(k, c.pc + c.min) == Low(key, c.pc + c.min) && Collected(row, some, |row|)[i] == contents[k]
  {
    PickedKey(row, some, |row|, i);
    PickSound(row, some, |row|, i);
    CollectedSize(row, some, |row|);
    CollectedAt(row, some, |row|, i);
    assert Compares(c, row[Picks(row, some, |row|)[i]], contents, key, tag);
  }

  lemma PickedDiffer<T>(
    c: Widths, row: seq<Entry<T>>, contents: map<nat, T>, key: nat, tag: nat, some: Entry<T> -> bool, i: nat, j: nat)
    requires WidthsOk(c) && RowOk(c, row, contents, key, tag) && i < j < |Picks(row, some, |row|)|
    ensures PickedKeys(row, some, |row|)[i] != PickedKeys(row, some, |row|)[j]
  {
    PickedKey(row, some, |row|, i);
    PickedKey(row, some, |row|, j);
    PickSound(row, some, |row|, i);
    PickSound(row, some, |row|, j);
    PickOrder(row, some, |row|, i, j);
  }

  lemma EntryIsPicked<T>(c: Widths, row: seq<Entry<T>>, contents: map<nat, T>, key: nat, tag: nat, some: Entry<T> -> bool, k: nat)
    requires WidthsOk(c) && RowOk(c, row, contents, key, tag)
    requires forall w :: 0 <= w < |row| && row[w].valid ==> some(row[w]) == MinMatch(c, row[w].tag, tag)
    requires k in contents && Low(k, c.pc + c.min) == Low(key, c.pc + c.min)
    ensures k in PickedKeys(row, some, |row|)
  {
    assert Somewhere(row, k);
    var w :| 0 <= w < |row| && row[w].valid && row[w].key == k;
    assert Compares(c, row[w], contents, key, tag);
    var i := PickComplete(row, some, |row|, w);
    PickedKey(row, some, |row|, i);
  }

  lemma NoExact<T>(c: Widths, row: seq<Entry<T>>, contents: map<nat, T>, key: nat, tag: nat)
    requires WidthsOk(c) && RowOk(c, row, contents, key, tag)
    requires forall w :: 0 <= w < |row| && row[w].valid ==> row[w].key != key
    ensures key !in contents
  {
  }

  lemma Compared<T>(c: Widths, e: Entry<T>, contents: map<nat, T>, key: nat, tag: nat)
    requires WidthsOk(c) && High(key, c.pc + c.max) == 0 && High(e.key, c.pc + c.max) == 0
    requires Low(e.key, c.len) == Low(key, c.len) && e.tag == High(e.key, c.len) && tag == High(key, c.len)
    requires e.key in contents && e.data == contents[e.key]
    ensures Compares(c, e, contents, key, tag)
  {
    MinMatchIff(c, e.key, key);
    MaxMatchIff(c, e.key, key);
  }

  /** Keys with the same PC and offset have the same set index. */
  lemma SameIndex(c: Widths, k: nat, key: nat, sets: nat)
    requires WidthsOk(c) && sets == Pow2(c.len) && Low(k, c.pc + c.min) == Low(key, c.pc + c.min)
    ensures k % sets == key % sets
  {
    var more := c.pc + c.min - c.len;
    PartsDivide(k, c.len);
    PartsDivide(key, c.len);
    LowLow(k, c.len, more);
    LowLow(key, c.len, more);
  }

  /** key has set index s and tag `tag`, and fits in the width of keys. */
  predicate Divides(c: Widths, sets: nat, key: nat, s: nat, tag: nat) {
    WidthsOk(c) && 0 < sets == Pow2(c.len) && s == key % sets && tag == key / sets && High(key, c.pc + c.max) == 0
  }

  lemma RowCompares<T>(c: Widths, sets: nat, s: nat, e: Entry<T>, age: nat, v: View<T>, key: nat, tag: nat)
    requires Divides(c, sets, key, s, tag) && e.valid && WayOk(sets, s, e, age, v) && High(e.key, c.pc + c.max) == 0
    ensures Compares(c, e, v.contents, key, tag)
  {
    PartsDivide(e.key, c.len);
    PartsDivide(key, c.len);
    Compared(c, e, v.contents, key, tag);
  }

  lemma RowHolds<T>(c: Widths, sets: nat, s: nat, row: seq<Entry<T>>, cam: map<nat, nat>, lru: seq<nat>, v: View<T>, k: nat)
    requires 0 < sets && |row| == |lru| && SetOk(sets, s, row, cam, lru, v) && k in v.contents && k % sets == s
    ensures Somewhere(row, k)
  {
    Located(sets, s, row, cam, lru, v, k);
    assert row[cam[k / sets]].key == k;
  }

  lemma RowMeaning<T>(
    c: Widths, sets: nat, s: nat, row: seq<Entry<T>>, cam: map<nat, nat>, lru: seq<nat>, v: View<T>, key: nat, tag: nat)
    requires 0 < sets && Divides(c, sets, key, s, tag) && |row| == |lru| && SetOk(sets, s, row, cam, lru, v)
    requires forall k :: k in v.contents ==> High(k, c.pc + c.max) == 0
    ensures RowOk(c, row, v.contents, key, tag)
  {
    forall w | 0 <= w < |row| && row[w].valid ensures Compares(c, row[w], v.contents, key, tag) {
      assert WayOk(sets, s, row[w], lru[w], v);
      RowCompares(c, sets, s, row[w], lru[w], v, key, tag);
    }
    forall w, u | 0 <= w < u < |row| && row[w].valid && row[u].valid ensures row[w].key != row[u].key {
      WaysDiffer(sets, s, row, cam, lru, v, w, u);
    }
    forall k | k in v.contents && Low(k, c.pc + c.min) == Low(key, c.pc + c.min) ensures Somewhere(row, k) {
      SameIndex(c, k, key, sets);
      RowHolds(c, sets, s, row, cam, lru, v, k);
    }
  }

  /** The loop over the ways of the set: an exact match ends it, other matches are collected. */
  method ScanRow<T>(row: seq<Entry<T>>, full: Entry<T> -> bool, some: Entry<T> -> bool)
      returns (exact: Option<nat>, found: seq<T>)
    ensures exact.Some? ==>
      exact.value < |row| && row[exact.value].valid && full(row[exact.value]) && found == [row[exact.value].data]
    ensures exact.None? ==>
      (forall w :: 0 <= w < |row| && row[w].valid ==> !full(row[w])) && found == Collected(row, some, |row|)
  {
    found := [];
    for i := 0 to |row|
      invariant found == Collected(row, some, i)
      invariant forall w :: 0 <= w < i && row[w].valid ==> !full(row[w])
    {
      if row[i].valid {
        if full(row[i]) { return Some(i), [row[i].data]; }
        if some(row[i]) { found := found + [row[i].data]; }
      }
    }
    return None, found;
  }

  /** The scan with the two comparisons of the lookup, in terms of the contents of the table. */
  method LookupRow<T>(c: Widths, row: seq<Entry<T>>, tag: nat, ghost key: nat, ghost contents: map<nat, T>)
      returns (exact: Option<nat>, found: seq<T>, ghost keys: seq<nat>)
    requires WidthsOk(c) && RowOk(c, row, contents, key, tag)
    ensures exact.Some? <==> key in contents
    ensures exact.Some? ==> exact.value == key && found == [contents[key]]
    ensures exact.None? ==>
      && Enumerates(c, contents, key, keys) && |found| == |keys|
      && (forall i :: 0 <= i < |keys| ==> found[i] == contents[keys[i]])
  {
    var full := (e: Entry<T>) => MaxMatch(c, e.tag, tag);
    var some := (e: Entry<T>) => MinMatch(c, e.tag, tag);
    var way;
    way, found := ScanRow(row, full, some);
    if way.Some? {
      assert Compares(c, row[way.value], contents, key, tag);
      return Some(row[way.value].key), found, [];
    }
    keys := PickedKeys(row, some, |row|);
    PicksEnumerate(c, row, contents, key, tag, some);
    CollectedSize(row, some, |row|);
    forall i | 0 <= i < |keys| ensures found[i] == contents[keys[i]] {
      PickedIsEntry(c, row, contents, key, tag, some, i);
    }
    forall w | 0 <= w < |row| && row[w].valid ensures row[w].key != key {
      assert Compares(c, row[w], contents, key, tag) && !full(row[w]);
    }
    NoExact(c, row, contents, key, tag);
    return None, found, keys;
  }

  class PatternHistoryTable {
    const widths: Widths
    const patternLen: nat
    const table: LruCache<seq<bool>>

    ghost predicate Valid()
      reads table
    {
      && WidthsOk(widths) && 0 < patternLen
      && table.Valid() && table.sets == Pow2(widths.len) && table.view.untouched == {}
      && (forall k :: k in table.view.contents ==>
            High(k, widths.pc + widths.max) == 0 && |table.view.contents[k]| == patternLen)
    }

    constructor (widths: Widths, patternLen: nat, ways: nat)
      requires WidthsOk(widths) && 0 < patternLen && 0 < ways
      ensures Valid() && fresh(table) && table.view.contents == map[]
      ensures this.widths == widths && this.patternLen == patternLen
    {
      this.widths, this.patternLen := widths, patternLen;
      table := new LruCache(Pow2(widths.len), ways, []);
    }

    /** Stores the footprint rotated to start at its trigger; at most one entry makes place for it. */
    method Insert(pc: nat, address: nat, pattern: seq<bool>) returns (ghost gone: set<nat>)
      requires Valid() && |pattern| == patternLen
      modifies table
      ensures Valid()
      ensures |gone| <= 1
      ensures table.view.contents ==
        (old(table.view).contents - gone)[BuildKey(widths, pc, address) := Rotate(pattern, -(address % patternLen))]
    {
      var rotated := MyRotate(pattern, -(address % patternLen));
      KeyFields(widths, pc, address);
      var was := table.Put(BuildKey(widths, pc, address), rotated);
      gone := if was.valid then {was.key} else {};
      assert !was.valid ==> old(table.view).contents - gone == old(table.view).contents;
    }

    /** The footprint stored for this PC and address if the table has one, otherwise all footprints
        stored for this PC and offset anywhere in the table. */
    method Scan(key: nat) returns (event: Event, found: seq<seq<bool>>, ghost keys: seq<nat>)
      requires Valid() && High(key, widths.pc + widths.max) == 0
      modifies table
      ensures Valid() && table.view.contents == old(table.view).contents
      ensures event == PcAddress <==> key in table.view.contents
      ensures event == PcAddress ==> found == [table.view.contents[key]]
      ensures event != PcAddress ==>
        && Enumerates(widths, table.view.contents, key, keys) && |found| == |keys|
        && (forall i :: 0 <= i < |keys| ==> found[i] == table.view.contents[keys[i]])
        && (event == Miss <==> keys == [])
    {
      var index, tag := key % table.sets, key / table.sets;
      var row := table.entries[index];
      assert table.Row(index, table.view);
      RowMeaning(widths, table.sets, index, row, table.cams[index], table.lru[index], table.view, key, tag);
      var exact;
      exact, found, keys := LookupRow(widths, row, tag, key, table.view.contents);
      if exact.Some? {
        table.SetMru(exact.value);
        return PcAddress, found, [];
      }
      event := if found == [] then Miss else PcOffset;
    }

    /** The lookup returns footprints turned to the offset of this access. */
    method Find(pc: nat, address: nat) returns (event: Event, matches: seq<seq<bool>>, ghost keys: seq<nat>)
      requires Valid()
      modifies table
      ensures Valid() && table.view.contents == old(table.view).contents
      ensures event == PcAddress <==> BuildKey(widths, pc, address) in table.view.contents
      ensures event == PcAddress ==>
        matches == [Rotate(table.view.contents[BuildKey(widths, pc, address)], address % patternLen)]
      ensures event != PcAddress ==>
        && Enumerates(widths, table.view.contents, BuildKey(widths, pc, address), keys) && |matches| == |keys|
        && (forall i :: 0 <= i < |keys| ==> matches[i] == Rotate(table.view.contents[keys[i]], address % patternLen))
        && (event == Miss <==> keys == [])
    {
      var key := BuildKey(widths, pc, address);
      KeyFields(widths, pc, address);
      var found;
      event, found, keys := Scan(key);
      matches := TurnAll(found, patternLen, address % patternLen);
    }
  }

  method TurnAll(found: seq<seq<bool>>, len: nat, offset: nat) returns (matches: seq<seq<bool>>)
    requires 0 < len && forall i :: 0 <= i < |found| ==> |found[i]| == len
    ensures |matches| == |found| && forall i :: 0 <= i < |found| ==> matches[i] == Rotate(found[i], offset)
  {
    matches := [];
    for i := 0 to |found|
      invariant |matches| == i && forall j :: 0 <= j < i ==> matches[j] == Rotate(found[j], offset)
    {
      var turned := MyRotate(found[i], offset);
      matches := matches + [turned];
    }
  }
}
