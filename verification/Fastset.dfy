/**
 The set of small integers that the core keeps its dependences in (inc/set.h): a sorted array while
 it is small, a bit set from then on. It refines a finite set.
 */
module Fastset {

  const MAX_SIZE: nat := 2048
  const WORDS: nat := 32
  const SMALL_SIZE: nat := 13
  const SMALLER_SIZE: nat := 6

  ghost predicate Increasing(s: seq<nat>) { forall i, j :: 0 <= i < j < |s| ==> s[i] < s[j] }

  ghost predicate AllBelow(s: seq<nat>, m: nat) { forall i :: 0 <= i < |s| ==> s[i] < m }

  ghost function ToSet(s: seq<nat>): set<nat> { set x | x in s }

  /** The elements of a bit set; a word is the set of its bit positions. */
  ghost function Spread(words: seq<set<nat>>): set<nat> {
    set x: nat | x < 64 * |words| && x % 64 in words[x / 64]
  }

  /** An increasing list of naturals grows at least as fast as its index. */
  lemma {:induction false} AtLeastIndex(s: seq<nat>, i: nat)
    requires Increasing(s) && i < |s|
    ensures i <= s[i]
  {
    if i > 0 { AtLeastIndex(s, i - 1); }
  }

  /** Increasing lists of the same elements are the same list. */
  lemma {:induction false} IncreasingUnique(s: seq<nat>, t: seq<nat>)
    requires Increasing(s) && Increasing(t) && ToSet(s) == ToSet(t)
    ensures s == t
  {
    EmptyList(s);
    EmptyList(t);
    if s != [] {
      assert s[0] in ToSet(s);
      assert t[0] in ToSet(t);
      assert s[0] == t[0];
      var s', t' := s[1..], t[1..];
      forall x ensures x in ToSet(s') <==> x in ToSet(t') {
        Tail(s, x);
        Tail(t, x);
      }
      IncreasingUnique(s', t');
      assert s == [s[0]] + s' && t == [t[0]] + t';
    }
  }

  lemma EmptyList(s: seq<nat>)
    ensures s == [] <==> ToSet(s) == {}
  {
    assert s != [] ==> s[0] in ToSet(s);
  }

  lemma Tail(s: seq<nat>, x: nat)
    requires Increasing(s) && s != []
    ensures x in ToSet(s[1..]) <==> x in ToSet(s) && x != s[0]
  {
  }

  /** Setting the bit of x adds x. */
  lemma SpreadSet(words: seq<set<nat>>, x: nat)
    requires x < 64 * |words|
    ensures Spread(words[x / 64 := words[x / 64] + {x % 64}]) == Spread(words) + {x}
  {
  }

  /** Uniting the first n words adds the other elements below 64 * n. */
  lemma SpreadUnion(a: seq<set<nat>>, b: seq<set<nat>>, c: seq<set<nat>>, n: nat)
    requires |a| == |b| == |c| && n <= |a|
    requires forall i :: 0 <= i < |a| ==> c[i] == if i < n then a[i] + b[i] else a[i]
    ensures Spread(c) == Spread(a) + (set x | x in Spread(b) && x < 64 * n)
  {
  }

  class Fastset {
    const values: array<nat>
    const bits: array<set<nat>>
    var card: nat

    ghost predicate Valid()
      reads this, values, bits
    {
      && values.Length == SMALL_SIZE && bits.Length == WORDS && card <= SMALL_SIZE
      && (card < SMALL_SIZE ==> Increasing(values[..card]) && AllBelow(values[..card], MAX_SIZE))
    }

    ghost function Elements(): set<nat>
      reads this, values, bits
      requires Valid()
    {
      if card < SMALL_SIZE then ToSet(values[..card]) else Spread(bits[..])
    }

    constructor ()
      ensures Valid() && Elements() == {} && card == 0 && fresh(values) && fresh(bits)
    {
      values := new nat[SMALL_SIZE](_ => 0);
      bits := new set<nat>[WORDS](_ => {});
      card := 0;
    }

    method SetBit(x: nat)
      requires bits.Length == WORDS && x < MAX_SIZE
      modifies bits
      ensures Spread(bits[..]) == Spread(old(bits[..])) + {x}
    {
      SpreadSet(bits[..], x);
      bits[x / 64] := bits[x / 64] + {x % 64};
      assert bits[..] == old(bits[..])[x / 64 := old(bits[..])[x / 64] + {x % 64}];
    }

    method GetBit(x: nat) returns (r: bool)
      requires bits.Length == WORDS && x < MAX_SIZE
      ensures r <==> x in Spread(bits[..])
    {
      r := x % 64 in bits[x / 64];
    }

    /** The place of x in the sorted values, and whether it is there already. */
    method Position(x: nat) returns (i: nat, found: bool)
      requires Valid() && card < SMALL_SIZE
      ensures i <= card && (found <==> x in values[..card])
      ensures !found ==> (forall k :: 0 <= k < i ==> values[k] < x) && (forall k :: i <= k < card ==> x < values[k])
    {
      i := 0;
      while i < card
        invariant i <= card && forall k :: 0 <= k < i ==> values[k] < x
      {
        var y := values[i];
        if y == x {
          assert values[..card][i] == x;
          return i, true;
        }
        if y > x {
          assert forall k :: i <= k < card ==> values[..card][i] <= values[..card][k];
          return i, false;
        }
        i := i + 1;
      }
      found := false;
    }

    /** Moves the values from i on one place up. */
    method Shift(i: nat)
      requires values.Length == SMALL_SIZE && i <= card < SMALL_SIZE
      modifies values
      ensures values[..i] == old(values[..i]) && values[i + 1..card + 1] == old(values[i..card])
    {
      var j := card;
      while j > i
        invariant i <= j <= card
        invariant forall k :: 0 <= k < j ==> values[k] == old(values[k])
        invariant forall k :: j < k <= card ==> values[k] == old(values[k - 1])
      {
        values[j] := values[j - 1];
        j := j - 1;
      }
    }

    method Put(i: nat, x: nat)
      requires values.Length == SMALL_SIZE && i <= card < SMALL_SIZE
      modifies values
      ensures values[..card + 1] == old(values[..i]) + [x] + old(values[i + 1..card + 1])
    {
      values[i] := x;
    }

    method InsertSmall(x: nat)
      requires Valid() && 0 < card < SMALL_SIZE && x < MAX_SIZE
      modifies this, values
      ensures values.Length == SMALL_SIZE && card <= SMALL_SIZE
      ensures Increasing(values[..card]) && ToSet(values[..card]) == ToSet(old(values[..card])) + {x}
      ensures AllBelow(values[..card], MAX_SIZE)
      ensures card == if x in old(values[..card]) then old(card) else old(card) + 1
    {
      var i, found := Position(x);
      if found {
        assert ToSet(values[..card]) == ToSet(values[..card]) + {x};
        return;
      }
      ghost var s := values[..card];
      Shift(i);
      assert values[..i] == s[..i] && values[i + 1..card + 1] == s[i..];
      Put(i, x);
      card := card + 1;
      ghost var t := s[..i] + [x] + s[i..];
      Widened(s, i, x);
      WidenedBelow(s, i, x, MAX_SIZE);
      assert values[..card] == t;
    }

    method SmallToBit()
      requires values.Length == SMALL_SIZE && bits.Length == WORDS && card <= SMALL_SIZE
      requires AllBelow(values[..card], MAX_SIZE)
      modifies bits
      ensures Spread(bits[..]) == ToSet(values[..card])
    {
      for i := 0 to WORDS
        invariant forall w :: 0 <= w < i ==> bits[w] == {}
      {
        bits[i] := {};
      }
      assert Spread(bits[..]) == {};
      for i := 0 to card
        invariant Spread(bits[..]) == ToSet(values[..i])
      {
        assert values[..card][i] == values[i];
        SetBit(values[i]);
        assert values[..i + 1] == values[..i] + [values[i]];
      }
    }

    method Insert(x: nat)
      requires Valid() && x < MAX_SIZE
      modifies this, values, bits
      ensures Valid() && Elements() == old(Elements()) + {x}
      ensures card == if old(card) < SMALL_SIZE && x !in old(Elements()) then old(card) + 1 else old(card)
    {
      if card == 0 {
        values[0] := x;
        card := 1;
        assert values[..1] == [x];
      } else if card < SMALL_SIZE {
        InsertSmall(x);
        if card == SMALL_SIZE { SmallToBit(); }
      } else {
        SetBit(x);
      }
    }

    method SearchSmallLinear(x: nat) returns (r: bool)
      requires Valid() && card < SMALL_SIZE
      ensures r <==> x in values[..card]
    {
      for i := 0 to card
        invariant forall k :: 0 <= k < i ==> values[k] < x
      {
        var y := values[i];
        if y > x {
          assert forall k :: i <= k < card ==> values[..card][i] <= values[..card][k];
          return false;
        }
        if y == x {
          assert values[..card][i] == x;
          return true;
        }
      }
      return false;
    }

    method SearchSmall(x: nat) returns (r: bool)
      requires Valid() && card < SMALL_SIZE
      ensures r <==> x in values[..card]
    {
      if card == 0 { return false; }
      if card < SMALLER_SIZE {
        r := SearchSmallLinear(x);
        return;
      }
      var begin, end := 0, card - 1;
      var middle := end / 2;
      while true
        invariant 0 <= begin <= middle <= end < card
        invariant forall k :: 0 <= k < begin ==> values[k] < x
        invariant forall k :: end < k < card ==> x < values[k]
        decreases end - begin
      {
        var y := values[middle];
        assert forall k :: 0 <= k < middle ==> values[..card][k] < values[..card][middle];
        assert forall k :: middle < k < card ==> values[..card][middle] < values[..card][k];
        if x < y {
          end := middle - 1;
        } else if x > y {
          begin := middle + 1;
        } else {
          assert values[..card][middle] == x;
          return true;
        }
        if end < begin { break; }
        middle := (begin + end) / 2;
      }
      return false;
    }

    method Search(x: nat) returns (r: bool)
      requires Valid() && x < MAX_SIZE
      ensures r <==> x in Elements()
    {
      if card == 0 { return false; }
      if card == 1 { return values[0] == x; }
      if card < SMALL_SIZE {
        r := SearchSmall(x);
      } else {
        r := GetBit(x);
      }
    }

    /** The bits of the words below lim are united; elements of a large other set that lie further up
        are not added. */
    method Join(other: Fastset, n: nat)
      requires Valid() && other.Valid() && n < MAX_SIZE
      requires other != this ==> other.values != values && other.bits != bits
      modifies this, values, bits
      ensures Valid()
      ensures old(other.card) < SMALL_SIZE ==> Elements() == old(Elements()) + old(other.Elements())
      ensures old(other.card) == SMALL_SIZE ==>
        Elements() == old(Elements()) + Below(old(other.Elements()), 64 * (n / 64 + 1))
      ensures Elements() == old(Elements()) + old(other.Elements()) <==>
        old(other.card) < SMALL_SIZE || Covers(old(Elements()), old(other.Elements()), 64 * (n / 64 + 1))
    {
      JoinIsUnionIff(Elements(), other.Elements(), n);
      if other.card < SMALL_SIZE {
        if other != this {
          JoinSmall(other);
        } else {
          assert Elements() == Elements() + other.Elements();
        }
        return;
      }
      if card < SMALL_SIZE {
        SmallToBit();
        card := SMALL_SIZE;
      }
      ghost var a, b := bits[..], other.bits[..];
      var lim := n / 64 + 1;
      for i := 0 to lim
        invariant card == SMALL_SIZE
        invariant forall w :: 0 <= w < WORDS ==> bits[w] == if w < i then a[w] + b[w] else a[w]
        invariant other != this ==> other.bits[..] == b
      {
        bits[i] := bits[i] + other.bits[i];
      }
      SpreadUnion(a, b, bits[..], lim);
    }

    method JoinSmall(other: Fastset)
      requires Valid() && other.Valid() && other.card < SMALL_SIZE
      requires other != this && other.values != values && other.bits != bits
      modifies this, values, bits
      ensures Valid() && Elements() == old(Elements()) + other.Elements()
    {
      for i := 0 to other.card
        invariant Valid() && Elements() == old(Elements()) + ToSet(other.values[..i])
      {
        assert other.values[..other.card][i] == other.values[i];
        Insert(other.values[i]);
        assert other.values[..i + 1] == other.values[..i] + [other.values[i]];
      }
    }

    /** Lists the elements in increasing order. A small set is listed whole, a large one below n. */
    method Expand(v: array<nat>, n: nat) returns (k: nat)
      requires Valid() && n <= MAX_SIZE && n <= v.Length && (card < SMALL_SIZE ==> card <= v.Length)
      requires v != values
      modifies v
      ensures Valid() && k <= v.Length && Increasing(v[..k])
      ensures ToSet(v[..k]) == if card < SMALL_SIZE then Elements() else Below(Elements(), n)
    {
      if card < SMALL_SIZE {
        for i := 0 to card
          invariant v[..i] == values[..i]
        {
          v[i] := values[i];
        }
        return card;
      }
      k := ExpandBits(v, n);
    }

    method ExpandBits(v: array<nat>, n: nat) returns (k: nat)
      requires bits.Length == WORDS && n <= MAX_SIZE && n <= v.Length
      modifies v
      ensures k <= v.Length && Increasing(v[..k]) && ToSet(v[..k]) == Below(Spread(bits[..]), n)
    {
      k := 0;
      var i := 0;
      while i < n
        invariant i % 64 == 0 && k <= v.Length && Increasing(v[..k])
        invariant ToSet(v[..k]) == Below(Spread(bits[..]), if i < n then i else n)
        decreases n - i
      {
        if bits[i / 64] != {} {
          k := ExpandWord(v, n, i, k);
        } else {
          EmptyWord(bits[..], i / 64);
          assert Below(Spread(bits[..]), i) <= Below(Spread(bits[..]), n) <= Below(Spread(bits[..]), i + 64) || i + 64 < n;
        }
        i := i + 64;
      }
    }

    method ExpandWord(v: array<nat>, n: nat, i: nat, start: nat) returns (k: nat)
      requires bits.Length == WORDS && i < n <= MAX_SIZE && n <= v.Length && i % 64 == 0
      requires start <= v.Length && Increasing(v[..start]) && ToSet(v[..start]) == Below(Spread(bits[..]), i)
      modifies v
      ensures k <= v.Length && Increasing(v[..k])
      ensures ToSet(v[..k]) == Below(Spread(bits[..]), if i + 64 < n then i + 64 else n)
    {
      k := start;
      var j := 0;
      while j < 64
        invariant j <= 64 && i + j <= n && k <= v.Length && Increasing(v[..k])
        invariant ToSet(v[..k]) == Below(Spread(bits[..]), i + j)
      {
        var l := i + j;
        if l >= n { break; }
        var member := GetBit(l);
        ListedFits(v[..k], Spread(bits[..]), l);
        ListedMore(v[..k], Spread(bits[..]), l, member);
        if member {
          ghost var listed := v[..k];
          v[k] := l;
          k := k + 1;
          assert v[..k] == listed + [l];
        }
        j := j + 1;
      }
    }
  }

  /** Listing the members of one word after the members of the words before it. */
  lemma ListedMore(listed: seq<nat>, all: set<nat>, l: nat, member: bool)
    requires Increasing(listed) && ToSet(listed) == Below(all, l) && (member <==> l in all)
    ensures var more := if member then listed + [l] else listed;
      Increasing(more) && ToSet(more) == Below(all, l + 1)
  {
    forall i | 0 <= i < |listed| ensures listed[i] < l { assert listed[i] in ToSet(listed); }
    var more := if member then listed + [l] else listed;
    forall x ensures x in more <==> x in Below(all, l + 1) {
      assert x in listed <==> x in Below(all, l);
    }
  }

  /** A list of distinct members below l has room in a buffer of l places. */
  lemma ListedFits(listed: seq<nat>, all: set<nat>, l: nat)
    requires Increasing(listed) && ToSet(listed) == Below(all, l)
    ensures |listed| <= l
  {
    if listed != [] {
      var n := |listed| - 1;
      AtLeastIndex(listed, n);
      assert listed[n] in ToSet(listed);
    }
  }

  lemma EmptyWord(words: seq<set<nat>>, w: nat)
    requires w < |words| && words[w] == {}
    ensures Below(Spread(words), 64 * w) == Below(Spread(words), 64 * w + 64)
  {
  }

  ghost function Below(all: set<nat>, n: nat): set<nat> { set x | x in all && x < n }

  /** The receiver has every element of the other set at or above lim. */
  ghost predicate Covers(a: set<nat>, b: set<nat>, lim: nat) { forall x :: x in b && x >= lim ==> x in a }

  lemma JoinIsUnionIff(a: set<nat>, b: set<nat>, n: nat)
    ensures a + Below(b, 64 * (n / 64 + 1)) == a + b <==> Covers(a, b, 64 * (n / 64 + 1))
  {
  }

  ghost function Upto(n: nat): set<nat> { if n == 0 then {} else Upto(n - 1) + {n - 1} }

  lemma {:induction false} UptoMember(n: nat, x: nat)
    ensures x in Upto(n) <==> x < n
  {
    if n > 0 { UptoMember(n - 1, x); }
  }

  /** Joining {64} and twelve smaller elements into an empty set with bound 1 loses the element 64. */
  method JoinLosesElement() returns (a: Fastset, b: Fastset)
    ensures a.Valid() && b.Valid() && 64 in b.Elements() && a.Elements() == Below(b.Elements(), 64)
  {
    a := new Fastset();
    b := new Fastset();
    for i := 0 to 12
      invariant a.Valid() && a.Elements() == {} && b.Valid() && b.Elements() == Upto(i)
      invariant fresh(a) && fresh(a.values) && fresh(a.bits) && fresh(b) && fresh(b.values) && fresh(b.bits)
      invariant a != b && a.values != b.values && a.bits != b.bits && b.card == i
    {
      UptoMember(i, i);
      b.Insert(i);
    }
    UptoMember(12, 64);
    b.Insert(64);
    a.Join(b, 1);
  }

  lemma WidenedBelow(s: seq<nat>, i: nat, x: nat, m: nat)
    requires i <= |s| && AllBelow(s, m) && x < m
    ensures AllBelow(s[..i] + [x] + s[i..], m)
  {
  }

  lemma Widened(s: seq<nat>, i: nat, x: nat)
    requires Increasing(s) && i <= |s|
    requires (forall k :: 0 <= k < i ==> s[k] < x) && (forall k :: i <= k < |s| ==> x < s[k])
    ensures Increasing(s[..i] + [x] + s[i..]) && ToSet(s[..i] + [x] + s[i..]) == ToSet(s) + {x}
  {
  }
}
