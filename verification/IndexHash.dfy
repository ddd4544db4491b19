/**
 The index hash of the set-associative framework (src/bakshalipour_framework.cc): the lowest block
 of a key is replaced by the exclusive or of all its blocks of `len` bits.
 */
module IndexHash {
  import opened Bits

  /** The exclusive or of all blocks of len bits. */
  function Fold(x: nat, len: nat): nat
    requires len > 0
    decreases x
  {
    if x == 0 then 0 else HighShrinks(x, len); Xor(Low(x, len), Fold(High(x, len), len))
  }

  lemma {:induction false} FoldFits(x: nat, len: nat)
    requires len > 0
    ensures High(Fold(x, len), len) == 0
    decreases x
  {
    HighZero(len);
    if x > 0 {
      HighShrinks(x, len);
      FoldFits(High(x, len), len);
      LowFits(x, len);
      XorHigh(Low(x, len), Fold(High(x, len), len), len);
      XorZero(0);
    }
  }

  function Hash(key: nat, len: nat): nat {
    if len == 0 then key else Xor(key, Fold(High(key, len), len))
  }

  /** Hashing keeps every block but the lowest. */
  lemma HashHigh(key: nat, len: nat)
    ensures High(Hash(key, len), len) == High(key, len)
  {
    if len > 0 {
      var blocks := Fold(High(key, len), len);
      XorHigh(key, blocks, len);
      FoldFits(High(key, len), len);
      XorZero(High(key, len));
    }
  }

  /** Hashing twice is the identity. */
  lemma HashTwice(key: nat, len: nat)
    ensures Hash(Hash(key, len), len) == key
  {
    HashHigh(key, len);
    if len > 0 { XorCancel(key, Fold(High(key, len), len)); }
  }

  /** So distinct keys have distinct hashes. */
  lemma HashInjective(a: nat, b: nat, len: nat)
    ensures Hash(a, len) == Hash(b, len) <==> a == b
  {
    HashTwice(a, len);
    HashTwice(b, len);
  }

  /** A hash has no more bits than its key. */
  lemma HashFits(key: nat, len: nat, bits: nat)
    requires High(key, bits) == 0 && len <= bits
    ensures High(Hash(key, len), bits) == 0
  {
    HashHigh(key, len);
    HighHigh(key, len, bits - len);
    HighHigh(Hash(key, len), len, bits - len);
  }

  /** hash_index: the loop that folds the blocks into the key. */
  method HashIndex(key: nat, len: nat) returns (r: nat)
    ensures r == Hash(key, len)
  {
    r := key;
    if len == 0 { return; }
    var tag := High(key, len);
    while tag > 0
      invariant Xor(r, Fold(tag, len)) == Hash(key, len)
      decreases tag
    {
      HighShrinks(tag, len);
      XorAssoc(r, Low(tag, len), Fold(High(tag, len), len));
      r := Xor(r, Low(tag, len));
      tag := High(tag, len);
    }
    XorZero(r);
  }

  /** The constructor's loop counting the bits of the largest set index. */
  method IndexLength(sets: nat) returns (len: nat)
    requires 0 < sets
    ensures sets <= Pow2(len) && (len > 0 ==> Pow2(len - 1) < sets)
  {
    len := 0;
    var rest := sets - 1;
    while rest > 0
      invariant rest == High(sets - 1, len)
      invariant len > 0 ==> Pow2(len - 1) < sets
      decreases rest
    {
      HighPositive(sets - 1, len);
      HighHigh(sets - 1, len, 1);
      rest := rest / 2;
      len := len + 1;
    }
    HighPositive(sets - 1, len);
  }

  // ---------------------------------------------------------------------------------------------
  // What the lowest block of a hash is

  /** The i-th block of len bits. */
  function BlockAt(x: nat, len: nat, i: nat): nat
    decreases i
  {
    if i == 0 then Low(x, len) else BlockAt(High(x, len), len, i - 1)
  }

  lemma FoldStep(x: nat, len: nat)
    requires len > 0
    ensures Fold(x, len) == Xor(Low(x, len), Fold(High(x, len), len))
  {
    if x == 0 {
      HighZero(len);
      LowOfSmall(0, len);
      XorZero(0);
    }
  }

  /** The lowest block of a hash is the exclusive or of all blocks of the key. */
  lemma HashLow(key: nat, len: nat)
    requires len > 0
    ensures Low(Hash(key, len), len) == Fold(key, len)
  {
    var blocks := Fold(High(key, len), len);
    FoldFits(High(key, len), len);
    LowOfSmall(blocks, len);
    XorLow(key, blocks, len);
    FoldStep(key, len);
  }

  lemma {:induction false} SameBlocks(a: nat, b: nat, len: nat)
    requires len > 0 && forall j: nat :: BlockAt(a, len, j) == BlockAt(b, len, j)
    ensures Fold(a, len) == Fold(b, len)
    decreases a + b
  {
    if a + b > 0 {
      HighShrinks(a, len);
      HighShrinks(b, len);
      RestSame(a, b, len);
      SameBlocks(High(a, len), High(b, len), len);
      FoldStep(a, len);
      FoldStep(b, len);
      assert BlockAt(a, len, 0) == BlockAt(b, len, 0);
    }
  }

  lemma RestSame(a: nat, b: nat, len: nat)
    requires forall j: nat :: j > 0 ==> BlockAt(a, len, j) == BlockAt(b, len, j)
    ensures forall j: nat :: BlockAt(High(a, len), len, j) == BlockAt(High(b, len), len, j)
  {
    forall j: nat ensures BlockAt(High(a, len), len, j) == BlockAt(High(b, len), len, j) {
      var up := j + 1;
      assert BlockAt(a, len, up) == BlockAt(b, len, up);
    }
  }

  lemma {:induction false} FoldDiffers(a: nat, b: nat, len: nat, i: nat)
    requires len > 0 && BlockAt(a, len, i) != BlockAt(b, len, i)
    requires forall j: nat :: j != i ==> BlockAt(a, len, j) == BlockAt(b, len, j)
    ensures Fold(a, len) != Fold(b, len)
    decreases i
  {
    FoldStep(a, len);
    FoldStep(b, len);
    var x, y := High(a, len), High(b, len);
    if i == 0 {
      RestSame(a, b, len);
      SameBlocks(x, y, len);
      XorCancel(Low(a, len), Fold(x, len));
      XorCancel(Low(b, len), Fold(x, len));
    } else {
      forall j: nat | j != i - 1 ensures BlockAt(x, len, j) == BlockAt(y, len, j) {
        var up := j + 1;
        assert BlockAt(a, len, up) == BlockAt(b, len, up);
      }
      FoldDiffers(x, y, len, i - 1);
      assert BlockAt(a, len, 0) == BlockAt(b, len, 0);
      XorCancelLeft(Low(a, len), Fold(x, len));
      XorCancelLeft(Low(a, len), Fold(y, len));
    }
  }

  /** Keys that differ in exactly one of their blocks, whichever it is, hash to different sets. */
  lemma OneBlockSpreads(a: nat, b: nat, len: nat, i: nat)
    requires len > 0 && BlockAt(a, len, i) != BlockAt(b, len, i)
    requires forall j: nat :: j != i ==> BlockAt(a, len, j) == BlockAt(b, len, j)
    ensures Low(Hash(a, len), len) != Low(Hash(b, len), len)
  {
    FoldDiffers(a, b, len, i);
    HashLow(a, len);
    HashLow(b, len);
  }
}
