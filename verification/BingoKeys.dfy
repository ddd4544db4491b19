/**
 Keys of Bingo's pattern history table (inc/bingo.h). The set index of a key depends only on the
 truncated PC and offset, so one set holds every candidate of a two-level lookup.
 */
module BingoKeys {
  import opened Bits
  import opened IndexHash

  /** pc_width, min_addr_width, max_addr_width and index_len. */
  datatype Widths = Widths(pc: nat, min: nat, max: nat, len: nat)

  predicate WidthsOk(c: Widths) { c.min <= c.max && c.len <= c.pc + c.min }

  function BuildKey(c: Widths, pc: nat, address: nat): nat {
    var a := Low(address, c.max);
    var indexKey := Hash(Join(Low(pc, c.pc), Low(a, c.min), c.min), c.len);
    Join(High(a, c.min), indexKey, c.pc + c.min)
  }

  /** The two comparisons of a lookup, on the tags of two keys of the same set. */
  predicate MinMatch(c: Widths, tag: nat, tag': nat)
    requires WidthsOk(c)
  {
    Low(tag, c.pc + c.min - c.len) == Low(tag', c.pc + c.min - c.len)
  }

  predicate MaxMatch(c: Widths, tag: nat, tag': nat)
    requires WidthsOk(c)
  {
    Low(tag, c.pc + c.max - c.len) == Low(tag', c.pc + c.max - c.len)
  }

  predicate SamePcOffset(c: Widths, pc: nat, a: nat, pc': nat, a': nat) {
    Low(pc, c.pc) == Low(pc', c.pc) && Low(a, c.min) == Low(a', c.min)
  }

  predicate SamePcAddress(c: Widths, pc: nat, a: nat, pc': nat, a': nat) {
    Low(pc, c.pc) == Low(pc', c.pc) && Low(a, c.max) == Low(a', c.max)
  }

  // ---------------------------------------------------------------------------------------------

  lemma JoinInjective(h: nat, l: nat, h': nat, l': nat, n: nat)
    requires High(l, n) == 0 && High(l', n) == 0
    ensures Join(h, l, n) == Join(h', l', n) <==> h == h' && l == l'
  {
  }

  lemma JoinFits(h: nat, l: nat, a: nat, b: nat)
    requires High(h, b) == 0
    ensures High(Join(h, l, a), a + b) == 0
  {
    PartsJoin(h, l, a);
    HighHigh(Join(h, l, a), a, b);
  }

  function PcOffset(c: Widths, pc: nat, address: nat): nat { Join(Low(pc, c.pc), Low(address, c.min), c.min) }

  /** A key is the address above the offset, joined to the hash of PC and offset. */
  lemma KeyFields(c: Widths, pc: nat, address: nat)
    requires WidthsOk(c)
    ensures Low(BuildKey(c, pc, address), c.pc + c.min) == Hash(PcOffset(c, pc, address), c.len)
    ensures High(BuildKey(c, pc, address), c.pc + c.min) == Low(High(address, c.min), c.max - c.min)
    ensures High(BuildKey(c, pc, address), c.pc + c.max) == 0
  {
    AddressParts(c, address);
    IndexKeyFits(c, pc, address);
    LowFits(High(address, c.min), c.max - c.min);
    JoinedFields(Low(High(address, c.min), c.max - c.min), Hash(PcOffset(c, pc, address), c.len), c.pc + c.min, c.max - c.min);
  }

  lemma IndexKeyFits(c: Widths, pc: nat, address: nat)
    requires WidthsOk(c)
    ensures High(Hash(PcOffset(c, pc, address), c.len), c.pc + c.min) == 0
  {
    LowFits(pc, c.pc);
    JoinFits(Low(pc, c.pc), Low(address, c.min), c.min, c.pc);
    HashFits(PcOffset(c, pc, address), c.len, c.pc + c.min);
  }

  lemma JoinedFields(h: nat, l: nat, a: nat, b: nat)
    requires High(l, a) == 0 && High(h, b) == 0
    ensures Low(Join(h, l, a), a) == l && High(Join(h, l, a), a) == h && High(Join(h, l, a), a + b) == 0
  {
    LowOfSmall(l, a);
    PartsJoin(h, l, a);
    JoinFits(h, l, a, b);
  }

  /** Keys agree on their low pc + min bits exactly when they have the same PC and offset. */
  lemma LowKeyIff(c: Widths, pc: nat, a: nat, pc': nat, a': nat)
    requires WidthsOk(c)
    ensures Low(BuildKey(c, pc, a), c.pc + c.min) == Low(BuildKey(c, pc', a'), c.pc + c.min)
      <==> SamePcOffset(c, pc, a, pc', a')
  {
    KeyFields(c, pc, a);
    KeyFields(c, pc', a');
    HashInjective(PcOffset(c, pc, a), PcOffset(c, pc', a'), c.len);
    LowFits(a, c.min);
    LowFits(a', c.min);
    JoinInjective(Low(pc, c.pc), Low(a, c.min), Low(pc', c.pc), Low(a', c.min), c.min);
  }

  /** Keys are equal exactly when PC and address agree on the bits that are kept. */
  lemma KeyIff(c: Widths, pc: nat, a: nat, pc': nat, a': nat)
    requires WidthsOk(c)
    ensures BuildKey(c, pc, a) == BuildKey(c, pc', a') <==> SamePcAddress(c, pc, a, pc', a')
  {
    LowKeyIff(c, pc, a, pc', a');
    KeyFields(c, pc, a);
    KeyFields(c, pc', a');
    SameParts(BuildKey(c, pc, a), BuildKey(c, pc', a'), c.pc + c.min);
    AddressParts(c, a);
    AddressParts(c, a');
    SameParts(Low(a, c.max), Low(a', c.max), c.min);
  }

  lemma AddressParts(c: Widths, a: nat)
    requires WidthsOk(c)
    ensures High(Low(a, c.max), c.min) == Low(High(a, c.min), c.max - c.min) && Low(Low(a, c.max), c.min) == Low(a, c.min)
  {
    HighLow(a, c.min, c.max - c.min);
    LowLow(a, c.min, c.max - c.min);
  }

  /** Entries with the same truncated PC and offset are in the same set. */
  lemma SameOffsetSameSet(c: Widths, pc: nat, a: nat, pc': nat, a': nat)
    requires WidthsOk(c) && SamePcOffset(c, pc, a, pc', a')
    ensures Low(BuildKey(c, pc, a), c.len) == Low(BuildKey(c, pc', a'), c.len)
  {
    LowKeyIff(c, pc, a, pc', a');
    LowLow(BuildKey(c, pc, a), c.len, c.pc + c.min - c.len);
    LowLow(BuildKey(c, pc', a'), c.len, c.pc + c.min - c.len);
  }

  /** The short comparison within a set compares the low pc + min bits of the keys. */
  lemma MinMatchIff(c: Widths, k: nat, k': nat)
    requires WidthsOk(c) && Low(k, c.len) == Low(k', c.len)
    ensures MinMatch(c, High(k, c.len), High(k', c.len)) <==> Low(k, c.pc + c.min) == Low(k', c.pc + c.min)
  {
    TagParts(k, c.len, c.pc + c.min - c.len);
    TagParts(k', c.len, c.pc + c.min - c.len);
    SameParts(Low(k, c.pc + c.min), Low(k', c.pc + c.min), c.len);
  }

  lemma TagParts(k: nat, len: nat, more: nat)
    ensures High(Low(k, len + more), len) == Low(High(k, len), more) && Low(Low(k, len + more), len) == Low(k, len)
  {
  }

  /** The long comparison within a set is equality of keys of at most pc + max bits. */
  lemma MaxMatchIff(c: Widths, k: nat, k': nat)
    requires WidthsOk(c) && Low(k, c.len) == Low(k', c.len)
    requires High(k, c.pc + c.max) == 0 && High(k', c.pc + c.max) == 0
    ensures MaxMatch(c, High(k, c.len), High(k', c.len)) <==> k == k'
  {
    var more := c.pc + c.max - c.len;
    TagParts(k, c.len, more);
    TagParts(k', c.len, more);
    LowOfSmall(k, c.len + more);
    LowOfSmall(k', c.len + more);
    SameParts(k, k', c.len);
  }

  lemma ComparedParts(c: Widths, pc: nat, a: nat, pc': nat, a': nat)
    requires WidthsOk(c)
    ensures var k, k' := BuildKey(c, pc, a), BuildKey(c, pc', a');
      && (SamePcOffset(c, pc, a, pc', a') <==>
          Low(k, c.len) == Low(k', c.len) && MinMatch(c, High(k, c.len), High(k', c.len)))
      && (SamePcAddress(c, pc, a, pc', a') <==>
          Low(k, c.len) == Low(k', c.len) && MaxMatch(c, High(k, c.len), High(k', c.len)))
  {
    var k, k' := BuildKey(c, pc, a), BuildKey(c, pc', a');
    LowKeyIff(c, pc, a, pc', a');
    KeyIff(c, pc, a, pc', a');
    KeyFields(c, pc, a);
    KeyFields(c, pc', a');
    if Low(k, c.len) == Low(k', c.len) {
      MinMatchIff(c, k, k');
      MaxMatchIff(c, k, k');
    } else {
      LowLow(k, c.len, c.pc + c.min - c.len);
      LowLow(k', c.len, c.pc + c.min - c.len);
    }
  }

  /** A table with this many sets keeps the key in this set under this tag. */
  predicate Splits(key: nat, sets: nat, index: nat, tag: nat) { 0 < sets && index == key % sets && tag == key / sets }

  /** What the two comparisons of a lookup mean for the keys of a table with 2^len sets: among the
      entries of the set, the short one selects exactly the same PC and offset, the long one the same
      PC and address; and no entry elsewhere in the table has the same PC and offset. */
  lemma OneSetLookup(
    c: Widths, pc: nat, a: nat, index: nat, tag: nat, pc': nat, a': nat, index': nat, tag': nat)
    requires WidthsOk(c)
    requires Splits(BuildKey(c, pc, a), Pow2(c.len), index, tag) && Splits(BuildKey(c, pc', a'), Pow2(c.len), index', tag')
    ensures SamePcOffset(c, pc, a, pc', a') <==> index == index' && MinMatch(c, tag, tag')
    ensures SamePcAddress(c, pc, a, pc', a') <==> index == index' && MaxMatch(c, tag, tag')
  {
    PartsDivide(BuildKey(c, pc, a), c.len);
    PartsDivide(BuildKey(c, pc', a'), c.len);
    ComparedParts(c, pc, a, pc', a');
  }
}
