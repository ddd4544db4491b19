/**
 Bitwise operations on natural numbers, defined digit by digit so that shifts and masks need no
 nonlinear arithmetic; one lemma ties them to division by a power of two.
 */
module Bits {

  function Bit(a: nat, b: nat): (r: nat)
    ensures r <= 1
  {
    if a % 2 == b % 2 then 0 else 1
  }

  /** Bitwise exclusive or, a ^ b. */
  function Xor(a: nat, b: nat): nat {
    if a == 0 && b == 0 then 0 else 2 * Xor(a / 2, b / 2) + Bit(a, b)
  }

  /** x >> n */
  function High(x: nat, n: nat): nat {
    if n == 0 then x else High(x / 2, n - 1)
  }

  /** x & ((1 << n) - 1) */
  function Low(x: nat, n: nat): nat {
    if n == 0 then 0 else 2 * Low(x / 2, n - 1) + x % 2
  }

  /** (h << n) | l, for l of at most n bits */
  function Join(h: nat, l: nat, n: nat): nat {
    if n == 0 then h else 2 * Join(h, l / 2, n - 1) + l % 2
  }

  // ---------------------------------------------------------------------------------------------
  // Exclusive or

  lemma XorDigits(a: nat, b: nat)
    ensures Xor(a, b) % 2 == Bit(a, b) && Xor(a, b) / 2 == Xor(a / 2, b / 2)
  {
  }

  lemma {:induction false} XorZero(a: nat)
    ensures Xor(a, 0) == a == Xor(0, a)
  {
    if a > 0 { XorZero(a / 2); }
  }

  /** Numbers with the same halves and parities are equal. */
  lemma SameDigits(a: nat, b: nat)
    requires a / 2 == b / 2 && a % 2 == b % 2
    ensures a == b
  {
  }

  lemma {:induction false} XorAssoc(a: nat, b: nat, c: nat)
    ensures Xor(Xor(a, b), c) == Xor(a, Xor(b, c))
    decreases a + b + c
  {
    if a == 0 && b == 0 && c == 0 {
    } else {
      XorAssoc(a / 2, b / 2, c / 2);
      XorDigits(a, b);
      XorDigits(b, c);
      XorDigits(Xor(a, b), c);
      XorDigits(a, Xor(b, c));
      SameDigits(Xor(Xor(a, b), c), Xor(a, Xor(b, c)));
    }
  }

  /** Exclusive or cancels. */
  lemma XorCancel(a: nat, b: nat)
    ensures Xor(Xor(a, b), b) == a
  {
  }

  lemma {:induction false} XorHigh(a: nat, b: nat, n: nat)
    ensures High(Xor(a, b), n) == Xor(High(a, n), High(b, n))
  {
    if n > 0 {
      XorDigits(a, b);
      XorHigh(a / 2, b / 2, n - 1);
    }
  }

  lemma XorCancelLeft(a: nat, b: nat)
    ensures Xor(a, Xor(a, b)) == b
  {
    XorAssoc(a, a, b);
    XorCancel(0, a);
    XorZero(a);
    XorZero(b);
  }

  lemma LowDigits(x: nat, n: nat)
    requires n > 0
    ensures Low(x, n) % 2 == x % 2 && Low(x, n) / 2 == Low(x / 2, n - 1)
  {
  }

  lemma {:induction false} XorLow(a: nat, b: nat, n: nat)
    ensures Low(Xor(a, b), n) == Xor(Low(a, n), Low(b, n))
  {
    if n == 0 {
      XorZero(0);
    } else {
      XorLow(a / 2, b / 2, n - 1);
      LowXorDigits(a, b, n);
      LowDigits(a, n);
      LowDigits(b, n);
      XorDigits(Low(a, n), Low(b, n));
      SameDigits(Low(Xor(a, b), n), Xor(Low(a, n), Low(b, n)));
    }
  }

  lemma LowXorDigits(a: nat, b: nat, n: nat)
    requires n > 0
    ensures Low(Xor(a, b), n) % 2 == Bit(a, b) && Low(Xor(a, b), n) / 2 == Low(Xor(a / 2, b / 2), n - 1)
  {
    XorDigits(a, b);
    LowDigits(Xor(a, b), n);
  }

  // ---------------------------------------------------------------------------------------------
  // Splitting and joining

  lemma {:induction false} HighZero(n: nat)
    ensures High(0, n) == 0
  {
    if n > 0 { HighZero(n - 1); }
  }

  lemma {:induction false} HighShrinks(x: nat, n: nat)
    ensures High(x, n) <= x && (x > 0 && n > 0 ==> High(x, n) < x)
  {
    if n > 0 { HighShrinks(x / 2, n - 1); }
  }

  lemma {:induction false} HighHigh(x: nat, a: nat, b: nat)
    ensures High(High(x, a), b) == High(x, a + b)
  {
    if a > 0 { HighHigh(x / 2, a - 1, b); }
  }

  lemma {:induction false} HighLow(x: nat, a: nat, b: nat)
    ensures High(Low(x, a + b), a) == Low(High(x, a), b)
  {
    if a > 0 { HighLow(x / 2, a - 1, b); }
  }

  lemma {:induction false} LowLow(x: nat, a: nat, b: nat)
    ensures Low(Low(x, a + b), a) == Low(x, a)
  {
    if a > 0 { LowLow(x / 2, a - 1, b); }
  }

  lemma {:induction false} PartsJoin(h: nat, l: nat, n: nat)
    ensures High(Join(h, l, n), n) == h && Low(Join(h, l, n), n) == Low(l, n)
  {
    if n > 0 { PartsJoin(h, l / 2, n - 1); }
  }

  /** Numbers that agree above and below bit n are equal. */
  lemma SameParts(x: nat, y: nat, n: nat)
    ensures x == y <==> High(x, n) == High(y, n) && Low(x, n) == Low(y, n)
  {
  }

  /** A number of at most n bits is its own low part. */
  lemma {:induction false} LowOfSmall(x: nat, n: nat)
    ensures High(x, n) == 0 <==> Low(x, n) == x
  {
    if n > 0 { LowOfSmall(x / 2, n - 1); }
  }

  lemma LowFits(x: nat, n: nat)
    ensures High(Low(x, n), n) == 0
  {
  }

  // ---------------------------------------------------------------------------------------------
  // Shifts and masks as division by a power of two

  function Pow2(n: nat): (r: nat)
    ensures r > 0
  {
    if n == 0 then 1 else 2 * Pow2(n - 1)
  }

  lemma {:induction false} PartsSum(x: nat, n: nat)
    ensures x == High(x, n) * Pow2(n) + Low(x, n) && Low(x, n) < Pow2(n)
  {
    if n > 0 {
      PartsSum(x / 2, n - 1);
      Double(High(x, n), Pow2(n - 1));
    }
  }

  lemma Double(h: nat, p: nat)
    ensures h * (2 * p) == 2 * (h * p)
  {
  }

  lemma DivUnique(x: nat, q: nat, r: nat, d: nat)
    requires x == q * d + r && r < d
    ensures x / d == q && x % d == r
  {
    var gap := x / d - q;
    assert gap * d == r - x % d;
    assert gap >= 1 ==> gap * d >= d;
    assert gap <= -1 ==> gap * d + d <= 0;
  }

  lemma {:induction false} HighPositive(x: nat, n: nat)
    ensures High(x, n) > 0 <==> x >= Pow2(n)
  {
    if n > 0 { HighPositive(x / 2, n - 1); }
  }

  /** Shift and mask are quotient and remainder. */
  lemma PartsDivide(x: nat, n: nat)
    ensures x / Pow2(n) == High(x, n) && x % Pow2(n) == Low(x, n)
  {
    PartsSum(x, n);
    DivUnique(x, High(x, n), Low(x, n), Pow2(n));
  }
}
