/** The rotation of Bingo's footprints (inc/bingo.h), by any integer amount. */
module Rotation {

  /** x rotated right by n places, for any integer n. */
  function Rotate<T>(x: seq<T>, n: int): (y: seq<T>)
    requires |x| > 0
    ensures |y| == |x|
  {
    var k := n % |x|;
    x[|x| - k..] + x[..|x| - k]
  }

  lemma Remainder(n: int, d: int, q: int, r: int)
    requires d > 0 && n == q * d + r && 0 <= r < d
    ensures n % d == r
  {
    var gap := n / d - q;
    assert gap * d == r - n % d;
    assert gap >= 1 ==> gap * d >= d;
    assert gap <= -1 ==> gap * d + d <= 0;
  }

  lemma Negated(n: int, d: int)
    requires d > 0
    ensures (-n) % d == if n % d == 0 then 0 else d - n % d
  {
    var q, r := n / d, n % d;
    assert n == q * d + r;
    if r == 0 {
      assert -n == (-q) * d;
      Remainder(-n, d, -q, 0);
    } else {
      assert (-q - 1) * d == -(q * d) - d;
      Remainder(-n, d, -q - 1, d - r);
    }
  }

  /** A rotation by n moves what is at place i to place i + n. */
  lemma RotateMoves<T>(x: seq<T>, n: int, i: nat)
    requires i < |x|
    ensures Rotate(x, n)[(i + n) % |x|] == x[i]
  {
    var d, k, q := |x|, n % |x|, n / |x|;
    assert i + n == q * d + (i + k);
    if i + k < d {
      Remainder(i + n, d, q, i + k);
    } else {
      assert i + n == (q + 1) * d + (i + k - d);
      Remainder(i + n, d, q + 1, i + k - d);
    }
  }

  /** Rotations add up. */
  lemma RotateTwice<T>(x: seq<T>, n: int, m: int, i: nat)
    requires i < |x|
    ensures Rotate(Rotate(x, n), m)[(i + n + m) % |x|] == x[i]
  {
    var d, j := |x|, (i + n) % |x|;
    RotateMoves(x, n, i);
    RotateMoves(Rotate(x, n), m, j);
    var q, r := (i + n) / d, (j + m) / d;
    assert i + n + m == (q + r) * d + (j + m) % d;
    Remainder(i + n + m, d, q + r, (j + m) % d);
  }

  /** Rotating back undoes a rotation. */
  lemma RotateBack<T>(x: seq<T>, n: int)
    requires |x| > 0
    ensures Rotate(Rotate(x, -n), n) == x
  {
    var k := n % |x|;
    Negated(n, |x|);
    var y := Rotate(x, -n);
    if k == 0 {
      assert y == x;
    } else {
      assert y == x[k..] + x[..k];
    }
  }

  /** The remainder of C's operator, which takes the sign of the dividend. */
  function TruncatedMod(n: int, d: int): int
    requires d > 0
  {
    if n >= 0 then n % d else -((-n) % d)
  }

  /** The index the loop reads is the one that rotation puts at place i. */
  lemma ReadsRotated<T>(x: seq<T>, n: int, i: nat)
    requires i < |x|
    ensures var j := (i - TruncatedMod(n, |x|) + |x|) % |x|; x[j] == Rotate(x, n)[i]
  {
    var d, m, k := |x|, TruncatedMod(n, |x|), n % |x|;
    Negated(n, d);
    var a := i - m + d;
    if a >= 2 * d {
      Remainder(a, d, 2, a - 2 * d);
    } else if a >= d {
      Remainder(a, d, 1, a - d);
    } else {
      Remainder(a, d, 0, a);
    }
  }

  /** my_rotate */
  method MyRotate<T>(x: seq<T>, n: int) returns (y: seq<T>)
    requires |x| > 0
    ensures y == Rotate(x, n)
  {
    y := [];
    var m := TruncatedMod(n, |x|);
    for i := 0 to |x|
      invariant y == Rotate(x, n)[..i]
    {
      ReadsRotated(x, n, i);
      y := y + [x[(i - m + |x|) % |x|]];
    }
  }
}
