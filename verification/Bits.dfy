/**
 Unsigned machine arithmetic on size_t, spelled out on natural numbers: powers of
 two, the bitwise "and" of two words, and the two idioms the allocators build on it
 (the power-of-two test `v & (v - 1)` and rounding by the mask `~(a - 1)`).
 */
module Bits {

  /** size_t is 64 bits wide. */
  const SIZE_LIMIT: nat := 0x1_0000_0000_0000_0000
  const SIZE_MAX: nat := SIZE_LIMIT - 1

  function Max(a: int, b: int): int {
    if a < b then b else a
  }

  function Min(a: int, b: int): int {
    if a < b then a else b
  }

  function Pow2(k: nat): (r: nat)
    ensures r >= 1
  {
    if k == 0 then 1 else 2 * Pow2(k - 1)
  }

  /** Bitwise conjunction, bit by bit from the least significant end. */
  function And(a: nat, b: nat): nat {
    if a == 0 || b == 0 then 0
    else (if a % 2 == 1 && b % 2 == 1 then 1 else 0) + 2 * And(a / 2, b / 2)
  }

  /** The complement of a word. */
  function Not(a: nat): nat
    requires a < SIZE_LIMIT
  {
    SIZE_MAX - a
  }

  /** The test `value != 0 && (value & (value - 1)) == 0`. */
  predicate IsPowerOfTwo(v: nat) {
    v != 0 && And(v, v - 1) == 0
  }

  lemma {:induction false} AndSelf(a: nat)
    ensures And(a, a) == a
  {
    if a != 0 {
      AndSelf(a / 2);
    }
  }

  /** The exponent of a word that passes the power-of-two test. */
  function Log2(v: nat): nat {
    if v <= 1 then 0 else 1 + Log2(v / 2)
  }

  lemma {:induction false} PowerOfTwoHasExponent(v: nat)
    requires IsPowerOfTwo(v)
    ensures v == Pow2(Log2(v))
  {
    if v > 1 {
      var u := v / 2;
      if v % 2 == 0 {
        assert (v - 1) / 2 == u - 1;
        PowerOfTwoHasExponent(u);
      } else {
        assert And(v, v - 1) == 2 * And(u, u);
        AndSelf(u);
      }
    }
  }

  lemma {:induction false} PowerIsPowerOfTwo(k: nat)
    ensures IsPowerOfTwo(Pow2(k))
  {
    if k != 0 {
      var u := Pow2(k - 1);
      PowerIsPowerOfTwo(k - 1);
      assert (2 * u - 1) / 2 == u - 1;
    }
  }

  /** The bit test is exactly "some power of two". */
  lemma PowerOfTwoTest(v: nat)
    ensures IsPowerOfTwo(v) <==> exists k: nat :: v == Pow2(k)
  {
    if IsPowerOfTwo(v) {
      PowerOfTwoHasExponent(v);
    }
    forall k: nat | v == Pow2(k)
      ensures IsPowerOfTwo(v)
    {
      PowerIsPowerOfTwo(k);
    }
  }

  lemma MulMono(a: nat, b: nat, c: nat)
    requires a <= b
    ensures a * c <= b * c
  {
  }

  lemma MulAtLeast(k: int, d: int)
    requires k >= 1 && d >= 0
    ensures k * d >= d
  {
  }

  lemma {:induction false} Pow2Split(j: nat, k: nat)
    requires j <= k
    ensures Pow2(k) == Pow2(k - j) * Pow2(j)
  {
    if j != 0 {
      Pow2Split(j - 1, k - 1);
    }
  }

  lemma Pow2Monotone(j: nat, k: nat)
    requires j <= k
    ensures Pow2(j) <= Pow2(k)
  {
    Pow2Split(j, k);
    MulAtLeast(Pow2(k - j), Pow2(j));
  }

  lemma DivModUnique(x: int, d: int, q: int, r: int)
    requires 0 <= r < d && x == q * d + r
    ensures x / d == q && x % d == r
  {
    var p, m := x / d, x % d;
    assert x == d * p + m;
    if q > p {
      assert (q - p) * d == m - r by {
        assert (q - p) * d == q * d - p * d;
      }
      MulAtLeast(q - p, d);
    } else if q < p {
      assert (p - q) * d == r - m by {
        assert (p - q) * d == p * d - q * d;
      }
      MulAtLeast(p - q, d);
    }
  }

  lemma MultipleModZero(q: int, d: int)
    requires d > 0
    ensures (q * d) % d == 0 && (q * d) / d == q
  {
    DivModUnique(q * d, d, q, 0);
  }

  lemma Pow2Divides(j: nat, k: nat)
    requires j <= k
    ensures Pow2(k) % Pow2(j) == 0
  {
    var q, d := Pow2(k - j), Pow2(j);
    assert Pow2(k) == q * d by {
      Pow2Split(j, k);
    }
    MultipleModZero(q, d);
  }

  lemma Pow2Order(j: nat, k: nat)
    requires Pow2(j) <= Pow2(k)
    ensures j <= k
  {
    if k < j {
      Pow2Monotone(k + 1, j);
    }
  }

  /** A power of two divides every larger power of two. */
  lemma PowersDivide(a: nat, b: nat)
    requires IsPowerOfTwo(a) && IsPowerOfTwo(b) && a <= b
    ensures b % a == 0
  {
    PowerOfTwoHasExponent(a);
    PowerOfTwoHasExponent(b);
    Pow2Order(Log2(a), Log2(b));
    Pow2Divides(Log2(a), Log2(b));
  }

  /** Divisibility is transitive. */
  lemma ModTransitive(x: int, a: int, b: int)
    requires a > 0 && b > 0 && x % b == 0 && b % a == 0
    ensures x % a == 0
  {
    assert x == (x / b) * b && b == (b / a) * a;
    assert x == ((x / b) * (b / a)) * a by {
      assert (x / b) * ((b / a) * a) == ((x / b) * (b / a)) * a;
    }
    MultipleModZero((x / b) * (b / a), a);
  }

  lemma ModAdd(x: int, y: int, a: int)
    requires a > 0 && x % a == 0 && y % a == 0
    ensures (x + y) % a == 0
  {
    assert x + y == (x / a + y / a) * a;
    MultipleModZero(x / a + y / a, a);
  }

  lemma ModHalf(x: nat, m: nat)
    requires m >= 1
    ensures x % (2 * m) == x % 2 + 2 * ((x / 2) % m)
  {
    var q, r := (x / 2) / m, (x / 2) % m;
    assert x / 2 == q * m + r;
    assert x == q * (2 * m) + (x % 2 + 2 * r);
    DivModUnique(x, 2 * m, q, x % 2 + 2 * r);
  }

  lemma {:induction false} AndAllOnes(x: nat, w: nat)
    requires x < Pow2(w)
    ensures And(x, Pow2(w) - 1) == x
  {
    if w != 0 && x != 0 {
      assert (Pow2(w) - 1) / 2 == Pow2(w - 1) - 1;
      AndAllOnes(x / 2, w - 1);
    }
  }

  lemma AndDoubled(x: nat, m: nat)
    ensures And(x, 2 * m) == 2 * And(x / 2, m)
  {
    assert (2 * m) / 2 == m && (2 * m) % 2 == 0;
  }

  /** Anding with a mask of high ones clears the low `k` bits. */
  lemma {:induction false} AndMask(x: nat, k: nat, w: nat)
    requires x < Pow2(w) && k <= w
    ensures Pow2(w) >= Pow2(k) && And(x, Pow2(w) - Pow2(k)) == x - x % Pow2(k)
  {
    Pow2Monotone(k, w);
    if k == 0 {
      AndAllOnes(x, w);
    } else {
      hide And;
      var m, d := Pow2(w - 1) - Pow2(k - 1), Pow2(k - 1);
      AndMask(x / 2, k - 1, w - 1);
      AndDoubled(x, m);
      ModHalf(x, d);
      assert Pow2(w) - Pow2(k) == 2 * m;
      var r := (x / 2) % d;
      assert And(x, 2 * m) == 2 * (x / 2 - r) && x % (2 * d) == x % 2 + 2 * r;
    }
  }

  lemma Pow2Of64()
    ensures Pow2(64) == SIZE_LIMIT
  {
    assert Pow2(8) == 256;
    Pow2Split(8, 16);
    assert Pow2(16) == 65536;
    Pow2Split(16, 32);
    assert Pow2(32) == 0x1_0000_0000;
    Pow2Split(32, 64);
  }

  /** `x & ~(a - 1)` clears exactly the remainder of `x` modulo a power of two. */
  lemma MaskClearsRemainder(x: nat, a: nat)
    requires IsPowerOfTwo(a) && a < SIZE_LIMIT && x < SIZE_LIMIT
    ensures And(x, Not(a - 1)) == x - x % a
  {
    PowerOfTwoHasExponent(a);
    Pow2Of64();
    var k := Log2(a);
    if k > 64 {
      Pow2Monotone(64, k);
    }
    AndMask(x, k, 64);
    assert Not(a - 1) == SIZE_LIMIT - a;
  }
}
