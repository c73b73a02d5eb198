/**
 * Unsigned words as natural numbers: bit k of x is `(x / 2^k) % 2`, and `|` on two words is
 * BitOr. The probe word is built with `|=` and read with shifts and masks; this module gives
 * those operations their arithmetic meaning.
 */
module UintBits {

  /** A `uint` value. */
  type u32 = x: int | 0 <= x < 0x1_0000_0000

  function Pow2(k: nat): (p: nat)
    ensures p >= 1
  {
    if k == 0 then 1 else 2 * Pow2(k - 1)
  }

  /** Whether bit k of x is 1. */
  predicate Bit(x: nat, k: nat)
  {
    (x / Pow2(k)) % 2 == 1
  }

  /** `a | b` on non-negative integers, one bit at a time from the least significant. */
  function BitOr(a: nat, b: nat): nat
    decreases a + b
  {
    if a == 0 && b == 0 then 0
    else 2 * BitOr(a / 2, b / 2) + (if a % 2 == 1 || b % 2 == 1 then 1 else 0)
  }

  lemma Pow2Values()
    ensures Pow2(8) == 0x100 && Pow2(28) == 0x1000_0000 && Pow2(29) == 0x2000_0000
    ensures Pow2(32) == 0x1_0000_0000
  {
    assert Pow2(4) == 16;
    assert Pow2(8) == 0x100;
    assert Pow2(16) == 0x1_0000 by {
      assert Pow2(12) == 0x1000;
    }
    assert Pow2(24) == 0x100_0000 by {
      assert Pow2(20) == 0x10_0000;
    }
    assert Pow2(28) == 0x1000_0000;
  }

  /** d * t >= d for t >= 1 */
  lemma MulAtLeast(d: nat, t: int)
    requires t >= 1
    ensures d * t >= d
  {
    assert d * t == d * (t - 1) + d;
  }

  /** Quotient and remainder are determined by x = d * q + m with 0 <= m < d. */
  lemma DivModUnique(x: int, d: int, q: int, m: int)
    requires d > 0 && x == d * q + m && 0 <= m < d
    ensures x / d == q && x % d == m
  {
    var q', m' := x / d, x % d;
    assert d * q' + m' == d * q + m;
    assert d * (q - q') == m' - m;
    assert d * (q' - q) == m - m';
    if q' < q {
      MulAtLeast(d, q - q');
    } else if q' > q {
      MulAtLeast(d, q' - q);
    }
  }

  /** Dividing by 2^k is halving, then dividing by 2^(k-1); the remainder splits the same way. */
  lemma DivModHalf(x: nat, k: nat)
    requires k >= 1
    ensures x / Pow2(k) == (x / 2) / Pow2(k - 1)
    ensures x % Pow2(k) == 2 * ((x / 2) % Pow2(k - 1)) + x % 2
  {
    var p := Pow2(k - 1);
    var a, b := (x / 2) / p, (x / 2) % p;
    assert x / 2 == p * a + b;
    assert x == 2 * (p * a + b) + x % 2;
    assert x == (2 * p) * a + (2 * b + x % 2);
    DivModUnique(x, 2 * p, a, 2 * b + x % 2);
  }

  lemma BitOrZero(a: nat)
    ensures BitOr(a, 0) == a && BitOr(0, a) == a
    decreases a
  {
    if a != 0 {
      BitOrZero(a / 2);
    }
  }

  /** Bit k of `a | b` is set iff bit k of a or bit k of b is. */
  lemma {:induction false} BitOrBit(a: nat, b: nat, k: nat)
    ensures Bit(BitOr(a, b), k) <==> Bit(a, k) || Bit(b, k)
  {
    if k == 0 {
      if a == 0 && b == 0 {
      }
    } else {
      DivModHalf(BitOr(a, b), k);
      DivModHalf(a, k);
      DivModHalf(b, k);
      BitOrBit(a / 2, b / 2, k - 1);
      if a == 0 && b == 0 {
        assert BitOr(a / 2, b / 2) == 0;
      } else {
        assert BitOr(a, b) / 2 == BitOr(a / 2, b / 2);
      }
    }
  }

  /** The low k bits of `a | b` are the OR of the low k bits of a and b. */
  lemma {:induction false} BitOrLow(a: nat, b: nat, k: nat)
    ensures BitOr(a, b) % Pow2(k) == BitOr(a % Pow2(k), b % Pow2(k))
  {
    if k > 0 {
      var p := Pow2(k - 1);
      DivModHalf(BitOr(a, b), k);
      DivModHalf(a, k);
      DivModHalf(b, k);
      BitOrLow(a / 2, b / 2, k - 1);
      var la, lb := a % Pow2(k), b % Pow2(k);
      assert la / 2 == (a / 2) % p && la % 2 == a % 2;
      assert lb / 2 == (b / 2) % p && lb % 2 == b % 2;
      if a == 0 && b == 0 {
        BitOrZero(0);
      } else if la == 0 && lb == 0 {
        assert (a / 2) % p == 0 && (b / 2) % p == 0;
        BitOrZero(0);
      }
    }
  }

  /** When b fits below bit k and a has no bit below k, `a | b` is `a + b`. */
  lemma {:induction false} BitOrDisjoint(a: nat, b: nat, k: nat)
    requires a % Pow2(k) == 0 && b < Pow2(k)
    ensures BitOr(a, b) == a + b
  {
    if k == 0 {
      BitOrZero(a);
    } else {
      DivModHalf(a, k);
      assert a % 2 == 0;
      assert b / 2 < Pow2(k - 1);
      BitOrDisjoint(a / 2, b / 2, k - 1);
      if a == 0 && b == 0 {
      }
    }
  }

  /** `a | b` of two n-bit values is an n-bit value. */
  lemma {:induction false} BitOrBound(a: nat, b: nat, n: nat)
    requires a < Pow2(n) && b < Pow2(n)
    ensures BitOr(a, b) < Pow2(n)
  {
    if n == 0 {
      assert a == 0 && b == 0;
    } else if a == 0 && b == 0 {
    } else {
      BitOrBound(a / 2, b / 2, n - 1);
    }
  }
}
