/// Integer facts behind the bit tricks of the noise code.
///
/// The source uses `n & 1` to read the parity of a cell index and
/// `n & (density - 1)` to wrap a cell index onto a torus whose side is a
/// power of two. Both are modelled with `BitAnd`, a bitwise AND on
/// non-negative integers, and connected here to Euclidean `%`.
module Bits {

  /// 2 to the power k.
  function Pow2(k: nat): (r: nat)
    ensures r >= 1
    ensures IsPowerOfTwo(r)
  {
    if k == 0 then 1
    else
      var p := Pow2(k - 1);
      assert (2 * p) / 2 == p;
      2 * p
  }

  /// n is 1, 2, 4, 8, ...
  predicate IsPowerOfTwo(n: nat)
    decreases n
  {
    n == 1 || (n >= 2 && n % 2 == 0 && IsPowerOfTwo(n / 2))
  }

  /// Bitwise AND of two non-negative integers, bit by bit from the lowest.
  function BitAnd(a: nat, b: nat): (r: nat)
    decreases a
    ensures r <= a && r <= b
  {
    if a == 0 || b == 0 then 0
    else 2 * BitAnd(a / 2, b / 2) + (if a % 2 == 1 && b % 2 == 1 then 1 else 0)
  }

  /// Euclidean division is unique: any decomposition m == d*q + c with
  /// 0 <= c < d gives the quotient and the remainder.
  lemma DivModUnique(m: int, d: int, q: int, c: int)
    requires 0 < d && 0 <= c < d && m == d * q + c
    ensures m % d == c && m / d == q
  {
    var q', c' := m / d, m % d;
    assert d * (q - q') == c' - c;
    if q != q' {
      MulIsFar(d, q - q');
    }
  }

  /// A non-zero multiple of d is at least d away from zero, on its own side.
  lemma {:induction false} MulIsFar(d: int, k: int)
    requires 0 < d && k != 0
    ensures k > 0 ==> d * k >= d
    ensures k < 0 ==> d * k <= -d
    decreases if k < 0 then -k else k
  {
    if k > 1 {
      MulIsFar(d, k - 1);
      assert d * k == d * (k - 1) + d;
    } else if k < -1 {
      MulIsFar(d, k + 1);
      assert d * k == d * (k + 1) - d;
    }
  }

  /// Adding a multiple of the modulus does not change the remainder.
  lemma {:induction false} ModAddMultiple(m: int, k: nat, d: int)
    requires 0 < d
    ensures (m + k * d) % d == m % d
  {
    DivModUnique(m + k * d, d, m / d + k, m % d);
  }

  /// Reducing a non-negative summand first does not change the remainder.
  lemma ModAddReduced(a: int, b: int, d: int)
    requires 0 < d
    ensures (a % d + b) % d == (a + b) % d
  {
    var q := a / d;
    assert a + b == d * q + (a % d + b);
    DivModUnique((a % d + b), d, (a % d + b) / d, (a % d + b) % d);
    DivModUnique(a + b, d, q + (a % d + b) / d, (a % d + b) % d);
  }

  /// The remainder modulo 2h read off the halves: the lowest bit, then the
  /// remainder of the upper bits modulo h.
  lemma ModDouble(m: nat, h: nat)
    requires 0 < h
    ensures m % (2 * h) == 2 * ((m / 2) % h) + m % 2
  {
    var q := m / 2;
    assert m == 2 * q + m % 2;
    assert q == h * (q / h) + q % h;
    assert m == (2 * h) * (q / h) + (2 * (q % h) + m % 2);
    DivModUnique(m, 2 * h, q / h, 2 * (q % h) + m % 2);
  }

  /// `m & (n - 1)` is `m % n` when n is a power of two.
  lemma {:induction false} BitAndLowMask(m: nat, n: nat)
    requires IsPowerOfTwo(n)
    ensures BitAnd(m, n - 1) == m % n
    decreases n
  {
    if n == 1 {
    } else if m == 0 {
    } else {
      var h := n / 2;
      assert n - 1 == 2 * (h - 1) + 1;
      assert (n - 1) / 2 == h - 1 && (n - 1) % 2 == 1;
      BitAndLowMask(m / 2, h);
      ModDouble(m, h);
    }
  }

  /// `m & 1` is the parity of m.
  lemma BitAndOne(m: nat)
    ensures BitAnd(m, 1) == m % 2
  {
    BitAndLowMask(m, 2);
  }

  /// Adding an even number keeps the parity.
  lemma BitAndOneShift(m: nat, k: nat)
    ensures BitAnd(m + 2 * k, 1) == BitAnd(m, 1)
  {
    BitAndOne(m);
    BitAndOne(m + 2 * k);
    ModAddMultiple(m, k, 2);
  }

  /// Doubling a power of two gives a power of two.
  lemma {:induction false} PowerOfTwoScaled(d: nat, k: nat)
    requires IsPowerOfTwo(d)
    ensures IsPowerOfTwo(d * Pow2(k))
  {
    if k > 0 {
      PowerOfTwoScaled(d, k - 1);
      var p := Pow2(k - 1);
      var e := d * p;
      assert d * Pow2(k) == 2 * e by {
        assert Pow2(k) == 2 * p;
        ProductOfDouble(d, p);
      }
      PowerOfTwoDoubled(e);
    }
  }

  lemma ProductOfDouble(d: nat, p: nat)
    ensures d * (2 * p) == 2 * (d * p)
  {
  }

  /// Twice a power of two is a power of two.
  lemma PowerOfTwoDoubled(e: nat)
    requires IsPowerOfTwo(e)
    ensures IsPowerOfTwo(2 * e)
  {
    assert (2 * e) / 2 == e;
  }

  /// Wrapping a shifted index: `(c + d) & (d - 1)` is c modulo d, and lies
  /// in [0, d).
  lemma WrapIsMod(c: int, d: nat)
    requires IsPowerOfTwo(d) && 0 <= c + d
    ensures 0 <= BitAnd(c + d, d - 1) < d
    ensures BitAnd(c + d, d - 1) == c % d
  {
    BitAndLowMask(c + d, d);
    ModAddMultiple(c, 1, d);
  }

  /// The wrap does not see whole turns of the torus: c and c + k*d wrap
  /// to the same cell.
  lemma WrapPeriodic(c: int, d: nat, k: nat)
    requires IsPowerOfTwo(d) && 0 <= c + d
    ensures BitAnd(c + k * d + d, d - 1) == BitAnd(c + d, d - 1)
  {
    WrapIsMod(c, d);
    var e := c + k * d;
    WrapIsMod(e, d);
    ModAddMultiple(c, k, d);
  }
}
