/**
 * Rust's fixed-width integers. Arithmetic on a newtype is checked by Dafny to stay
 * in range, which is how the model states that an overflowing `+` or `*` panics
 * in a debug build: every caller has to show the result fits.
 */
module RustInts {

  newtype u8 = x: int | 0 <= x < 0x100
  newtype i32 = x: int | -0x8000_0000 <= x < 0x8000_0000
  newtype u32 = x: int | 0 <= x < 0x1_0000_0000
  newtype u64 = x: int | 0 <= x < 0x1_0000_0000_0000_0000

  const I32_MIN: int := -0x8000_0000
  const I32_MAX: int := 0x7FFF_FFFF
  const U32_MAX: int := 0xFFFF_FFFF

  /**
   * Rust's `%` by a small positive divisor (the modelled code divides by 2, 3
   * and 4): the remainder takes the sign of the dividend, where Dafny's
   * Euclidean `%` is never negative.
   */
  function RustRem(a: int, b: int): (r: int)
    requires 1 <= b <= 4
    ensures -b < r < b && (a - r) % b == 0
    ensures a >= 0 ==> r >= 0
    ensures a <= 0 ==> r <= 0
    ensures r == 0 <==> a % b == 0
  {
    TruncatedRemainderBySmall(a, b);
    if a >= 0 then a % b else -((-a) % b)
  }

  /**
   * `r` is what a truncating division of `a` by `b` leaves: smaller than `b`
   * in size, with the sign of `a`, and `a - r` a multiple of `b`; it is zero
   * exactly when `b` divides `a`.
   */
  ghost predicate IsTruncatedRemainder(a: int, b: int, r: int)
    requires b > 0
  {
    && -b < r < b && (a - r) % b == 0
    && (a >= 0 ==> r >= 0) && (a <= 0 ==> r <= 0)
    && (r == 0 <==> a % b == 0)
  }

  /** The remainder `RustRem` computes is the truncating one, for either sign of `a`. */
  lemma TruncatedRemainderBySmall(a: int, b: int)
    requires 1 <= b <= 4
    ensures IsTruncatedRemainder(a, b, if a >= 0 then a % b else -((-a) % b))
  {
    if a >= 0 {
      RemainderOfNonNegative(a, b);
    } else {
      RemainderOfNegative(a, b);
    }
  }

  /** For `a >= 0` the Euclidean remainder is already the truncating one. */
  lemma RemainderOfNonNegative(a: int, b: int)
    requires 1 <= b <= 4 && a >= 0
    ensures IsTruncatedRemainder(a, b, a % b)
  {
    var q, m := a / b, a % b;
    assert a == b * q + m;
    ModOfMultiplePlus(b, q, 0);
    assert a - m == b * q + 0;
  }

  /**
   * Negating the Euclidean remainder of `-a` gives the truncating remainder of
   * a negative `a`: `-a` is `b * q + m`, so `a + m` is a multiple of `b`, and
   * when `m` is not zero `a` is `b * (-q - 1) + (b - m)`, not a multiple.
   */
  lemma RemainderOfNegative(a: int, b: int)
    requires 1 <= b <= 4 && a < 0
    ensures IsTruncatedRemainder(a, b, -((-a) % b))
  {
    var q, m := (-a) / b, (-a) % b;
    assert -a == b * q + m;
    assert (a - -m) % b == 0 by {
      ModOfMultiplePlus(b, -q, 0);
      assert a - -m == b * -q + 0;
    }
    assert m == 0 <==> a % b == 0 by {
      if m != 0 {
        ModOfMultiplePlus(b, -q - 1, b - m);
        assert a == b * (-q - 1) + (b - m);
      } else {
        ModOfMultiplePlus(b, -q, 0);
        assert a == b * -q + 0;
      }
    }
  }

  /** A multiple of `b` plus an offset below `b` leaves that offset; one divisor at a time. */
  lemma ModOfMultiplePlus(b: int, k: int, j: int)
    requires 1 <= b <= 4 && 0 <= j < b
    ensures (b * k + j) % b == j
  {
    if b == 1 {
      assert (1 * k + j) % 1 == j;
    } else if b == 2 {
      assert (2 * k + j) % 2 == j;
    } else if b == 3 {
      assert (3 * k + j) % 3 == j;
    } else {
      assert (4 * k + j) % 4 == j;
    }
  }

  /** Strictly longer sides, of which the shorter ones are not negative, enclose a strictly larger product. */
  lemma StrictlyLargerProduct(w: int, h: int, ow: int, oh: int)
    requires ow < w && oh < h
    ensures 0 <= ow && 0 <= oh ==> w * h > ow * oh
  {
    if 0 <= ow && 0 <= oh {
      assert w * h - w * oh == w * (h - oh) > 0;
      assert w * oh - ow * oh == (w - ow) * oh >= 0;
    }
  }

  /** For a negative odd number Rust's `x % 2` is -1, not 1. */
  lemma RustRemNegativeOdd(x: int)
    requires x < 0 && x % 2 == 1
    ensures RustRem(x, 2) == -1
  {
  }
}
