/** Fixed-width and truncating arithmetic as the Rust services perform it. */
module Numbers {
  const U64_MAX: nat := 0xFFFF_FFFF_FFFF_FFFF
  const U128_MAX: nat := 0xFFFF_FFFF_FFFF_FFFF_FFFF_FFFF_FFFF_FFFF

  function Min(a: int, b: int): int { if a <= b then a else b }

  function Max(a: int, b: int): int { if a >= b then a else b }

  function Abs(a: int): nat { if a >= 0 then a else -a }

  function Clamp(v: int, lo: int, hi: int): int
    requires lo <= hi
  {
    if v < lo then lo else if v > hi then hi else v
  }

  /** `u64::saturating_sub` */
  function SatSub(a: nat, b: nat): nat { if a >= b then a - b else 0 }

  /** `u64::saturating_add` */
  function SatAdd(a: nat, b: nat): nat { Min(a + b, U64_MAX) }

  /** `u64::saturating_mul` */
  function SatMul(a: nat, b: nat): nat { Min(a * b, U64_MAX) }

  /** Signed division as Rust performs it: towards zero. */
  function TruncDiv(a: int, b: int): int
    requires b > 0
  {
    if a >= 0 then a / b else -((-a) / b)
  }

  lemma MulMonotone(a: int, b: int, k: int)
    requires a <= b && k >= 0
    ensures k * a <= k * b && a * k <= b * k
  {
    assert k * b - k * a == k * (b - a) >= 0;
  }

  lemma MulCancels(k: int, a: int, b: int)
    requires k > 0 && k * a < k * b
    ensures a < b
  {
    assert k * (b - a) > 0;
  }

  /** `q` is the quotient exactly when `x` lies in the `q`-th block of `d`. */
  lemma {:induction false} DivUnique(x: int, d: int, q: int)
    requires d > 0 && d * q <= x < d * q + d
    ensures x / d == q
  {
    assert d * (x / d) < d * (q + 1);
    MulCancels(d, x / d, q + 1);
    assert d * q < d * (x / d + 1);
    MulCancels(d, q, x / d + 1);
  }

  lemma {:induction false} DivMonotone(x: int, y: int, d: int)
    requires d > 0 && x <= y
    ensures x / d <= y / d
  {
    assert d * (x / d) < d * (y / d + 1);
    MulCancels(d, x / d, y / d + 1);
  }

  lemma {:induction false} DivAtLeast(x: int, d: int, k: int)
    requires d > 0
    ensures x / d >= k <==> x >= d * k
  {
    if x >= d * k {
      assert d * k < d * (x / d + 1);
      MulCancels(d, k, x / d + 1);
    } else {
      assert d * (x / d) < d * k;
      MulCancels(d, x / d, k);
    }
  }

  lemma TruncDivNegates(a: int, b: int)
    requires b > 0
    ensures TruncDiv(-a, b) == -TruncDiv(a, b)
  {
  }

  lemma TruncDivSign(x: int, d: int)
    requires d > 0
    ensures x >= 0 ==> TruncDiv(x, d) >= 0
    ensures x <= 0 ==> TruncDiv(x, d) <= 0
  {
    if x >= 0 {
      DivAtLeast(x, d, 0);
    } else {
      DivAtLeast(-x, d, 0);
    }
  }

  lemma {:induction false} TruncDivMonotone(x: int, y: int, d: int)
    requires d > 0 && x <= y
    ensures TruncDiv(x, d) <= TruncDiv(y, d)
  {
    if x >= 0 {
      DivMonotone(x, y, d);
    } else if y < 0 {
      DivMonotone(-y, -x, d);
    } else {
      TruncDivSign(x, d);
      TruncDivSign(y, d);
    }
  }

  /** A truncated quotient reaches a positive bound exactly when the dividend does. */
  lemma {:induction false} TruncDivAtLeast(x: int, d: int, k: int)
    requires d > 0 && k > 0
    ensures TruncDiv(x, d) >= k <==> x >= d * k
  {
    if x >= 0 {
      DivAtLeast(x, d, k);
    } else {
      TruncDivSign(x, d);
      MulMonotone(0, k, d);
    }
  }
}
