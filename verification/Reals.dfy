/** std::min, std::max, std::clamp and std::abs on exact reals, and the few product facts the curve proofs need. */
module Reals {
  function Min(a: real, b: real): real { if b < a then b else a }

  function Max(a: real, b: real): real { if a < b then b else a }

  function Clamp(value: real, low: real, high: real): real {
    if value < low then low else if high < value then high else value
  }

  function Abs(a: real): real { if a < 0.0 then -a else a }

  /** std::ceil, kept as an integer. */
  function Ceil(a: real): int { -((-a).Floor) }

  lemma ProductNonNegative(a: real, b: real)
    requires 0.0 <= a && 0.0 <= b
    ensures 0.0 <= a * b
  {}

  lemma NonZeroProduct(a: real, b: real)
    requires a != 0.0 && b != 0.0
    ensures a * b != 0.0
  {
  }

  lemma ProductMonotone(a: real, b: real, c: real)
    requires a <= b && 0.0 <= c
    ensures a * c <= b * c
  {
    ProductNonNegative(b - a, c);
  }

  lemma CancelPositive(a: real, u: real)
    requires 0.0 < u && 0.0 <= a * u
    ensures 0.0 <= a
  {}

  lemma SquareNonNegative(a: real)
    ensures 0.0 <= a * a
  {
    if a < 0.0 {
      ProductNonNegative(-a, -a);
    } else {
      ProductNonNegative(a, a);
    }
  }

  lemma ScaledBetween(a: real, d: real, w: real)
    requires 0.0 <= a <= d
    ensures 0.0 <= w ==> 0.0 <= a * w <= d * w
    ensures w <= 0.0 ==> d * w <= a * w <= 0.0
  {
    if w < 0.0 {
      ProductNonNegative(a, -w);
      ProductMonotone(a, d, -w);
    } else {
      ProductNonNegative(a, w);
      ProductMonotone(a, d, w);
    }
  }

  /** Products with a positive factor compare like the other factors. */
  lemma CompareProducts(a: real, b: real, x: real, ax: real, bx: real)
    requires 0.0 < x && ax == a * x && bx == b * x
    ensures a < b <==> ax < bx
    ensures a == b <==> ax == bx
  {
    PositiveProduct(b - a, x);
    PositiveProduct(a - b, x);
    assert bx - ax == (b - a) * x && ax - bx == (a - b) * x;
  }

  lemma PositiveProduct(a: real, x: real)
    requires 0.0 < x
    ensures 0.0 < a ==> 0.0 < a * x
  {}

  lemma QuotientBounds(a: real, b: real)
    requires 0.0 < b
    ensures 0.0 <= a ==> 0.0 <= a / b
    ensures a <= b ==> a / b <= 1.0
    ensures a / b * b == a
  {}
}
