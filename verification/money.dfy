/**
  Exact decimal money. Every currency figure the server reports goes through
  `toFixed(2)`; here that is `Round2`, rounding to whole cents with ties away
  from zero (toFixed rounds the magnitude and re-attaches the sign).
 */
module Money {

  /** x is a whole number of cents. */
  predicate IsCents(x: real) {
    (x * 100.0).Floor as real == x * 100.0
  }

  /** x scaled to cents, rounded half away from zero. */
  function Cents(x: real): int {
    if x >= 0.0 then (x * 100.0 + 0.5).Floor else -((-x * 100.0 + 0.5).Floor)
  }

  /** The value of `parseFloat(x.toFixed(2))` on an exact decimal. */
  function Round2(x: real): (r: real)
    ensures IsCents(r)
    ensures x - 0.005 <= r <= x + 0.005
    ensures x >= 0.0 ==> r >= 0.0
    ensures x <= 0.0 ==> r <= 0.0
  {
    var n := Cents(x);
    assert (n as real / 100.0) * 100.0 == n as real;
    n as real / 100.0
  }

  /** `Math.ceil`: the least integer not below x. */
  function Ceil(x: real): (n: int)
    ensures x <= n as real < x + 1.0
  {
    -((-x).Floor)
  }

  /** Rounding a whole number of cents changes nothing. */
  lemma Round2OfCents(x: real)
    requires IsCents(x)
    ensures Round2(x) == x
  {
    var m := (x * 100.0).Floor;
    if x >= 0.0 {
      assert (x * 100.0 + 0.5).Floor == m;
    } else {
      assert (-x * 100.0 + 0.5).Floor == -m;
    }
  }

  /**
    Adding a non-negative whole number of cents commutes with rounding a
    non-negative amount: the cents carry no fraction to round.
   */
  lemma Round2ShiftByCents(c: real, x: real)
    requires IsCents(c) && c >= 0.0 && x >= 0.0
    ensures Round2(c + x) == c + Round2(x)
  {
    var m := (c * 100.0).Floor;
    assert (c + x) * 100.0 + 0.5 == m as real + (x * 100.0 + 0.5);
    assert ((c + x) * 100.0 + 0.5).Floor == m + (x * 100.0 + 0.5).Floor;
  }

  /** Rounding never reverses the order of two amounts. */
  lemma Round2Monotone(x: real, y: real)
    requires x <= y
    ensures Round2(x) <= Round2(y)
  {
    if x >= 0.0 {
      assert (x * 100.0 + 0.5).Floor <= (y * 100.0 + 0.5).Floor;
    } else if y < 0.0 {
      assert (-y * 100.0 + 0.5).Floor <= (-x * 100.0 + 0.5).Floor;
    }
  }

  /** Scaling by a positive factor keeps order. */
  lemma MulMonotone(x: real, y: real, k: real)
    requires x <= y && k > 0.0
    ensures x * k <= y * k
  {
    assert (y - x) * k >= 0.0;
    assert (y - x) * k == y * k - x * k;
  }

  /** Scaling by a positive factor keeps strict order. */
  lemma MulStrict(x: real, y: real, k: real)
    requires x < y && k > 0.0
    ensures x * k < y * k
  {
    assert (y - x) * k > 0.0;
    assert (y - x) * k == y * k - x * k;
  }
}
