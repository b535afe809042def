/** Decimal numbers with two fractional digits.

    Two places in the application round a number to two fractional digits:
    the currency conversion (`round($x, 2)`) and the `decimal:2` cast on a
    donation's amount. Both round halves away from zero, so both use Round2.
 */
module Decimal {

  /** x has at most two fractional digits (it is a whole number of cents). */
  predicate HasTwoDecimals(x: real) {
    (x * 100.0).Floor as real == x * 100.0
  }

  /** The whole number of cents nearest to x, halves away from zero. */
  function Cents(x: real): int {
    if x >= 0.0 then (x * 100.0 + 0.5).Floor else -((-x) * 100.0 + 0.5).Floor
  }

  /** x rounded to two fractional digits, halves away from zero. */
  function Round2(x: real): (r: real)
    ensures HasTwoDecimals(r)
    ensures x - 0.005 <= r <= x + 0.005
    ensures x >= 0.0 ==> r >= 0.0
    ensures x >= 0.0 ==> x - 0.005 < r
    ensures x < 0.0 ==> r < x + 0.005
  {
    var c := Cents(x);
    FloorOfWhole(c);
    FloorBounds(x * 100.0 + 0.5);
    FloorBounds((-x) * 100.0 + 0.5);
    c as real / 100.0
  }

  /** A number that already has two fractional digits is left as it is. */
  lemma Round2Keeps(x: real)
    requires HasTwoDecimals(x)
    ensures Round2(x) == x
  {
    var n := (x * 100.0).Floor;
    FloorBounds(x * 100.0 + 0.5);
    FloorBounds((-x) * 100.0 + 0.5);
    if x >= 0.0 {
      assert (x * 100.0 + 0.5).Floor == n;
    } else {
      assert (-x) * 100.0 + 0.5 == (-n) as real + 0.5;
      assert ((-x) * 100.0 + 0.5).Floor == -n;
    }
  }

  /** Rounding never reverses the order of two numbers. */
  lemma Round2Monotone(x: real, y: real)
    requires x <= y
    ensures Round2(x) <= Round2(y)
  {
    if x >= 0.0 {
      FloorMonotone(x * 100.0 + 0.5, y * 100.0 + 0.5);
    } else if y < 0.0 {
      FloorMonotone((-y) * 100.0 + 0.5, (-x) * 100.0 + 0.5);
    }
  }

  /** A lower bound that has two fractional digits survives rounding. */
  lemma Round2AtLeast(bound: real, x: real)
    requires HasTwoDecimals(bound)
    requires bound <= x
    ensures bound <= Round2(x)
  {
    Round2Keeps(bound);
    Round2Monotone(bound, x);
  }

  lemma FloorOfWhole(n: int)
    ensures (n as real).Floor == n
    ensures ((n as real / 100.0) * 100.0).Floor == n
  {
  }

  lemma FloorBounds(x: real)
    ensures x.Floor as real <= x < x.Floor as real + 1.0
  {
  }

  lemma FloorMonotone(a: real, b: real)
    requires a <= b
    ensures a.Floor <= b.Floor
  {
  }
}
