/**
  Python's `round(x, digits)` over the reals: to the nearest multiple of one unit,
  ties to the even multiple.  Two digits are used for provider costs, six for rewards.
*/
module Rounding {

  /** Half-even rounding to an integer. */
  function Nearest(x: real): int {
    var f := x.Floor;
    var d := x - f as real;
    if d < 0.5 || (d == 0.5 && f % 2 == 0) then f else f + 1
  }

  function Round2(x: real): real {
    Nearest(x * 100.0) as real / 100.0
  }

  function Round6(x: real): real {
    Nearest(x * 1000000.0) as real / 1000000.0
  }

  /** A whole number of millionths. */
  predicate Micros(x: real) {
    (x * 1000000.0).Floor as real == x * 1000000.0
  }

  /** The nearest integer, and of two equally near ones the even one. */
  lemma NearestIsHalfEven(x: real)
    ensures -0.5 <= Nearest(x) as real - x <= 0.5
    ensures Nearest(x) as real - x == 0.5 || Nearest(x) as real - x == -0.5 ==> Nearest(x) % 2 == 0
  {
  }

  /** No other integer is like that. */
  lemma HalfEvenIsUnique(x: real, m: int)
    requires -0.5 <= m as real - x <= 0.5
    requires m as real - x == 0.5 || m as real - x == -0.5 ==> m % 2 == 0
    ensures m == Nearest(x)
  {
    NearestIsHalfEven(x);
  }

  /** Two-digit rounding is to a whole number of cents, at most half a cent away. */
  lemma Round2IsNearest(x: real)
    ensures (Round2(x) * 100.0).Floor as real == Round2(x) * 100.0
    ensures -0.005 <= Round2(x) - x <= 0.005
  {
    NearestIsHalfEven(x * 100.0);
    assert (Nearest(x * 100.0) as real).Floor == Nearest(x * 100.0);
  }

  lemma NearestMonotone(x: real, y: real)
    requires x <= y
    ensures Nearest(x) <= Nearest(y)
  {
    if x.Floor < y.Floor {
      assert x.Floor + 1 <= y.Floor;
    }
  }

  lemma RoundMonotone(x: real, y: real)
    requires x <= y
    ensures Round2(x) <= Round2(y)
    ensures Round6(x) <= Round6(y)
  {
    NearestMonotone(x * 100.0, y * 100.0);
    NearestMonotone(x * 1000000.0, y * 1000000.0);
  }

  /** Six-digit rounding moves a value by at most half a millionth, and one that is already
      a whole number of millionths not at all. */
  lemma Round6IsNearest(x: real)
    ensures Micros(Round6(x))
    ensures -0.0000005 <= Round6(x) - x <= 0.0000005
    ensures Micros(x) ==> Round6(x) == x
  {
    assert (Nearest(x * 1000000.0) as real).Floor == Nearest(x * 1000000.0);
  }

  lemma MicrosSum(x: real, y: real)
    requires Micros(x) && Micros(y)
    ensures Micros(x + y)
  {
    var k, l := (x * 1000000.0).Floor, (y * 1000000.0).Floor;
    assert (x + y) * 1000000.0 == (k + l) as real;
  }
}
