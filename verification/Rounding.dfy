/** The two decimal roundings the system mixes: Python's `round` (ties to even) before a value is
    sent to the database, and the cast to a NUMERIC(_, s) column (ties away from zero) on arrival.
    Values are exact reals already scaled so that the grid is the integers. */
module Rounding {

  function RoundHalfEven(x: real): (r: int)
    ensures x - 0.5 <= r as real <= x + 0.5
  {
    var f := x.Floor;
    var d := x - f as real;
    if d < 0.5 then f else if d > 0.5 then f + 1 else if f % 2 == 0 then f else f + 1
  }

  function RoundHalfAway(x: real): (r: int)
    ensures x - 0.5 <= r as real <= x + 0.5
  {
    if x >= 0.0 then (x + 0.5).Floor else -((-x + 0.5).Floor)
  }

  lemma RoundHalfEvenMonotone(x: real, y: real)
    requires x <= y
    ensures RoundHalfEven(x) <= RoundHalfEven(y)
  {
  }

  lemma RoundHalfAwayMonotone(x: real, y: real)
    requires x <= y
    ensures RoundHalfAway(x) <= RoundHalfAway(y)
  {
  }

  /** Both roundings leave grid points alone. */
  lemma RoundGridPoint(k: int)
    ensures RoundHalfEven(k as real) == k && RoundHalfAway(k as real) == k
  {
  }

  /** Between two grid points Python goes to the even one and the column goes away from zero. */
  lemma TiesDiffer(k: int)
    ensures RoundHalfEven(k as real + 0.5) % 2 == 0
    ensures RoundHalfAway(k as real + 0.5) == if k >= 0 then k + 1 else k
  {
  }
}
