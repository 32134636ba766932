/** Rounding of reals to whole numbers. */
module Rounding {

  /** Round to the nearest whole number, ties to even. */
  function RoundEven(x: real): (n: int)
    ensures -0.5 <= n as real - x <= 0.5
  {
    var f := x.Floor;
    var d := x - f as real;
    if d < 0.5 || (d == 0.5 && f % 2 == 0) then f else f + 1
  }

  /** Exactly half way it goes to the even neighbour. */
  lemma HalvesGoToEven(x: real)
    requires x - x.Floor as real == 0.5
    ensures RoundEven(x) % 2 == 0
  {
  }

  lemma RoundEvenMonotone(x: real, y: real)
    requires x <= y
    ensures RoundEven(x) <= RoundEven(y)
  {
    assert x.Floor <= y.Floor;
  }

  lemma RoundEvenWhole(n: int)
    ensures RoundEven(n as real) == n
  {
  }
}
