/** Exact real arithmetic shared by the models. */
module Reals {

  function Abs(x: real): real {
    if x < 0.0 then -x else x
  }

  function Min(x: real, y: real): real {
    if y < x then y else x
  }

  function Max(x: real, y: real): real {
    if y > x then y else x
  }

  /** Multiplication under a name, so that a proof can hide its arithmetic. */
  function Times(x: real, y: real): real {
    x * y
  }

  lemma Product(x: real, y: real)
    ensures x >= 0.0 && y >= 0.0 ==> x * y >= 0.0
    ensures x > 0.0 && y > 0.0 ==> x * y > 0.0
  {
  }
}
