/** JavaScript number helpers used by the Redux slices and the form validators. */
module JsMath {

  /** `Number.isInteger` on a finite number. */
  predicate IsInteger(x: real) {
    x.Floor as real == x
  }

  /**
   * `Math.trunc`: drops the fractional part, rounding toward zero, so that
   * negative lengths such as a stem angle or a handlebar rise keep their sign.
   */
  function Trunc(x: real): (r: int)
    ensures 0.0 <= x ==> r as real <= x < r as real + 1.0
    ensures x < 0.0 ==> r as real - 1.0 < x <= r as real
  {
    if x >= 0.0 then x.Floor else -((-x).Floor)
  }

  /** Truncation leaves an integer alone, and only an integer. */
  lemma TruncExact(x: real)
    ensures Trunc(x) as real == x <==> IsInteger(x)
  {
    if x < 0.0 {
      var n := x.Floor;
      if IsInteger(x) {
        assert -x == (-n) as real;
        FloorOfInteger(-n);
      }
      if Trunc(x) as real == x {
        var m := (-x).Floor;
        assert x == (-m) as real;
        FloorOfInteger(-m);
      }
    }
  }

  lemma FloorOfInteger(n: int)
    ensures (n as real).Floor == n
  {
  }

  /** Truncation commutes with negation. */
  lemma TruncOdd(x: real)
    ensures Trunc(-x) == -Trunc(x)
  {
  }

  /** The magnitude never grows and a sign is never flipped. */
  lemma TruncTowardZero(x: real)
    ensures 0.0 <= x ==> 0 <= Trunc(x) && Trunc(x) as real <= x
    ensures x <= 0.0 ==> Trunc(x) <= 0 && x <= Trunc(x) as real
  {
  }
}
