/**
 * The fixed-point rule the Redux slices share: a value is kept as a whole
 * number, either as it is or scaled by ten (angles in tenths of a degree,
 * rider lengths in millimetres), truncated toward zero; the selectors undo
 * the scaling by dividing by ten.
 */
module FixedPoint {
  import opened JsMath

  /** The whole number a reducer writes for `x`: `Math.trunc(x * 10)` or `Math.trunc(x)`. */
  function Store(scaled: bool, x: real): int {
    if scaled then Trunc(x * 10.0) else Trunc(x)
  }

  /** What a selector gives back for a stored value `n`: `n / 10` or `n`. */
  function Show(scaled: bool, n: real): real {
    if scaled then n / 10.0 else n
  }

  /** A value the store holds without loss: whole, or a whole number of tenths. */
  predicate Exact(scaled: bool, x: real) {
    if scaled then IsInteger(x * 10.0) else IsInteger(x)
  }

  /** Storing and showing gives a value back exactly when it is `Exact`. */
  lemma ShowStore(scaled: bool, x: real)
    ensures Show(scaled, Store(scaled, x) as real) == x <==> Exact(scaled, x)
  {
    if scaled {
      TruncExact(x * 10.0);
      assert Show(scaled, Store(scaled, x) as real) == x <==> Store(scaled, x) as real == x * 10.0;
    } else {
      TruncExact(x);
    }
  }

  /** Storing a shown value gives the stored whole number back. */
  lemma StoreShow(scaled: bool, n: int)
    ensures Store(scaled, Show(scaled, n as real)) == n
  {
    if scaled {
      assert Show(scaled, n as real) * 10.0 == n as real;
    }
    FloorOfInteger(n);
    FloorOfInteger(-n);
  }

  /** A stored value is off by less than one unit, and never away from zero. */
  lemma StoreError(scaled: bool, x: real)
    ensures var y := if scaled then x * 10.0 else x;
      var n := Store(scaled, x) as real;
      (0.0 <= y ==> 0.0 <= n <= y < n + 1.0) && (y < 0.0 ==> n - 1.0 < y <= n <= 0.0)
  {
  }
}
