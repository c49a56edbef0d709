/**
 * What the bike and rider forms share: a stored 0 is shown as an empty
 * field (`null`), an empty field is submitted as 0, the submitted values are
 * laid over the current record, and each field is checked by a zod rule of a
 * range and a precision.
 */
module FormValues {
  import opened Wrappers
  import opened JsMath

  /** `value === 0 ? null : value`: what a form field shows for a stored number. */
  function Display(x: real): (v: Option<real>)
    ensures v.None? <==> x == 0.0
    ensures v.Some? ==> v.value == x
  {
    if x == 0.0 then None else Some(x)
  }

  /** `value === null ? 0 : value`: what a submitted form field becomes. */
  function Submitted(v: Option<real>): (x: real)
    ensures v.None? ==> x == 0.0
    ensures v.Some? ==> x == v.value
  {
    match v
    case None => 0.0
    case Some(y) => y
  }

  /** Submitting what a field shows gives the number back, 0 included. */
  lemma SubmittedDisplay(x: real)
    ensures Submitted(Display(x)) == x
  {
  }

  /** Showing what was submitted gives the field back, except that a typed 0 shows as empty. */
  lemma DisplaySubmitted(v: Option<real>)
    ensures Display(Submitted(v)) == if v == Some(0.0) then None else v
  {
  }

  /** Field `k` of `{...current, ...values}`, with `null` turned into 0. */
  function Overlay<K>(values: map<K, Option<real>>, current: real, k: K): (x: real)
    ensures k !in values ==> x == current
    ensures k in values ==> x == Submitted(values[k])
  {
    if k in values then Submitted(values[k]) else current
  }

  /**
   * A zod number rule: the value lies in `[lo, hi]` and `scale` times the
   * value is whole (`.int()` is scale 1, "at most 2 decimal places" scale 100).
   */
  datatype Rule = Rule(lo: int, hi: int, scale: nat)

  /** The rule followed by `.nullable()`: an empty field always passes. */
  predicate Accepts(rule: Rule, v: Option<real>) {
    match v
    case None => true
    case Some(x) => rule.lo as real <= x <= rule.hi as real && IsInteger(x * rule.scale as real)
  }

  /** A whole number passes every precision. */
  lemma IntegerHasEveryPrecision(x: real, scale: nat)
    requires IsInteger(x)
    ensures IsInteger(x * scale as real)
  {
    var n := x.Floor;
    assert x * scale as real == (n * scale) as real;
    FloorOfInteger(n * scale);
  }

  /** A value a whole-number rule accepts is also a whole number of tenths. */
  lemma WholeRule(rule: Rule, x: real)
    requires rule.scale == 1 && Accepts(rule, Some(x))
    ensures IsInteger(x) && IsInteger(x * 10.0)
  {
    assert x * rule.scale as real == x;
    IntegerHasEveryPrecision(x, 10);
    assert x * 10 as real == x * 10.0;
  }
}
