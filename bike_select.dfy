/**
 * The conversion of the geometry the extraction service returns into bike
 * states: every measured field becomes millimetres (or degrees), the nominal
 * wheel sizes become bead seat diameters, and each size of the chart becomes
 * one bike, in the order of the chart.
 */
module BikeSelect {
  import opened Wrappers
  import BikeSlice

  /** The `Unit` of a measured field. */
  datatype Unit = Cm | Mm | Deg

  /** A `BikeField`: a value and its unit, each possibly `null`. */
  datatype Field = Field(value: Option<real>, unit: Option<Unit>)

  /** `!field?.value`: no field, no value, or the value 0. */
  predicate Missing(f: Option<Field>) {
    f.None? || f.value.value.None? || f.value.value.value == 0.0
  }

  /** `convertValue`: 0 for a missing value, centimetres times ten, anything else as it is. */
  function ConvertValue(f: Option<Field>): (r: real)
    ensures Missing(f) ==> r == 0.0
    ensures !Missing(f) && f.value.unit == Some(Cm) ==> r == f.value.value.value * 10.0
    ensures !Missing(f) && f.value.unit != Some(Cm) ==> r == f.value.value.value
  {
    if Missing(f) then 0.0
    else match f.value.unit
      case Some(Cm) => f.value.value.value * 10.0
      case _ => f.value.value.value
  }

  /** A converted value is 0 exactly when the field is missing: no value is lost as 0. */
  lemma ConvertValueZero(f: Option<Field>)
    ensures ConvertValue(f) == 0.0 <==> Missing(f)
  {
  }

  /** Converting gives the same length whether the chart says 1 cm or 10 mm. */
  lemma ConvertValueUnits(x: real)
    ensures ConvertValue(Some(Field(Some(x), Some(Cm)))) == ConvertValue(Some(Field(Some(x * 10.0), Some(Mm))))
  {
  }

  /** The nominal wheel sizes with a bead seat diameter (ISO 5775), in inches or millimetres. */
  predicate NominalWheel(v: real) {
    v == 20.0 || v == 26.0 || v == 27.5 || v == 650.0 || v == 28.0 || v == 29.0 || v == 700.0
  }

  /** `convertWheelSize`: the bead seat diameter of a nominal wheel size, 0 for anything else. */
  function ConvertWheelSize(f: Option<Field>): (r: real)
    ensures r == 0.0 || r == 406.0 || r == 559.0 || r == 584.0 || r == 622.0
  {
    if Missing(f) then 0.0
    else
      var v := f.value.value.value;
      if v == 20.0 then 406.0
      else if v == 26.0 then 559.0
      else if v == 27.5 || v == 650.0 then 584.0
      else if v == 28.0 || v == 29.0 || v == 700.0 then 622.0
      else 0.0
  }

  /** A wheel diameter is found exactly when the value is a listed nominal size. */
  lemma ConvertWheelSizeFound(f: Option<Field>)
    ensures ConvertWheelSize(f) != 0.0 <==> !Missing(f) && NominalWheel(f.value.value.value)
  {
  }

  /** The unit of a wheel size plays no part. */
  lemma ConvertWheelSizeIgnoresUnit(v: Option<real>, u: Option<Unit>, w: Option<Unit>)
    ensures ConvertWheelSize(Some(Field(v, u))) == ConvertWheelSize(Some(Field(v, w)))
  {
  }

  /**
   * A `BikeSize` of the service: the size label and the measured fields,
   * keyed by the bike state field each one feeds; a field the object does not
   * have is `undefined` and reads as `null`.
   */
  datatype BikeSize = BikeSize(size: string, fields: map<BikeSlice.Key, Option<Field>>)

  /** The measured field feeding bike field `k`. */
  function FieldOf(b: BikeSize, k: BikeSlice.Key): Option<Field> {
    if k in b.fields then b.fields[k] else None
  }

  /** The two wheel diameters, which go through `convertWheelSize`. */
  predicate IsWheel(k: BikeSlice.Key) {
    k == BikeSlice.WheelFrontDiameter || k == BikeSlice.WheelRearDiameter
  }

  /** The bike state value of field `k`. */
  function ConvertField(b: BikeSize, k: BikeSlice.Key): real {
    if IsWheel(k) then ConvertWheelSize(FieldOf(b, k)) else ConvertValue(FieldOf(b, k))
  }

  /** A bike state with the size it was measured for. */
  datatype SizedBike = SizedBike(size: string, bike: BikeSlice.BikeState)

  /** The mapping callback of `transformBikeResults` for one size. */
  function TransformBike(b: BikeSize): SizedBike {
    SizedBike(b.size, BikeSlice.FromFunction(k => ConvertField(b, k)))
  }

  /** One size becomes one bike: the size is copied and every field converted. */
  lemma TransformBikeFields(b: BikeSize)
    ensures TransformBike(b).size == b.size
    ensures forall k: BikeSlice.Key :: TransformBike(b).bike.Get(k) == ConvertField(b, k)
  {
    BikeSlice.FromFunctionGet(k => ConvertField(b, k));
  }

  /** Whatever the service returns, both wheel diameters are bead seat diameters or 0. */
  lemma TransformWheelsListed(b: BikeSize)
    ensures var d := TransformBike(b).bike.wheelFrontDiameter;
      d == 0.0 || d == 406.0 || d == 559.0 || d == 584.0 || d == 622.0
    ensures var d := TransformBike(b).bike.wheelRearDiameter;
      d == 0.0 || d == 406.0 || d == 559.0 || d == 584.0 || d == 622.0
  {
    TransformBikeFields(b);
    assert TransformBike(b).bike.Get(BikeSlice.WheelFrontDiameter) == ConvertField(b, BikeSlice.WheelFrontDiameter);
    assert TransformBike(b).bike.Get(BikeSlice.WheelRearDiameter) == ConvertField(b, BikeSlice.WheelRearDiameter);
  }

  /** `Array.prototype.map`: `f` applied to every element, in order. */
  function Map<A, B>(f: A -> B, s: seq<A>): (r: seq<B>)
    ensures |r| == |s|
    decreases |s|
  {
    if |s| == 0 then [] else [f(s[0])] + Map(f, s[1..])
  }

  /** The `i`-th element of a mapped list is `f` of the `i`-th element. */
  lemma {:induction false} MapAt<A, B>(f: A -> B, s: seq<A>, i: nat)
    requires i < |s|
    ensures Map(f, s)[i] == f(s[i])
    decreases |s|
  {
    if i > 0 {
      MapAt(f, s[1..], i - 1);
    }
  }

  /** Mapping a joined list joins the mapped lists. */
  lemma {:induction false} MapConcat<A, B>(f: A -> B, a: seq<A>, b: seq<A>)
    ensures Map(f, a + b) == Map(f, a) + Map(f, b)
    decreases |a|
  {
    if |a| > 0 {
      assert (a + b)[1..] == a[1..] + b;
      assert (a + b)[0] == a[0];
      MapConcat(f, a[1..], b);
    } else {
      assert a + b == b;
    }
  }

  /** `transformBikeResults`: one bike per size, in the order of the chart. */
  function TransformBikeResults(result: seq<BikeSize>): (r: seq<SizedBike>)
    ensures |r| == |result|
  {
    Map(TransformBike, result)
  }

  /** The `i`-th bike is the `i`-th size converted, with its size label. */
  lemma TransformBikeResultsAt(result: seq<BikeSize>, i: nat)
    requires i < |result|
    ensures TransformBikeResults(result)[i] == TransformBike(result[i])
    ensures TransformBikeResults(result)[i].size == result[i].size
  {
    MapAt(TransformBike, result, i);
  }

  /** The transformation works size by size: transforming a joined list joins the results. */
  lemma TransformBikeResultsConcat(a: seq<BikeSize>, b: seq<BikeSize>)
    ensures TransformBikeResults(a + b) == TransformBikeResults(a) + TransformBikeResults(b)
  {
    MapConcat(TransformBike, a, b);
  }

  /** The longest text the text form accepts. */
  const MaxText: nat := 3000

  /** The text `FormSchema`: at least one and at most 3000 characters. */
  predicate TextAccepted(text: string) {
    1 <= |text| <= MaxText
  }
}
