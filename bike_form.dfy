/**
 * The bike form: its validation table, the values it starts from, what it
 * submits to the `bike` slice and what "clear" sends. The form only shows
 * what `selectBike` gives back and only sends through `setBike`.
 */
module BikeForm {
  import opened Wrappers
  import opened JsMath
  import opened FixedPoint
  import opened FormValues
  import opened BikeSlice

  /** The `type` of each entry of `bikeAttributes`. */
  function BikeRule(k: Key): (r: Rule)
    ensures r.scale == if InTenths(k) then 100 else 1
    ensures r.lo <= 0 <= r.hi
  {
    match k
    case Stack => Rule(0, 1000, 1)
    case Reach => Rule(0, 1000, 1)
    case HeadTube => Rule(0, 1000, 1)
    case HeadTubeAngle => Rule(0, 89, 100)
    case ChainStay => Rule(0, 1000, 1)
    case ActualSeatTubeAngle => Rule(0, 89, 100)
    case EffectiveSeatTubeAngle => Rule(0, 89, 100)
    case SeatTube => Rule(0, 1000, 1)
    case BottomBracketDrop => Rule(0, 1000, 1)
    case FrontCenter => Rule(0, 1000, 1)
    case WheelBase => Rule(0, 2000, 1)
    case ForkAxleToCrown => Rule(0, 1000, 1)
    case ForkOffset => Rule(0, 100, 1)
    case ForkTravel => Rule(0, 300, 1)
    case ForkSag => Rule(0, 100, 1)
    case CrankLength => Rule(0, 300, 1)
    case CrankQFactor => Rule(0, 300, 1)
    case Spacers => Rule(0, 1000, 1)
    case StemLength => Rule(0, 200, 1)
    case StemAngle => Rule(-89, 89, 1)
    case SeatOffset => Rule(0, 100, 1)
    case HandlebarWidth => Rule(0, 1000, 1)
    case HandlebarReach => Rule(0, 300, 1)
    case HandlebarRise => Rule(-100, 100, 1)
    case TireFrontWidth => Rule(0, 200, 1)
    case TireRearWidth => Rule(0, 200, 1)
    case WheelFrontDiameter => Rule(0, 1000, 1)
    case WheelRearDiameter => Rule(0, 1000, 1)
  }

  /** Only the stem angle and the handlebar rise may be negative. */
  lemma OnlyTwoSigned(k: Key)
    ensures BikeRule(k).lo < 0 <==> k == StemAngle || k == HandlebarRise
  {
  }

  /** Every field refuses anything above 2000, and only the wheelbase goes past 1000. */
  lemma RuleCeilings(k: Key)
    ensures BikeRule(k).hi <= 2000
    ensures BikeRule(k).hi > 1000 <==> k == WheelBase
  {
  }

  /** The form accepts an empty field and a 0 everywhere, so a cleared bike passes. */
  lemma ZeroAccepted(k: Key)
    ensures Accepts(BikeRule(k), None)
    ensures Accepts(BikeRule(k), Some(0.0))
  {
    assert 0.0 * BikeRule(k).scale as real == 0 as real;
    FloorOfInteger(0);
  }

  /** An accepted length is a whole number, which `setBike` stores as it is. */
  lemma AcceptedLengthStored(k: Key, x: real)
    requires !InTenths(k) && Accepts(BikeRule(k), Some(x))
    ensures Store(false, x) as real == x
  {
    assert x * 1.0 == x;
    ShowStore(false, x);
  }

  /** An accepted value is stored within the rule's range, an angle within 0 and 890 tenths. */
  lemma AcceptedStoredInRange(k: Key, x: real)
    requires Accepts(BikeRule(k), Some(x))
    ensures var n := Store(InTenths(k), x);
      if InTenths(k) then 0 <= n <= 890 else BikeRule(k).lo <= n <= BikeRule(k).hi
  {
    StoreError(InTenths(k), x);
    if !InTenths(k) {
      AcceptedLengthStored(k, x);
    }
  }

  /**
   * An angle with two decimals passes the form, but `setBike` keeps tenths
   * only: 73.25 degrees comes back from `selectBike` as 73.2.
   */
  lemma AngleHundredthLost()
    ensures Accepts(BikeRule(HeadTubeAngle), Some(73.25))
    ensures Store(true, 73.25) == 732
    ensures Show(true, Store(true, 73.25) as real) == 73.2
  {
    assert 73.25 * 100.0 == 7325 as real;
    FloorOfInteger(7325);
    assert 73.25 * 10.0 == 732.5;
    assert (732.5).Floor == 732;
  }

  /** The rule table with the angle precision the store keeps: one decimal instead of two. */
  function TenthsRule(k: Key): (r: Rule)
    ensures r.lo == BikeRule(k).lo && r.hi == BikeRule(k).hi
    ensures r.scale == if InTenths(k) then 10 else 1
  {
    var b := BikeRule(k);
    if InTenths(k) then b.(scale := 10) else b
  }

  /** The one-decimal rule refuses the angle that the table accepts and the store cuts. */
  lemma TenthsRuleRefusesHundredths()
    ensures !Accepts(TenthsRule(HeadTubeAngle), Some(73.25))
  {
    assert 73.25 * 10.0 == 732.5;
    assert (732.5).Floor == 732;
  }

  /** A whole number of tenths is a whole number of hundredths. */
  lemma TenthsAreHundredths(x: real)
    requires IsInteger(x * 10.0)
    ensures IsInteger(x * 100.0)
  {
    var n := (x * 10.0).Floor;
    assert x * 100.0 == (n * 10) as real;
    FloorOfInteger(n * 10);
  }

  /** A value the one-decimal rule accepts passes the table as written and has at most one decimal. */
  lemma TenthsAccepted(k: Key, v: Option<real>)
    requires Accepts(TenthsRule(k), v)
    ensures Accepts(BikeRule(k), v)
    ensures InTenths(k) && v.Some? ==> IsInteger(v.value * 10.0)
  {
    if v.Some? && InTenths(k) {
      var x := v.value;
      var r := TenthsRule(k);
      assert r.scale == 10 && v == Some(x);
      assert IsInteger(x * r.scale as real);
      assert x * r.scale as real == x * 10.0;
      TenthsAreHundredths(x);
      assert x * BikeRule(k).scale as real == x * 100.0;
    }
  }

  /**
   * With angles checked at one decimal, the form round trip holds for every
   * accepted submission, with no condition beyond the rules.
   */
  lemma TenthsRuleRoundTrip(s: BikeState, values: map<Key, Option<real>>)
    requires IsStored(s)
    requires forall k | k in values :: Accepts(TenthsRule(k), values[k])
    ensures var p := Submit(SelectBike(s), values); SelectBike(SetBikeState(p)) == p
  {
    forall k | k in values
      ensures Accepts(BikeRule(k), values[k])
      ensures InTenths(k) && values[k].Some? ==> IsInteger(values[k].value * 10.0)
    {
      TenthsAccepted(k, values[k]);
    }
    SubmitStoreSelect(s, values);
  }

  /** `defaultValues`: every field of the bike, with 0 shown as `null`. */
  function DefaultValues(bike: BikeState): (m: map<Key, Option<real>>)
    ensures m.Keys == BikeFields
    ensures forall k | k in m :: (m[k].None? <==> bike.Get(k) == 0.0) && (m[k].Some? ==> m[k].value == bike.Get(k))
  {
    map k | k in BikeFields :: Display(bike.Get(k))
  }

  /** `onSubmit`: the submitted values, `null` as 0, laid over the bike the form shows. */
  function Submit(bike: BikeState, values: map<Key, Option<real>>): (r: BikeState)
    ensures forall k: Key | k !in values :: r.Get(k) == bike.Get(k)
    ensures forall k: Key | k in values :: r.Get(k) == Submitted(values[k])
  {
    FromFunctionGet(k => Overlay(values, bike.Get(k), k));
    FromFunction(k => Overlay(values, bike.Get(k), k))
  }

  /** Submitting the untouched form gives back the bike it was filled from, whatever it is laid over. */
  lemma SubmitDefaults(current: BikeState, bike: BikeState)
    ensures Submit(current, DefaultValues(bike)) == bike
  {
    var r := Submit(current, DefaultValues(bike));
    forall k: Key ensures r.Get(k) == bike.Get(k) {
      AllFields(k);
      SubmittedDisplay(bike.Get(k));
    }
    Extensionality(r, bike);
  }

  /** `handleClear`: every field of the bike set to 0. */
  function Clear(bike: BikeState): (r: BikeState)
    ensures r == InitialState
  {
    FromFunctionGet(k => 0.0);
    InitialStateIsZero();
    Extensionality(FromFunction(k => 0.0), InitialState);
    FromFunction(k => 0.0)
  }

  /** Clearing sends the slice back to its initial state. */
  lemma ClearStoresInitial(bike: BikeState)
    ensures SetBikeState(Clear(bike)) == InitialState
  {
    var z := SetBikeState(InitialState);
    SetBikeFields(InitialState);
    InitialStateIsZero();
    forall k: Key ensures z.Get(k) == InitialState.Get(k) {
      assert InitialState.Get(k) * 10.0 == 0.0;
      FloorOfInteger(0);
    }
    Extensionality(z, InitialState);
  }

  /** A submitted field that passes its rule, angles with at most one decimal, is stored without loss. */
  lemma SubmittedExact(k: Key, v: Option<real>)
    requires Accepts(BikeRule(k), v)
    requires InTenths(k) && v.Some? ==> IsInteger(v.value * 10.0)
    ensures Exact(InTenths(k), Submitted(v))
  {
    match v
    case None =>
      assert 0.0 * 10.0 == 0 as real;
      FloorOfInteger(0);
    case Some(x) =>
      if !InTenths(k) {
        assert x * 1.0 == x;
      }
  }

  /** One field of accepted values laid over what `selectBike` shows is stored without loss. */
  lemma SubmitFieldExact(s: BikeState, values: map<Key, Option<real>>, k: Key)
    requires IsStored(s)
    requires forall k | k in values :: Accepts(BikeRule(k), values[k])
    requires forall k | k in values && InTenths(k) && values[k].Some? :: IsInteger(values[k].value * 10.0)
    ensures Exact(InTenths(k), Submit(SelectBike(s), values).Get(k))
  {
    if k in values {
      SubmittedExact(k, values[k]);
    } else {
      SelectedStoresExactly(s);
      assert Exact(InTenths(k), SelectBike(s).Get(k));
    }
  }

  /** Accepted values laid over what `selectBike` shows are all stored without loss. */
  lemma SubmitStoresExactly(s: BikeState, values: map<Key, Option<real>>)
    requires IsStored(s)
    requires forall k | k in values :: Accepts(BikeRule(k), values[k])
    requires forall k | k in values && InTenths(k) && values[k].Some? :: IsInteger(values[k].value * 10.0)
    ensures StoresExactly(Submit(SelectBike(s), values))
  {
    forall k: Key ensures Exact(InTenths(k), Submit(SelectBike(s), values).Get(k)) {
      SubmitFieldExact(s, values, k);
    }
  }

  /**
   * The form round trip: starting from what `selectBike` shows of a store
   * state, submitting accepted values whose angles have at most one decimal
   * and selecting again shows exactly what was submitted.
   */
  lemma SubmitStoreSelect(s: BikeState, values: map<Key, Option<real>>)
    requires IsStored(s)
    requires forall k | k in values :: Accepts(BikeRule(k), values[k])
    requires forall k | k in values && InTenths(k) && values[k].Some? :: IsInteger(values[k].value * 10.0)
    ensures var p := Submit(SelectBike(s), values); SelectBike(SetBikeState(p)) == p
  {
    SubmitStoresExactly(s, values);
    SelectAfterSet(Submit(SelectBike(s), values));
  }
}
