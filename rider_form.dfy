/**
 * The rider form: its validation table, the values it starts from and what
 * it submits to the `rider` slice, in centimetres.
 */
module RiderForm {
  import opened Wrappers
  import opened JsMath
  import opened FixedPoint
  import opened FormValues
  import opened RiderSlice

  /** The `type` of each entry of `riderAttributes`. */
  function RiderRule(k: RiderKey): (r: Rule)
    ensures r.lo == 0
    ensures r.scale == if k == FootLength then 10 else 1
  {
    match k
    case InseamLength => Rule(0, 200, 1)
    case UpperLegLength => Rule(0, 100, 1)
    case FootLength => Rule(0, 100, 10)
    case ArmLength => Rule(0, 200, 1)
    case SpineLength => Rule(0, 200, 1)
  }

  /** The upper leg and the foot are limited to 100 cm, the other lengths to 200 cm. */
  lemma RiderCeilings(k: RiderKey)
    ensures RiderRule(k).hi == if k == UpperLegLength || k == FootLength then 100 else 200
  {
  }

  /** Every accepted length is a whole number of millimetres, which `setRider` stores as it is. */
  lemma AcceptedRiderExact(k: RiderKey, v: Option<real>)
    requires Accepts(RiderRule(k), v)
    ensures Exact(true, Submitted(v))
    ensures 0 <= Store(true, Submitted(v)) <= 2000
  {
    match v
    case None =>
      assert 0.0 * 10.0 == 0 as real;
      FloorOfInteger(0);
    case Some(x) =>
      if k != FootLength {
        WholeRule(RiderRule(k), x);
      } else {
        assert x * RiderRule(k).scale as real == x * 10.0;
      }
      assert 0.0 <= x * 10.0 <= 2000.0;
  }

  /** `defaultValues`: every field of the rider, with 0 shown as `null`. */
  function DefaultValues(rider: RiderState): (m: map<RiderKey, Option<real>>)
    ensures m.Keys == RiderFields
    ensures forall k | k in m :: (m[k].None? <==> rider.Get(k) == 0.0) && (m[k].Some? ==> m[k].value == rider.Get(k))
  {
    map k | k in RiderFields :: Display(rider.Get(k))
  }

  /** `onSubmit`: the submitted values, `null` as 0, laid over the rider the form shows. */
  function Submit(rider: RiderState, values: map<RiderKey, Option<real>>): (r: RiderState)
    ensures forall k: RiderKey | k !in values :: r.Get(k) == rider.Get(k)
    ensures forall k: RiderKey | k in values :: r.Get(k) == Submitted(values[k])
  {
    FromFunctionGet(k => Overlay(values, rider.Get(k), k));
    FromFunction(k => Overlay(values, rider.Get(k), k))
  }

  /** Submitting the untouched form gives back the rider it was filled from. */
  lemma SubmitDefaults(current: RiderState, rider: RiderState)
    ensures Submit(current, DefaultValues(rider)) == rider
  {
    var r := Submit(current, DefaultValues(rider));
    forall k: RiderKey ensures r.Get(k) == rider.Get(k) {
      AllFields(k);
      SubmittedDisplay(rider.Get(k));
    }
    Extensionality(r, rider);
  }

  /** One field of accepted values laid over what `selectRider` shows is stored without loss. */
  lemma SubmitFieldExact(s: RiderState, values: map<RiderKey, Option<real>>, k: RiderKey)
    requires IsStored(s)
    requires forall k | k in values :: Accepts(RiderRule(k), values[k])
    ensures Exact(true, Submit(SelectRider(s), values).Get(k))
  {
    if k in values {
      AcceptedRiderExact(k, values[k]);
    } else {
      assert SelectRider(s).Get(k) * 10.0 == s.Get(k);
    }
  }

  /**
   * The form round trip: whatever the form accepts, laid over what
   * `selectRider` shows of a store state, comes back from the store exactly.
   */
  lemma SubmitStoreSelect(s: RiderState, values: map<RiderKey, Option<real>>)
    requires IsStored(s)
    requires forall k | k in values :: Accepts(RiderRule(k), values[k])
    ensures var p := Submit(SelectRider(s), values); SelectRider(SetRiderState(p)) == p
  {
    var p := Submit(SelectRider(s), values);
    forall k: RiderKey ensures Exact(true, p.Get(k)) {
      SubmitFieldExact(s, values, k);
    }
    SelectAfterSetRider(p);
  }
}
