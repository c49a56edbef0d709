/**
 * The `rider` Redux slice: five body measurements entered in centimetres and
 * stored as whole millimetres, given back in centimetres by the selector.
 */
module RiderSlice {
  import opened JsMath
  import opened FixedPoint

  /** The fields of `RiderState`. */
  datatype RiderKey = InseamLength | UpperLegLength | FootLength | ArmLength | SpineLength

  /** The property name of a field, as written in the TypeScript source. */
  function Name(k: RiderKey): string {
    match k
    case InseamLength => "inseamLength"
    case UpperLegLength => "upperLegLength"
    case FootLength => "footLength"
    case ArmLength => "armLength"
    case SpineLength => "spineLength"
  }

  /** The fields of the rider state. */
  const RiderFields: set<RiderKey> := {InseamLength, UpperLegLength, FootLength, ArmLength, SpineLength}

  /** Every key is a field of `RiderState`. */
  lemma AllFields(k: RiderKey)
    ensures k in RiderFields
  {
  }

  /** The `RiderState` interface: one JavaScript number per field. */
  datatype RiderState = RiderState(
    inseamLength: real,
    upperLegLength: real,
    footLength: real,
    armLength: real,
    spineLength: real
  )
  {
    /** The value of field `k`. */
    function Get(k: RiderKey): real {
      match k
      case InseamLength => inseamLength
      case UpperLegLength => upperLegLength
      case FootLength => footLength
      case ArmLength => armLength
      case SpineLength => spineLength
    }
  }

  /** The rider state whose field `k` holds `f(k)`, as `Object.fromEntries` builds it. */
  function FromFunction(f: RiderKey -> real): RiderState {
    RiderState(
      f(InseamLength),
      f(UpperLegLength),
      f(FootLength),
      f(ArmLength),
      f(SpineLength))
  }

  /** Every field of `FromFunction(f)` holds what `f` gives for it. */
  lemma FromFunctionGet(f: RiderKey -> real)
    ensures forall k: RiderKey :: FromFunction(f).Get(k) == f(k)
  {
  }

  /** The slice's `initialState`: every field 0. */
  const InitialState: RiderState := RiderState(0.0, 0.0, 0.0, 0.0, 0.0)

  /** Every field of the initial state is 0. */
  lemma InitialStateIsZero()
    ensures forall k: RiderKey :: InitialState.Get(k) == 0.0
  {
  }

  /** Every field holds a whole number of millimetres. */
  predicate IsStored(s: RiderState) {
    forall k: RiderKey :: IsInteger(s.Get(k))
  }

  /** The state `setRider(p)` leaves; it depends on the payload alone. */
  function SetRiderState(p: RiderState): RiderState {
    RiderState(
      Trunc(p.inseamLength * 10.0) as real,
      Trunc(p.upperLegLength * 10.0) as real,
      Trunc(p.footLength * 10.0) as real,
      Trunc(p.armLength * 10.0) as real,
      Trunc(p.spineLength * 10.0) as real)
  }

  /** After `setRider(p)` every field holds the payload's centimetres as whole millimetres. */
  lemma SetRiderFields(p: RiderState)
    ensures forall k: RiderKey :: SetRiderState(p).Get(k) == Store(true, p.Get(k)) as real
  {
  }

  /** Whatever the payload, `setRider` leaves whole millimetres only. */
  lemma SetRiderIsStored(p: RiderState)
    ensures IsStored(SetRiderState(p))
  {
    SetRiderFields(p);
    forall k: RiderKey ensures IsInteger(SetRiderState(p).Get(k)) {
      FloorOfInteger(Store(true, p.Get(k)));
    }
  }

  /** `selectRider`: a fresh record with every stored field divided by 10. */
  function SelectRider(state: RiderState): (r: RiderState)
    ensures forall k: RiderKey :: r.Get(k) == Show(true, state.Get(k))
  {
    RiderState(
      state.inseamLength / 10.0,
      state.upperLegLength / 10.0,
      state.footLength / 10.0,
      state.armLength / 10.0,
      state.spineLength / 10.0)
  }

  /** Two rider states are equal when every field is. */
  lemma Extensionality(a: RiderState, b: RiderState)
    requires forall k: RiderKey :: a.Get(k) == b.Get(k)
    ensures a == b
  {
    assert a.inseamLength == b.inseamLength by { assert a.Get(InseamLength) == b.Get(InseamLength); }
    assert a.upperLegLength == b.upperLegLength by { assert a.Get(UpperLegLength) == b.Get(UpperLegLength); }
    assert a.footLength == b.footLength by { assert a.Get(FootLength) == b.Get(FootLength); }
    assert a.armLength == b.armLength by { assert a.Get(ArmLength) == b.Get(ArmLength); }
    assert a.spineLength == b.spineLength by { assert a.Get(SpineLength) == b.Get(SpineLength); }
  }

  /**
   * Showing a stored rider gives the input back exactly when every
   * measurement has at most one decimal (a whole number of millimetres).
   */
  lemma SelectAfterSetRider(p: RiderState)
    ensures SelectRider(SetRiderState(p)) == p <==> forall k: RiderKey :: Exact(true, p.Get(k))
  {
    var r := SelectRider(SetRiderState(p));
    SetRiderFields(p);
    forall k: RiderKey ensures r.Get(k) == p.Get(k) <==> Exact(true, p.Get(k)) {
      ShowStore(true, p.Get(k));
    }
    if forall k: RiderKey :: Exact(true, p.Get(k)) {
      Extensionality(r, p);
    }
  }

  /** Storing what `selectRider` shows leaves a store state as it was. */
  lemma SetAfterSelectRider(s: RiderState)
    requires IsStored(s)
    ensures SetRiderState(SelectRider(s)) == s
  {
    var t := SetRiderState(SelectRider(s));
    SetRiderFields(SelectRider(s));
    forall k: RiderKey ensures t.Get(k) == s.Get(k) {
      StoreShow(true, s.Get(k).Floor);
    }
    Extensionality(t, s);
  }

  /** The Redux state of the `rider` slice, kept as one record. */
  class RiderStore {
    var state: RiderState

    /** The slice invariant: whole millimetres only. */
    predicate Valid()
      reads this
    {
      IsStored(state)
    }

    /** The slice starts from `initialState`. */
    constructor ()
      ensures state == InitialState
      ensures Valid()
    {
      state := InitialState;
      FloorOfInteger(0);
    }

    /** The `setRider` reducer: converts every field from centimetres to millimetres. */
    method SetRider(p: RiderState)
      modifies this
      ensures state == SetRiderState(p)
      ensures Valid()
    {
      state := state.(
        inseamLength := Trunc(p.inseamLength * 10.0) as real,
        upperLegLength := Trunc(p.upperLegLength * 10.0) as real,
        footLength := Trunc(p.footLength * 10.0) as real,
        armLength := Trunc(p.armLength * 10.0) as real,
        spineLength := Trunc(p.spineLength * 10.0) as real);
      SetRiderIsStored(p);
    }
  }
}
