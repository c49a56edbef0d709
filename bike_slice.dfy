/**
 * The `bike` Redux slice: a bike state of 28 numeric fields, a reducer that
 * stores lengths truncated to whole millimetres and three angles as whole
 * tenths of a degree, and selectors that give the state back in display units.
 */
module BikeSlice {
  import opened JsMath
  import opened FixedPoint

  /** The numeric fields of `BikeState`. */
  datatype Key =
    | Reach | Stack | HeadTube | HeadTubeAngle | ChainStay
    | ActualSeatTubeAngle | EffectiveSeatTubeAngle | SeatTube
    | BottomBracketDrop | FrontCenter | WheelBase | ForkAxleToCrown
    | ForkOffset | ForkTravel | ForkSag | CrankLength | CrankQFactor
    | Spacers | StemLength | StemAngle | SeatOffset
    | HandlebarWidth | HandlebarReach | HandlebarRise | TireFrontWidth
    | TireRearWidth | WheelFrontDiameter | WheelRearDiameter

  /** The property name of a field, as written in the TypeScript source. */
  function Name(k: Key): string {
    match k
    case Reach => "reach"
    case Stack => "stack"
    case HeadTube => "headTube"
    case HeadTubeAngle => "headTubeAngle"
    case ChainStay => "chainStay"
    case ActualSeatTubeAngle => "actualSeatTubeAngle"
    case EffectiveSeatTubeAngle => "effectiveSeatTubeAngle"
    case SeatTube => "seatTube"
    case BottomBracketDrop => "bottomBracketDrop"
    case FrontCenter => "frontCenter"
    case WheelBase => "wheelBase"
    case ForkAxleToCrown => "forkAxleToCrown"
    case ForkOffset => "forkOffset"
    case ForkTravel => "forkTravel"
    case ForkSag => "forkSag"
    case CrankLength => "crankLength"
    case CrankQFactor => "crankQFactor"
    case Spacers => "spacers"
    case StemLength => "stemLength"
    case StemAngle => "stemAngle"
    case SeatOffset => "seatOffset"
    case HandlebarWidth => "handlebarWidth"
    case HandlebarReach => "handlebarReach"
    case HandlebarRise => "handlebarRise"
    case TireFrontWidth => "tireFrontWidth"
    case TireRearWidth => "tireRearWidth"
    case WheelFrontDiameter => "wheelFrontDiameter"
    case WheelRearDiameter => "wheelRearDiameter"
  }

  /** The fields of `BikeState`, the keys of `bikeInitialState`. */
  const BikeFields: set<Key> := {
    Reach, Stack, HeadTube, HeadTubeAngle, ChainStay, ActualSeatTubeAngle,
    EffectiveSeatTubeAngle, SeatTube, BottomBracketDrop, FrontCenter, WheelBase,
    ForkAxleToCrown, ForkOffset, ForkTravel, ForkSag, CrankLength, CrankQFactor,
    Spacers, StemLength, StemAngle, SeatOffset, HandlebarWidth, HandlebarReach,
    HandlebarRise, TireFrontWidth, TireRearWidth, WheelFrontDiameter,
    WheelRearDiameter
  }

  /** Every key is a field of `BikeState`. */
  lemma AllFields(k: Key)
    ensures k in BikeFields
  {
  }

  /** The field set names every key. */
  lemma EveryKeyAField()
    ensures forall k: Key :: k in BikeFields
  {
    forall k: Key ensures k in BikeFields {
      AllFields(k);
    }
  }

  /** The `BikeState` interface: one JavaScript number per field. */
  datatype BikeState = BikeState(
    reach: real,
    stack: real,
    headTube: real,
    headTubeAngle: real,
    chainStay: real,
    actualSeatTubeAngle: real,
    effectiveSeatTubeAngle: real,
    seatTube: real,
    bottomBracketDrop: real,
    frontCenter: real,
    wheelBase: real,
    forkAxleToCrown: real,
    forkOffset: real,
    forkTravel: real,
    forkSag: real,
    crankLength: real,
    crankQFactor: real,
    spacers: real,
    stemLength: real,
    stemAngle: real,
    seatOffset: real,
    handlebarWidth: real,
    handlebarReach: real,
    handlebarRise: real,
    tireFrontWidth: real,
    tireRearWidth: real,
    wheelFrontDiameter: real,
    wheelRearDiameter: real
  )
  {
    /** The value of field `k`, as `state[k]` reads it. */
    function Get(k: Key): real {
      match k
      case Reach => reach
      case Stack => stack
      case HeadTube => headTube
      case HeadTubeAngle => headTubeAngle
      case ChainStay => chainStay
      case ActualSeatTubeAngle => actualSeatTubeAngle
      case EffectiveSeatTubeAngle => effectiveSeatTubeAngle
      case SeatTube => seatTube
      case BottomBracketDrop => bottomBracketDrop
      case FrontCenter => frontCenter
      case WheelBase => wheelBase
      case ForkAxleToCrown => forkAxleToCrown
      case ForkOffset => forkOffset
      case ForkTravel => forkTravel
      case ForkSag => forkSag
      case CrankLength => crankLength
      case CrankQFactor => crankQFactor
      case Spacers => spacers
      case StemLength => stemLength
      case StemAngle => stemAngle
      case SeatOffset => seatOffset
      case HandlebarWidth => handlebarWidth
      case HandlebarReach => handlebarReach
      case HandlebarRise => handlebarRise
      case TireFrontWidth => tireFrontWidth
      case TireRearWidth => tireRearWidth
      case WheelFrontDiameter => wheelFrontDiameter
      case WheelRearDiameter => wheelRearDiameter
    }
  }

  /** A record of numeric fields, as a JavaScript object keyed by field. */
  type Record = map<Key, real>

  /** The bike state as a JavaScript object with exactly its own fields. */
  function ToRecord(b: BikeState): (r: Record)
    ensures r.Keys == BikeFields
    ensures forall k: Key :: k in r
    ensures forall k :: k in r ==> r[k] == b.Get(k)
  {
    EveryKeyAField();
    map k | k in BikeFields :: b.Get(k)
  }

  /** The record loses nothing: rebuilding a state from its fields gives the state back. */
  lemma RecordRoundTrip(b: BikeState)
    ensures FromFunction(k => ToRecord(b)[k]) == b
  {
    var f := k => ToRecord(b)[k];
    FromFunctionGet(f);
    Extensionality(FromFunction(f), b);
  }

  /** The three angles the store keeps in tenths of a degree. */
  predicate InTenths(k: Key) {
    k == HeadTubeAngle || k == ActualSeatTubeAngle || k == EffectiveSeatTubeAngle
  }

  /** The bike state whose field `k` holds `f(k)`, as `Object.fromEntries` builds it. */
  function FromFunction(f: Key -> real): BikeState {
    BikeState(
      f(Reach),
      f(Stack),
      f(HeadTube),
      f(HeadTubeAngle),
      f(ChainStay),
      f(ActualSeatTubeAngle),
      f(EffectiveSeatTubeAngle),
      f(SeatTube),
      f(BottomBracketDrop),
      f(FrontCenter),
      f(WheelBase),
      f(ForkAxleToCrown),
      f(ForkOffset),
      f(ForkTravel),
      f(ForkSag),
      f(CrankLength),
      f(CrankQFactor),
      f(Spacers),
      f(StemLength),
      f(StemAngle),
      f(SeatOffset),
      f(HandlebarWidth),
      f(HandlebarReach),
      f(HandlebarRise),
      f(TireFrontWidth),
      f(TireRearWidth),
      f(WheelFrontDiameter),
      f(WheelRearDiameter))
  }

  /** Every field of `FromFunction(f)` holds what `f` gives for it. */
  lemma FromFunctionGet(f: Key -> real)
    ensures forall k: Key :: FromFunction(f).Get(k) == f(k)
  {
  }

  /** `bikeInitialState`: every field 0. */
  const InitialState: BikeState := BikeState(
    0.0, 0.0, 0.0, 0.0, 0.0, 0.0, 0.0,
    0.0, 0.0, 0.0, 0.0, 0.0, 0.0, 0.0,
    0.0, 0.0, 0.0, 0.0, 0.0, 0.0, 0.0,
    0.0, 0.0, 0.0, 0.0, 0.0, 0.0, 0.0
  )

  /** Every field of the initial state is 0. */
  lemma InitialStateIsZero()
    ensures forall k: Key :: InitialState.Get(k) == 0.0
  {
  }

  /** Every field holds a whole number, as every store state does. */
  predicate IsStored(s: BikeState) {
    forall k: Key :: IsInteger(s.Get(k))
  }

  /** The state `setBike(p)` leaves; it depends on the payload alone. */
  function SetBikeState(p: BikeState): BikeState {
    BikeState(
      Trunc(p.reach) as real,
      Trunc(p.stack) as real,
      Trunc(p.headTube) as real,
      Trunc(p.headTubeAngle * 10.0) as real,
      Trunc(p.chainStay) as real,
      Trunc(p.actualSeatTubeAngle * 10.0) as real,
      Trunc(p.effectiveSeatTubeAngle * 10.0) as real,
      Trunc(p.seatTube) as real,
      Trunc(p.bottomBracketDrop) as real,
      Trunc(p.frontCenter) as real,
      Trunc(p.wheelBase) as real,
      Trunc(p.forkAxleToCrown) as real,
      Trunc(p.forkOffset) as real,
      Trunc(p.forkTravel) as real,
      Trunc(p.forkSag) as real,
      Trunc(p.crankLength) as real,
      Trunc(p.crankQFactor) as real,
      Trunc(p.spacers) as real,
      Trunc(p.stemLength) as real,
      Trunc(p.stemAngle) as real,
      Trunc(p.seatOffset) as real,
      Trunc(p.handlebarWidth) as real,
      Trunc(p.handlebarReach) as real,
      Trunc(p.handlebarRise) as real,
      Trunc(p.tireFrontWidth) as real,
      Trunc(p.tireRearWidth) as real,
      Trunc(p.wheelFrontDiameter) as real,
      Trunc(p.wheelRearDiameter) as real
    )
  }

  /**
   * After `setBike(p)` every length field holds `Math.trunc` of the payload's
   * value and every angle holds `Math.trunc` of ten times the payload's value.
   */
  lemma SetBikeFields(p: BikeState)
    ensures forall k: Key :: SetBikeState(p).Get(k) == Store(InTenths(k), p.Get(k)) as real
  {
  }

  /** Whatever the payload, the state `setBike` leaves holds whole numbers only. */
  lemma SetBikeIsStored(p: BikeState)
    ensures IsStored(SetBikeState(p))
  {
    SetBikeFields(p);
    forall k: Key ensures IsInteger(SetBikeState(p).Get(k)) {
      FloorOfInteger(Store(InTenths(k), p.Get(k)));
    }
  }

  /** `selectBike`: the stored state with exactly the three angles divided by 10. */
  function SelectBike(state: BikeState): (r: BikeState)
    ensures forall k: Key :: r.Get(k) == Show(InTenths(k), state.Get(k))
  {
    state.(headTubeAngle := state.headTubeAngle / 10.0,
           actualSeatTubeAngle := state.actualSeatTubeAngle / 10.0,
           effectiveSeatTubeAngle := state.effectiveSeatTubeAngle / 10.0)
  }

  /** A payload the store holds without loss. */
  predicate StoresExactly(p: BikeState) {
    forall k: Key :: Exact(InTenths(k), p.Get(k))
  }

  /** Two bike states are equal when every field is. */
  lemma Extensionality(a: BikeState, b: BikeState)
    requires forall k: Key :: a.Get(k) == b.Get(k)
    ensures a == b
  {
    assert a.reach == b.reach by { assert a.Get(Reach) == b.Get(Reach); }
    assert a.stack == b.stack by { assert a.Get(Stack) == b.Get(Stack); }
    assert a.headTube == b.headTube by { assert a.Get(HeadTube) == b.Get(HeadTube); }
    assert a.headTubeAngle == b.headTubeAngle by { assert a.Get(HeadTubeAngle) == b.Get(HeadTubeAngle); }
    assert a.chainStay == b.chainStay by { assert a.Get(ChainStay) == b.Get(ChainStay); }
    assert a.actualSeatTubeAngle == b.actualSeatTubeAngle by { assert a.Get(ActualSeatTubeAngle) == b.Get(ActualSeatTubeAngle); }
    assert a.effectiveSeatTubeAngle == b.effectiveSeatTubeAngle by { assert a.Get(EffectiveSeatTubeAngle) == b.Get(EffectiveSeatTubeAngle); }
    assert a.seatTube == b.seatTube by { assert a.Get(SeatTube) == b.Get(SeatTube); }
    assert a.bottomBracketDrop == b.bottomBracketDrop by { assert a.Get(BottomBracketDrop) == b.Get(BottomBracketDrop); }
    assert a.frontCenter == b.frontCenter by { assert a.Get(FrontCenter) == b.Get(FrontCenter); }
    assert a.wheelBase == b.wheelBase by { assert a.Get(WheelBase) == b.Get(WheelBase); }
    assert a.forkAxleToCrown == b.forkAxleToCrown by { assert a.Get(ForkAxleToCrown) == b.Get(ForkAxleToCrown); }
    assert a.forkOffset == b.forkOffset by { assert a.Get(ForkOffset) == b.Get(ForkOffset); }
    assert a.forkTravel == b.forkTravel by { assert a.Get(ForkTravel) == b.Get(ForkTravel); }
    assert a.forkSag == b.forkSag by { assert a.Get(ForkSag) == b.Get(ForkSag); }
    assert a.crankLength == b.crankLength by { assert a.Get(CrankLength) == b.Get(CrankLength); }
    assert a.crankQFactor == b.crankQFactor by { assert a.Get(CrankQFactor) == b.Get(CrankQFactor); }
    assert a.spacers == b.spacers by { assert a.Get(Spacers) == b.Get(Spacers); }
    assert a.stemLength == b.stemLength by { assert a.Get(StemLength) == b.Get(StemLength); }
    assert a.stemAngle == b.stemAngle by { assert a.Get(StemAngle) == b.Get(StemAngle); }
    assert a.seatOffset == b.seatOffset by { assert a.Get(SeatOffset) == b.Get(SeatOffset); }
    assert a.handlebarWidth == b.handlebarWidth by { assert a.Get(HandlebarWidth) == b.Get(HandlebarWidth); }
    assert a.handlebarReach == b.handlebarReach by { assert a.Get(HandlebarReach) == b.Get(HandlebarReach); }
    assert a.handlebarRise == b.handlebarRise by { assert a.Get(HandlebarRise) == b.Get(HandlebarRise); }
    assert a.tireFrontWidth == b.tireFrontWidth by { assert a.Get(TireFrontWidth) == b.Get(TireFrontWidth); }
    assert a.tireRearWidth == b.tireRearWidth by { assert a.Get(TireRearWidth) == b.Get(TireRearWidth); }
    assert a.wheelFrontDiameter == b.wheelFrontDiameter by { assert a.Get(WheelFrontDiameter) == b.Get(WheelFrontDiameter); }
    assert a.wheelRearDiameter == b.wheelRearDiameter by { assert a.Get(WheelRearDiameter) == b.Get(WheelRearDiameter); }
  }

  /**
   * Showing a stored payload gives the payload back exactly when its lengths
   * are whole and its angles have at most one decimal.
   */
  lemma SelectAfterSet(p: BikeState)
    ensures SelectBike(SetBikeState(p)) == p <==> StoresExactly(p)
  {
    var r := SelectBike(SetBikeState(p));
    SetBikeFields(p);
    forall k: Key ensures r.Get(k) == p.Get(k) <==> Exact(InTenths(k), p.Get(k)) {
      ShowStore(InTenths(k), p.Get(k));
    }
    if StoresExactly(p) {
      Extensionality(r, p);
    }
  }

  /** What `selectBike` shows of a store state is stored again without loss. */
  lemma SelectedStoresExactly(s: BikeState)
    requires IsStored(s)
    ensures StoresExactly(SelectBike(s))
  {
    forall k: Key ensures Exact(InTenths(k), SelectBike(s).Get(k)) {
      if InTenths(k) {
        assert SelectBike(s).Get(k) * 10.0 == s.Get(k);
      }
    }
  }

  /** Storing what `selectBike` shows leaves a store state as it was. */
  lemma SetAfterSelect(s: BikeState)
    requires IsStored(s)
    ensures SetBikeState(SelectBike(s)) == s
  {
    var t := SetBikeState(SelectBike(s));
    SetBikeFields(SelectBike(s));
    forall k: Key ensures t.Get(k) == s.Get(k) {
      StoreShow(InTenths(k), s.Get(k).Floor);
    }
    Extensionality(t, s);
  }

  /**
   * The Redux state of the `bike` slice. Immer lets the reducer assign the
   * draft's fields; the state is kept as one record that the reducer updates.
   */
  class BikeStore {
    var state: BikeState

    /** The slice invariant: every stored value is a whole number. */
    predicate Valid()
      reads this
    {
      IsStored(state)
    }

    /** `selectRawBike`: the stored state as it is. */
    function SelectRawBike(): (r: BikeState)
      reads this
      ensures r == state
      ensures Valid() ==> IsStored(r)
    {
      state
    }

    /** The slice starts from `bikeInitialState`. */
    constructor ()
      ensures state == InitialState
      ensures Valid()
    {
      state := InitialState;
      FloorOfInteger(0);
    }

    /** The `setBike` reducer: overwrites every field from the payload. */
    method SetBike(p: BikeState)
      modifies this
      ensures state == SetBikeState(p)
      ensures Valid()
    {
      state := state.(
        reach := Trunc(p.reach) as real,
        stack := Trunc(p.stack) as real,
        headTube := Trunc(p.headTube) as real,
        headTubeAngle := Trunc(p.headTubeAngle * 10.0) as real,
        chainStay := Trunc(p.chainStay) as real,
        actualSeatTubeAngle := Trunc(p.actualSeatTubeAngle * 10.0) as real,
        effectiveSeatTubeAngle := Trunc(p.effectiveSeatTubeAngle * 10.0) as real,
        seatTube := Trunc(p.seatTube) as real,
        bottomBracketDrop := Trunc(p.bottomBracketDrop) as real,
        frontCenter := Trunc(p.frontCenter) as real,
        wheelBase := Trunc(p.wheelBase) as real,
        forkAxleToCrown := Trunc(p.forkAxleToCrown) as real,
        forkOffset := Trunc(p.forkOffset) as real,
        forkTravel := Trunc(p.forkTravel) as real,
        forkSag := Trunc(p.forkSag) as real,
        crankLength := Trunc(p.crankLength) as real,
        crankQFactor := Trunc(p.crankQFactor) as real,
        spacers := Trunc(p.spacers) as real,
        stemLength := Trunc(p.stemLength) as real,
        stemAngle := Trunc(p.stemAngle) as real,
        seatOffset := Trunc(p.seatOffset) as real,
        handlebarWidth := Trunc(p.handlebarWidth) as real,
        handlebarReach := Trunc(p.handlebarReach) as real,
        handlebarRise := Trunc(p.handlebarRise) as real,
        tireFrontWidth := Trunc(p.tireFrontWidth) as real,
        tireRearWidth := Trunc(p.tireRearWidth) as real,
        wheelFrontDiameter := Trunc(p.wheelFrontDiameter) as real,
        wheelRearDiameter := Trunc(p.wheelRearDiameter) as real
      );
      SetBikeIsStored(p);
    }
  }
}
