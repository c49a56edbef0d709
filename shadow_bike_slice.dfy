/**
 * The `shadowBike` Redux slice: a second bike drawn behind the first for
 * comparison. Its state has no `forkSag` and has a `stemSteererHeight`, and
 * its reducer writes every field except `frontCenter`.
 */
module ShadowBikeSlice {
  import opened JsMath
  import opened FixedPoint

  /** The numeric fields of the shadow bike state. */
  datatype ShadowKey =
    | Reach | Stack | HeadTube | HeadTubeAngle | ChainStay | ActualSeatTubeAngle
    | EffectiveSeatTubeAngle | SeatTube | BottomBracketDrop | FrontCenter | WheelBase | ForkAxleToCrown
    | ForkOffset | ForkTravel | CrankLength | CrankQFactor | Spacers | StemLength
    | StemAngle | StemSteererHeight | SeatOffset | HandlebarWidth | HandlebarReach | HandlebarRise
    | TireFrontWidth | TireRearWidth | WheelFrontDiameter | WheelRearDiameter

  /** The shadow bike state (and the payload the reducer destructures). */
  datatype ShadowBikeState = ShadowBikeState(
    reach: real,
    stack: real,
    headTube: real,
    headTubeAngle: real,
    chainStay: real,
    actualSeatTubeAngle: real,
    effectiveSeatTubeAngle: real,
    seatTube: real,
    bottomBracketDrop: real,
    frontCenter: real,
    wheelBase: real,
    forkAxleToCrown: real,
    forkOffset: real,
    forkTravel: real,
    crankLength: real,
    crankQFactor: real,
    spacers: real,
    stemLength: real,
    stemAngle: real,
    stemSteererHeight: real,
    seatOffset: real,
    handlebarWidth: real,
    handlebarReach: real,
    handlebarRise: real,
    tireFrontWidth: real,
    tireRearWidth: real,
    wheelFrontDiameter: real,
    wheelRearDiameter: real
  )
  {
    /** The value of field `k`. */
    function Get(k: ShadowKey): real {
      match k
      case Reach => reach
      case Stack => stack
      case HeadTube => headTube
      case HeadTubeAngle => headTubeAngle
      case ChainStay => chainStay
      case ActualSeatTubeAngle => actualSeatTubeAngle
      case EffectiveSeatTubeAngle => effectiveSeatTubeAngle
      case SeatTube => seatTube
      case BottomBracketDrop => bottomBracketDrop
      case FrontCenter => frontCenter
      case WheelBase => wheelBase
      case ForkAxleToCrown => forkAxleToCrown
      case ForkOffset => forkOffset
      case ForkTravel => forkTravel
      case CrankLength => crankLength
      case CrankQFactor => crankQFactor
      case Spacers => spacers
      case StemLength => stemLength
      case StemAngle => stemAngle
      case StemSteererHeight => stemSteererHeight
      case SeatOffset => seatOffset
      case HandlebarWidth => handlebarWidth
      case HandlebarReach => handlebarReach
      case HandlebarRise => handlebarRise
      case TireFrontWidth => tireFrontWidth
      case TireRearWidth => tireRearWidth
      case WheelFrontDiameter => wheelFrontDiameter
      case WheelRearDiameter => wheelRearDiameter
    }
  }

  /** The three angles kept in tenths of a degree. */
  predicate InTenths(k: ShadowKey) {
    k == HeadTubeAngle || k == ActualSeatTubeAngle || k == EffectiveSeatTubeAngle
  }

  /** The slice's `initialState`: every field 0. */
  const InitialState: ShadowBikeState := ShadowBikeState(
    0.0, 0.0, 0.0, 0.0, 0.0, 0.0, 0.0,
    0.0, 0.0, 0.0, 0.0, 0.0, 0.0, 0.0,
    0.0, 0.0, 0.0, 0.0, 0.0, 0.0, 0.0,
    0.0, 0.0, 0.0, 0.0, 0.0, 0.0, 0.0
  )

  /** Every field of the initial state is 0. */
  lemma InitialStateIsZero()
    ensures forall k: ShadowKey :: InitialState.Get(k) == 0.0
  {
  }

  /** Every field holds a whole number. */
  predicate IsStored(s: ShadowBikeState) {
    forall k: ShadowKey :: IsInteger(s.Get(k))
  }

  /** The state `setShadowBike(p)` leaves when applied to `state`. */
  function SetShadowBikeState(state: ShadowBikeState, p: ShadowBikeState): ShadowBikeState {
    state.(
      reach := Trunc(p.reach) as real,
      stack := Trunc(p.stack) as real,
      headTube := Trunc(p.headTube) as real,
      headTubeAngle := Trunc(p.headTubeAngle * 10.0) as real,
      chainStay := Trunc(p.chainStay) as real,
      actualSeatTubeAngle := Trunc(p.actualSeatTubeAngle * 10.0) as real,
      effectiveSeatTubeAngle := Trunc(p.effectiveSeatTubeAngle * 10.0) as real,
      seatTube := Trunc(p.seatTube) as real,
      bottomBracketDrop := Trunc(p.bottomBracketDrop) as real,
      wheelBase := Trunc(p.wheelBase) as real,
      forkAxleToCrown := Trunc(p.forkAxleToCrown) as real,
      forkOffset := Trunc(p.forkOffset) as real,
      forkTravel := Trunc(p.forkTravel) as real,
      crankLength := Trunc(p.crankLength) as real,
      crankQFactor := Trunc(p.crankQFactor) as real,
      spacers := Trunc(p.spacers) as real,
      stemLength := Trunc(p.stemLength) as real,
      stemAngle := Trunc(p.stemAngle) as real,
      stemSteererHeight := Trunc(p.stemSteererHeight) as real,
      seatOffset := Trunc(p.seatOffset) as real,
      handlebarWidth := Trunc(p.handlebarWidth) as real,
      handlebarReach := Trunc(p.handlebarReach) as real,
      handlebarRise := Trunc(p.handlebarRise) as real,
      tireFrontWidth := Trunc(p.tireFrontWidth) as real,
      tireRearWidth := Trunc(p.tireRearWidth) as real,
      wheelFrontDiameter := Trunc(p.wheelFrontDiameter) as real,
      wheelRearDiameter := Trunc(p.wheelRearDiameter) as real
    )
  }

  /**
   * After `setShadowBike(p)` every field but `frontCenter` holds the stored
   * value of the payload's field; `frontCenter` keeps its prior value.
   */
  lemma SetShadowBikeFields(state: ShadowBikeState, p: ShadowBikeState)
    ensures forall k: ShadowKey :: k != FrontCenter ==>
      SetShadowBikeState(state, p).Get(k) == Store(InTenths(k), p.Get(k)) as real
    ensures SetShadowBikeState(state, p).frontCenter == state.frontCenter
  {
  }

  /** `setShadowBike` keeps a state of whole numbers one of whole numbers. */
  lemma SetShadowBikeIsStored(state: ShadowBikeState, p: ShadowBikeState)
    requires IsStored(state)
    ensures IsStored(SetShadowBikeState(state, p))
  {
    var t := SetShadowBikeState(state, p);
    SetShadowBikeFields(state, p);
    forall k: ShadowKey ensures IsInteger(t.Get(k)) {
      if k != FrontCenter {
        FloorOfInteger(Store(InTenths(k), p.Get(k)));
      } else {
        assert t.Get(k) == state.Get(FrontCenter);
      }
    }
  }

  /** `selectShadowBike`: the state with exactly the three angles divided by 10. */
  function SelectShadowBike(state: ShadowBikeState): (r: ShadowBikeState)
    ensures forall k: ShadowKey :: r.Get(k) == Show(InTenths(k), state.Get(k))
  {
    state.(headTubeAngle := state.headTubeAngle / 10.0,
           actualSeatTubeAngle := state.actualSeatTubeAngle / 10.0,
           effectiveSeatTubeAngle := state.effectiveSeatTubeAngle / 10.0)
  }

  /** Two shadow states are equal when every field is. */
  lemma Extensionality(a: ShadowBikeState, b: ShadowBikeState)
    requires forall k: ShadowKey :: a.Get(k) == b.Get(k)
    ensures a == b
  {
    assert a.reach == b.reach by { assert a.Get(Reach) == b.Get(Reach); }
    assert a.stack == b.stack by { assert a.Get(Stack) == b.Get(Stack); }
    assert a.headTube == b.headTube by { assert a.Get(HeadTube) == b.Get(HeadTube); }
    assert a.headTubeAngle == b.headTubeAngle by { assert a.Get(HeadTubeAngle) == b.Get(HeadTubeAngle); }
    assert a.chainStay == b.chainStay by { assert a.Get(ChainStay) == b.Get(ChainStay); }
    assert a.actualSeatTubeAngle == b.actualSeatTubeAngle by { assert a.Get(ActualSeatTubeAngle) == b.Get(ActualSeatTubeAngle); }
    assert a.effectiveSeatTubeAngle == b.effectiveSeatTubeAngle by { assert a.Get(EffectiveSeatTubeAngle) == b.Get(EffectiveSeatTubeAngle); }
    assert a.seatTube == b.seatTube by { assert a.Get(SeatTube) == b.Get(SeatTube); }
    assert a.bottomBracketDrop == b.bottomBracketDrop by { assert a.Get(BottomBracketDrop) == b.Get(BottomBracketDrop); }
    assert a.frontCenter == b.frontCenter by { assert a.Get(FrontCenter) == b.Get(FrontCenter); }
    assert a.wheelBase == b.wheelBase by { assert a.Get(WheelBase) == b.Get(WheelBase); }
    assert a.forkAxleToCrown == b.forkAxleToCrown by { assert a.Get(ForkAxleToCrown) == b.Get(ForkAxleToCrown); }
    assert a.forkOffset == b.forkOffset by { assert a.Get(ForkOffset) == b.Get(ForkOffset); }
    assert a.forkTravel == b.forkTravel by { assert a.Get(ForkTravel) == b.Get(ForkTravel); }
    assert a.crankLength == b.crankLength by { assert a.Get(CrankLength) == b.Get(CrankLength); }
    assert a.crankQFactor == b.crankQFactor by { assert a.Get(CrankQFactor) == b.Get(CrankQFactor); }
    assert a.spacers == b.spacers by { assert a.Get(Spacers) == b.Get(Spacers); }
    assert a.stemLength == b.stemLength by { assert a.Get(StemLength) == b.Get(StemLength); }
    assert a.stemAngle == b.stemAngle by { assert a.Get(StemAngle) == b.Get(StemAngle); }
    assert a.stemSteererHeight == b.stemSteererHeight by { assert a.Get(StemSteererHeight) == b.Get(StemSteererHeight); }
    assert a.seatOffset == b.seatOffset by { assert a.Get(SeatOffset) == b.Get(SeatOffset); }
    assert a.handlebarWidth == b.handlebarWidth by { assert a.Get(HandlebarWidth) == b.Get(HandlebarWidth); }
    assert a.handlebarReach == b.handlebarReach by { assert a.Get(HandlebarReach) == b.Get(HandlebarReach); }
    assert a.handlebarRise == b.handlebarRise by { assert a.Get(HandlebarRise) == b.Get(HandlebarRise); }
    assert a.tireFrontWidth == b.tireFrontWidth by { assert a.Get(TireFrontWidth) == b.Get(TireFrontWidth); }
    assert a.tireRearWidth == b.tireRearWidth by { assert a.Get(TireRearWidth) == b.Get(TireRearWidth); }
    assert a.wheelFrontDiameter == b.wheelFrontDiameter by { assert a.Get(WheelFrontDiameter) == b.Get(WheelFrontDiameter); }
    assert a.wheelRearDiameter == b.wheelRearDiameter by { assert a.Get(WheelRearDiameter) == b.Get(WheelRearDiameter); }
  }

  /**
   * Showing the state `setShadowBike(p)` leaves gives the payload back exactly
   * when every written field is `Exact` and the payload's `frontCenter` is the
   * one already in the state, since that field is never written.
   */
  lemma SelectAfterSetShadow(state: ShadowBikeState, p: ShadowBikeState)
    ensures SelectShadowBike(SetShadowBikeState(state, p)) == p <==>
      (forall k: ShadowKey :: k != FrontCenter ==> Exact(InTenths(k), p.Get(k)))
      && state.frontCenter == p.frontCenter
  {
    var r := SelectShadowBike(SetShadowBikeState(state, p));
    SetShadowBikeFields(state, p);
    forall k: ShadowKey | k != FrontCenter
      ensures r.Get(k) == p.Get(k) <==> Exact(InTenths(k), p.Get(k))
    {
      ShowStore(InTenths(k), p.Get(k));
    }
    assert r.Get(FrontCenter) == state.frontCenter;
    if (forall k: ShadowKey :: k != FrontCenter ==> Exact(InTenths(k), p.Get(k)))
      && state.frontCenter == p.frontCenter
    {
      Extensionality(r, p);
    }
  }

  /**
   * `setShadowBike` with the `frontCenter` line that the main bike's reducer
   * has: every field of the payload is stored.
   */
  function SetShadowBikeCorrected(state: ShadowBikeState, p: ShadowBikeState): (r: ShadowBikeState)
    ensures forall k: ShadowKey :: r.Get(k) == Store(InTenths(k), p.Get(k)) as real
  {
    SetShadowBikeFields(state, p);
    SetShadowBikeState(state, p).(frontCenter := Trunc(p.frontCenter) as real)
  }

  /**
   * With every field written, showing the stored payload gives it back
   * exactly when each field is `Exact`, whatever the prior state held.
   */
  lemma SelectAfterSetShadowCorrected(state: ShadowBikeState, p: ShadowBikeState)
    ensures SelectShadowBike(SetShadowBikeCorrected(state, p)) == p <==>
      forall k: ShadowKey :: Exact(InTenths(k), p.Get(k))
  {
    var r := SelectShadowBike(SetShadowBikeCorrected(state, p));
    forall k: ShadowKey ensures r.Get(k) == p.Get(k) <==> Exact(InTenths(k), p.Get(k)) {
      ShowStore(InTenths(k), p.Get(k));
    }
    if forall k: ShadowKey :: Exact(InTenths(k), p.Get(k)) {
      Extensionality(r, p);
    }
  }

  /** The state after applying `setShadowBike` with each payload in turn. */
  function SetShadowBikeAll(state: ShadowBikeState, ps: seq<ShadowBikeState>): ShadowBikeState
    decreases |ps|
  {
    if |ps| == 0 then state else SetShadowBikeAll(SetShadowBikeState(state, ps[0]), ps[1..])
  }

  /** No sequence of `setShadowBike` actions ever changes `frontCenter`. */
  lemma {:induction false} FrontCenterNeverWritten(state: ShadowBikeState, ps: seq<ShadowBikeState>)
    ensures SetShadowBikeAll(state, ps).frontCenter == state.frontCenter
    decreases |ps|
  {
    if |ps| > 0 {
      FrontCenterNeverWritten(SetShadowBikeState(state, ps[0]), ps[1..]);
    }
  }

  /**
   * The Redux state of the `shadowBike` slice, kept as one record that the
   * reducer updates field by field.
   */
  class ShadowBikeStore {
    var state: ShadowBikeState

    /** The slice invariant: whole numbers only, and `frontCenter` still 0. */
    predicate Valid()
      reads this
    {
      IsStored(state) && state.frontCenter == 0.0
    }

    /** The slice starts from `initialState`. */
    constructor ()
      ensures state == InitialState
      ensures Valid()
    {
      state := InitialState;
      FloorOfInteger(0);
    }

    /** The `setShadowBike` reducer: writes every field except `frontCenter`. */
    method SetShadowBike(p: ShadowBikeState)
      requires Valid()
      modifies this
      ensures state == SetShadowBikeState(old(state), p)
      ensures state.frontCenter == old(state.frontCenter)
      ensures Valid()
    {
      SetShadowBikeIsStored(state, p);
      state := state.(
        reach := Trunc(p.reach) as real,
        stack := Trunc(p.stack) as real,
        headTube := Trunc(p.headTube) as real,
        headTubeAngle := Trunc(p.headTubeAngle * 10.0) as real,
        chainStay := Trunc(p.chainStay) as real,
        actualSeatTubeAngle := Trunc(p.actualSeatTubeAngle * 10.0) as real,
        effectiveSeatTubeAngle := Trunc(p.effectiveSeatTubeAngle * 10.0) as real,
        seatTube := Trunc(p.seatTube) as real,
        bottomBracketDrop := Trunc(p.bottomBracketDrop) as real,
        wheelBase := Trunc(p.wheelBase) as real,
        forkAxleToCrown := Trunc(p.forkAxleToCrown) as real,
        forkOffset := Trunc(p.forkOffset) as real,
        forkTravel := Trunc(p.forkTravel) as real,
        crankLength := Trunc(p.crankLength) as real,
        crankQFactor := Trunc(p.crankQFactor) as real,
        spacers := Trunc(p.spacers) as real,
        stemLength := Trunc(p.stemLength) as real,
        stemAngle := Trunc(p.stemAngle) as real,
        stemSteererHeight := Trunc(p.stemSteererHeight) as real,
        seatOffset := Trunc(p.seatOffset) as real,
        handlebarWidth := Trunc(p.handlebarWidth) as real,
        handlebarReach := Trunc(p.handlebarReach) as real,
        handlebarRise := Trunc(p.handlebarRise) as real,
        tireFrontWidth := Trunc(p.tireFrontWidth) as real,
        tireRearWidth := Trunc(p.tireRearWidth) as real,
        wheelFrontDiameter := Trunc(p.wheelFrontDiameter) as real,
        wheelRearDiameter := Trunc(p.wheelRearDiameter) as real
      );
    }
  }
}
