/**
 * The share token of the bike page: the bike, the shadow bike and the rider
 * are each written as an array of their values, ordered by the sorted names
 * of the fields of the initial states, and rebuilt by position.
 */
module ShareToken {
  import opened Wrappers
  import opened JsMath
  import BikeSlice
  import RiderSlice

  // ---------------------------------------------------------------------
  // The order of `Array.prototype.toSorted()` on property names.
  // ---------------------------------------------------------------------

  /** `a` sorts before `b`: code unit by code unit, a proper prefix first. */
  predicate Less(a: string, b: string)
    decreases |a|
  {
    if |a| == 0 then |b| > 0
    else if |b| == 0 then false
    else if a[0] == b[0] then Less(a[1..], b[1..])
    else a[0] < b[0]
  }

  /** No name sorts before itself. */
  lemma {:induction false} LessIrreflexive(a: string)
    ensures !Less(a, a)
    decreases |a|
  {
    if |a| > 0 {
      LessIrreflexive(a[1..]);
    }
  }

  /** The order is transitive. */
  lemma {:induction false} LessTransitive(a: string, b: string, c: string)
    requires Less(a, b) && Less(b, c)
    ensures Less(a, c)
    decreases |a|
  {
    if |a| > 0 && a[0] == b[0] && b[0] == c[0] {
      LessTransitive(a[1..], b[1..], c[1..]);
    }
  }

  /** Two different names are ordered one way or the other. */
  lemma {:induction false} LessTotal(a: string, b: string)
    requires a != b
    ensures Less(a, b) || Less(b, a)
    decreases |a|
  {
    if |a| > 0 && |b| > 0 && a[0] == b[0] {
      assert a == [a[0]] + a[1..] && b == [b[0]] + b[1..];
      LessTotal(a[1..], b[1..]);
    }
  }

  /**
   * `a` sorts before `b` when they agree on their first `n` code units and
   * then `a` ends while `b` goes on, or `a` has the smaller code unit.
   */
  lemma {:induction false} LessAt(a: string, b: string, n: nat)
    requires n <= |a| && n <= |b|
    requires forall m | 0 <= m < n :: a[m] == b[m]
    requires if n == |a| then n < |b| else n < |b| && a[n] < b[n]
    ensures Less(a, b)
    decreases n
  {
    if n > 0 {
      LessAt(a[1..], b[1..], n - 1);
    }
  }


  // ---------------------------------------------------------------------
  // `toSorted()`: the key lists, sorted by property name.
  // ---------------------------------------------------------------------

  /** Every element is named strictly before every later one. */
  predicate StrictlySortedBy<K>(s: seq<K>, name: K -> string) {
    forall i, j | 0 <= i < j < |s| :: Less(name(s[i]), name(s[j]))
  }

  /** A list whose neighbours are in order is sorted. */
  lemma {:induction false} ChainSorted<K>(s: seq<K>, name: K -> string)
    requires forall i | 0 <= i < |s| - 1 :: Less(name(s[i]), name(s[i + 1]))
    ensures StrictlySortedBy(s, name)
    decreases |s|
  {
    if |s| > 1 {
      var t := s[1..];
      assert forall i | 0 <= i < |t| - 1 :: Less(name(t[i]), name(t[i + 1])) by {
        forall i | 0 <= i < |t| - 1 ensures Less(name(t[i]), name(t[i + 1])) {
          assert t[i] == s[i + 1] && t[i + 1] == s[i + 2];
        }
      }
      ChainSorted(t, name);
      forall i, j | 0 <= i < j < |s| ensures Less(name(s[i]), name(s[j])) {
        if i > 0 {
          assert s[i] == t[i - 1] && s[j] == t[j - 1];
        } else if j > 1 {
          assert s[1] == t[0] && s[j] == t[j - 1];
          LessTransitive(name(s[0]), name(s[1]), name(s[j]));
        }
      }
    }
  }

  /** The first `n` neighbouring pairs of `s` are in order. */
  predicate ChainedUpTo<K>(s: seq<K>, name: K -> string, n: nat) {
    n < |s| && forall i | 0 <= i < n :: Less(name(s[i]), name(s[i + 1]))
  }

  /** One more pair in order extends the chain by one. */
  lemma ExtendChain<K>(s: seq<K>, name: K -> string, n: nat)
    requires ChainedUpTo(s, name, n) && n + 1 < |s|
    requires Less(name(s[n]), name(s[n + 1]))
    ensures ChainedUpTo(s, name, n + 1)
  {
  }

  /** A strictly sorted list holds no element twice. */
  lemma SortedDistinct<K>(s: seq<K>, name: K -> string, i: nat, j: nat)
    requires StrictlySortedBy(s, name)
    requires i < j < |s|
    ensures s[i] != s[j]
  {
    if s[i] == s[j] {
      LessIrreflexive(name(s[i]));
    }
  }

  /**
   * `bikeKeys`: the names of `bikeInitialState` sorted, shared by the bike and
   * the shadow bike; `BikeKeysSorted` and `BikeKeysComplete` show it is the
   * one strictly sorted list of all the fields.
   */
  const BikeKeys: seq<BikeSlice.Key> := [
    BikeSlice.ActualSeatTubeAngle, BikeSlice.BottomBracketDrop, BikeSlice.ChainStay,
    BikeSlice.CrankLength, BikeSlice.CrankQFactor, BikeSlice.EffectiveSeatTubeAngle,
    BikeSlice.ForkAxleToCrown, BikeSlice.ForkOffset, BikeSlice.ForkSag,
    BikeSlice.ForkTravel, BikeSlice.FrontCenter, BikeSlice.HandlebarReach,
    BikeSlice.HandlebarRise, BikeSlice.HandlebarWidth, BikeSlice.HeadTube,
    BikeSlice.HeadTubeAngle, BikeSlice.Reach, BikeSlice.SeatOffset,
    BikeSlice.SeatTube, BikeSlice.Spacers, BikeSlice.Stack,
    BikeSlice.StemAngle, BikeSlice.StemLength, BikeSlice.TireFrontWidth,
    BikeSlice.TireRearWidth, BikeSlice.WheelBase, BikeSlice.WheelFrontDiameter,
    BikeSlice.WheelRearDiameter
  ]

  /** `riderKeys`: the names of `riderInitialState` sorted. */
  const RiderKeys: seq<RiderSlice.RiderKey> := [
    RiderSlice.ArmLength, RiderSlice.FootLength, RiderSlice.InseamLength,
    RiderSlice.SpineLength, RiderSlice.UpperLegLength
  ]

  // One lemma per neighbouring pair of `bikeKeys`: each pair is in order.

  lemma BikeKeysOrdered0()
    ensures Less(BikeSlice.Name(BikeKeys[0]), BikeSlice.Name(BikeKeys[1]))
  {
    assert BikeKeys[0] == BikeSlice.ActualSeatTubeAngle && BikeKeys[1] == BikeSlice.BottomBracketDrop;
    LessAt(BikeSlice.Name(BikeSlice.ActualSeatTubeAngle), BikeSlice.Name(BikeSlice.BottomBracketDrop), 0);
  }

  lemma BikeKeysOrdered1()
    ensures Less(BikeSlice.Name(BikeKeys[1]), BikeSlice.Name(BikeKeys[2]))
  {
    assert BikeKeys[1] == BikeSlice.BottomBracketDrop && BikeKeys[2] == BikeSlice.ChainStay;
    LessAt(BikeSlice.Name(BikeSlice.BottomBracketDrop), BikeSlice.Name(BikeSlice.ChainStay), 0);
  }

  lemma BikeKeysOrdered2()
    ensures Less(BikeSlice.Name(BikeKeys[2]), BikeSlice.Name(BikeKeys[3]))
  {
    assert BikeKeys[2] == BikeSlice.ChainStay && BikeKeys[3] == BikeSlice.CrankLength;
    LessAt(BikeSlice.Name(BikeSlice.ChainStay), BikeSlice.Name(BikeSlice.CrankLength), 1);
  }

  lemma BikeKeysOrdered3()
    ensures Less(BikeSlice.Name(BikeKeys[3]), BikeSlice.Name(BikeKeys[4]))
  {
    assert BikeKeys[3] == BikeSlice.CrankLength && BikeKeys[4] == BikeSlice.CrankQFactor;
    LessAt(BikeSlice.Name(BikeSlice.CrankLength), BikeSlice.Name(BikeSlice.CrankQFactor), 5);
  }

  lemma BikeKeysOrdered4()
    ensures Less(BikeSlice.Name(BikeKeys[4]), BikeSlice.Name(BikeKeys[5]))
  {
    assert BikeKeys[4] == BikeSlice.CrankQFactor && BikeKeys[5] == BikeSlice.EffectiveSeatTubeAngle;
    LessAt(BikeSlice.Name(BikeSlice.CrankQFactor), BikeSlice.Name(BikeSlice.EffectiveSeatTubeAngle), 0);
  }

  lemma BikeKeysOrdered5()
    ensures Less(BikeSlice.Name(BikeKeys[5]), BikeSlice.Name(BikeKeys[6]))
  {
    assert BikeKeys[5] == BikeSlice.EffectiveSeatTubeAngle && BikeKeys[6] == BikeSlice.ForkAxleToCrown;
    LessAt(BikeSlice.Name(BikeSlice.EffectiveSeatTubeAngle), BikeSlice.Name(BikeSlice.ForkAxleToCrown), 0);
  }

  lemma BikeKeysOrdered6()
    ensures Less(BikeSlice.Name(BikeKeys[6]), BikeSlice.Name(BikeKeys[7]))
  {
    assert BikeKeys[6] == BikeSlice.ForkAxleToCrown && BikeKeys[7] == BikeSlice.ForkOffset;
    LessAt(BikeSlice.Name(BikeSlice.ForkAxleToCrown), BikeSlice.Name(BikeSlice.ForkOffset), 4);
  }

  lemma BikeKeysOrdered7()
    ensures Less(BikeSlice.Name(BikeKeys[7]), BikeSlice.Name(BikeKeys[8]))
  {
    assert BikeKeys[7] == BikeSlice.ForkOffset && BikeKeys[8] == BikeSlice.ForkSag;
    LessAt(BikeSlice.Name(BikeSlice.ForkOffset), BikeSlice.Name(BikeSlice.ForkSag), 4);
  }

  lemma BikeKeysOrdered8()
    ensures Less(BikeSlice.Name(BikeKeys[8]), BikeSlice.Name(BikeKeys[9]))
  {
    assert BikeKeys[8] == BikeSlice.ForkSag && BikeKeys[9] == BikeSlice.ForkTravel;
    LessAt(BikeSlice.Name(BikeSlice.ForkSag), BikeSlice.Name(BikeSlice.ForkTravel), 4);
  }

  lemma BikeKeysOrdered9()
    ensures Less(BikeSlice.Name(BikeKeys[9]), BikeSlice.Name(BikeKeys[10]))
  {
    assert BikeKeys[9] == BikeSlice.ForkTravel && BikeKeys[10] == BikeSlice.FrontCenter;
    LessAt(BikeSlice.Name(BikeSlice.ForkTravel), BikeSlice.Name(BikeSlice.FrontCenter), 1);
  }

  lemma BikeKeysOrdered10()
    ensures Less(BikeSlice.Name(BikeKeys[10]), BikeSlice.Name(BikeKeys[11]))
  {
    assert BikeKeys[10] == BikeSlice.FrontCenter && BikeKeys[11] == BikeSlice.HandlebarReach;
    LessAt(BikeSlice.Name(BikeSlice.FrontCenter), BikeSlice.Name(BikeSlice.HandlebarReach), 0);
  }

  lemma BikeKeysOrdered11()
    ensures Less(BikeSlice.Name(BikeKeys[11]), BikeSlice.Name(BikeKeys[12]))
  {
    assert BikeKeys[11] == BikeSlice.HandlebarReach && BikeKeys[12] == BikeSlice.HandlebarRise;
    LessAt(BikeSlice.Name(BikeSlice.HandlebarReach), BikeSlice.Name(BikeSlice.HandlebarRise), 10);
  }

  lemma BikeKeysOrdered12()
    ensures Less(BikeSlice.Name(BikeKeys[12]), BikeSlice.Name(BikeKeys[13]))
  {
    assert BikeKeys[12] == BikeSlice.HandlebarRise && BikeKeys[13] == BikeSlice.HandlebarWidth;
    LessAt(BikeSlice.Name(BikeSlice.HandlebarRise), BikeSlice.Name(BikeSlice.HandlebarWidth), 9);
  }

  lemma BikeKeysOrdered13()
    ensures Less(BikeSlice.Name(BikeKeys[13]), BikeSlice.Name(BikeKeys[14]))
  {
    assert BikeKeys[13] == BikeSlice.HandlebarWidth && BikeKeys[14] == BikeSlice.HeadTube;
    LessAt(BikeSlice.Name(BikeSlice.HandlebarWidth), BikeSlice.Name(BikeSlice.HeadTube), 1);
  }

  lemma BikeKeysOrdered14()
    ensures Less(BikeSlice.Name(BikeKeys[14]), BikeSlice.Name(BikeKeys[15]))
  {
    assert BikeKeys[14] == BikeSlice.HeadTube && BikeKeys[15] == BikeSlice.HeadTubeAngle;
    LessAt(BikeSlice.Name(BikeSlice.HeadTube), BikeSlice.Name(BikeSlice.HeadTubeAngle), 8);
  }

  lemma BikeKeysOrdered15()
    ensures Less(BikeSlice.Name(BikeKeys[15]), BikeSlice.Name(BikeKeys[16]))
  {
    assert BikeKeys[15] == BikeSlice.HeadTubeAngle && BikeKeys[16] == BikeSlice.Reach;
    LessAt(BikeSlice.Name(BikeSlice.HeadTubeAngle), BikeSlice.Name(BikeSlice.Reach), 0);
  }

  lemma BikeKeysOrdered16()
    ensures Less(BikeSlice.Name(BikeKeys[16]), BikeSlice.Name(BikeKeys[17]))
  {
    assert BikeKeys[16] == BikeSlice.Reach && BikeKeys[17] == BikeSlice.SeatOffset;
    LessAt(BikeSlice.Name(BikeSlice.Reach), BikeSlice.Name(BikeSlice.SeatOffset), 0);
  }

  lemma BikeKeysOrdered17()
    ensures Less(BikeSlice.Name(BikeKeys[17]), BikeSlice.Name(BikeKeys[18]))
  {
    assert BikeKeys[17] == BikeSlice.SeatOffset && BikeKeys[18] == BikeSlice.SeatTube;
    LessAt(BikeSlice.Name(BikeSlice.SeatOffset), BikeSlice.Name(BikeSlice.SeatTube), 4);
  }

  lemma BikeKeysOrdered18()
    ensures Less(BikeSlice.Name(BikeKeys[18]), BikeSlice.Name(BikeKeys[19]))
  {
    assert BikeKeys[18] == BikeSlice.SeatTube && BikeKeys[19] == BikeSlice.Spacers;
    LessAt(BikeSlice.Name(BikeSlice.SeatTube), BikeSlice.Name(BikeSlice.Spacers), 1);
  }

  lemma BikeKeysOrdered19()
    ensures Less(BikeSlice.Name(BikeKeys[19]), BikeSlice.Name(BikeKeys[20]))
  {
    assert BikeKeys[19] == BikeSlice.Spacers && BikeKeys[20] == BikeSlice.Stack;
    LessAt(BikeSlice.Name(BikeSlice.Spacers), BikeSlice.Name(BikeSlice.Stack), 1);
  }

  lemma BikeKeysOrdered20()
    ensures Less(BikeSlice.Name(BikeKeys[20]), BikeSlice.Name(BikeKeys[21]))
  {
    assert BikeKeys[20] == BikeSlice.Stack && BikeKeys[21] == BikeSlice.StemAngle;
    LessAt(BikeSlice.Name(BikeSlice.Stack), BikeSlice.Name(BikeSlice.StemAngle), 2);
  }

  lemma BikeKeysOrdered21()
    ensures Less(BikeSlice.Name(BikeKeys[21]), BikeSlice.Name(BikeKeys[22]))
  {
    assert BikeKeys[21] == BikeSlice.StemAngle && BikeKeys[22] == BikeSlice.StemLength;
    LessAt(BikeSlice.Name(BikeSlice.StemAngle), BikeSlice.Name(BikeSlice.StemLength), 4);
  }

  lemma BikeKeysOrdered22()
    ensures Less(BikeSlice.Name(BikeKeys[22]), BikeSlice.Name(BikeKeys[23]))
  {
    assert BikeKeys[22] == BikeSlice.StemLength && BikeKeys[23] == BikeSlice.TireFrontWidth;
    LessAt(BikeSlice.Name(BikeSlice.StemLength), BikeSlice.Name(BikeSlice.TireFrontWidth), 0);
  }

  lemma BikeKeysOrdered23()
    ensures Less(BikeSlice.Name(BikeKeys[23]), BikeSlice.Name(BikeKeys[24]))
  {
    assert BikeKeys[23] == BikeSlice.TireFrontWidth && BikeKeys[24] == BikeSlice.TireRearWidth;
    LessAt(BikeSlice.Name(BikeSlice.TireFrontWidth), BikeSlice.Name(BikeSlice.TireRearWidth), 4);
  }

  lemma BikeKeysOrdered24()
    ensures Less(BikeSlice.Name(BikeKeys[24]), BikeSlice.Name(BikeKeys[25]))
  {
    assert BikeKeys[24] == BikeSlice.TireRearWidth && BikeKeys[25] == BikeSlice.WheelBase;
    LessAt(BikeSlice.Name(BikeSlice.TireRearWidth), BikeSlice.Name(BikeSlice.WheelBase), 0);
  }

  lemma BikeKeysOrdered25()
    ensures Less(BikeSlice.Name(BikeKeys[25]), BikeSlice.Name(BikeKeys[26]))
  {
    assert BikeKeys[25] == BikeSlice.WheelBase && BikeKeys[26] == BikeSlice.WheelFrontDiameter;
    LessAt(BikeSlice.Name(BikeSlice.WheelBase), BikeSlice.Name(BikeSlice.WheelFrontDiameter), 5);
  }

  lemma BikeKeysOrdered26()
    ensures Less(BikeSlice.Name(BikeKeys[26]), BikeSlice.Name(BikeKeys[27]))
  {
    assert BikeKeys[26] == BikeSlice.WheelFrontDiameter && BikeKeys[27] == BikeSlice.WheelRearDiameter;
    LessAt(BikeSlice.Name(BikeSlice.WheelFrontDiameter), BikeSlice.Name(BikeSlice.WheelRearDiameter), 5);
  }

  /** Pairs 0 to 2 of the bike key list extend the sorted chain. */
  lemma BikeChainStart()
    requires ChainedUpTo(BikeKeys, BikeSlice.Name, 0)
    ensures ChainedUpTo(BikeKeys, BikeSlice.Name, 3)
  {
    BikeKeysOrdered0();
    ExtendChain(BikeKeys, BikeSlice.Name, 0);
    BikeKeysOrdered1();
    ExtendChain(BikeKeys, BikeSlice.Name, 1);
    BikeKeysOrdered2();
    ExtendChain(BikeKeys, BikeSlice.Name, 2);
  }

  /** Pairs 3 to 6 of the bike key list extend the sorted chain. */
  lemma BikeChainFirst()
    requires ChainedUpTo(BikeKeys, BikeSlice.Name, 3)
    ensures ChainedUpTo(BikeKeys, BikeSlice.Name, 7)
  {
    BikeKeysOrdered3();
    ExtendChain(BikeKeys, BikeSlice.Name, 3);
    BikeKeysOrdered4();
    ExtendChain(BikeKeys, BikeSlice.Name, 4);
    BikeKeysOrdered5();
    ExtendChain(BikeKeys, BikeSlice.Name, 5);
    BikeKeysOrdered6();
    ExtendChain(BikeKeys, BikeSlice.Name, 6);
  }

  /** Pairs 7 to 13 of the bike key list extend the sorted chain. */
  lemma BikeChainSecond()
    requires ChainedUpTo(BikeKeys, BikeSlice.Name, 7)
    ensures ChainedUpTo(BikeKeys, BikeSlice.Name, 14)
  {
    BikeKeysOrdered7();
    ExtendChain(BikeKeys, BikeSlice.Name, 7);
    BikeKeysOrdered8();
    ExtendChain(BikeKeys, BikeSlice.Name, 8);
    BikeKeysOrdered9();
    ExtendChain(BikeKeys, BikeSlice.Name, 9);
    BikeKeysOrdered10();
    ExtendChain(BikeKeys, BikeSlice.Name, 10);
    BikeKeysOrdered11();
    ExtendChain(BikeKeys, BikeSlice.Name, 11);
    BikeKeysOrdered12();
    ExtendChain(BikeKeys, BikeSlice.Name, 12);
    BikeKeysOrdered13();
    ExtendChain(BikeKeys, BikeSlice.Name, 13);
  }

  /** Pairs 14 to 20 of the bike key list extend the sorted chain. */
  lemma BikeChainThird()
    requires ChainedUpTo(BikeKeys, BikeSlice.Name, 14)
    ensures ChainedUpTo(BikeKeys, BikeSlice.Name, 21)
  {
    BikeKeysOrdered14();
    ExtendChain(BikeKeys, BikeSlice.Name, 14);
    BikeKeysOrdered15();
    ExtendChain(BikeKeys, BikeSlice.Name, 15);
    BikeKeysOrdered16();
    ExtendChain(BikeKeys, BikeSlice.Name, 16);
    BikeKeysOrdered17();
    ExtendChain(BikeKeys, BikeSlice.Name, 17);
    BikeKeysOrdered18();
    ExtendChain(BikeKeys, BikeSlice.Name, 18);
    BikeKeysOrdered19();
    ExtendChain(BikeKeys, BikeSlice.Name, 19);
    BikeKeysOrdered20();
    ExtendChain(BikeKeys, BikeSlice.Name, 20);
  }

  /** Pairs 21 to 26 of the bike key list extend the sorted chain. */
  lemma BikeChainLast()
    requires ChainedUpTo(BikeKeys, BikeSlice.Name, 21)
    ensures ChainedUpTo(BikeKeys, BikeSlice.Name, 27)
  {
    BikeKeysOrdered21();
    ExtendChain(BikeKeys, BikeSlice.Name, 21);
    BikeKeysOrdered22();
    ExtendChain(BikeKeys, BikeSlice.Name, 22);
    BikeKeysOrdered23();
    ExtendChain(BikeKeys, BikeSlice.Name, 23);
    BikeKeysOrdered24();
    ExtendChain(BikeKeys, BikeSlice.Name, 24);
    BikeKeysOrdered25();
    ExtendChain(BikeKeys, BikeSlice.Name, 25);
    BikeKeysOrdered26();
    ExtendChain(BikeKeys, BikeSlice.Name, 26);
  }

  /** The bike key list is sorted by name. */
  lemma BikeKeysSorted()
    ensures StrictlySortedBy(BikeKeys, BikeSlice.Name)
  {
    assert ChainedUpTo(BikeKeys, BikeSlice.Name, 0);
    BikeChainStart();
    BikeChainFirst();
    BikeChainSecond();
    BikeChainThird();
    BikeChainLast();
    assert |BikeKeys| - 1 == 27;
    ChainSorted(BikeKeys, BikeSlice.Name);
  }

  /** The rider key list is sorted by name. */
  lemma RiderKeysSorted()
    ensures StrictlySortedBy(RiderKeys, RiderSlice.Name)
  {
    assert RiderKeys[0] == RiderSlice.ArmLength;
    assert RiderKeys[1] == RiderSlice.FootLength;
    assert RiderKeys[2] == RiderSlice.InseamLength;
    assert RiderKeys[3] == RiderSlice.SpineLength;
    assert RiderKeys[4] == RiderSlice.UpperLegLength;
    LessAt(RiderSlice.Name(RiderSlice.ArmLength), RiderSlice.Name(RiderSlice.FootLength), 0);
    LessAt(RiderSlice.Name(RiderSlice.FootLength), RiderSlice.Name(RiderSlice.InseamLength), 0);
    LessAt(RiderSlice.Name(RiderSlice.InseamLength), RiderSlice.Name(RiderSlice.SpineLength), 0);
    LessAt(RiderSlice.Name(RiderSlice.SpineLength), RiderSlice.Name(RiderSlice.UpperLegLength), 0);
    ChainSorted(RiderKeys, RiderSlice.Name);
  }

  /** The bike key list names every field of the bike state. */
  lemma BikeKeysComplete(k: BikeSlice.Key)
    ensures k in BikeKeys
  {
    match k
    case ActualSeatTubeAngle => assert BikeKeys[0] == k;
    case BottomBracketDrop => assert BikeKeys[1] == k;
    case ChainStay => assert BikeKeys[2] == k;
    case CrankLength => assert BikeKeys[3] == k;
    case CrankQFactor => assert BikeKeys[4] == k;
    case EffectiveSeatTubeAngle => assert BikeKeys[5] == k;
    case ForkAxleToCrown => assert BikeKeys[6] == k;
    case ForkOffset => assert BikeKeys[7] == k;
    case ForkSag => assert BikeKeys[8] == k;
    case ForkTravel => assert BikeKeys[9] == k;
    case FrontCenter => assert BikeKeys[10] == k;
    case HandlebarReach => assert BikeKeys[11] == k;
    case HandlebarRise => assert BikeKeys[12] == k;
    case HandlebarWidth => assert BikeKeys[13] == k;
    case HeadTube => assert BikeKeys[14] == k;
    case HeadTubeAngle => assert BikeKeys[15] == k;
    case Reach => assert BikeKeys[16] == k;
    case SeatOffset => assert BikeKeys[17] == k;
    case SeatTube => assert BikeKeys[18] == k;
    case Spacers => assert BikeKeys[19] == k;
    case Stack => assert BikeKeys[20] == k;
    case StemAngle => assert BikeKeys[21] == k;
    case StemLength => assert BikeKeys[22] == k;
    case TireFrontWidth => assert BikeKeys[23] == k;
    case TireRearWidth => assert BikeKeys[24] == k;
    case WheelBase => assert BikeKeys[25] == k;
    case WheelFrontDiameter => assert BikeKeys[26] == k;
    case WheelRearDiameter => assert BikeKeys[27] == k;
  }

  /** The rider key list names every field of the rider state. */
  lemma RiderKeysComplete(k: RiderSlice.RiderKey)
    ensures k in RiderKeys
  {
    match k
    case ArmLength => assert RiderKeys[0] == k;
    case FootLength => assert RiderKeys[1] == k;
    case InseamLength => assert RiderKeys[2] == k;
    case SpineLength => assert RiderKeys[3] == k;
    case UpperLegLength => assert RiderKeys[4] == k;
  }

  // ---------------------------------------------------------------------
  // The compact payload and its encoding.
  // ---------------------------------------------------------------------

  /** `compactData`: exactly the three value arrays `b`, `s` and `r`. */
  datatype Compact = Compact(b: seq<real>, s: seq<real>, r: seq<real>)

  /**
   * The token. `btoa(JSON.stringify(…))` is replaced by an injective encoding
   * of the three arrays into one number stream: each array is written as its
   * length followed by its elements.
   */
  type Token = seq<real>

  /** One array, length first. */
  function EncodeArray(a: seq<real>): Token {
    [|a| as real] + a
  }

  /** The encoding of all three arrays, in the order `b`, `s`, `r`. */
  function Encode(c: Compact): Token {
    EncodeArray(c.b) + EncodeArray(c.s) + EncodeArray(c.r)
  }

  /** Reads one length-prefixed array off the front of `t`, with what follows it. */
  function DecodeArray(t: Token): (r: Option<(seq<real>, Token)>)
    ensures r.Some? ==> EncodeArray(r.value.0) + r.value.1 == t
  {
    if |t| == 0 || t[0] < 0.0 || !IsInteger(t[0]) || t[0].Floor > |t| - 1 then None
    else
      var n := t[0].Floor;
      SplitArray(t, n);
      Some((t[1..1 + n], t[1 + n..]))
  }

  /** A stream that starts with the length `n` is that array's encoding followed by the rest. */
  lemma SplitArray(t: Token, n: int)
    requires 0 <= n < |t| && t[0] == n as real
    ensures EncodeArray(t[1..1 + n]) + t[1 + n..] == t
  {
    assert t == [t[0]] + t[1..1 + n] + t[1 + n..];
  }

  /** `JSON.parse(atob(token))`: fails unless the token is exactly three encoded arrays. */
  function Decode(t: Token): (r: Option<Compact>)
    ensures r.Some? ==> Encode(r.value) == t
  {
    match DecodeArray(t)
    case None => None
    case Some((b, t1)) =>
      match DecodeArray(t1)
      case None => None
      case Some((s, t2)) =>
        match DecodeArray(t2)
        case None => None
        case Some((r, t3)) =>
          if |t3| == 0 then
            assert t == EncodeArray(b) + EncodeArray(s) + EncodeArray(r) + t3;
            assert EncodeArray(b) + EncodeArray(s) + EncodeArray(r) + t3
              == EncodeArray(b) + EncodeArray(s) + EncodeArray(r);
            Some(Compact(b, s, r))
          else None
  }

  /** Reading an encoded array gives back the array and the rest of the stream. */
  lemma DecodeEncodeArray(a: seq<real>, rest: Token)
    ensures DecodeArray(EncodeArray(a) + rest) == Some((a, rest))
  {
    var t := EncodeArray(a) + rest;
    FloorOfInteger(|a|);
    assert t[0] == |a| as real;
    assert t[1..1 + |a|] == a;
    assert t[1 + |a|..] == rest;
  }

  /** Decoding undoes encoding. */
  lemma DecodeEncode(c: Compact)
    ensures Decode(Encode(c)) == Some(c)
  {
    var t := Encode(c);
    assert t == EncodeArray(c.b) + (EncodeArray(c.s) + (EncodeArray(c.r) + []));
    DecodeEncodeArray(c.b, EncodeArray(c.s) + (EncodeArray(c.r) + []));
    DecodeEncodeArray(c.s, EncodeArray(c.r) + []);
    DecodeEncodeArray(c.r, []);
  }

  /** Encoding undoes a successful decoding: the two are inverse bijections. */
  lemma EncodeDecode(t: Token)
    requires Decode(t).Some?
    ensures Encode(Decode(t).value) == t
  {
  }

  // ---------------------------------------------------------------------
  // createToken and parseToken.
  // ---------------------------------------------------------------------

  /** `keys.map((key) => state[key])`: the value array of a state, one entry per key. */
  function Values<K>(get: K -> real, keys: seq<K>): (r: seq<real>)
    ensures |r| == |keys|
    ensures forall i | 0 <= i < |keys| :: r[i] == get(keys[i])
  {
    seq(|keys|, i requires 0 <= i < |keys| => get(keys[i]))
  }

  /**
   * The token for the given key orders: each state as the array of its
   * values in key order. The token always decodes, to exactly those arrays.
   */
  function TokenFor(bk: seq<BikeSlice.Key>, rk: seq<RiderSlice.RiderKey>, bike: BikeSlice.BikeState,
                    shadow: BikeSlice.BikeState, rider: RiderSlice.RiderState): (r: Token)
    ensures Decode(r) == Some(Compact(Values(bike.Get, bk), Values(shadow.Get, bk), Values(rider.Get, rk)))
  {
    var c := Compact(Values(bike.Get, bk), Values(shadow.Get, bk), Values(rider.Get, rk));
    DecodeEncode(c);
    Encode(c)
  }

  /**
   * `createToken(rawBike, rawShadowBike, rawRider)`, with the sorted key lists:
   * the token decodes, to 28 values for each bike and 5 for the rider.
   */
  function CreateToken(bike: BikeSlice.BikeState, shadow: BikeSlice.BikeState,
                       rider: RiderSlice.RiderState): (r: Token)
    ensures Decode(r).Some?
    ensures |Decode(r).value.b| == 28 && |Decode(r).value.s| == 28 && |Decode(r).value.r| == 5
  {
    TokenFor(BikeKeys, RiderKeys, bike, shadow, rider)
  }

  /** An array element, or `undefined` past the end of the array. */
  function At(a: seq<real>, i: nat): Option<real> {
    if i < |a| then Some(a[i]) else None
  }

  /**
   * `keys.reduce((acc, val, idx) => ({...acc, [val]: a[idx]}), {})`: a record
   * whose fields are the keys, each holding the element at its position
   * (`undefined` is `None`).
   */
  function Assemble<K>(keys: seq<K>, a: seq<real>): map<K, Option<real>>
    decreases |keys|
  {
    if |keys| == 0 then map[]
    else Assemble(keys[..|keys| - 1], a)[keys[|keys| - 1] := At(a, |keys| - 1)]
  }

  /**
   * The reduce assigns element `i` to the `i`-th key: every key holds the
   * element at its last position in the key list, and no other field exists.
   */
  lemma {:induction false} AssemblePositions<K>(keys: seq<K>, a: seq<real>)
    ensures Assemble(keys, a).Keys == set k | k in keys
    ensures forall i | 0 <= i < |keys| && (forall j | i < j < |keys| :: keys[j] != keys[i]) ::
      Assemble(keys, a)[keys[i]] == At(a, i)
  {
    AssembleKeys(keys, a);
    forall i | 0 <= i < |keys| && (forall j | i < j < |keys| :: keys[j] != keys[i])
      ensures Assemble(keys, a)[keys[i]] == At(a, i)
    {
      AssembleAt(keys, a, i);
    }
  }

  /** The reduce creates exactly the fields named by the keys. */
  lemma {:induction false} AssembleKeys<K>(keys: seq<K>, a: seq<real>)
    ensures Assemble(keys, a).Keys == set k | k in keys
    decreases |keys|
  {
    if |keys| > 0 {
      var n := |keys| - 1;
      AssembleKeys(keys[..n], a);
      assert keys == keys[..n] + [keys[n]];
    }
  }

  /** A key that does not come again later holds the element at its position. */
  lemma {:induction false} AssembleAt<K>(keys: seq<K>, a: seq<real>, i: nat)
    requires i < |keys|
    requires forall j | i < j < |keys| :: keys[j] != keys[i]
    ensures keys[i] in Assemble(keys, a) && Assemble(keys, a)[keys[i]] == At(a, i)
    decreases |keys|
  {
    var n := |keys| - 1;
    if i < n {
      var init := keys[..n];
      assert init[i] == keys[i];
      forall j | i < j < |init| ensures init[j] != init[i] {
        assert init[j] == keys[j];
      }
      AssembleAt(init, a, i);
    }
  }

  /** When every element is the value of its key, the record has every key's value. */
  lemma {:induction false} AssembleValues<K>(keys: seq<K>, a: seq<real>, value: K -> real)
    requires |keys| <= |a|
    requires forall i | 0 <= i < |keys| :: a[i] == value(keys[i])
    ensures Assemble(keys, a) == map k | k in keys :: Some(value(k))
    decreases |keys|
  {
    if |keys| > 0 {
      var n := |keys| - 1;
      var init := keys[..n];
      AssembleValues(init, a, value);
      assert keys == init + [keys[n]];
    }
  }

  /** The three records `parseToken` rebuilds. */
  datatype Parsed = Parsed(
    rawBike: map<BikeSlice.Key, Option<real>>,
    rawShadowBike: map<BikeSlice.Key, Option<real>>,
    rawRider: map<RiderSlice.RiderKey, Option<real>>)

  /** Decoding a token for the given key orders: `None` when the token does not decode. */
  function ParseFor(bk: seq<BikeSlice.Key>, rk: seq<RiderSlice.RiderKey>, t: Token): (r: Option<Parsed>)
    ensures r.None? <==> Decode(t).None?
  {
    match Decode(t)
    case None => None
    case Some(c) => Some(Parsed(Assemble(bk, c.b), Assemble(bk, c.s), Assemble(rk, c.r)))
  }

  /** `parseToken`, with the sorted key lists: `null` (`None`) when the token does not decode. */
  function ParseToken(t: Token): (r: Option<Parsed>)
    ensures r.None? <==> Decode(t).None?
  {
    ParseFor(BikeKeys, RiderKeys, t)
  }

  /** The record holding a defined `value(k)` for every field `k` of `fields`, and nothing else. */
  function Filled<K>(fields: set<K>, value: K -> real): map<K, Option<real>> {
    map k | k in fields :: Some(value(k))
  }

  /** A record whose every field is defined, holding the given record's value. */
  function Defined<K>(m: map<K, real>): map<K, Option<real>> {
    map k | k in m :: Some(m[k])
  }

  /** A bike state as the record `parseToken` rebuilds from a complete array: its own record, every field defined. */
  function BikeRecord(state: BikeSlice.BikeState): map<BikeSlice.Key, Option<real>> {
    Defined(BikeSlice.ToRecord(state))
  }

  /** The bike record holds `Some` of the state's value in each of the 28 fields. */
  lemma BikeRecordFilled(state: BikeSlice.BikeState)
    ensures BikeRecord(state) == Filled(BikeSlice.BikeFields, state.Get)
  {
  }

  /** A rider state as the record `parseToken` rebuilds from a complete array. */
  function RiderRecord(state: RiderSlice.RiderState): map<RiderSlice.RiderKey, Option<real>> {
    Filled(RiderSlice.RiderFields, state.Get)
  }

  /** When the keys are exactly `fields` and every element is its key's value, the record has every field's value. */
  lemma AssembleFields<K>(keys: seq<K>, fields: set<K>, a: seq<real>, value: K -> real)
    requires |keys| <= |a|
    requires forall i | 0 <= i < |keys| :: a[i] == value(keys[i])
    requires forall k :: k in keys <==> k in fields
    ensures Assemble(keys, a) == Filled(fields, value)
  {
    AssembleValues(keys, a, value);
  }

  /** The bike key list names every field. */
  lemma AllBikeKeys()
    ensures forall k: BikeSlice.Key :: k in BikeKeys
  {
    forall k: BikeSlice.Key ensures k in BikeKeys {
      BikeKeysComplete(k);
    }
  }

  /** The rider key list names every field. */
  lemma AllRiderKeys()
    ensures forall k: RiderSlice.RiderKey :: k in RiderKeys
  {
    forall k: RiderSlice.RiderKey ensures k in RiderKeys {
      RiderKeysComplete(k);
    }
  }

  /**
   * Whatever the key orders, as long as each lists every field, decoding a
   * token made with them gives back every field of the three states.
   */
  lemma RoundTripFor(bk: seq<BikeSlice.Key>, rk: seq<RiderSlice.RiderKey>, bike: BikeSlice.BikeState,
                     shadow: BikeSlice.BikeState, rider: RiderSlice.RiderState)
    requires forall k: BikeSlice.Key :: k in bk
    requires forall k: RiderSlice.RiderKey :: k in rk
    ensures ParseFor(bk, rk, TokenFor(bk, rk, bike, shadow, rider))
      == Some(Parsed(BikeRecord(bike), BikeRecord(shadow), RiderRecord(rider)))
  {
    var c := Compact(Values(bike.Get, bk), Values(shadow.Get, bk), Values(rider.Get, rk));
    DecodeEncode(c);
    forall k: BikeSlice.Key ensures k in bk <==> k in BikeSlice.BikeFields {
      BikeSlice.AllFields(k);
    }
    forall k: RiderSlice.RiderKey ensures k in rk <==> k in RiderSlice.RiderFields {
      RiderSlice.AllFields(k);
    }
    AssembleFields(bk, BikeSlice.BikeFields, c.b, bike.Get);
    AssembleFields(bk, BikeSlice.BikeFields, c.s, shadow.Get);
    BikeRecordFilled(bike);
    BikeRecordFilled(shadow);
    AssembleFields(rk, RiderSlice.RiderFields, c.r, rider.Get);
  }

  /** `parseToken(createToken(b, s, r))` gives back every field of `b`, `s` and `r`. */
  lemma RoundTrip(bike: BikeSlice.BikeState, shadow: BikeSlice.BikeState,
                  rider: RiderSlice.RiderState)
    ensures ParseToken(CreateToken(bike, shadow, rider))
      == Some(Parsed(BikeRecord(bike), BikeRecord(shadow), RiderRecord(rider)))
  {
    AllBikeKeys();
    AllRiderKeys();
    RoundTripFor(BikeKeys, RiderKeys, bike, shadow, rider);
  }


  /** A list without repeats: no later element equals an earlier one. */
  lemma NoLaterRepeat<K>(s: seq<K>, name: K -> string)
    requires StrictlySortedBy(s, name)
    ensures forall i, j | 0 <= i < j < |s| :: s[j] != s[i]
  {
    forall i, j | 0 <= i < j < |s| ensures s[j] != s[i] {
      SortedDistinct(s, name, i, j);
    }
  }

  /** Each of a list's keys holds the element at its position, and nothing else is a key. */
  lemma AssembleDistinct<K>(keys: seq<K>, fields: set<K>, a: seq<real>)
    requires forall k :: k in keys <==> k in fields
    requires forall i, j | 0 <= i < j < |keys| :: keys[j] != keys[i]
    ensures Assemble(keys, a).Keys == fields
    ensures forall i | 0 <= i < |keys| :: Assemble(keys, a)[keys[i]] == At(a, i)
  {
    AssemblePositions(keys, a);
  }

  /**
   * Every token that decodes gives records with exactly the fields of the
   * states, each field holding the element at its key's position, and
   * `undefined` (`None`) past the end of a short array.
   */
  lemma ParsePositions(t: Token)
    requires Decode(t).Some?
    ensures var p, c := ParseToken(t).value, Decode(t).value;
      && p.rawBike.Keys == BikeSlice.BikeFields
      && p.rawShadowBike.Keys == BikeSlice.BikeFields
      && p.rawRider.Keys == RiderSlice.RiderFields
      && (forall i | 0 <= i < |BikeKeys| :: p.rawBike[BikeKeys[i]] == At(c.b, i))
      && (forall i | 0 <= i < |BikeKeys| :: p.rawShadowBike[BikeKeys[i]] == At(c.s, i))
      && (forall i | 0 <= i < |RiderKeys| :: p.rawRider[RiderKeys[i]] == At(c.r, i))
  {
    var c := Decode(t).value;
    AllBikeKeys();
    AllRiderKeys();
    forall k: BikeSlice.Key ensures k in BikeKeys <==> k in BikeSlice.BikeFields {
      BikeSlice.AllFields(k);
    }
    forall k: RiderSlice.RiderKey ensures k in RiderKeys <==> k in RiderSlice.RiderFields {
      RiderSlice.AllFields(k);
    }
    BikeKeysSorted();
    RiderKeysSorted();
    NoLaterRepeat(BikeKeys, BikeSlice.Name);
    NoLaterRepeat(RiderKeys, RiderSlice.Name);
    AssembleDistinct(BikeKeys, BikeSlice.BikeFields, c.b);
    AssembleDistinct(BikeKeys, BikeSlice.BikeFields, c.s);
    AssembleDistinct(RiderKeys, RiderSlice.RiderFields, c.r);
  }
}
