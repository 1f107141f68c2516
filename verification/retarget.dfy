/** The VRX difficulty retarget (src/blockparams.cpp), with real numbers for the doubles. A block is
    given by the chain behind it, the block itself first and the genesis block last. */
module Retarget {
  import opened Transactions
  import opened Compact

  const BLOCK_SPACING: int := 300
  const BLOCK_SPACING_MAX: int := 330
  const RATE_DOWN: int := BLOCK_SPACING - 60
  const RATE_FLOOR: int := BLOCK_SPACING - 90
  const RATE_CEILING: int := BLOCK_SPACING_MAX + 180
  const SCAN_HEIGHT: nat := 6
  const U64: int := 0x1_0000_0000_0000_0000

  type Bits32 = c: nat | c < 0x1_0000_0000

  datatype BlockInfo = BlockInfo(time: nat, isStake: bool, bits: Bits32)

  type ChainBack = seq<BlockInfo>

  // ---------------------------------------------------------------- the engine

  /** The factor of one spacing. */
  function Factor(rate: int): (f: real)
    ensures 0.5 <= f <= 2.0
  {
    if rate >= BLOCK_SPACING then
      if rate > BLOCK_SPACING_MAX then if rate > RATE_CEILING then 0.5 else 0.75 else 1.0
    else
      if rate < RATE_DOWN then if rate < RATE_FLOOR then 2.0 else 1.5 else 1.25
  }

  function Spacing(back: ChainBack, i: nat): int
    requires i + 1 < |back|
  {
    back[i].time - back[i + 1].time
  }

  /** The average factor of the last five spacings. */
  function Average(back: ChainBack): (a: real)
    requires |back| >= SCAN_HEIGHT
    ensures 0.5 <= a <= 2.0
  {
    (Factor(Spacing(back, 0)) + Factor(Spacing(back, 1)) + Factor(Spacing(back, 2)) + Factor(Spacing(back, 3))
     + Factor(Spacing(back, 4))) / 5.0
  }

  /** All of the last five blocks came late. */
  predicate AllLate(back: ChainBack)
    requires |back| >= SCAN_HEIGHT
  {
    forall i :: 0 <= i < 5 ==> Spacing(back, i) > RATE_CEILING
  }

  lemma LeastAverage(back: ChainBack)
    requires |back| >= SCAN_HEIGHT
    ensures AllLate(back) <==> Average(back) == 0.5
    ensures !AllLate(back) ==> Average(back) >= 0.55
  {
    if !AllLate(back) {
      var i :| 0 <= i < 5 && Spacing(back, i) <= RATE_CEILING;
      assert Factor(Spacing(back, i)) >= 0.75;
      assert i == 0 || i == 1 || i == 2 || i == 3 || i == 4;
    } else {
      assert Spacing(back, 0) > RATE_CEILING && Spacing(back, 1) > RATE_CEILING && Spacing(back, 2) > RATE_CEILING;
      assert Spacing(back, 3) > RATE_CEILING && Spacing(back, 4) > RATE_CEILING;
    }
  }

  // ---------------------------------------------------------------- the curve

  /** The divisor of the target: ten thousand times the average, cut off. */
  function Divisor(average: real): int {
    (10000.0 * average).Floor
  }

  datatype CurveResult = Curved(average: real, reset: bool, rounds: nat) | DivisorZero

  /** The extended curve run: every round divides the average by one more, and fails when the
      simulated retarget divides by zero. */
  function RunCurve(average: real, curve: nat, minutes: nat, step: nat, stop: nat, late: int, rounds: nat): CurveResult
    requires curve > 0 && step > 0
    decreases if minutes <= stop then stop - minutes + 1 else 0
  {
    if late <= minutes * 60 then Curved(average, false, rounds)
    else if minutes > stop then Curved(average, true, rounds)
    else
      var next := average / (curve as real);
      if Divisor(next) == 0 then DivisorZero
      else RunCurve(next, curve + 1, minutes + step, step, stop, late, rounds + 1)
  }

  /** Above height 63000. */
  function LaterCurve(average: real, late: int): CurveResult {
    RunCurve(average, 2, 45, 5, 65, late, 0)
  }

  /** From height 7501 to 63000. */
  function EarlierCurve(average: real, late: int): CurveResult {
    RunCurve(average, 2, 15, 1, 20, late, 0)
  }

  /** Above height 63000 at most five rounds run, and the divisor is at least 6. */
  lemma LaterCurveSafe(average: real, late: int)
    requires average >= 0.5
    ensures LaterCurve(average, late).Curved?
    ensures LaterCurve(average, late).rounds <= 5 && Divisor(LaterCurve(average, late).average) >= 6
    ensures average <= 2.0 ==> LaterCurve(average, late).average <= 2.0
  {
    var a1, a2, a3, a4, a5 := average / 2.0, average / 2.0 / 3.0, average / 2.0 / 3.0 / 4.0,
                              average / 2.0 / 3.0 / 4.0 / 5.0, average / 2.0 / 3.0 / 4.0 / 5.0 / 6.0;
    assert a5 >= 0.5 / 720.0;
    assert late > 2700 ==> LaterCurve(average, late) == RunCurve(a1, 3, 50, 5, 65, late, 1);
    assert late > 3000 ==> RunCurve(a1, 3, 50, 5, 65, late, 1) == RunCurve(a2, 4, 55, 5, 65, late, 2);
    assert late > 3300 ==> RunCurve(a2, 4, 55, 5, 65, late, 2) == RunCurve(a3, 5, 60, 5, 65, late, 3);
    assert late > 3600 ==> RunCurve(a3, 5, 60, 5, 65, late, 3) == RunCurve(a4, 6, 65, 5, 65, late, 4);
    assert late > 3900 ==> RunCurve(a4, 6, 65, 5, 65, late, 4) == RunCurve(a5, 7, 70, 5, 65, late, 5);
  }

  /** Below that height six rounds can run, and the divisor becomes zero exactly when they do and the
      average starts below 0.504. */
  lemma EarlierCurveFails(average: real, late: int)
    requires 0.5 <= average
    ensures EarlierCurve(average, late).DivisorZero? <==> late > 1200 && average < 0.504
    ensures EarlierCurve(average, late).Curved? ==>
      EarlierCurve(average, late).rounds <= 6 && Divisor(EarlierCurve(average, late).average) >= 1
  {
    var a1, a2, a3 := average / 2.0, average / 2.0 / 3.0, average / 2.0 / 3.0 / 4.0;
    var a4, a5 := average / 2.0 / 3.0 / 4.0 / 5.0, average / 2.0 / 3.0 / 4.0 / 5.0 / 6.0;
    var a6 := average / 2.0 / 3.0 / 4.0 / 5.0 / 6.0 / 7.0;
    assert a6 == average / 5040.0;
    assert late > 900 ==> EarlierCurve(average, late) == RunCurve(a1, 3, 16, 1, 20, late, 1);
    assert late > 960 ==> RunCurve(a1, 3, 16, 1, 20, late, 1) == RunCurve(a2, 4, 17, 1, 20, late, 2);
    assert late > 1020 ==> RunCurve(a2, 4, 17, 1, 20, late, 2) == RunCurve(a3, 5, 18, 1, 20, late, 3);
    assert late > 1080 ==> RunCurve(a3, 5, 18, 1, 20, late, 3) == RunCurve(a4, 6, 19, 1, 20, late, 4);
    assert late > 1140 ==> RunCurve(a4, 6, 19, 1, 20, late, 4) == RunCurve(a5, 7, 20, 1, 20, late, 5);
    assert late > 1200 && Divisor(a6) != 0 ==>
      RunCurve(a5, 7, 20, 1, 20, late, 5) == RunCurve(a6, 8, 21, 1, 20, late, 6);
  }

  // ---------------------------------------------------------------- what the retarget returns

  /** Division of big numbers cuts off towards zero. */
  function TruncDiv(a: int, d: int): (q: int)
    requires d > 0
    ensures if a >= 0 then q >= 0 && 0 <= a - d * q < d else q <= 0 && -d < a - d * q <= 0
  {
    QuotientIs(if a >= 0 then a else -a, d);
    if a >= 0 then a / d else -((-a) / d)
  }

  lemma QuotientIs(a: nat, d: int)
    requires d > 0
    ensures a / d >= 0 && 0 <= a - d * (a / d) < d && d * (-(a / d)) == -(d * (a / d))
  {
    assert a == d * (a / d) + a % d;
  }

  /** The new target before the limit. */
  function Target(last: int, average: real): int
    requires Divisor(average) > 0
  {
    TruncDiv(last, Divisor(average)) * 10000
  }

  /** GetLastBlockIndex: the last block of a type, or the genesis block. */
  function LastOfType(back: ChainBack, stake: bool): (i: nat)
    requires back != []
    ensures i < |back| && (back[i].isStake == stake || i == |back| - 1)
    ensures forall j :: 0 <= j < i ==> back[j].isStake != stake
  {
    if |back| == 1 || back[0].isStake == stake then 0 else 1 + LastOfType(back[1..], stake)
  }

  /** The difference of two times as an unsigned 64-bit number. */
  function Since(later: int, earlier: int): int {
    (later - earlier) % U64
  }

  function Halvings(dif: int): (n: nat)
    ensures n <= 4
  {
    (if dif > 15 * 3600 then 1 else 0) + (if dif > 16 * 3600 then 1 else 0)
      + (if dif > 17 * 3600 then 1 else 0) + (if dif > 18 * 3600 then 1 else 0)
  }

  /** Below height 7501 the average is halved up to four times. */
  function StandardCurve(average: real, dif: int): CurveResult {
    var n := Halvings(dif);
    Curved(if n == 0 then average else if n == 1 then average / 2.0 else if n == 2 then average / 4.0
           else if n == 3 then average / 8.0 else average / 16.0, false, n)
  }

  /** VRX_ThreadCurve; `tooEasy` says that the previous difficulty is below 1. */
  function Curve(back: ChainBack, v: nat, tooEasy: bool): CurveResult
    requires |back| >= SCAN_HEIGHT && v + 1 < |back|
  {
    var average, late := Average(back), Since(back[0].time, back[v].time);
    if |back| - 1 <= 7500 then StandardCurve(average, Since(back[v].time, back[v + 1].time))
    else if tooEasy then Curved(average, false, 0)
    else if |back| - 1 > 63000 then LaterCurve(average, late)
    else EarlierCurve(average, late)
  }

  datatype Outcome = Bits(c: nat) | DivideByZero | NoPredecessor

  predicate DryRun(back: ChainBack, best: int) {
    |back| - 1 < SCAN_HEIGHT + 124 || best == 725
  }

  lemma CurveDivisor(back: ChainBack, v: nat, tooEasy: bool)
    requires |back| >= SCAN_HEIGHT && v + 1 < |back|
    ensures Curve(back, v, tooEasy).Curved? ==> Divisor(Curve(back, v, tooEasy).average) > 0
  {
    LaterCurveSafe(Average(back), Since(back[0].time, back[v].time));
    EarlierCurveFails(Average(back), Since(back[0].time, back[v].time));
  }

  /** VRX_Retarget. */
  function NextBits(back: ChainBack, best: int, stake: bool, limit: nat, tooEasy: bool): Outcome
    requires back != []
  {
    var v := LastOfType(back, stake);
    if DryRun(back, best) then Bits(GetCompact(limit))
    else if v + 1 == |back| then NoPredecessor
    else
      CurveDivisor(back, v, tooEasy);
      match Curve(back, v, tooEasy)
      case DivisorZero => DivideByZero
      case Curved(average, reset, _) =>
        if reset then Bits(GetCompact(limit))
          else Bits(GetCompact(Min(Target(SetCompact(back[v].bits), average), limit)))
  }

  /** A negative number has a compact form that decodes to at most zero. */
  lemma NegativeCompact(x: int)
    requires x < 0
    ensures SetCompact(GetCompact(x)) <= 0
  {
    var p := Mpi(x);
    Digits(|p| % 256, At(p, 0), At(p, 1), At(p, 2));
    var q := CompactBytes(GetCompact(x));
    assert q != [] ==> q[0] == p[0] >= 128;
  }

  lemma CompactWithin(x: int, limit: nat)
    requires x <= limit && Size(limit) <= 255
    ensures SetCompact(GetCompact(x)) <= limit
  {
    if x < 0 {
      NegativeCompact(x);
    } else if x > 0 {
      SizeMonotone(x, limit);
      CompactError(x);
    } else {
      CompactTruncates(0);
    }
  }

  /** Whatever the timestamps, the bits returned decode to at most the limit. */
  lemma BitsWithinLimit(back: ChainBack, best: int, stake: bool, limit: nat, tooEasy: bool)
    requires back != [] && Size(limit) <= 255
    ensures var r := NextBits(back, best, stake, limit, tooEasy); r.Bits? ==>
      r.c < 0x1_0000_0000 && SetCompact(r.c) <= limit
  {
    CompactWithin(limit, limit);
    var v := LastOfType(back, stake);
    if !DryRun(back, best) && v + 1 < |back| {
      CurveDivisor(back, v, tooEasy);
      match Curve(back, v, tooEasy)
      case DivisorZero =>
      case Curved(average, reset, _) =>
        if !reset {
          CompactWithin(Min(Target(SetCompact(back[v].bits), average), limit), limit);
        }
    }
  }

  /** There is a block of the type above the first block. */
  predicate HasEarlier(back: ChainBack, stake: bool) {
    exists i :: 0 <= i < |back| - 1 && back[i].isStake == stake
  }

  lemma LastIsFirst(back: ChainBack, stake: bool)
    requires back != []
    ensures LastOfType(back, stake) + 1 < |back| <==> HasEarlier(back, stake)
  {
    var v := LastOfType(back, stake);
    if v + 1 < |back| {
      assert back[v].isStake == stake;
    }
  }

  /** Between heights 7501 and 63000 the last five blocks all came late, the last block of the type is more
      than twenty minutes back, and the difficulty is not too low for the curve. */
  predicate CurveFails(back: ChainBack, stake: bool, tooEasy: bool)
    requires back != []
  {
    && 7500 < |back| - 1 <= 63000 && AllLate(back) && !tooEasy
    && Since(back[0].time, back[LastOfType(back, stake)].time) > 1200
  }

  /** Past the dry run the retarget divides by zero exactly there, and reads through a null pointer exactly
      where the chain has no earlier block of the type. */
  lemma FailsExactly(back: ChainBack, best: int, stake: bool, limit: nat, tooEasy: bool)
    requires back != []
    ensures NextBits(back, best, stake, limit, tooEasy) == DivideByZero <==>
      !DryRun(back, best) && HasEarlier(back, stake) && CurveFails(back, stake, tooEasy)
    ensures NextBits(back, best, stake, limit, tooEasy) == NoPredecessor <==>
      !DryRun(back, best) && !HasEarlier(back, stake)
  {
    LastIsFirst(back, stake);
    if !DryRun(back, best) && HasEarlier(back, stake) {
      var late := Since(back[0].time, back[LastOfType(back, stake)].time);
      LeastAverage(back);
      LaterCurveSafe(Average(back), late);
      EarlierCurveFails(Average(back), late);
    }
  }

  /** So it succeeds exactly in a dry run, or where there is an earlier block of the type and the curve does
      not fail. */
  lemma SucceedsExactly(back: ChainBack, best: int, stake: bool, limit: nat, tooEasy: bool)
    requires back != []
    ensures NextBits(back, best, stake, limit, tooEasy).Bits? <==>
      DryRun(back, best) || (HasEarlier(back, stake) && !CurveFails(back, stake, tooEasy))
  {
    FailsExactly(back, best, stake, limit, tooEasy);
  }

  /** A chain without a block by stake, for which the retarget for the first one fails, whatever the limit. */
  lemma NoStakeYet(limit: nat) returns (back: ChainBack)
    ensures |back| == 201 && !HasEarlier(back, true)
    ensures forall i :: 0 <= i < 200 ==> back[i].time == back[i + 1].time + 300
    ensures NextBits(back, 200, true, limit, false) == NoPredecessor
  {
    back := seq(201, i requires 0 <= i < 201 => BlockInfo((201 - i) * 300, false, 0x1d00ffff));
    FailsExactly(back, 200, true, limit, false);
  }

  /** A chain for which it divides by zero, whatever the limit: ten minutes between blocks, the first block
      and the last three by work, the others by stake. */
  lemma FailingChain(limit: nat) returns (back: ChainBack)
    ensures |back| == 8000 && !back[7999].isStake && back[3].isStake
    ensures forall i :: 0 <= i < 7999 ==> back[i].time == back[i + 1].time + 600
    ensures NextBits(back, 7999, true, limit, false) == DivideByZero
  {
    back := seq(8000, i requires 0 <= i < 8000 => BlockInfo((8000 - i) * 600, 3 <= i < 7999, 0x1d00ffff));
    var v := LastOfType(back, true);
    assert !back[0].isStake && !back[1].isStake && !back[2].isStake && back[3].isStake;
    assert v == 3;
    assert forall i :: 0 <= i < 5 ==> Spacing(back, i) == 600;
    assert Since(back[0].time, back[3].time) == 1800;
    FailsExactly(back, 7999, true, limit, false);
  }

  /** Without a curve round the target stays between half the old one, less 10000, and twice the old one. */
  lemma TargetBounds(last: nat, average: real)
    requires 0.5 <= average <= 2.0
    ensures Divisor(average) >= 5000 && last - 20000 <= 2 * Target(last, average) && Target(last, average) <= 2 * last
  {
    DivisorBounds(average);
    ScaledBounds(last, Divisor(average));
  }

  lemma ScaledBounds(last: nat, d: nat)
    requires 5000 <= d <= 20000
    ensures last - 20000 <= 2 * (TruncDiv(last, d) * 10000) <= 4 * last
  {
    var q := TruncDiv(last, d);
    QuotientBounds(last, d, q);
  }

  lemma DivisorBounds(average: real)
    requires 0.5 <= average <= 2.0
    ensures 5000 <= Divisor(average) <= 20000
  {
    assert 5000.0 <= 10000.0 * average <= 20000.0;
  }

  lemma QuotientBounds(last: nat, d: nat, q: nat)
    requires 5000 <= d <= 20000 && 0 <= last - d * q < d
    ensures 5000 * q <= last && last - 20000 <= 20000 * q
  {
    MulMonotone(5000, d, q);
    MulMonotone(d, 20000, q);
  }

  lemma MulMonotone(a: nat, b: nat, q: nat)
    requires a <= b
    ensures a * q <= b * q
  {
  }

  lemma UnclampedBounds(back: ChainBack, v: nat, tooEasy: bool, last: nat)
    requires |back| >= SCAN_HEIGHT && v + 1 < |back|
    requires Curve(back, v, tooEasy).Curved? && Curve(back, v, tooEasy).rounds == 0
    ensures Curve(back, v, tooEasy).average == Average(back)
    ensures var average := Average(back);
            Divisor(average) >= 5000 && last - 20000 <= 2 * Target(last, average) && Target(last, average) <= 2 * last
  {
    TargetBounds(last, Average(back));
    if |back| - 1 > 7500 && !tooEasy {
      var late := Since(back[0].time, back[v].time);
      if |back| - 1 > 63000 {
        RoundsGrow(Average(back), 2, 45, 5, 65, late, 0);
      } else {
        RoundsGrow(Average(back), 2, 15, 1, 20, late, 0);
      }
    }
  }

  lemma {:induction false} RoundsGrow(average: real, curve: nat, minutes: nat, step: nat, stop: nat, late: int,
                                      rounds: nat)
    requires curve > 0 && step > 0
    ensures var r := RunCurve(average, curve, minutes, step, stop, late, rounds);
            r.Curved? ==> r.rounds >= rounds && (r.rounds == rounds ==> r.average == average)
    decreases if minutes <= stop then stop - minutes + 1 else 0
  {
    if late > minutes * 60 && minutes <= stop {
      RoundsGrow(average / (curve as real), curve + 1, minutes + step, step, stop, late, rounds + 1);
    }
  }

  // ---------------------------------------------------------------- the code

  lemma StillPositive(a: real, c: real)
    requires a >= 0.0 && c >= 2.0
    ensures a / c >= 0.0
  {
  }

  function Skewed(average: real, prevPoW: nat, prevPoS: nat, stake: bool): real {
    var a := if (prevPoW < prevPoS && !stake && prevPoS - prevPoW > 3)
      || (prevPoW > prevPoS && stake && prevPoW - prevPoS > 3)
             then average / 3.0 else average;
    if a < 0.5 then 0.5 else a
  }

  /** Every scan round counts the type in question once more, so that type is never the less
      selected one, and the skew never applies. */
  lemma SkewNeverApplies(average: real, prevPoW: nat, prevPoS: nat, stake: bool)
    requires prevPoW + prevPoS == 10 && (if stake then prevPoS >= 5 else prevPoW >= 5) && average >= 0.5
    ensures Skewed(average, prevPoW, prevPoS, stake) == average
  {
  }

  /** The global variables of the retarget. */
  class Vrx {
    var average: real
    var prevPoW: nat
    var prevPoS: nat
    var reset: bool
    var bnNew: int
    var rounds: nat

    constructor ()
    {
      average, prevPoW, prevPoS, reset, bnNew, rounds := 0.0, 0, 0, false, 0, 0;
    }

    /** VRX_BaseEngine. The version 1.0 count adds the type of the block in question in every round. */
    method BaseEngine(back: ChainBack, stake: bool)
      requires |back| >= SCAN_HEIGHT
      modifies this`average, this`prevPoW, this`prevPoS
      ensures average == Average(back) && prevPoW + prevPoS == 10
      ensures if stake then prevPoS >= 5 else prevPoW >= 5
    {
      var f1, f2, f3, f4, f5 := 0.0, 0.0, 0.0, 0.0, 0.0;
      average, prevPoW, prevPoS := 0.0, 0, 0;
      var scan := 1;
      var time1: int, time2: int := 0, back[0].time;
      while scan < SCAN_HEIGHT
        invariant 1 <= scan <= SCAN_HEIGHT && time2 == back[scan - 1].time
        invariant prevPoW + prevPoS == 2 * (scan - 1) && if stake then prevPoS >= scan - 1 else prevPoW >= scan - 1
        invariant (scan > 1 ==> f1 == Factor(Spacing(back, 0))) && (scan > 2 ==> f2 == Factor(Spacing(back, 1)))
        invariant (scan > 3 ==> f3 == Factor(Spacing(back, 2))) && (scan > 4 ==> f4 == Factor(Spacing(back, 3)))
        invariant scan > 5 ==> f5 == Factor(Spacing(back, 4))
      {
        time1 := time2;
        time2 := back[scan].time;
        var rate := time1 - time2;
        var f := 1.0;
        if rate >= BLOCK_SPACING {
          f := 1.0;
          if rate > BLOCK_SPACING_MAX {
            f := 0.75;
            if rate > RATE_CEILING { f := 0.5; }
          }
        } else {
          f := 1.25;
          if rate < RATE_DOWN {
            f := 1.5;
            if rate < RATE_FLOOR { f := 2.0; }
          }
        }
        assert rate == Spacing(back, scan - 1) && f == Factor(rate);
        if scan < 2 { f1 := f; }
        else if scan < 3 { f2 := f; }
        else if scan < 4 { f3 := f; }
        else if scan < 5 { f4 := f; }
        else if scan < 6 { f5 := f; }
        if stake { prevPoS := prevPoS + 1; } else { prevPoW := prevPoW + 1; }
        if back[scan].isStake { prevPoS := prevPoS + 1; } else { prevPoW := prevPoW + 1; }
        scan := scan + 1;
      }
      average := (f1 + f2 + f3 + f4 + f5) / 5.0;
    }

    /** VRX_Simulate_Retarget: false when it divides by zero. */
    method SimulateRetarget(bits: Bits32) returns (ok: bool)
      requires average >= 0.0
      modifies this`bnNew
      ensures ok <==> Divisor(average) != 0
      ensures ok ==> Divisor(average) > 0 && bnNew == Target(SetCompact(bits), average)
    {
      var d := (10000.0 * average).Floor;
      if d == 0 { return false; }
      bnNew := TruncDiv(SetCompact(bits), d) * 10000;
      return true;
    }

    /** The skew for the less selected block type, limited to halving. */
    method Skew(stake: bool)
      modifies this`average
      ensures average == Skewed(old(average), prevPoW, prevPoS, stake)
    {
      if prevPoW < prevPoS && !stake {
        if prevPoS - prevPoW > 3 { average := average / 3.0; }
      } else if prevPoW > prevPoS && stake {
        if prevPoW - prevPoS > 3 { average := average / 3.0; }
      }
      if average < 0.5 { average := 0.5; }
    }

    /** The extended curve run of VRX_ThreadCurve. */
    method ExtendedCurve(bits: Bits32, minutes0: nat, step: nat, stop: nat, late: int, tooEasy: bool) returns (ok: bool)
      requires average >= 0.0 && step > 0
      modifies this`average, this`reset, this`bnNew, this`rounds
      ensures var r := if tooEasy then Curved(old(average), false, 0)
        else RunCurve(old(average), 2, minutes0, step, stop, late, 0);
              (ok <==> r.Curved?) && (ok ==> average == r.average && reset == r.reset && rounds == r.rounds)
    {
      var minutes, curve := minutes0, 2;
      reset, rounds := false, 0;
      ghost var whole := RunCurve(average, 2, minutes0, step, stop, late, 0);
      while late > minutes * 60
        invariant curve >= 2 && average >= 0.0 && !reset && (tooEasy ==> average == old(average) && rounds == 0)
        invariant RunCurve(average, curve, minutes, step, stop, late, rounds) == whole
        decreases if minutes <= stop then stop - minutes + 1 else 0
      {
        if tooEasy { return true; }
        if minutes > stop {
          reset := true;
          return true;
        }
        StillPositive(average, curve as real);
        average := average / (curve as real);
        var fine := SimulateRetarget(bits);
        if !fine { return false; }
        curve := curve + 1;
        minutes := minutes + step;
        rounds := rounds + 1;
      }
      ok := true;
    }

    /** VRX_ThreadCurve. */
    method ThreadCurve(back: ChainBack, v: nat, stake: bool, tooEasy: bool) returns (ok: bool)
      requires |back| >= SCAN_HEIGHT && v + 1 < |back|
      modifies this
      ensures var r := Curve(back, v, tooEasy);
              (ok <==> r.Curved?) && (ok ==> average == r.average && reset == r.reset && rounds == r.rounds)
    {
      BaseEngine(back, stake);
      SkewNeverApplies(average, prevPoW, prevPoS, stake);
      Skew(stake);
      reset, rounds := false, 0;
      var dif := Since(back[v].time, back[v + 1].time);
      if |back| - 1 > 7500 {
        var late := Since(back[0].time, back[v].time);
        if |back| - 1 > 63000 {
          ok := ExtendedCurve(back[v].bits, 45, 5, 65, late, tooEasy);
        } else {
          ok := ExtendedCurve(back[v].bits, 15, 1, 20, late, tooEasy);
        }
      } else {
        Halve(dif);
        ok := true;
      }
    }

    method Halve(dif: int)
      requires rounds == 0 && !reset
      modifies this`average, this`rounds
      ensures Curved(average, reset, rounds) == StandardCurve(old(average), dif)
    {
      if dif > 15 * 3600 { average := average / 2.0; rounds := rounds + 1; }
      if dif > 16 * 3600 { average := average / 2.0; rounds := rounds + 1; }
      if dif > 17 * 3600 { average := average / 2.0; rounds := rounds + 1; }
      if dif > 18 * 3600 { average := average / 2.0; rounds := rounds + 1; }
    }

    method FindLastOfType(back: ChainBack, stake: bool) returns (i: nat)
      requires back != []
      ensures i == LastOfType(back, stake)
    {
      i := 0;
      assert back[0..] == back;
      while i + 1 < |back| && back[i].isStake != stake
        invariant i < |back| && LastOfType(back, stake) == i + LastOfType(back[i..], stake)
      {
        assert back[i..][1..] == back[i + 1..];
        i := i + 1;
      }
    }

    /** VRX_Retarget. */
    method VrxRetarget(back: ChainBack, best: int, stake: bool, limit: nat, tooEasy: bool) returns (r: Outcome)
      requires back != []
      modifies this
      ensures r == NextBits(back, best, stake, limit, tooEasy)
    {
      var v := FindLastOfType(back, stake);
      if |back| - 1 < SCAN_HEIGHT + 124 || best == 725 { return Bits(GetCompact(limit)); }
      if v + 1 == |back| { return NoPredecessor; }
      var ok := ThreadCurve(back, v, stake, tooEasy);
      if !ok { return DivideByZero; }
      if reset { return Bits(GetCompact(limit)); }
      CurveDivisor(back, v, tooEasy);
      var fine := SimulateRetarget(back[v].bits);
      if bnNew > limit { bnNew := limit; }
      return Bits(GetCompact(bnNew));
    }
  }
}
