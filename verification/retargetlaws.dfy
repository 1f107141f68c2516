/** What the retarget achieves (src/blockparams.cpp), said of spacings, heights and the nearest block of the type. */
module RetargetLaws {
  import opened Compact
  import opened Powers
  import opened Retarget
  import opened Transactions

  // ---------------------------------------------------------------- from which block it starts

  /** Block `v` is the nearest block of the type, and not the first of the chain. */
  ghost predicate Nearest(back: ChainBack, stake: bool, v: nat) {
    v + 1 < |back| && back[v].isStake == stake && forall j :: 0 <= j < v ==> back[j].isStake != stake
  }

  lemma NearestIs(back: ChainBack, stake: bool, v: nat)
    requires Nearest(back, stake, v)
    ensures LastOfType(back, stake) == v
  {
    var i := LastOfType(back, stake);
    assert i <= v <= i;
  }

  /** Two chains with the same times and types. */
  ghost predicate SameCourse(back: ChainBack, back': ChainBack) {
    && |back| == |back'|
    && forall i :: 0 <= i < |back| ==> back[i].time == back'[i].time && back[i].isStake == back'[i].isStake
  }

  lemma SameSpacing(back: ChainBack, back': ChainBack, i: nat)
    requires SameCourse(back, back') && i + 1 < |back|
    ensures Spacing(back, i) == Spacing(back', i)
  {
  }

  /** Of all the bits on the chain the retarget reads those of the nearest block of the type alone. */
  lemma NearestBitsDecide(back: ChainBack, back': ChainBack, best: int, stake: bool, limit: nat, tooEasy: bool, v: nat)
    requires SameCourse(back, back') && Nearest(back, stake, v) && back'[v].bits == back[v].bits
    ensures NextBits(back', best, stake, limit, tooEasy) == NextBits(back, best, stake, limit, tooEasy)
  {
    assert Nearest(back', stake, v);
    NearestIs(back, stake, v);
    NearestIs(back', stake, v);
    if !DryRun(back, best) {
      forall i: nat | i < 5 ensures Spacing(back, i) == Spacing(back', i) {
        SameSpacing(back, back', i);
      }
      assert Average(back') == Average(back);
    }
  }

  /** Past the dry run, where no curve round applies, the bits returned stand for at most twice the target of the
      nearest block of the type and for at most the limit, and for no less than half that target less 10000, or the
      limit if that is smaller, save for the last digits that the compact form drops. */
  lemma BoundedByNearest(back: ChainBack, best: int, stake: bool, limit: nat, tooEasy: bool, v: nat)
    requires Nearest(back, stake, v) && !DryRun(back, best) && Size(limit) <= 255
    requires Curve(back, v, tooEasy).Curved? && Curve(back, v, tooEasy).rounds == 0 && !Curve(back, v, tooEasy).reset
    requires SetCompact(back[v].bits) >= 0
    ensures var r := NextBits(back, best, stake, limit, tooEasy);
            && r.Bits? && r.c < 0x1_0000_0000
            && var before, after := SetCompact(back[v].bits), SetCompact(r.c);
               && 0 <= after <= limit && after <= 2 * before
               && 32768 * after >= 32767 * Min(limit, (before - 20000) / 2)
  {
    NearestIs(back, stake, v);
    var before := SetCompact(back[v].bits);
    UnclampedBounds(back, v, tooEasy, before);
    var target := Target(before, Average(back));
    NearlyKept(target, limit);
  }

  /** A target that is cut by the limit and put into compact form stays within one part in 32768 of itself. */
  lemma NearlyKept(target: nat, limit: nat)
    requires Size(limit) <= 255
    ensures var m := Min(target, limit);
            0 <= SetCompact(GetCompact(m)) <= m && 32768 * SetCompact(GetCompact(m)) >= 32767 * m
  {
    var m := Min(target, limit);
    SizeMonotone(m, limit);
    if m > 0 {
      CompactError(m);
    } else {
      CompactTruncates(0);
    }
  }

  /** Up to height 129, and while the best block is the one at height 725, the limit is returned. */
  lemma DryRunGivesLimit(back: ChainBack, best: int, stake: bool, limit: nat, tooEasy: bool)
    requires back != [] && (|back| <= 130 || best == 725)
    ensures NextBits(back, best, stake, limit, tooEasy) == Bits(GetCompact(limit))
  {
  }

  /** Elsewhere the outcome is that of the curve, for the nearest block of the type. */
  lemma PastTheDryRun(back: ChainBack, best: int, stake: bool, limit: nat, tooEasy: bool, v: nat)
    requires |back| > 130 && best != 725 && Nearest(back, stake, v)
    ensures NextBits(back, best, stake, limit, tooEasy) ==
      match Curve(back, v, tooEasy)
      case DivisorZero => DivideByZero
      case Curved(average, reset, _) =>
        if reset || Divisor(average) <= 0 then Bits(GetCompact(limit))
        else Bits(GetCompact(Min(Target(SetCompact(back[v].bits), average), limit)))
  {
    NearestIs(back, stake, v);
    CurveDivisor(back, v, tooEasy);
  }

  // ---------------------------------------------------------------- what the spacings do

  /** The seven steps of the factor, in seconds: above 510 the target doubles, below 210 it is halved. */
  lemma FactorExactly(rate: int)
    ensures Factor(rate) == 0.5 <==> rate > 510
    ensures Factor(rate) == 0.75 <==> 330 < rate <= 510
    ensures Factor(rate) == 1.0 <==> 300 <= rate <= 330
    ensures Factor(rate) == 1.25 <==> 240 <= rate < 300
    ensures Factor(rate) == 1.5 <==> 210 <= rate < 240
    ensures Factor(rate) == 2.0 <==> rate < 210
  {
  }

  lemma LaterIsSlower(rate: int, rate': int)
    requires rate <= rate'
    ensures Factor(rate') <= Factor(rate)
  {
  }

  /** What is returned where the curve leaves the average as it is. */
  lemma WithoutRounds(back: ChainBack, best: int, stake: bool, limit: nat, tooEasy: bool, v: nat)
    requires Nearest(back, stake, v) && !DryRun(back, best)
    requires Curve(back, v, tooEasy) == Curved(Average(back), false, 0)
    ensures Divisor(Average(back)) > 0
    ensures NextBits(back, best, stake, limit, tooEasy)
            == Bits(GetCompact(Min(Target(SetCompact(back[v].bits), Average(back)), limit)))
  {
    NearestIs(back, stake, v);
    CurveDivisor(back, v, tooEasy);
  }

  lemma SlowerAverage(back: ChainBack, back': ChainBack)
    requires |back| >= SCAN_HEIGHT && |back'| >= SCAN_HEIGHT
    requires forall i :: 0 <= i < 5 ==> Spacing(back, i) <= Spacing(back', i)
    ensures Average(back') <= Average(back)
  {
    forall i: nat | i < 5 ensures Factor(Spacing(back', i)) <= Factor(Spacing(back, i)) {
      LaterIsSlower(Spacing(back, i), Spacing(back', i));
    }
  }

  /** Later blocks never make the next target smaller. */
  lemma SlowerIsEasier(back: ChainBack, back': ChainBack, best: int, stake: bool, limit: nat, tooEasy: bool,
                       tooEasy': bool, v: nat, v': nat)
    requires Nearest(back, stake, v) && Nearest(back', stake, v') && !DryRun(back, best) && !DryRun(back', best)
    requires Size(limit) <= 255 && back[v].bits == back'[v'].bits && SetCompact(back[v].bits) >= 0
    requires Curve(back, v, tooEasy) == Curved(Average(back), false, 0)
    requires Curve(back', v', tooEasy') == Curved(Average(back'), false, 0)
    requires forall i :: 0 <= i < 5 ==> Spacing(back, i) <= Spacing(back', i)
    ensures var r, r' := NextBits(back, best, stake, limit, tooEasy), NextBits(back', best, stake, limit, tooEasy');
            r.Bits? && r'.Bits? && r.c <= r'.c
  {
    WithoutRounds(back, best, stake, limit, tooEasy, v);
    WithoutRounds(back', best, stake, limit, tooEasy', v');
    SlowerAverage(back, back');
    SlowerTarget(SetCompact(back[v].bits), Average(back'), Average(back), limit);
  }

  lemma SlowerTarget(before: nat, a: real, b: real, limit: nat)
    requires a <= b && Divisor(a) > 0 && Size(limit) <= 255
    ensures Divisor(b) > 0
    ensures GetCompact(Min(Target(before, b), limit)) <= GetCompact(Min(Target(before, a), limit))
  {
    SmallerDivisor(a, b);
    TargetGrows(before, Divisor(a), Divisor(b));
    SizeMonotone(Min(Target(before, a), limit), limit);
    CompactMonotone(Min(Target(before, b), limit), Min(Target(before, a), limit));
  }

  lemma SmallerDivisor(a: real, b: real)
    requires a <= b
    ensures Divisor(a) <= Divisor(b)
  {
    assert 10000.0 * a <= 10000.0 * b;
  }

  lemma TargetGrows(before: nat, d: nat, e: nat)
    requires 0 < d <= e
    ensures 0 <= TruncDiv(before, e) <= TruncDiv(before, d)
  {
    var q, r := TruncDiv(before, d), TruncDiv(before, e);
    if r > q {
      MulMonotone(d, e, r);
      assert d * r >= d * (q + 1) by {
        MulUp(d, q + 1, r);
      }
    }
  }

  lemma MulUp(d: nat, a: nat, b: nat)
    requires a <= b
    ensures d * a <= d * b
  {
  }

  // ---------------------------------------------------------------- what the curve does

  function Factorial(n: nat): (f: real)
    ensures f > 0.0
  {
    if n == 0 then 1.0 else (n as real) * Factorial(n - 1)
  }

  /** The average after `n` rounds, which divide by two, by three and so on. */
  function Over(average: real, n: nat): real {
    if n == 0 then average else Over(average, n - 1) / ((n + 1) as real)
  }

  lemma DivideTwice(a: real, x: real, y: real)
    requires x > 0.0 && y > 0.0
    ensures x * y > 0.0 && a / x / y == a / (x * y)
  {
    var q := a / x / y;
    assert q * y == a / x;
    assert q * y * x == a;
    assert q * (x * y) == a;
  }

  lemma {:induction false} OverFactorial(average: real, n: nat)
    ensures Over(average, n) == average / Factorial(n + 1)
  {
    if n > 0 {
      OverFactorial(average, n - 1);
      DivideTwice(average, Factorial(n), (n + 1) as real);
    } else {
      assert Factorial(0) == 1.0;
    }
  }

  /** `n` rounds begin within `late` seconds: the first after `first` minutes, each next one `step` minutes later,
      and no more than `most`. */
  ghost predicate Begin(late: int, first: nat, step: nat, most: nat, n: nat) {
    && n <= most
    && (n > 0 ==> late > (first + (n - 1) * step) * 60)
    && (n < most ==> late <= (first + n * step) * 60)
  }

  lemma {:induction false} LaterFrom(average: real, late: int, n: nat, k: nat)
    requires k <= n && Begin(late, 45, 5, 5, n) && average >= 0.5
    ensures RunCurve(Over(average, k), k + 2, 45 + 5 * k, 5, 65, late, k)
            == Curved(Over(average, n), late > 4200, n)
    decreases n - k
  {
    if k < n {
      EnoughLeft(average, k + 1);
      LaterFrom(average, late, n, k + 1);
    }
  }

  lemma Factorials()
    ensures Factorial(1) == 1.0 && Factorial(2) == 2.0 && Factorial(3) == 6.0 && Factorial(4) == 24.0
    ensures Factorial(5) == 120.0 && Factorial(6) == 720.0 && Factorial(7) == 5040.0
  {
  }

  lemma EnoughLeft(average: real, k: nat)
    requires (k <= 5 && average >= 0.5) || (k <= 6 && average >= 0.504)
    ensures Divisor(Over(average, k)) > 0
  {
    OverFactorial(average, k);
    Factorials();
    assert average / (if k <= 5 then 720.0 else 5040.0) >= 0.0001;
  }

  /** Above height 63000 the `n` rounds that begin divide the average by the factorial of n + 1, and more than seventy
      minutes reset it to the limit. */
  lemma LaterCurveExactly(average: real, late: int, n: nat)
    requires average >= 0.5 && Begin(late, 45, 5, 5, n)
    ensures LaterCurve(average, late) == Curved(average / Factorial(n + 1), late > 4200, n)
  {
    LaterFrom(average, late, n, 0);
    OverFactorial(average, n);
  }

  lemma {:induction false} EarlierFrom(average: real, late: int, n: nat, k: nat)
    requires k <= n && Begin(late, 15, 1, 6, n) && average >= 0.5 && (n < 6 || average >= 0.504)
    ensures RunCurve(Over(average, k), k + 2, 15 + k, 1, 20, late, k)
            == Curved(Over(average, n), late > 1260, n)
    decreases n - k
  {
    if k < n {
      EnoughLeft(average, k + 1);
      EarlierFrom(average, late, n, k + 1);
    }
  }

  /** From height 7501 to 63000 the rounds are a minute apart and up to six, and more than twenty-one minutes reset
      the average to the limit, unless the sixth round divides it down to nothing. */
  lemma EarlierCurveExactly(average: real, late: int, n: nat)
    requires average >= 0.5 && Begin(late, 15, 1, 6, n)
    ensures EarlierCurve(average, late) ==
      if n == 6 && average < 0.504 then DivisorZero
      else Curved(average / Factorial(n + 1), late > 1260, n)
  {
    EarlierCurveFails(average, late);
    if n < 6 || average >= 0.504 {
      EarlierFrom(average, late, n, 0);
      OverFactorial(average, n);
    }
  }

  /** Below height 7501 the `n` hours that begin after the fifteenth halve the average each. */
  lemma StandardCurveExactly(average: real, dif: int, n: nat)
    requires Begin(dif, 15 * 60, 60, 4, n)
    ensures StandardCurve(average, dif) == Curved(average / (Power2(n) as real), false, n)
  {
    assert Power2(1) == 2 && Power2(2) == 4 && Power2(3) == 8 && Power2(4) == 16;
  }

  /** Which curve applies: by height, by the time since the nearest block of the type, modulo 2^64, and, for low
      heights, by the time between that block and the one before it. */
  lemma CurveByHeight(back: ChainBack, stake: bool, v: nat, tooEasy: bool)
    requires |back| >= SCAN_HEIGHT && Nearest(back, stake, v)
    ensures var late := (back[0].time - back[v].time) % 0x1_0000_0000_0000_0000;
            var gap := (back[v].time - back[v + 1].time) % 0x1_0000_0000_0000_0000;
            Curve(back, v, tooEasy) ==
              if |back| <= 7501 then StandardCurve(Average(back), gap)
              else if tooEasy then Curved(Average(back), false, 0)
              else if |back| <= 63001 then EarlierCurve(Average(back), late)
              else LaterCurve(Average(back), late)
  {
  }
}
