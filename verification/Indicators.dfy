/** The indicators of src/ai.c as functions of the held samples, newest first, and their laws.
    Reals stand for doubles; volatility is stated through its square. */
module Indicators {

  predicate AllPositive(w: seq<real>) {
    forall i :: 0 <= i < |w| ==> w[i] > 0.0
  }

  /** The sum of the n newest samples. */
  function Sum(w: seq<real>, n: nat): real
    requires n <= |w|
  {
    if n == 0 then 0.0 else Sum(w, n - 1) + w[n - 1]
  }

  function MovingAverage(w: seq<real>, periods: int): real {
    if |w| < periods || periods <= 0 then -1.0 else Sum(w, periods) / (periods as real)
  }

  function Square(x: real): real {
    x * x
  }

  function Times(x: real, y: real): real {
    x * y
  }

  /** The sum of the squared distances of the n newest samples from m. */
  function Spread(w: seq<real>, m: real, n: nat): real
    requires n <= |w|
  {
    if n == 0 then 0.0 else Spread(w, m, n - 1) + Square(w[n - 1] - m)
  }

  /** The square of calculate_volatility. */
  function Variance(w: seq<real>): real {
    if |w| < 2 then 0.0 else Spread(w, MovingAverage(w, |w|), |w|) / (|w| as real)
  }

  function Smoothing(periods: int): real
    requires periods > 0
  {
    2.0 / ((periods + 1) as real)
  }

  function Blend(k: real, price: real, ema: real): real {
    price * k + ema * (1.0 - k)
  }

  /** The average after the loop of calculate_ema has reached i: it starts from the mean of the
      newest samples and then runs from older to newer ones. */
  function EmaUpTo(w: seq<real>, periods: int, i: nat): real
    requires 0 < periods <= i <= |w|
  {
    if i == periods then MovingAverage(w, periods)
    else Blend(Smoothing(periods), w[|w| - i], EmaUpTo(w, periods, i - 1))
  }

  function Ema(w: seq<real>, periods: int): real {
    if |w| < periods || periods <= 0 then -1.0 else EmaUpTo(w, periods, |w|)
  }

  const LOOKBACK := 5

  function Momentum(w: seq<real>): real {
    if |w| < LOOKBACK + 1 || w[0] <= 0.0 || w[LOOKBACK] <= 0.0 then 0.0
    else (w[0] - w[LOOKBACK]) / w[LOOKBACK] * 100.0
  }

  function Gain(change: real): real {
    if change > 0.0 then change else 0.0
  }

  /** The rises, and the falls, between neighbours among the n + 1 newest samples. */
  function Gains(w: seq<real>, n: nat): (g: real)
    requires n < |w|
    ensures g >= 0.0
  {
    if n == 0 then 0.0 else Gains(w, n - 1) + Gain(w[n - 1] - w[n])
  }

  function Losses(w: seq<real>, n: nat): (l: real)
    requires n < |w|
    ensures l >= 0.0
  {
    if n == 0 then 0.0 else Losses(w, n - 1) + Gain(w[n] - w[n - 1])
  }

  function Rsi(w: seq<real>, periods: int): real {
    if |w| < periods + 1 then 50.0
    else if periods <= 0 || Losses(w, periods) == 0.0 then 100.0
    else RsiOf(Gains(w, periods), Losses(w, periods), periods as real)
  }

  function RsiOf(gains: real, losses: real, n: real): real
    requires gains >= 0.0 && losses > 0.0 && n > 0.0
  {
    StrengthNonNegative(gains, losses, n);
    var rs := (gains / n) / (losses / n);
    100.0 - 100.0 / (1.0 + rs)
  }

  lemma StrengthNonNegative(gains: real, losses: real, n: real)
    requires gains >= 0.0 && losses > 0.0 && n > 0.0
    ensures losses / n > 0.0 && (gains / n) / (losses / n) == gains / losses >= 0.0
  {
    assert losses / n * n == losses;
    var q := gains / losses;
    assert q * losses == gains;
    assert gains / n == q * (losses / n);
  }

  /** With positive samples the long mean is never 0. */
  function Crossover(w: seq<real>): int {
    var short := MovingAverage(w, 5);
    var long := MovingAverage(w, 10);
    if short < 0.0 || long <= 0.0 then 0
    else
      var diff := (short - long) / long * 100.0;
      if diff > 0.5 then 1 else if diff < -0.5 then -1 else 0
  }

  function Predict(w: seq<real>): int {
    var momentum := Momentum(w);
    var rsi := Rsi(w, 14);
    var score :=
      (if momentum > 1.0 then 1 else if momentum < -1.0 then -1 else 0)
      + Crossover(w)
      + (if rsi > 70.0 then -1 else if rsi < 30.0 then 1 else 0);
    if score >= 2 then 1 else if score <= -2 then -1 else 0
  }

  // ---- Means lie between bounds ----

  ghost predicate Between(w: seq<real>, lo: real, hi: real) {
    forall i :: 0 <= i < |w| ==> lo <= w[i] <= hi
  }

  lemma {:induction false} SumBetween(w: seq<real>, n: nat, lo: real, hi: real)
    requires n <= |w| && Between(w, lo, hi)
    ensures lo * (n as real) <= Sum(w, n) <= hi * (n as real)
  {
    if n == 0 {
    } else {
      SumBetween(w, n - 1, lo, hi);
      assert lo * (n as real) == lo * ((n - 1) as real) + lo;
      assert hi * (n as real) == hi * ((n - 1) as real) + hi;
    }
  }

  lemma QuotientBetween(x: real, n: real, lo: real, hi: real)
    requires n > 0.0 && lo * n <= x <= hi * n
    ensures lo <= x / n <= hi
  {
    assert x / n * n == x;
  }

  lemma AverageBetween(w: seq<real>, periods: int, lo: real, hi: real)
    requires 0 < periods <= |w| && Between(w, lo, hi)
    ensures lo <= MovingAverage(w, periods) <= hi
  {
    SumBetween(w, periods, lo, hi);
    QuotientBetween(Sum(w, periods), periods as real, lo, hi);
  }

  // ---- Variance ----

  /** The sum of the squares of the n newest samples. */
  function SumSquares(w: seq<real>, n: nat): real
    requires n <= |w|
  {
    if n == 0 then 0.0 else SumSquares(w, n - 1) + Square(w[n - 1])
  }

  lemma SquareOfDifference(x: real, m: real)
    ensures Square(x - m) == Square(x) - 2.0 * Times(m, x) + Square(m)
  {
  }

  lemma TimesSum(m: real, s: real, x: real)
    ensures Times(m, s + x) == Times(m, s) + Times(m, x)
  {
  }

  lemma TimesNext(n: nat, c: real)
    ensures Times((n + 1) as real, c) == Times(n as real, c) + c
  {
  }

  lemma {:induction false} SpreadExpands(w: seq<real>, m: real, n: nat)
    requires n <= |w|
    ensures Spread(w, m, n) == SumSquares(w, n) - 2.0 * Times(m, Sum(w, n)) + Times(n as real, Square(m))
  {
    if n == 0 {
    } else {
      hide Times, Square;
      SpreadExpands(w, m, n - 1);
      SquareOfDifference(w[n - 1], m);
      TimesSum(m, Sum(w, n - 1), w[n - 1]);
      TimesNext(n - 1, Square(m));
    }
  }

  lemma DivideExpansion(q: real, s: real, m: real, n: real)
    requires n > 0.0 && s == Times(m, n)
    ensures (q - 2.0 * Times(m, s) + Times(n, Square(m))) / n == q / n - Square(m)
  {
    assert q - 2.0 * Times(m, s) + Times(n, Square(m)) == (q / n - Square(m)) * n;
  }

  lemma MeanTimesCount(w: seq<real>, periods: int)
    requires 0 < periods <= |w|
    ensures Sum(w, periods) == Times(MovingAverage(w, periods), periods as real)
  {
  }

  /** The variance is the mean of the squares minus the square of the mean. */
  lemma VarianceIsMeanOfSquares(w: seq<real>)
    requires |w| >= 2
    ensures Variance(w) == SumSquares(w, |w|) / (|w| as real) - Square(MovingAverage(w, |w|))
  {
    var m := MovingAverage(w, |w|);
    SpreadExpands(w, m, |w|);
    MeanTimesCount(w, |w|);
    hide Times, Square, MovingAverage;
    DivideExpansion(SumSquares(w, |w|), Sum(w, |w|), m, |w| as real);
  }

  lemma SquareZero(x: real)
    ensures Square(x) >= 0.0 && (Square(x) == 0.0 <==> x == 0.0)
  {
    if x != 0.0 {
      SquarePositive(x);
    }
  }

  lemma SquarePositive(x: real)
    requires x != 0.0
    ensures Square(x) > 0.0
  {
    hide Square, Times;
    SquareIsTimes(x);
    if x > 0.0 {
      TimesPositive(x, x);
    } else {
      TimesPositive(-x, -x);
    }
  }

  lemma SquareIsTimes(x: real)
    ensures Square(x) == Times(x, x) == Times(-x, -x)
  {
  }

  lemma TimesPositive(x: real, y: real)
    requires x > 0.0 && y > 0.0
    ensures Times(x, y) > 0.0
  {
  }

  lemma ProductPositive(x: real, y: real)
    requires x > 0.0 && y > 0.0
    ensures x * y > 0.0
  {
  }

  lemma {:induction false} SpreadZero(w: seq<real>, m: real, n: nat)
    requires n <= |w|
    ensures Spread(w, m, n) >= 0.0
    ensures Spread(w, m, n) == 0.0 <==> forall i :: 0 <= i < n ==> w[i] == m
  {
    if n == 0 {
    } else {
      SpreadZero(w, m, n - 1);
      SquareZero(w[n - 1] - m);
    }
  }

  lemma QuotientZero(x: real, n: real)
    requires n > 0.0 && x >= 0.0
    ensures x / n >= 0.0 && (x / n == 0.0 <==> x == 0.0)
  {
  }

  /** No volatility exactly when all samples are equal. */
  lemma VarianceZeroExactlyWhenFlat(w: seq<real>)
    requires |w| >= 2
    ensures Variance(w) >= 0.0
    ensures Variance(w) == 0.0 <==> forall i, j :: 0 <= i < |w| && 0 <= j < |w| ==> w[i] == w[j]
  {
    var m := MovingAverage(w, |w|);
    SpreadZero(w, m, |w|);
    QuotientZero(Spread(w, m, |w|), |w| as real);
    if forall i, j :: 0 <= i < |w| && 0 <= j < |w| ==> w[i] == w[j] {
      AverageBetween(w, |w|, w[0], w[0]);
    } else {
      var i, j :| 0 <= i < |w| && 0 <= j < |w| && w[i] != w[j];
      assert w[i] != m || w[j] != m;
    }
  }

  lemma ProductNonNegative(x: real, y: real)
    requires x >= 0.0 && y >= 0.0
    ensures x * y >= 0.0
  {
  }

  /** For lo <= x <= hi the product (x - lo) * (hi - x) is not negative. */
  lemma SquareBelow(x: real, m: real, lo: real, hi: real)
    requires lo <= x <= hi
    ensures Square(x - m) <= Square(m) - Times(lo, hi) + Times(lo + hi - 2.0 * m, x)
  {
    ProductNonNegative(x - lo, hi - x);
    assert Square(x - m) == Square(m) - Times(lo, hi) + Times(lo + hi - 2.0 * m, x) - (x - lo) * (hi - x);
  }

  lemma {:induction false} SpreadBelow(w: seq<real>, m: real, n: nat, lo: real, hi: real)
    requires n <= |w| && Between(w, lo, hi)
    ensures Spread(w, m, n) <=
            Times(n as real, Square(m) - Times(lo, hi)) + Times(lo + hi - 2.0 * m, Sum(w, n))
  {
    if n == 0 {
    } else {
      var c := Square(m) - Times(lo, hi);
      SpreadBelow(w, m, n - 1, lo, hi);
      SquareBelow(w[n - 1], m, lo, hi);
      hide Times, Square;
      TimesNext(n - 1, c);
      TimesSum(lo + hi - 2.0 * m, Sum(w, n - 1), w[n - 1]);
    }
  }

  /** What SpreadBelow says of the mean itself, and the inequality between means. */
  lemma QuarterRange(spread: real, s: real, m: real, n: real, lo: real, hi: real)
    requires n > 0.0 && s == Times(m, n)
    requires spread <= Times(n, Square(m) - Times(lo, hi)) + Times(lo + hi - 2.0 * m, s)
    ensures spread / n <= Square(hi - lo) / 4.0
  {
    var d := hi + lo - 2.0 * m;
    var bound := (hi - m) * (m - lo);
    assert Times(n, Square(m) - Times(lo, hi)) + Times(d, s) == bound * n;
    assert Square(hi - lo) - 4.0 * bound == Square(d);
    SquareZero(d);
    assert spread / n * n == spread;
    assert (bound - spread / n) * n >= 0.0;
  }

  /** Samples between lo and hi have a variance of at most a quarter of the squared range. */
  lemma VarianceAtMostQuarterRange(w: seq<real>, lo: real, hi: real)
    requires |w| >= 2 && Between(w, lo, hi)
    ensures Variance(w) <= Square(hi - lo) / 4.0
  {
    var m := MovingAverage(w, |w|);
    SpreadBelow(w, m, |w|, lo, hi);
    MeanTimesCount(w, |w|);
    hide Times, Square, MovingAverage;
    QuarterRange(Spread(w, m, |w|), Sum(w, |w|), m, |w| as real, lo, hi);
  }

  // ---- The exponential average is a weighted mean ----

  function Dot(u: seq<real>, w: seq<real>, n: nat): real
    requires n <= |u| && n <= |w|
  {
    if n == 0 then 0.0 else Dot(u, w, n - 1) + Times(u[n - 1], w[n - 1])
  }

  function Ones(n: nat): seq<real> {
    seq(n, _ => 1.0)
  }

  /** The weights after one more sample, at position j, has been blended in. */
  function Blended(u: seq<real>, k: real, j: nat): seq<real> {
    seq(|u|, i requires 0 <= i < |u| => if i == j then k + Times(1.0 - k, u[i]) else Times(1.0 - k, u[i]))
  }

  /** The weight of every sample in EmaUpTo(w, periods, i), for |w| == n. */
  function Weights(n: nat, periods: int, i: nat): (u: seq<real>)
    requires 0 < periods <= i <= n
    ensures |u| == n
  {
    if i == periods then seq(n, j => if j < periods then 1.0 / (periods as real) else 0.0)
    else Blended(Weights(n, periods, i - 1), Smoothing(periods), n - i)
  }

  lemma {:induction false} DotOfMean(w: seq<real>, periods: int, n: nat)
    requires 0 < periods <= |w| && n <= |w|
    ensures Dot(Weights(|w|, periods, periods), w, n) ==
            Sum(w, if n < periods then n else periods) / (periods as real)
  {
    if n == 0 {
    } else {
      DotOfMean(w, periods, n - 1);
      if n <= periods {
        DivideSum(Sum(w, n - 1), w[n - 1], periods as real);
      }
    }
  }

  lemma DivideSum(s: real, x: real, n: real)
    requires n > 0.0
    ensures s / n + Times(1.0 / n, x) == (s + x) / n
  {
    assert (s / n + 1.0 / n * x) * n == s + x;
  }

  lemma {:induction false} DotOfBlend(u: seq<real>, w: seq<real>, k: real, j: nat, n: nat)
    requires n <= |u| && n <= |w|
    ensures Dot(Blended(u, k, j), w, n) ==
            Times(1.0 - k, Dot(u, w, n)) + if j < n then Times(k, w[j]) else 0.0
  {
    if n > 0 {
      DotOfBlend(u, w, k, j, n - 1);
      TimesBlend(1.0 - k, Dot(u, w, n - 1), u[n - 1], w[n - 1]);
      TimesShare(k, Times(1.0 - k, u[n - 1]), w[n - 1]);
      hide Times;
    } else {
      assert Times(1.0 - k, 0.0) == 0.0;
    }
  }

  lemma TimesBlend(c: real, d: real, x: real, y: real)
    ensures Times(c, d + Times(x, y)) == Times(c, d) + Times(Times(c, x), y)
  {
  }

  lemma TimesShare(k: real, x: real, y: real)
    ensures Times(k + x, y) == Times(k, y) + Times(x, y)
  {
  }

  lemma SmoothingIsFraction(periods: int)
    requires periods > 0
    ensures 0.0 < Smoothing(periods) <= 1.0
  {
    var n := (periods + 1) as real;
    assert Smoothing(periods) * n == 2.0 && n >= 2.0;
  }

  lemma {:induction false} EmaIsWeightedSum(w: seq<real>, periods: int, i: nat)
    requires 0 < periods <= i <= |w|
    ensures EmaUpTo(w, periods, i) == Dot(Weights(|w|, periods, i), w, |w|)
  {
    if i == periods {
      DotOfMean(w, periods, |w|);
    } else {
      hide Smoothing, Blend, Times, Dot, MovingAverage;
      EmaIsWeightedSum(w, periods, i - 1);
      DotOfBlend(Weights(|w|, periods, i - 1), w, Smoothing(periods), |w| - i, |w|);
      BlendIsSum(Smoothing(periods), w[|w| - i], EmaUpTo(w, periods, i - 1));
    }
  }

  lemma BlendIsSum(k: real, price: real, ema: real)
    ensures Blend(k, price, ema) == Times(k, price) + Times(1.0 - k, ema)
  {
  }

  lemma {:induction false} WeightsAreNonNegative(n: nat, periods: int, i: nat)
    requires 0 < periods <= i <= n
    ensures forall j :: 0 <= j < n ==> Weights(n, periods, i)[j] >= 0.0
  {
    if i == periods {
    } else {
      var k := Smoothing(periods);
      var u := Weights(n, periods, i - 1);
      SmoothingIsFraction(periods);
      WeightsAreNonNegative(n, periods, i - 1);
      forall j | 0 <= j < n ensures Weights(n, periods, i)[j] >= 0.0 {
        ProductNonNegative(1.0 - k, u[j]);
      }
    }
  }

  /** The weights add up to 1: an average of ones is 1. */
  lemma WeightsAddUpToOne(n: nat, periods: int, i: nat)
    requires 0 < periods <= i <= n
    ensures Dot(Weights(n, periods, i), Ones(n), n) == 1.0
  {
    EmaIsWeightedSum(Ones(n), periods, i);
    EmaOfOnes(n, periods, i);
  }

  lemma {:induction false} EmaOfOnes(n: nat, periods: int, i: nat)
    requires 0 < periods <= i <= n
    ensures EmaUpTo(Ones(n), periods, i) == 1.0
  {
    if i == periods {
      AverageBetween(Ones(n), periods, 1.0, 1.0);
    } else {
      EmaOfOnes(n, periods, i - 1);
      var k := Smoothing(periods);
      assert Blend(k, 1.0, 1.0) == 1.0;
    }
  }

  lemma {:induction false} DotBetween(u: seq<real>, w: seq<real>, n: nat, lo: real, hi: real)
    requires n <= |u| && n <= |w| && Between(w, lo, hi)
    requires forall j :: 0 <= j < |u| ==> u[j] >= 0.0
    ensures Times(lo, Dot(u, Ones(|w|), n)) <= Dot(u, w, n) <= Times(hi, Dot(u, Ones(|w|), n))
  {
    if n > 0 {
      DotBetween(u, w, n - 1, lo, hi);
      WeightBetween(u[n - 1], w[n - 1], lo, hi);
      TimesSum(lo, Dot(u, Ones(|w|), n - 1), Times(u[n - 1], 1.0));
      TimesSum(hi, Dot(u, Ones(|w|), n - 1), Times(u[n - 1], 1.0));
      hide Times;
    } else {
      assert Times(lo, 0.0) == 0.0 && Times(hi, 0.0) == 0.0;
    }
  }

  lemma WeightBetween(u: real, x: real, lo: real, hi: real)
    requires u >= 0.0 && lo <= x <= hi
    ensures Times(lo, Times(u, 1.0)) <= Times(u, x) <= Times(hi, Times(u, 1.0))
  {
    ProductNonNegative(u, x - lo);
    ProductNonNegative(u, hi - x);
  }

  /** The exponential average is a weighted sum of the held samples with nonnegative weights that add
      up to 1, so it lies between the least and the greatest of them. */
  lemma EmaIsWeightedMean(w: seq<real>, periods: int, lo: real, hi: real)
    requires 0 < periods <= |w| && Between(w, lo, hi)
    ensures var u := Weights(|w|, periods, |w|);
            && (forall j :: 0 <= j < |w| ==> u[j] >= 0.0)
            && Dot(u, Ones(|w|), |w|) == 1.0
            && Ema(w, periods) == Dot(u, w, |w|)
    ensures lo <= Ema(w, periods) <= hi
  {
    var u := Weights(|w|, periods, |w|);
    EmaIsWeightedSum(w, periods, |w|);
    WeightsAreNonNegative(|w|, periods, |w|);
    WeightsAddUpToOne(|w|, periods, |w|);
    DotBetween(u, w, |w|, lo, hi);
  }

  // ---- RSI ----

  /** Gains minus losses telescopes. */
  lemma {:induction false} GainsMinusLosses(w: seq<real>, n: nat)
    requires n < |w|
    ensures Gains(w, n) - Losses(w, n) == w[0] - w[n]
  {
    if n == 0 {
    } else {
      GainsMinusLosses(w, n - 1);
    }
  }

  lemma RsiOfRange(gains: real, losses: real, n: real)
    requires gains >= 0.0 && losses > 0.0 && n > 0.0
    ensures 0.0 <= RsiOf(gains, losses, n) <= 100.0
    ensures RsiOf(gains, losses, n) > 50.0 <==> gains > losses
  {
    StrengthNonNegative(gains, losses, n);
    var rs := gains / losses;
    assert rs * losses == gains;
    assert rs > 1.0 <==> gains > losses by {
      if rs > 1.0 { ProductPositive(rs - 1.0, losses); } else { ProductNonNegative(1.0 - rs, losses); }
    }
    var share := 100.0 / (1.0 + rs);
    assert share * (1.0 + rs) == 100.0;
    ShareOfHundred(share, rs);
  }

  lemma ShareOfHundred(share: real, rs: real)
    requires rs >= 0.0 && share * (1.0 + rs) == 100.0
    ensures 0.0 <= share <= 100.0 && (share < 50.0 <==> rs > 1.0)
  {
    if share < 0.0 {
      ProductPositive(-share, 1.0 + rs);
    }
    ProductNonNegative(share, rs);
    if share < 50.0 && rs <= 1.0 {
      ProductNonNegative(share, 1.0 - rs);
    }
    if share >= 50.0 && rs > 1.0 {
      ProductPositive(share, rs - 1.0);
    }
  }

  ghost predicate Flat(w: seq<real>, n: nat)
    requires n < |w|
  {
    forall i :: 0 <= i < n ==> w[i] == w[i + 1]
  }

  lemma {:induction false} NoMovesExactlyWhenFlat(w: seq<real>, n: nat)
    requires n < |w|
    ensures Gains(w, n) == 0.0 && Losses(w, n) == 0.0 <==> Flat(w, n)
  {
    if n == 0 {
    } else {
      NoMovesExactlyWhenFlat(w, n - 1);
    }
  }

  /** RSI lies in [0, 100]; given enough samples it is above 50 exactly when the newest sample is
      above the one `periods` back or the window between them is flat. */
  lemma RsiSign(w: seq<real>, periods: int)
    ensures 0.0 <= Rsi(w, periods) <= 100.0
    ensures 0 <= periods < |w| ==> (Rsi(w, periods) > 50.0 <==> w[0] > w[periods] || Flat(w, periods))
  {
    if 0 < periods < |w| {
      hide RsiOf;
      GainsMinusLosses(w, periods);
      NoMovesExactlyWhenFlat(w, periods);
      if Losses(w, periods) > 0.0 {
        RsiOfRange(Gains(w, periods), Losses(w, periods), periods as real);
      }
    }
  }

  // ---- Scale invariance ----

  function Scaled(w: seq<real>, c: real): seq<real> {
    seq(|w|, i requires 0 <= i < |w| => Times(c, w[i]))
  }

  lemma {:induction false} SumScales(w: seq<real>, c: real, n: nat)
    requires n <= |w|
    ensures Sum(Scaled(w, c), n) == Times(c, Sum(w, n))
  {
    if n == 0 {
    } else {
      SumScales(w, c, n - 1);
      TimesSum(c, Sum(w, n - 1), w[n - 1]);
    }
  }

  lemma {:induction false} MovesScale(w: seq<real>, c: real, n: nat)
    requires n < |w| && c > 0.0
    ensures Gains(Scaled(w, c), n) == Times(c, Gains(w, n))
    ensures Losses(Scaled(w, c), n) == Times(c, Losses(w, n))
  {
    if n == 0 {
    } else {
      MovesScale(w, c, n - 1);
      GainScales(w[n - 1], w[n], c);
      GainScales(w[n], w[n - 1], c);
      TimesSum(c, Gains(w, n - 1), Gain(w[n - 1] - w[n]));
      TimesSum(c, Losses(w, n - 1), Gain(w[n] - w[n - 1]));
    }
  }

  lemma GainScales(x: real, y: real, c: real)
    requires c > 0.0
    ensures Gain(Times(c, x) - Times(c, y)) == Times(c, Gain(x - y))
  {
    if x > y {
      ProductPositive(c, x - y);
    } else {
      ProductNonNegative(c, y - x);
    }
  }

  lemma RatioScales(x: real, y: real, c: real)
    requires y != 0.0 && c > 0.0
    ensures Times(c, y) != 0.0 && Times(c, x) / Times(c, y) == x / y
  {
    SquareZero(c);
    if y > 0.0 { ProductPositive(c, y); } else { ProductPositive(c, -y); }
    var q := x / y;
    assert q * y == x;
    assert c * x == q * (c * y);
  }

  lemma SignScales(x: real, c: real)
    requires c > 0.0
    ensures (Times(c, x) > 0.0 <==> x > 0.0) && (Times(c, x) == 0.0 <==> x == 0.0)
  {
    if x > 0.0 { ProductPositive(c, x); } else if x < 0.0 { ProductPositive(c, -x); }
  }

  lemma AverageScales(w: seq<real>, c: real, periods: int)
    requires c > 0.0 && 0 < periods <= |w|
    ensures MovingAverage(Scaled(w, c), periods) == Times(c, MovingAverage(w, periods))
  {
    SumScales(w, c, periods);
    var n := periods as real;
    assert Times(c, Sum(w, periods)) / n == Times(c, Sum(w, periods) / n) by {
      DivideTimes(c, Sum(w, periods), n);
    }
  }

  lemma DivideTimes(c: real, s: real, n: real)
    requires n > 0.0
    ensures Times(c, s) / n == Times(c, s / n)
  {
    assert c * (s / n) * n == c * s;
  }

  lemma DifferenceScales(x: real, y: real, c: real)
    ensures Times(c, x) - Times(c, y) == Times(c, x - y)
  {
  }

  lemma MomentumScales(w: seq<real>, c: real)
    requires c > 0.0
    ensures Momentum(Scaled(w, c)) == Momentum(w)
  {
    if |w| >= LOOKBACK + 1 {
      SignScales(w[0], c);
      SignScales(w[LOOKBACK], c);
      if w[LOOKBACK] > 0.0 {
        DifferenceScales(w[0], w[LOOKBACK], c);
        RatioScales(w[0] - w[LOOKBACK], w[LOOKBACK], c);
      }
    }
  }

  lemma CrossoverScales(w: seq<real>, c: real)
    requires c > 0.0
    ensures Crossover(Scaled(w, c)) == Crossover(w)
  {
    if |w| >= 10 {
      var short, long := MovingAverage(w, 5), MovingAverage(w, 10);
      AverageScales(w, c, 5);
      AverageScales(w, c, 10);
      SignScales(short, c);
      SignScales(long, c);
      hide MovingAverage, Times;
      if long > 0.0 {
        DifferenceScales(short, long, c);
        RatioScales(short - long, long, c);
      }
    }
  }

  lemma RsiScales(w: seq<real>, c: real, periods: int)
    requires c > 0.0
    ensures Rsi(Scaled(w, c), periods) == Rsi(w, periods)
  {
    if 0 < periods < |w| {
      var g, l, n := Gains(w, periods), Losses(w, periods), periods as real;
      MovesScale(w, c, periods);
      SignScales(g, c);
      SignScales(l, c);
      hide Times, Gains, Losses;
      if l > 0.0 {
        RsiOfScales(g, l, n, c);
      }
    }
  }

  lemma RsiOfScales(g: real, l: real, n: real, c: real)
    requires g >= 0.0 && l > 0.0 && n > 0.0 && c > 0.0 && Times(c, g) >= 0.0 && Times(c, l) > 0.0
    ensures RsiOf(Times(c, g), Times(c, l), n) == RsiOf(g, l, n)
  {
    StrengthNonNegative(g, l, n);
    StrengthNonNegative(Times(c, g), Times(c, l), n);
    RatioScales(g, l, c);
  }

  /** Multiplying every sample by the same positive constant changes no signal. */
  lemma SignalsScale(w: seq<real>, c: real)
    requires c > 0.0
    ensures Momentum(Scaled(w, c)) == Momentum(w)
    ensures Crossover(Scaled(w, c)) == Crossover(w)
    ensures Rsi(Scaled(w, c), 14) == Rsi(w, 14)
    ensures Predict(Scaled(w, c)) == Predict(w)
  {
    hide Momentum, Crossover, Rsi;
    MomentumScales(w, c);
    CrossoverScales(w, c);
    RsiScales(w, c, 14);
  }
}
