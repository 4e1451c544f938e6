/** What the indicators of src/ai.c say about the samples, in sums and products of them. */
module IndicatorLaws {
  import opened Indicators

  // ---- Sums over a list ----

  function Total(s: seq<real>): real {
    if s == [] then 0.0 else s[0] + Total(s[1..])
  }

  function TotalSquares(s: seq<real>): real {
    if s == [] then 0.0 else s[0] * s[0] + TotalSquares(s[1..])
  }

  function Distance(x: real, y: real): real {
    if x < y then y - x else x - y
  }

  /** How far neighbours are apart, in all. */
  function Moved(s: seq<real>): real {
    if |s| < 2 then 0.0 else Distance(s[0], s[1]) + Moved(s[1..])
  }

  lemma {:induction false} TotalNext(s: seq<real>, x: real)
    ensures Total(s + [x]) == Total(s) + x
    ensures TotalSquares(s + [x]) == TotalSquares(s) + x * x
  {
    if s == [] {
      assert ([] + [x])[1..] == [];
    } else {
      assert (s + [x])[1..] == s[1..] + [x];
      TotalNext(s[1..], x);
    }
  }

  lemma {:induction false} MovedNext(s: seq<real>, x: real)
    requires s != []
    ensures Moved(s + [x]) == Moved(s) + Distance(s[|s| - 1], x)
  {
    if |s| == 1 {
      assert (s + [x])[1..] == [x];
    } else {
      assert (s + [x])[1..] == s[1..] + [x];
      MovedNext(s[1..], x);
    }
  }

  lemma {:induction false} SumIsTotal(w: seq<real>, n: nat)
    requires n <= |w|
    ensures Sum(w, n) == Total(w[..n]) && SumSquares(w, n) == TotalSquares(w[..n])
  {
    if n == 0 {
    } else {
      SumIsTotal(w, n - 1);
      TotalNext(w[..n - 1], w[n - 1]);
      assert w[..n - 1] + [w[n - 1]] == w[..n];
    }
  }

  lemma {:induction false} GainsAndLossesAreMoves(w: seq<real>, n: nat)
    requires n < |w|
    ensures Gains(w, n) + Losses(w, n) == Moved(w[..n + 1])
  {
    if n == 0 {
    } else {
      GainsAndLossesAreMoves(w, n - 1);
      MovedNext(w[..n], w[n]);
      assert w[..n] + [w[n]] == w[..n + 1];
    }
  }

  lemma {:induction false} TotalPositive(s: seq<real>)
    requires AllPositive(s) && s != []
    ensures Total(s) > 0.0
  {
    if |s| == 1 {
    } else {
      TotalPositive(s[1..]);
    }
  }

  // ---- Averages ----

  /** The moving average is the mean of the newest samples. */
  lemma AverageIsMean(w: seq<real>, periods: int)
    ensures 0 < periods <= |w| ==> MovingAverage(w, periods) * (periods as real) == Total(w[..periods])
    ensures periods <= 0 || |w| < periods ==> MovingAverage(w, periods) == -1.0
  {
    if 0 < periods <= |w| {
      SumIsTotal(w, periods);
      var s, n := Sum(w, periods), periods as real;
      assert s / n * n == s;
    }
  }

  /** The exponential average starts from the mean of the newest samples; then each sample, from the
      first one that is older than all but `periods`, counts twice in periods + 1. */
  lemma EmaRecurrence(w: seq<real>, periods: int, i: nat)
    requires 0 < periods <= i <= |w|
    ensures EmaUpTo(w, periods, periods) * (periods as real) == Total(w[..periods])
    ensures i < |w| ==>
              EmaUpTo(w, periods, i + 1) * ((periods + 1) as real) ==
              2.0 * w[|w| - 1 - i] + EmaUpTo(w, periods, i) * ((periods - 1) as real)
    ensures Ema(w, periods) == EmaUpTo(w, periods, |w|)
  {
    AverageIsMean(w, periods);
    if i < |w| {
      BlendTimes(periods, w[|w| - 1 - i], EmaUpTo(w, periods, i));
    }
  }

  lemma BlendTimes(periods: int, price: real, ema: real)
    requires periods > 0
    ensures Blend(Smoothing(periods), price, ema) * ((periods + 1) as real) ==
            2.0 * price + ema * ((periods - 1) as real)
  {
    var n := (periods + 1) as real;
    var k := Smoothing(periods);
    assert k * n == 2.0;
    assert (periods - 1) as real == n - 2.0;
    BlendExpands(k, n, price, ema);
  }

  lemma BlendExpands(k: real, n: real, price: real, ema: real)
    requires k * n == 2.0
    ensures (price * k + ema * (1.0 - k)) * n == 2.0 * price + ema * (n - 2.0)
  {
    assert (price * k + ema * (1.0 - k)) * n == price * (k * n) + ema * (n - k * n);
  }

  /** The variance, from the sum of the samples and the sum of their squares. */
  lemma VarianceIsOfTotals(w: seq<real>)
    requires |w| >= 2
    ensures var n := |w| as real;
            Variance(w) * n * n == n * TotalSquares(w) - Total(w) * Total(w)
  {
    hide Total, TotalSquares, Variance, MovingAverage, Square, Sum, SumSquares;
    assert w[..|w|] == w;
    SumIsTotal(w, |w|);
    AverageIsMean(w, |w|);
    VarianceIsMeanOfSquares(w);
    MeansToTotals(TotalSquares(w), Total(w), MovingAverage(w, |w|), |w| as real);
  }

  lemma MeansToTotals(q: real, s: real, m: real, n: real)
    requires n > 0.0 && m * n == s
    ensures (q / n - Square(m)) * n * n == n * q - s * s
  {
    var p := q / n;
    assert p * n == q;
    assert (p - m * m) * n * n == (p * n) * n - (m * n) * (m * n);
  }

  // ---- Signals ----

  /** A quotient compared with a bound. */
  lemma QuotientAbove(x: real, y: real, bound: real)
    requires y > 0.0
    ensures x / y * 100.0 > bound <==> 100.0 * x > bound * y
    ensures x / y * 100.0 < bound <==> 100.0 * x < bound * y
    ensures x / y * y == x
  {
    var q := x / y;
    assert q * y == x;
    assert 100.0 * x - bound * y == (q * 100.0 - bound) * y;
    Sign(q * 100.0 - bound, y);
  }

  lemma Sign(x: real, y: real)
    requires y > 0.0
    ensures x * y > 0.0 <==> x > 0.0
    ensures x * y < 0.0 <==> x < 0.0
  {
  }

  /** The signal points up when the five newest samples are, on average, more than half a percent above
      the ten newest, down when they are as much below, and needs ten samples. */
  lemma CrossoverPoints(w: seq<real>)
    requires AllPositive(w)
    ensures |w| < 10 ==> Crossover(w) == 0
    ensures |w| >= 10 ==>
              var s5, s10 := Total(w[..5]), Total(w[..10]);
              && (Crossover(w) == 1 <==> 400.0 * s5 > 201.0 * s10)
              && (Crossover(w) == -1 <==> 400.0 * s5 < 199.0 * s10)
              && (Crossover(w) == 0 <==> 199.0 * s10 <= 400.0 * s5 <= 201.0 * s10)
  {
    AverageIsMean(w, 5);
    AverageIsMean(w, 10);
    if |w| >= 10 {
      hide MovingAverage;
      TotalPositive(w[..5]);
      TotalPositive(w[..10]);
      var short, long := MovingAverage(w, 5), MovingAverage(w, 10);
      QuotientAbove(short - long, long, 0.5);
      QuotientAbove(short - long, long, -0.5);
    }
  }

  /** The momentum is the change over five samples in percent of the older one. */
  lemma MomentumIsChange(w: seq<real>)
    requires AllPositive(w)
    ensures |w| < 6 ==> Momentum(w) == 0.0
    ensures |w| >= 6 ==> Momentum(w) * w[5] == 100.0 * (w[0] - w[5])
    ensures |w| >= 6 ==> (Momentum(w) > 1.0 <==> 100.0 * (w[0] - w[5]) > w[5])
    ensures |w| >= 6 ==> (Momentum(w) < -1.0 <==> 100.0 * (w[0] - w[5]) < -w[5])
  {
    if |w| >= 6 {
      QuotientAbove(w[0] - w[5], w[5], 1.0);
      QuotientAbove(w[0] - w[5], w[5], -1.0);
      var q := (w[0] - w[5]) / w[5];
      assert q * 100.0 * w[5] == 100.0 * (q * w[5]);
    }
  }

  /** RSI is half of a hundred, plus as much as the net rise is of all moves in the window. */
  lemma RsiIsShare(w: seq<real>, periods: int)
    requires periods > 0
    ensures |w| <= periods ==> Rsi(w, periods) == 50.0
    ensures |w| > periods ==>
              var moved := Moved(w[..periods + 1]);
              && moved >= 0.0
              && (moved == 0.0 ==> Rsi(w, periods) == 100.0)
              && (moved > 0.0 ==> Rsi(w, periods) * moved == 50.0 * (moved + w[0] - w[periods]))
  {
    if |w| > periods {
      hide RsiOf, Gains, Losses, Moved;
      var g, l := Gains(w, periods), Losses(w, periods);
      GainsAndLossesAreMoves(w, periods);
      GainsMinusLosses(w, periods);
      NonNegative(w, periods);
      if l > 0.0 {
        RsiOfShare(g, l, periods as real);
      }
    }
  }

  lemma NonNegative(w: seq<real>, n: nat)
    requires n < |w|
    ensures Gains(w, n) >= 0.0 && Losses(w, n) >= 0.0
  {
  }

  lemma RsiOfShare(g: real, l: real, n: real)
    requires g >= 0.0 && l > 0.0 && n > 0.0
    ensures RsiOf(g, l, n) * (g + l) == 100.0 * g
  {
    StrengthNonNegative(g, l, n);
    var rs := g / l;
    assert rs * l == g;
    var share := 100.0 / (1.0 + rs);
    assert share * (1.0 + rs) == 100.0;
    assert share * (g + l) == share * (1.0 + rs) * l;
  }

  /** RSI above 70 and below 30. */
  lemma RsiBounds(w: seq<real>, periods: int)
    requires 0 < periods < |w|
    ensures var moved, rise := Moved(w[..periods + 1]), w[0] - w[periods];
            && (Rsi(w, periods) > 70.0 <==> moved == 0.0 || 5.0 * rise > 2.0 * moved)
            && (Rsi(w, periods) < 30.0 <==> 5.0 * rise < -2.0 * moved)
  {
    hide Rsi, Moved;
    RsiIsShare(w, periods);
    RiseIsAMove(w, periods);
    var r, moved := Rsi(w, periods), Moved(w[..periods + 1]);
    if moved > 0.0 {
      Compare(r, moved, 50.0 * (moved + w[0] - w[periods]), 70.0);
      Compare(r, moved, 50.0 * (moved + w[0] - w[periods]), 30.0);
    } else {
      assert moved == 0.0;
    }
  }

  lemma Compare(r: real, y: real, x: real, c: real)
    requires y > 0.0 && r * y == x
    ensures (r > c <==> x > c * y) && (r < c <==> x < c * y)
  {
    assert (r - c) * y == x - c * y;
    Sign(r - c, y);
  }

  lemma RiseIsAMove(w: seq<real>, n: nat)
    requires n < |w|
    ensures -Moved(w[..n + 1]) <= w[0] - w[n] <= Moved(w[..n + 1])
  {
    GainsAndLossesAreMoves(w, n);
    GainsMinusLosses(w, n);
    NonNegative(w, n);
  }

  function Vote(up: bool, down: bool): int {
    if up then 1 else if down then -1 else 0
  }

  /** The prediction takes two votes: momentum, crossover, and RSI against the trend. */
  lemma PredictionIsVote(w: seq<real>)
    requires AllPositive(w)
    ensures var momentum :=
              if |w| < 6 then 0
              else Vote(100.0 * (w[0] - w[5]) > w[5], 100.0 * (w[0] - w[5]) < -w[5]);
            var trend :=
              if |w| < 10 then 0
              else Vote(400.0 * Total(w[..5]) > 201.0 * Total(w[..10]), 400.0 * Total(w[..5]) < 199.0 * Total(w[..10]));
            var moved := if |w| < 15 then 0.0 else Moved(w[..15]);
            var bought :=
              if |w| < 15 then 0
              else Vote(moved == 0.0 || 5.0 * (w[0] - w[14]) > 2.0 * moved, 5.0 * (w[0] - w[14]) < -2.0 * moved);
            Predict(w) == Vote(momentum + trend - bought >= 2, momentum + trend - bought <= -2)
  {
    hide Momentum, Crossover, Rsi, Total, Moved;
    MomentumIsChange(w);
    CrossoverPoints(w);
    CrossoverValues(w);
    RsiIsShare(w, 14);
    if |w| >= 15 {
      RsiBounds(w, 14);
    }
  }

  lemma CrossoverValues(w: seq<real>)
    ensures -1 <= Crossover(w) <= 1
  {
  }
}
