/** The price history of src/ai.c: a 60-slot circular buffer that holds the last accepted samples. */
module PriceRing {
  import opened Indicators

  const MAX_PRICE_HISTORY := 60

  /** The PriceHistory struct, as a value: what a struct assignment or memcpy copies. */
  datatype RawRing = RawRing(prices: seq<real>, count: int, index: int)

  predicate InBounds(r: RawRing) {
    |r.prices| == MAX_PRICE_HISTORY && 0 <= r.count <= MAX_PRICE_HISTORY && 0 <= r.index < MAX_PRICE_HISTORY
  }

  /** What init_price_history leaves. */
  function Cleared(): RawRing {
    RawRing(seq(MAX_PRICE_HISTORY, _ => 0.0), 0, 0)
  }

  type Ring = r: RawRing | InBounds(r) witness Cleared()

  /** The slot of the sample `position` pushes before the newest. */
  function Slot(index: int, position: int): (slot: int)
    requires 0 <= index < MAX_PRICE_HISTORY && 0 <= position < MAX_PRICE_HISTORY
    ensures 0 <= slot < MAX_PRICE_HISTORY
  {
    (index - 1 - position + MAX_PRICE_HISTORY) % MAX_PRICE_HISTORY
  }

  function PriceAt(r: Ring, position: int): real {
    if position < 0 || position >= r.count then -1.0 else r.prices[Slot(r.index, position)]
  }

  /** add_price on the struct. */
  function Added(r: Ring, price: real): Ring {
    if price <= 0.0 then r
    else RawRing(r.prices[r.index := price],
                 if r.count < MAX_PRICE_HISTORY then r.count + 1 else r.count,
                 (r.index + 1) % MAX_PRICE_HISTORY)
  }

  /** The held samples, newest first. */
  function Newest(r: Ring): seq<real> {
    seq(r.count, p requires 0 <= p < r.count => PriceAt(r, p))
  }

  // ---- The last sixty accepted samples ----

  function Take(w: seq<real>): seq<real> {
    if |w| <= MAX_PRICE_HISTORY then w else w[..MAX_PRICE_HISTORY]
  }

  /** The window after one more sample. */
  function Push(w: seq<real>, price: real): seq<real> {
    if price <= 0.0 then w else Take([price] + w)
  }

  /** The window after a stream of samples, oldest of the stream first. */
  function Fed(samples: seq<real>): seq<real> {
    if samples == [] then [] else Push(Fed(samples[..|samples| - 1]), samples[|samples| - 1])
  }

  function Accepted(samples: seq<real>): seq<real> {
    if samples == [] then []
    else
      var k := |samples| - 1;
      Accepted(samples[..k]) + if samples[k] > 0.0 then [samples[k]] else []
  }

  lemma SlotAfterPush(index: int, position: int)
    requires 0 <= index < MAX_PRICE_HISTORY && 0 <= position < MAX_PRICE_HISTORY
    ensures var next := (index + 1) % MAX_PRICE_HISTORY;
            if position == 0 then Slot(next, position) == index
            else Slot(next, position) == Slot(index, position - 1) != index
  {
  }

  lemma AddedPushes(r: Ring, price: real)
    ensures Newest(Added(r, price)) == Push(Newest(r), price)
  {
    hide PriceAt;
    if price > 0.0 {
      forall p | 0 <= p < Added(r, price).count
        ensures Newest(Added(r, price))[p] == Push(Newest(r), price)[p]
      {
        PositionShifts(r, price, p);
      }
    }
  }

  lemma PositionShifts(r: Ring, price: real, p: nat)
    requires price > 0.0 && p < Added(r, price).count
    ensures PriceAt(Added(r, price), p) == if p == 0 then price else PriceAt(r, p - 1)
  {
    hide Slot;
    SlotAfterPush(r.index, p);
  }

  lemma PushKeepsPositive(w: seq<real>, price: real)
    requires AllPositive(w)
    ensures AllPositive(Push(w, price))
  {
  }

  /** The window w is the last sixty of the accepted samples a, newest first. */
  ghost predicate Latest(w: seq<real>, a: seq<real>) {
    && |w| == (if |a| < 60 then |a| else 60)
    && forall p :: 0 <= p < |w| ==> w[p] == a[|a| - 1 - p]
  }

  lemma PushIsLatest(w: seq<real>, a: seq<real>, price: real)
    requires Latest(w, a)
    ensures Latest(Push(w, price), if price > 0.0 then a + [price] else a)
  {
    if price > 0.0 {
      var v, b := Push(w, price), a + [price];
      forall p | 0 <= p < |v| ensures v[p] == b[|b| - 1 - p] {
        if p == 0 {
          assert v[p] == price;
        } else {
          assert v[p] == w[p - 1] == a[|a| - p];
        }
      }
    }
  }

  /** The ring holds the last sixty accepted samples: position p is the p-th newest of them. */
  lemma {:induction false} FedIsLatest(samples: seq<real>)
    ensures Latest(Fed(samples), Accepted(samples)) && AllPositive(Fed(samples))
  {
    hide Push, Latest;
    if samples == [] {
      NothingIsLatest();
    } else {
      var k := |samples| - 1;
      FedIsLatest(samples[..k]);
      PushIsLatest(Fed(samples[..k]), Accepted(samples[..k]), samples[k]);
      PushKeepsPositive(Fed(samples[..k]), samples[k]);
      assert Accepted(samples[..k]) + [] == Accepted(samples[..k]);
    }
  }

  lemma NothingIsLatest()
    ensures Latest([], [])
  {
  }

  /** A cleared ring after a stream of samples. */
  function RingFed(samples: seq<real>): Ring {
    if samples == [] then Cleared() else Added(RingFed(samples[..|samples| - 1]), samples[|samples| - 1])
  }

  /** get_price_at(p) on a ring is the p-th newest of the accepted samples, whatever its rotation. */
  lemma RingHoldsLatest(samples: seq<real>)
    ensures Newest(RingFed(samples)) == Fed(samples) && RingFed(samples).count <= |Accepted(samples)|
    ensures forall p :: 0 <= p < RingFed(samples).count ==>
              PriceAt(RingFed(samples), p) == Accepted(samples)[|Accepted(samples)| - 1 - p]
  {
    FedIsLatest(samples);
    hide PriceAt, Added, Fed, Accepted;
    RingFedIsFed(samples);
    assert |Newest(RingFed(samples))| == RingFed(samples).count;
    forall p | 0 <= p < RingFed(samples).count
      ensures PriceAt(RingFed(samples), p) == Accepted(samples)[|Accepted(samples)| - 1 - p]
    {
      assert Newest(RingFed(samples))[p] == Fed(samples)[p];
    }
  }

  lemma {:induction false} RingFedIsFed(samples: seq<real>)
    ensures Newest(RingFed(samples)) == Fed(samples)
  {
    hide PriceAt, Added;
    if samples == [] {
    } else {
      RingFedIsFed(samples[..|samples| - 1]);
      AddedPushes(RingFed(samples[..|samples| - 1]), samples[|samples| - 1]);
    }
  }

  /** Feeding a stream multiplied by a positive constant gives the window multiplied by it. */
  lemma {:induction false} FedScales(samples: seq<real>, c: real)
    requires c > 0.0
    ensures Fed(Scaled(samples, c)) == Scaled(Fed(samples), c)
  {
    if samples == [] {
      assert Scaled(samples, c) == [];
    } else {
      var k := |samples| - 1;
      FedScales(samples[..k], c);
      SignScales(samples[k], c);
      assert Scaled(samples, c)[..k] == Scaled(samples[..k], c);
      assert Scaled(samples, c)[k] == Times(c, samples[k]);
      PushScales(Fed(samples[..k]), samples[k], c);
    }
  }

  lemma PushScales(w: seq<real>, price: real, c: real)
    requires c > 0.0
    ensures Push(Scaled(w, c), Times(c, price)) == Scaled(Push(w, price), c)
  {
    SignScales(price, c);
    hide Times;
    assert [Times(c, price)] + Scaled(w, c) == Scaled([price] + w, c);
    assert Scaled(Take([price] + w), c) == Take(Scaled([price] + w, c));
  }

  /** Two rings fed the same stream, one in another unit of measure, give the same signals after
      every push. */
  lemma SignalsIgnoreUnits(samples: seq<real>, c: real)
    requires c > 0.0
    ensures Momentum(Fed(Scaled(samples, c))) == Momentum(Fed(samples))
    ensures Crossover(Fed(Scaled(samples, c))) == Crossover(Fed(samples))
    ensures Rsi(Fed(Scaled(samples, c)), 14) == Rsi(Fed(samples), 14)
    ensures Predict(Fed(Scaled(samples, c))) == Predict(Fed(samples))
  {
    FedScales(samples, c);
    SignalsScale(Fed(samples), c);
  }

  // ---- The ring in place ----

  /** The functions of src/ai.c. Held samples are positive, so the guards on negative prices in the
      loops never fire; every indicator depends on the window alone, not on its rotation. */
  class PriceHistory {
    var prices: array<real>
    var count: int
    var index: int

    ghost predicate Valid()
      reads this, prices
    {
      InBounds(RawRing(prices[..], count, index)) && AllPositive(Newest(RawRing(prices[..], count, index)))
    }

    /** The held samples, newest first. */
    ghost function Window(): seq<real>
      reads this, prices
      requires Valid()
    {
      Newest(RawRing(prices[..], count, index))
    }

    constructor ()
      ensures Valid() && fresh(prices) && Window() == []
    {
      prices := new real[MAX_PRICE_HISTORY](_ => 0.0);
      count := 0;
      index := 0;
    }

    method AddPrice(price: real)
      requires Valid()
      modifies this, prices
      ensures Valid() && prices == old(prices)
      ensures Window() == Push(old(Window()), price)
    {
      hide PriceAt, Newest;
      ghost var before: Ring := RawRing(prices[..], count, index);
      AddedPushes(before, price);
      PushKeepsPositive(Newest(before), price);
      if price <= 0.0 {
        return;
      }
      prices[index] := price;
      index := (index + 1) % MAX_PRICE_HISTORY;
      if count < MAX_PRICE_HISTORY {
        count := count + 1;
      }
      assert RawRing(prices[..], count, index) == Added(before, price);
    }

    method GetPriceAt(position: int) returns (price: real)
      requires Valid()
      ensures price == if 0 <= position < |Window()| then Window()[position] else -1.0
    {
      if position < 0 || position >= count {
        return -1.0;
      }
      var actual := (index - 1 - position + MAX_PRICE_HISTORY) % MAX_PRICE_HISTORY;
      price := prices[actual];
    }

    method CalculateMovingAverage(periods: int) returns (average: real)
      requires Valid()
      ensures average == MovingAverage(Window(), periods)
      ensures 0 < periods <= |Window()| ==> average > 0.0
    {
      var sum := 0.0;
      if count < periods || periods <= 0 {
        return -1.0;
      }
      for i := 0 to periods
        invariant sum == Sum(Window(), i) && (if i == 0 then sum == 0.0 else sum > 0.0)
      {
        var price := GetPriceAt(i);
        if price < 0.0 {
          return -1.0;
        }
        sum := sum + price;
      }
      average := sum / (periods as real);
    }

    method CalculateEma(periods: int) returns (ema: real)
      requires Valid()
      ensures ema == Ema(Window(), periods)
    {
      hide Blend, PriceAt, MovingAverage;
      if count < periods || periods <= 0 {
        return -1.0;
      }
      var k := 2.0 / ((periods + 1) as real);
      ema := CalculateMovingAverage(periods);
      if ema < 0.0 {
        return -1.0;
      }
      for i := periods to count
        invariant ema == EmaUpTo(Window(), periods, i)
      {
        var price := GetPriceAt(count - 1 - i);
        if price > 0.0 {
          ema := Blend(k, price, ema);
        }
      }
    }

    /** calculate_volatility without its square root. */
    method CalculateVariance() returns (variance: real)
      requires Valid()
      ensures variance == Variance(Window())
    {
      hide Square, MovingAverage;
      if count < 2 {
        return 0.0;
      }
      var mean := CalculateMovingAverage(count);
      if mean < 0.0 {
        return 0.0;
      }
      var sum := 0.0;
      for i := 0 to count
        invariant sum == Spread(Window(), mean, i)
      {
        var price := GetPriceAt(i);
        if price > 0.0 {
          sum := sum + Square(price - mean);
        }
      }
      variance := sum / (count as real);
    }

    method CalculateMomentum() returns (momentum: real)
      requires Valid()
      ensures momentum == Momentum(Window())
    {
      if count < LOOKBACK + 1 {
        return 0.0;
      }
      var current := GetPriceAt(0);
      var previous := GetPriceAt(LOOKBACK);
      if current <= 0.0 || previous <= 0.0 {
        return 0.0;
      }
      momentum := (current - previous) / previous * 100.0;
    }

    method CalculateRsi(periods: int) returns (rsi: real)
      requires Valid()
      ensures rsi == Rsi(Window(), periods)
    {
      hide PriceAt, RsiOf;
      var gains, losses := 0.0, 0.0;
      if count < periods + 1 {
        return 50.0;
      }
      var i := 0;
      while i < periods
        invariant if periods <= 0 then i == 0 && losses == 0.0
                  else 0 <= i <= periods && gains == Gains(Window(), i) && losses == Losses(Window(), i)
      {
        var current := GetPriceAt(i);
        var previous := GetPriceAt(i + 1);
        if current > 0.0 && previous > 0.0 {
          var change := current - previous;
          if change > 0.0 {
            gains := gains + change;
          } else {
            losses := losses - change;
          }
        }
        i := i + 1;
      }
      if losses == 0.0 {
        return 100.0;
      }
      rsi := RsiOf(gains, losses, periods as real);
    }

    method DetectMaCrossover() returns (signal: int)
      requires Valid()
      ensures signal == Crossover(Window())
    {
      var short := CalculateMovingAverage(5);
      var long := CalculateMovingAverage(10);
      if short < 0.0 || long < 0.0 {
        return 0;
      }
      var diff := (short - long) / long * 100.0;
      if diff > 0.5 {
        return 1;
      } else if diff < -0.5 {
        return -1;
      }
      return 0;
    }

    method PredictDirection() returns (direction: int)
      requires Valid()
      ensures direction == Predict(Window())
    {
      var momentum := CalculateMomentum();
      var trend := DetectMaCrossover();
      var rsi := CalculateRsi(14);
      var score := 0;
      if momentum > 1.0 {
        score := score + 1;
      } else if momentum < -1.0 {
        score := score - 1;
      }
      score := score + trend;
      if rsi > 70.0 {
        score := score - 1;
      } else if rsi < 30.0 {
        score := score + 1;
      }
      if score >= 2 {
        return 1;
      }
      if score <= -2 {
        return -1;
      }
      return 0;
    }
  }
}
