/** The CPU percentage of src/proc.c: 64-bit tick arithmetic between two snapshots of a process. */
module CpuUsage {

  const TWO_64 := 0x1_0000_0000_0000_0000
  const TWO_32 := 0x1_0000_0000

  type U64 = x: int | 0 <= x < TWO_64

  /** The tick length in nanoseconds, as a fraction (mach_timebase_info). */
  type Positive32 = x: int | 0 < x < TWO_32 witness 1

  datatype Timebase = Timebase(numer: Positive32, denom: Positive32)

  /** The ProcessData struct; `info` stands for the fields that are only displayed and sorted on. */
  datatype Info = Info(name: string, rssKb: int, vsizeKb: int, fdCount: int)

  datatype ProcessData = ProcessData(
    pid: int, valid: bool, info: Info,
    cpuPercent: real, ticksPrev: U64, ticksCurr: U64, sampleTime: U64)

  function WallNs(prev: ProcessData, curr: ProcessData): int {
    curr.sampleTime - prev.sampleTime
  }

  /** uint64_t arithmetic: the difference and the product wrap, the quotient truncates. */
  function DeltaNs(prev: ProcessData, curr: ProcessData, tb: Timebase): U64 {
    var ticks := (curr.ticksCurr - prev.ticksCurr) % TWO_64;
    (ticks * tb.numer) % TWO_64 / tb.denom
  }

  function Percent(ns: int, wall: int): real
    requires wall > 0
  {
    (ns as real) / (wall as real) * 100.0
  }

  /** compute_cpu_percent: what it leaves in the current snapshot. */
  function Computed(prev: ProcessData, curr: ProcessData, tb: Timebase): ProcessData {
    if !prev.valid || !curr.valid || WallNs(prev, curr) <= 0 then curr.(cpuPercent := 0.0)
    else curr.(cpuPercent := Percent(DeltaNs(prev, curr, tb), WallNs(prev, curr)), ticksPrev := prev.ticksCurr)
  }

  class Snapshot {
    var data: ProcessData

    constructor (data: ProcessData)
      ensures this.data == data
    {
      this.data := data;
    }

    method ComputeCpuPercent(prev: Snapshot, tb: Timebase)
      requires prev != this
      modifies this
      ensures data == Computed(prev.data, old(data), tb)
    {
      hide Percent;
      if !prev.data.valid || !data.valid {
        data := data.(cpuPercent := 0.0);
        return;
      }
      if data.sampleTime <= prev.data.sampleTime {
        data := data.(cpuPercent := 0.0);
        return;
      }
      var deltaTicks := (data.ticksCurr - prev.data.ticksCurr) % TWO_64;
      var deltaTicksNs := (deltaTicks * tb.numer) % TWO_64 / tb.denom;
      var deltaWallNs := (data.sampleTime - prev.data.sampleTime) % TWO_64;
      if deltaWallNs == 0 {
        assert false;  // excluded by the test on the sample times
      }
      assert deltaTicksNs == DeltaNs(prev.data, data, tb) && deltaWallNs == WallNs(prev.data, data);
      var pct := Percent(deltaTicksNs, deltaWallNs);
      PercentNonNegative(deltaTicksNs, deltaWallNs);
      if pct < 0.0 {
        pct := 0.0;
      }
      data := data.(cpuPercent := pct);
      data := data.(ticksPrev := prev.data.ticksCurr);
    }
  }

  lemma PercentNonNegative(ns: int, wall: int)
    requires ns >= 0 && wall > 0
    ensures Percent(ns, wall) >= 0.0
  {
    var q := (ns as real) / (wall as real);
    assert q * (wall as real) == ns as real;
  }

  /** What is left in the snapshot: a percentage, the ticks it started from, and the rest as it was. */
  lemma ComputedMeans(prev: ProcessData, curr: ProcessData, tb: Timebase)
    ensures var r := Computed(prev, curr, tb);
            && (!prev.valid || !curr.valid || curr.sampleTime <= prev.sampleTime ==> r == curr.(cpuPercent := 0.0))
            && (prev.valid && curr.valid && curr.sampleTime > prev.sampleTime ==>
                  r == curr.(cpuPercent := r.cpuPercent, ticksPrev := prev.ticksCurr))
  {
    hide DeltaNs, Percent;
  }

  /** With valid samples, an increasing clock and no wrap, the percentage of the wall-clock time is the
      CPU time rounded down to a nanosecond. */
  lemma PercentMeans(prev: ProcessData, curr: ProcessData, tb: Timebase)
    requires prev.valid && curr.valid && prev.sampleTime < curr.sampleTime && prev.ticksCurr <= curr.ticksCurr
    requires (curr.ticksCurr - prev.ticksCurr) * tb.numer < 0x1_0000_0000_0000_0000
    ensures Computed(prev, curr, tb).cpuPercent * ((curr.sampleTime - prev.sampleTime) as real) ==
            100.0 * (((curr.ticksCurr - prev.ticksCurr) * tb.numer / tb.denom) as real)
  {
    NoWrap(prev, curr, tb);
    hide Percent, DeltaNs;
    PercentTimes(DeltaNs(prev, curr, tb), WallNs(prev, curr));
  }

  lemma NoWrap(prev: ProcessData, curr: ProcessData, tb: Timebase)
    requires prev.ticksCurr <= curr.ticksCurr
    requires (curr.ticksCurr - prev.ticksCurr) * tb.numer < 0x1_0000_0000_0000_0000
    ensures DeltaNs(prev, curr, tb) == (curr.ticksCurr - prev.ticksCurr) * tb.numer / tb.denom
  {
    TicksNonNegative(curr.ticksCurr - prev.ticksCurr, tb.numer);
  }

  lemma PercentTimes(ns: int, wall: int)
    requires wall > 0
    ensures Percent(ns, wall) * (wall as real) == 100.0 * (ns as real)
  {
    var q := (ns as real) / (wall as real);
    assert q * (wall as real) == ns as real;
    assert q * 100.0 * (wall as real) == 100.0 * (q * (wall as real));
  }

  // ---- The cumulative error ----

  /** Snapshots of a live process: the clock increases, ticks do not decrease, and no product wraps. */
  ghost predicate Steady(s: seq<ProcessData>, tb: Timebase) {
    && (forall i :: 0 <= i < |s| ==> s[i].valid)
    && (forall i :: 0 < i < |s| ==>
          && s[i - 1].sampleTime < s[i].sampleTime
          && s[i - 1].ticksCurr <= s[i].ticksCurr
          && (s[i].ticksCurr - s[i - 1].ticksCurr) * tb.numer < TWO_64)
  }

  /** The nanoseconds of CPU time that a percentage over a wall-clock interval stands for. */
  function Implied(prev: ProcessData, curr: ProcessData, tb: Timebase): real {
    Computed(prev, curr, tb).cpuPercent * (WallNs(prev, curr) as real) / 100.0
  }

  function TotalImplied(s: seq<ProcessData>, tb: Timebase): real {
    if |s| <= 1 then 0.0
    else TotalImplied(s[..|s| - 1], tb) + Implied(s[|s| - 2], s[|s| - 1], tb)
  }

  /** The true CPU time of a number of ticks, in nanoseconds. */
  function Nanoseconds(ticks: int, tb: Timebase): real {
    ((ticks * tb.numer) as real) / (tb.denom as real)
  }

  lemma PercentImplies(ns: int, wall: int)
    requires wall > 0
    ensures Percent(ns, wall) * (wall as real) / 100.0 == ns as real
  {
    var q := (ns as real) / (wall as real);
    assert q * (wall as real) == ns as real;
    assert q * 100.0 * (wall as real) / 100.0 == q * (wall as real);
  }

  lemma RealFloor(x: real, q: real, d: real)
    requires d > 0.0 && q * d <= x < q * d + d
    ensures q <= x / d < q + 1.0
  {
    FloorBelowQuotient(x / d, x, q, d);
  }

  lemma FloorBelowQuotient(r: real, x: real, q: real, d: real)
    requires d > 0.0 && r * d == x && q * d <= x < q * d + d
    ensures q <= r < q + 1.0
  {
    assert (q + 1.0) * d == q * d + d;
    LessByProduct(r, q + 1.0, d);
    LessByProduct(r, q, d);
  }

  lemma LessByProduct(a: real, b: real, d: real)
    requires d > 0.0
    ensures a * d < b * d <==> a < b
  {
  }

  lemma FloorBounds(x: int, d: int)
    requires d > 0
    ensures ((x / d) as real) <= (x as real) / (d as real) < ((x / d) as real) + 1.0
  {
    var q := x / d;
    assert q * d <= x < q * d + d;
    ProductAsReal(q, d);
    RealFloor(x as real, q as real, d as real);
  }

  lemma ProductAsReal(x: int, y: int)
    ensures (x * y) as real == (x as real) * (y as real)
  {
  }

  lemma StepError(prev: ProcessData, curr: ProcessData, tb: Timebase)
    requires prev.valid && curr.valid && prev.sampleTime < curr.sampleTime && prev.ticksCurr <= curr.ticksCurr
    requires (curr.ticksCurr - prev.ticksCurr) * tb.numer < TWO_64
    ensures Implied(prev, curr, tb) <= Nanoseconds(curr.ticksCurr - prev.ticksCurr, tb) < Implied(prev, curr, tb) + 1.0
  {
    var ticks := curr.ticksCurr - prev.ticksCurr;
    TicksNonNegative(ticks, tb.numer);
    PercentImplies(DeltaNs(prev, curr, tb), WallNs(prev, curr));
    FloorBounds(ticks * tb.numer, tb.denom);
  }

  lemma TicksNonNegative(x: int, y: int)
    requires x >= 0 && y >= 0
    ensures x * y >= 0
  {
  }

  lemma NanosecondsAdd(a: int, b: int, tb: Timebase)
    ensures Nanoseconds(a + b, tb) == Nanoseconds(a, tb) + Nanoseconds(b, tb)
  {
    assert (a + b) * tb.numer == a * tb.numer + b * tb.numer;
    var x, y, d := (a * tb.numer) as real, (b * tb.numer) as real, tb.denom as real;
    assert (x / d + y / d) * d == x + y;
  }

  /** The CPU time that n successive percentages imply never exceeds the true one, and falls short of
      it by less than n nanoseconds. */
  lemma {:induction false} PercentagesAddUp(s: seq<ProcessData>, tb: Timebase)
    requires |s| >= 1 && Steady(s, tb)
    ensures var truth := Nanoseconds(s[|s| - 1].ticksCurr - s[0].ticksCurr, tb);
            var n := |s| - 1;
            && TotalImplied(s, tb) <= truth
            && (n == 0 ==> truth == TotalImplied(s, tb))
            && (n > 0 ==> truth < TotalImplied(s, tb) + (n as real))
  {
    hide Nanoseconds, Implied;
    var n := |s| - 1;
    if n == 0 {
      NanosecondsAdd(0, 0, tb);
    } else {
      PercentagesAddUp(s[..n], tb);
      StepError(s[n - 1], s[n], tb);
      NanosecondsAdd(s[n - 1].ticksCurr - s[0].ticksCurr, s[n].ticksCurr - s[n - 1].ticksCurr, tb);
    }
  }
}
