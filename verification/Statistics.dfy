/** The request counters and the running average of response times of src/ipc.c. */
module Statistics {
  import opened LockedRuns

  /** The counters of SystemStats that the operations touch. */
  datatype Stats = Stats(total: int, successful: int, failed: int, alerts: int, average: real)

  function Zeroed(): Stats {
    Stats(0, 0, 0, 0, 0.0)
  }

  // ---- What the operations mean ----

  function AfterRequest(s: Stats, success: bool): Stats {
    if success then s.(total := s.total + 1, successful := s.successful + 1)
    else s.(total := s.total + 1, failed := s.failed + 1)
  }

  /** The running average, once the n-th request has reported its time. */
  function Blend(average: real, n: real, ms: real): real
    requires n > 0.0
  {
    (average * (n - 1.0) + ms) / n
  }

  function AfterTime(s: Stats, ms: real): Stats {
    var n := s.total as real;
    if n > 0.0 then s.(average := Blend(s.average, n, ms)) else s
  }

  function AfterAlert(s: Stats): Stats {
    s.(alerts := s.alerts + 1)
  }

  /** The functions of src/ipc.c on the counters in place, without the lock around them. */
  class SharedStats {
    var total: int
    var successful: int
    var failed: int
    var alerts: int
    var average: real

    ghost function Value(): Stats
      reads this
    {
      Stats(total, successful, failed, alerts, average)
    }

    constructor ()
      ensures Value() == Zeroed()
    {
      total, successful, failed, alerts, average := 0, 0, 0, 0, 0.0;
    }

    method CountRequest(success: bool)
      modifies this
      ensures Value() == AfterRequest(old(Value()), success)
    {
      total := total + 1;
      if success {
        successful := successful + 1;
      } else {
        failed := failed + 1;
      }
    }

    method UpdateResponseTime(ms: real)
      modifies this
      ensures Value() == AfterTime(old(Value()), ms)
    {
      var n := total as real;
      if n > 0.0 {
        average := (average * (n - 1.0) + ms) / n;
      }
    }

    method CountAlert()
      modifies this
      ensures Value() == AfterAlert(old(Value()))
    {
      alerts := alerts + 1;
    }
  }

  // ---- Whole runs ----

  datatype Op = Request(success: bool) | Time(ms: real) | Alert

  function Meaning(op: Op, s: Stats): Stats {
    match op
    case Request(success) => AfterRequest(s, success)
    case Time(ms) => AfterTime(s, ms)
    case Alert => AfterAlert(s)
  }

  function Run(ops: seq<Op>): Stats {
    if ops == [] then Zeroed() else Meaning(ops[|ops| - 1], Run(ops[..|ops| - 1]))
  }

  lemma RunNext(ops: seq<Op>, op: Op)
    ensures Run(ops + [op]) == Meaning(op, Run(ops))
  {
    hide Meaning;
    assert (ops + [op])[..|ops|] == ops;
  }

  function CountOf(ops: seq<Op>, op: Op): nat {
    if ops == [] then 0 else CountOf(ops[..|ops| - 1], op) + if ops[|ops| - 1] == op then 1 else 0
  }

  /** Every counter is the number of calls it counts. */
  predicate Counts(s: Stats, ops: seq<Op>) {
    && s.successful == CountOf(ops, Request(true))
    && s.failed == CountOf(ops, Request(false))
    && s.total == CountOf(ops, Request(true)) + CountOf(ops, Request(false))
    && s.alerts == CountOf(ops, Alert)
  }

  lemma {:induction false} CountersCount(ops: seq<Op>)
    ensures Counts(Run(ops), ops)
  {
    if ops == [] {
    } else {
      hide Blend;
      CountersCount(ops[..|ops| - 1]);
    }
  }

  /** A weighted mean of two values between 0 and a bound stays there. */
  lemma WeightedMeanStays(a: real, ms: real, n: real, bound: real)
    requires n >= 1.0 && 0.0 <= a <= bound && 0.0 <= ms <= bound
    ensures 0.0 <= Blend(a, n, ms) <= bound
  {
    var x := a * (n - 1.0) + ms;
    assert 0.0 <= a * (n - 1.0) <= bound * (n - 1.0);
    assert 0.0 <= x <= bound * n;
    assert x / n * n == x;
  }

  /** In every interleaving of requests and times the average stays between 0 and any bound on the
      times reported, and every request is counted as a success or a failure. */
  lemma {:induction false} AverageStaysInRange(ops: seq<Op>, bound: real)
    requires bound >= 0.0 && forall k :: 0 <= k < |ops| && ops[k].Time? ==> 0.0 <= ops[k].ms <= bound
    ensures 0.0 <= Run(ops).average <= bound
    ensures Run(ops).total == Run(ops).successful + Run(ops).failed && Run(ops).total >= 0
  {
    if ops == [] {
    } else {
      var before := ops[..|ops| - 1];
      AverageStaysInRange(before, bound);
      var op := ops[|ops| - 1];
      if op.Time? && Run(before).total > 0 {
        WeightedMeanStays(Run(before).average, op.ms, Run(before).total as real, bound);
      }
    }
  }

  /** Whether requests and times alternate, starting with a request, with alerts anywhere. */
  datatype Phase = Ready | Waiting | Broken

  function PhaseOf(ops: seq<Op>): Phase {
    if ops == [] then Ready
    else
      var phase := PhaseOf(ops[..|ops| - 1]);
      match ops[|ops| - 1]
      case Request(_) => if phase == Ready then Waiting else Broken
      case Time(_) => if phase == Waiting then Ready else Broken
      case Alert => phase
  }

  function TimesOf(ops: seq<Op>): seq<real> {
    if ops == [] then []
    else
      var op := ops[|ops| - 1];
      TimesOf(ops[..|ops| - 1]) + if op.Time? then [op.ms] else []
  }

  function Sum(times: seq<real>): real {
    if times == [] then 0.0 else Sum(times[..|times| - 1]) + times[|times| - 1]
  }

  /** The mean of n numbers with this sum. */
  predicate AverageIs(average: real, n: int, sum: real) {
    average * (n as real) == sum
  }

  /** The average of n requests is the mean of times with this sum. */
  predicate IsMean(s: Stats, n: int, sum: real) {
    s.total == n && AverageIs(s.average, n, sum)
  }

  /** The next request is counted but has not reported its time. */
  predicate IsMeanBefore(s: Stats, n: int, sum: real) {
    s.total == n + 1 && AverageIs(s.average, n, sum)
  }

  lemma TimeKeepsMean(s: Stats, n: nat, ms: real, sum: real)
    requires IsMeanBefore(s, n, sum)
    ensures IsMean(AfterTime(s, ms), n + 1, sum + ms)
  {
    var m := (n + 1) as real;
    assert m - 1.0 == n as real;
    var x := s.average * (m - 1.0) + ms;
    assert x / m * m == x;
  }

  lemma RequestKeepsMean(s: Stats, n: nat, success: bool, sum: real)
    requires IsMean(s, n, sum)
    ensures IsMeanBefore(AfterRequest(s, success), n, sum)
  {
  }

  lemma AlertKeepsMean(s: Stats, n: nat, sum: real)
    ensures IsMean(AfterAlert(s), n, sum) <==> IsMean(s, n, sum)
    ensures IsMeanBefore(AfterAlert(s), n, sum) <==> IsMeanBefore(s, n, sum)
  {
  }

  /** Then the average is the exact mean of the times, and stays it until the next time comes in. */
  lemma {:induction false} AlternatingRunIsMean(ops: seq<Op>)
    requires PhaseOf(ops) != Broken
    ensures PhaseOf(ops) == Ready ==> IsMean(Run(ops), |TimesOf(ops)|, Sum(TimesOf(ops)))
    ensures PhaseOf(ops) == Waiting ==> IsMeanBefore(Run(ops), |TimesOf(ops)|, Sum(TimesOf(ops)))
  {
    hide IsMean, IsMeanBefore, AfterTime, AfterRequest, AfterAlert;
    if ops == [] {
      NothingIsMean();
    } else {
      var before := ops[..|ops| - 1];
      var times := TimesOf(before);
      AlternatingRunIsMean(before);
      match ops[|ops| - 1] {
        case Request(success) =>
          RequestKeepsMean(Run(before), |times|, success, Sum(times));
          assert times + [] == times;
        case Time(ms) =>
          TimeKeepsMean(Run(before), |times|, ms, Sum(times));
          assert (times + [ms])[..|times|] == times;
        case Alert =>
          AlertKeepsMean(Run(before), |times|, Sum(times));
          assert times + [] == times;
      }
    }
  }

  // ---- When requests overlap ----

  /** The average is the mean of the times reported so far. */
  predicate MeanAt(ops: seq<Op>) {
    AverageIs(Run(ops).average, |TimesOf(ops)|, Sum(TimesOf(ops)))
  }

  /** With two requests under way the first time is divided by two and the average falls short. */
  lemma OverlapMissesMean()
    ensures var ops := [Request(true), Request(true), Time(8.0), Time(8.0)];
            Run(ops).average == 6.0 && !MeanAt(ops)
  {
    var s0 := [Request(true)];
    var s1 := s0 + [Request(true)];
    var s2 := s1 + [Time(8.0)];
    var s3 := s2 + [Time(8.0)];
    assert s3 == [Request(true), Request(true), Time(8.0), Time(8.0)];
    RunNext([], Request(true));
    assert [] + [Request(true)] == s0;
    RunNext(s0, Request(true));
    RunNext(s1, Time(8.0));
    RunNext(s2, Time(8.0));
    TimesNext([], Request(true));
    TimesNext(s0, Request(true));
    TimesNext(s1, Time(8.0));
    TimesNext(s2, Time(8.0));
    assert TimesOf(s3) == [8.0, 8.0];
    assert Sum([8.0, 8.0]) == 16.0 by {
      assert [8.0, 8.0][..1] == [8.0] && [8.0][..0] == [];
    }
  }

  lemma TimesNext(ops: seq<Op>, op: Op)
    ensures TimesOf(ops + [op]) == TimesOf(ops) + if op.Time? then [op.ms] else []
  {
    assert (ops + [op])[..|ops|] == ops;
  }

  /** A time comes in while it is the only one missing, or is what the average is already. */
  predicate Harmless(s: Stats, reported: nat, ms: real) {
    s.total == reported + 1 || ms == s.average
  }

  ghost predicate AllHarmless(ops: seq<Op>) {
    forall k :: 0 <= k < |ops| && ops[k].Time? ==> Harmless(Run(ops[..k]), |TimesOf(ops[..k])|, ops[k].ms)
  }

  /** A time keeps the average the mean exactly then. */
  lemma TimeKeepsMeanExactlyWhen(s: Stats, m: nat, ms: real, sum: real)
    requires AverageIs(s.average, m, sum) && s.total >= 0
    ensures AverageIs(AfterTime(s, ms).average, m + 1, sum + ms) <==> Harmless(s, m, ms)
  {
    var a, k := s.average, (m + 1) as real;
    assert a * k == sum + a;
    if s.total > 0 {
      var n := s.total as real;
      var r := AfterTime(s, ms).average;
      assert r * n == a * (n - 1.0) + ms by {
        var x := a * (n - 1.0) + ms;
        assert x / n * n == x;
      }
      assert (r - a) * n == ms - a;
      DifferenceOfMeans(r - a, ms - a, n, k);
      assert r * k == a * k + (r - a) * k;
    } else {
      assert AfterTime(s, ms).average == a;
    }
  }

  lemma DifferenceOfMeans(d: real, e: real, n: real, k: real)
    requires n > 0.0 && k > 0.0 && d * n == e
    ensures d * k == e <==> n == k || e == 0.0
  {
    assert d * k - e == d * (k - n);
    if e == 0.0 {
      assert d == 0.0;
    } else {
      assert d != 0.0;
    }
  }

  /** The average is the mean at every moment of a run exactly when every time comes in like that. */
  lemma {:induction false} AlwaysMeanExactlyWhen(ops: seq<Op>)
    ensures (forall k :: 0 <= k <= |ops| ==> MeanAt(ops[..k])) <==> AllHarmless(ops)
  {
    hide MeanAt, Harmless;
    if ops == [] {
      NothingIsMeanYet();
    } else {
      var n := |ops| - 1;
      AlwaysMeanExactlyWhen(ops[..n]);
      assert forall k :: 0 <= k <= n ==> ops[..n][..k] == ops[..k];
      assert ops[..n + 1] == ops[..n] + [ops[n]];
      if MeanAt(ops[..n]) {
        NextIsMeanExactlyWhen(ops[..n], ops[n]);
      }
    }
  }

  lemma NothingIsMeanYet()
    ensures MeanAt([][..0])
  {
  }

  lemma NextIsMeanExactlyWhen(ops: seq<Op>, op: Op)
    requires MeanAt(ops)
    ensures MeanAt(ops + [op]) <==> (op.Time? ==> Harmless(Run(ops), |TimesOf(ops)|, op.ms))
  {
    hide Run, AfterTime, Harmless, AverageIs;
    var times := TimesOf(ops);
    RunNext(ops, op);
    TimesNext(ops, op);
    if op.Time? {
      TotalIsCount(ops);
      TimeKeepsMeanExactlyWhen(Run(ops), |times|, op.ms, Sum(times));
      SumNext(times, op.ms);
    } else {
      assert times + [] == times;
    }
  }

  lemma SumNext(times: seq<real>, ms: real)
    ensures Sum(times + [ms]) == Sum(times) + ms
  {
    assert (times + [ms])[..|times|] == times;
  }

  lemma {:induction false} TotalIsCount(ops: seq<Op>)
    ensures Run(ops).total >= 0
  {
    if ops == [] {
    } else {
      TotalIsCount(ops[..|ops| - 1]);
    }
  }

  lemma NothingIsMean()
    ensures IsMean(Run([]), 0, 0.0)
  {
  }

  // ---- The bodies, one assignment at a time ----

  datatype Local =
    | RequestTotal(success: bool)
    | RequestOutcome(success: bool)
    | TimeRead(ms: real)                 // n = total_requests
    | TimeWrite(ms: real, n: real)
    | AlertCount
    | Done

  function Start(op: Op): Local {
    match op
    case Request(success) => RequestTotal(success)
    case Time(ms) => TimeRead(ms)
    case Alert => AlertCount
  }

  function Rank(l: Local): nat {
    match l
    case RequestTotal(_) | TimeRead(_) => 2
    case RequestOutcome(_) | TimeWrite(_, _) | AlertCount => 1
    case Done => 0
  }

  function Step(l: Local, s: Stats): (Local, Stats) {
    match l
    case RequestTotal(success) => (RequestOutcome(success), s.(total := s.total + 1))
    case RequestOutcome(success) =>
      (Done, if success then s.(successful := s.successful + 1) else s.(failed := s.failed + 1))
    case TimeRead(ms) => (if s.total > 0 then TimeWrite(ms, s.total as real) else Done, s)
    case TimeWrite(ms, n) => (Done, if n > 0.0 then s.(average := Blend(s.average, n, ms)) else s)
    case AlertCount => (Done, s.(alerts := s.alerts + 1))
    case Done => (l, s)
  }

  function Bodies(): Program<Op, Local, Stats> {
    Program(Start, Step, (l: Local) => l.Done?, (l: Local) => true, Rank)
  }

  lemma StepDescends(l: Local, s: Stats)
    requires !l.Done?
    ensures Rank(Step(l, s).0) < Rank(l)
  {
  }

  lemma BodiesWellFormed()
    ensures Bodies().WellFormed()
  {
    hide Step, Rank;
    forall l: Local, s: Stats
      ensures !l.Done? ==> Rank(Step(l, s).0) < Rank(l)
    {
      if !l.Done? {
        StepDescends(l, s);
      }
    }
  }

  lemma Steps(l: Local, s: Stats)
    requires Bodies().WellFormed()
    ensures Bodies().Finish(l, s) == if l.Done? then (l, s) else Bodies().Finish(Step(l, s).0, Step(l, s).1)
  {
    Bodies().FinishStep(l, s);
  }

  lemma BodiesMean(op: Op, s: Stats)
    ensures Bodies().WellFormed()
    ensures Bodies().Atomic(op, s) == (Done, Meaning(op, s))
  {
    BodiesWellFormed();
    hide Program.WellFormed, Program.Finish, Blend;
    Steps(Start(op), s);
    Steps(Done, Meaning(op, s));
    match op {
      case Request(success) =>
        Steps(RequestOutcome(success), s.(total := s.total + 1));
      case Time(ms) =>
        Steps(TimeWrite(ms, s.total as real), s);
      case Alert =>
    }
  }
}
