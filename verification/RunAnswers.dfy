/** What the calls of a concurrent run on the shared segment of src/ipc.c answer, from the calls logged
    before them alone. */
module RunAnswers {
  import opened Wrappers
  import opened LockedRuns
  import opened SharedMemory
  import Q = MessageQueue
  import S = StockTable
  import W = WorkerTable
  import SA = StockAnswers
  import WA = WorkerAnswers

  type Log = seq<Entry<Op, Local>>

  // ---- The calls on each part of the segment ----

  function StockOp(op: Op): seq<S.Op> {
    if op.OnStocks? then [op.s] else []
  }

  function StockOps(log: Log): seq<S.Op> {
    if log == [] then [] else StockOps(log[..|log| - 1]) + StockOp(log[|log| - 1].answer.op)
  }

  function WorkerOp(op: Op): seq<W.Op> {
    if op.OnWorkers? then [op.w] else []
  }

  function WorkerOps(log: Log): seq<W.Op> {
    if log == [] then [] else WorkerOps(log[..|log| - 1]) + WorkerOp(log[|log| - 1].answer.op)
  }

  /** The messages a log leaves in the queue: a hundred at most, the oldest dropped for a new one. */
  function Pending(log: Log): seq<Q.Message> {
    if log == [] then []
    else
      var before := Pending(log[..|log| - 1]);
      match log[|log| - 1].answer.op
      case OnQueue(SendOp(m)) => (if |before| >= 100 then before[1..] else before) + [m]
      case OnQueue(ReceiveOp) => if before == [] then before else before[1..]
      case OnQueue(ClearOp) => []
      case _ => before
  }

  ghost predicate QueueAnswers(op: Q.Op, pending: seq<Q.Message>, a: Q.Answer) {
    match op
    case SendOp(_) => a == Q.Code(0)
    case ReceiveOp => a == if pending == [] then Q.Code(-1) else Q.Got(pending[0])
    case PeekOp => a == if pending == [] then Q.Code(-1) else Q.Got(pending[0])
    case CountOp => a == Q.Code(|pending|)
    case ClearOp => a == Q.Void
  }

  lemma ShelfNext(ops: seq<S.Op>, op: S.Op)
    ensures SA.Shelf(ops + [op]) == S.Meaning(op, SA.Shelf(ops)).0
  {
    hide S.Meaning;
    assert (ops + [op])[..|ops|] == ops;
  }

  lemma BoardNext(ops: seq<W.Op>, op: W.Op)
    ensures WA.Board(ops + [op]) == W.Meaning(op, WA.Board(ops)).0
  {
    hide W.Meaning;
    assert (ops + [op])[..|ops|] == ops;
  }

  lemma PartsAfter(op: Op, d: Data)
    ensures After(op, d).stocks == if op.OnStocks? then S.Meaning(op.s, d.stocks).0 else d.stocks
    ensures After(op, d).workers == if op.OnWorkers? then W.Meaning(op.w, d.workers).0 else d.workers
    ensures After(op, d).queue == if op.OnQueue? then Q.Meaning(op.q, d.queue).0 else d.queue
  {
    hide S.Meaning, W.Meaning, Q.Meaning;
  }

  lemma {:induction false} StocksOfLog(log: Log)
    ensures Replay(log).stocks == SA.Shelf(StockOps(log))
  {
    if log == [] {
      assert SA.Shelf([]) == [];
    } else {
      hide After, SA.Shelf, S.Meaning;
      var k := |log| - 1;
      var op, ops := log[k].answer.op, StockOps(log[..k]);
      StocksOfLog(log[..k]);
      PartsAfter(op, Replay(log[..k]));
      if op.OnStocks? {
        ShelfNext(ops, op.s);
      } else {
        assert ops + [] == ops;
      }
    }
  }

  lemma {:induction false} WorkersOfLog(log: Log)
    ensures Replay(log).workers == WA.Board(WorkerOps(log))
  {
    if log == [] {
      assert WA.Board([]) == W.View(map[], 0);
    } else {
      hide After, WA.Board, W.Meaning;
      var k := |log| - 1;
      var op, ops := log[k].answer.op, WorkerOps(log[..k]);
      WorkersOfLog(log[..k]);
      PartsAfter(op, Replay(log[..k]));
      if op.OnWorkers? {
        BoardNext(ops, op.w);
      } else {
        assert ops + [] == ops;
      }
    }
  }

  lemma {:induction false} QueueIsPending(log: Log)
    ensures Replay(log).queue == Pending(log)
  {
    if log == [] {
    } else {
      hide After;
      var k := |log| - 1;
      QueueIsPending(log[..k]);
      PartsAfter(log[k].answer.op, Replay(log[..k]));
    }
  }

  /** The parts of the replayed data. */
  lemma PartsOfLog(log: Log)
    ensures Replay(log).stocks == SA.Shelf(StockOps(log))
    ensures Replay(log).workers == WA.Board(WorkerOps(log))
    ensures Replay(log).queue == Pending(log)
  {
    hide Replay, SA.Shelf, WA.Board, Pending;
    StocksOfLog(log);
    WorkersOfLog(log);
    QueueIsPending(log);
  }

  // ---- The answers of a log ----

  /** Every added symbol fits. */
  ghost predicate SymbolsFit(log: Log) {
    forall k :: 0 <= k < |log| && log[k].answer.op.OnStocks? ==> SA.Fits(log[k].answer.op.s)
  }

  lemma {:induction false} SymbolsFitAll(log: Log, n: nat)
    requires SymbolsFit(log) && n <= |log|
    ensures forall k :: 0 <= k < |StockOps(log[..n])| ==> SA.Fits(StockOps(log[..n])[k])
  {
    hide SA.Fits;
    if n == 0 {
    } else {
      SymbolsFitAll(log, n - 1);
      assert log[..n][..n - 1] == log[..n - 1];
    }
  }

  lemma {:induction false} WorkerOpsGrow(log: Log, n: nat)
    requires n <= |log|
    ensures WorkerOps(log[..n]) <= WorkerOps(log)
    decreases |log|
  {
    if n == |log| {
      assert log[..n] == log;
    } else {
      var k := |log| - 1;
      assert log[..k][..n] == log[..n];
      WorkerOpsGrow(log[..k], n);
    }
  }

  /** Entry k answers `a`, from the part of the segment it is about. */
  predicate AnsweredStocks(log: Log, k: nat, a: S.Answer) {
    && k < |log| && log[k].answer.op.OnStocks?
    && log[k].answer.result.InStocks? && log[k].answer.result.s.Done? && log[k].answer.result.s.answer == a
  }

  predicate AnsweredWorkers(log: Log, k: nat, a: W.Answer) {
    && k < |log| && log[k].answer.op.OnWorkers?
    && log[k].answer.result.InWorkers? && log[k].answer.result.w.Done? && log[k].answer.result.w.answer == a
  }

  predicate AnsweredQueue(log: Log, k: nat, a: Q.Answer) {
    && k < |log| && log[k].answer.op.OnQueue?
    && log[k].answer.result.InQueue? && log[k].answer.result.q.Done? && log[k].answer.result.q.answer == a
  }

  lemma StocksAnswer(log: Log, k: nat) returns (a: S.Answer)
    requires ReplayExplains(log) && SymbolsFit(log) && k < |log| && log[k].answer.op.OnStocks?
    ensures AnsweredStocks(log, k, a)
    ensures SA.Answers(log[k].answer.op.s, SA.Known(StockOps(log[..k])), SA.Names(StockOps(log[..k])), a)
  {
    hide S.Meaning, SA.Answers, SA.Agrees, SA.Known, SA.Names, SA.Shelf, SA.Fits, Replay, StockOps;
    var ops := StockOps(log[..k]);
    SymbolsFitAll(log, k);
    PartsOfLog(log[..k]);
    SA.TableIsAMap(ops);
    SA.OperationAgrees(SA.Shelf(ops), SA.Known(ops), SA.Names(ops), log[k].answer.op.s);
    a := S.Meaning(log[k].answer.op.s, SA.Shelf(ops)).1;
  }

  lemma WorkerOpsNext(log: Log, k: nat)
    requires k < |log| && log[k].answer.op.OnWorkers?
    ensures WorkerOps(log[..k + 1]) == WorkerOps(log[..k]) + [log[k].answer.op.w]
  {
    assert log[..k + 1][..k] == log[..k] && log[..k + 1][k] == log[k];
  }

  lemma OnceUpTo(log: Log, k: nat)
    requires WA.RegistersOnce(WorkerOps(log)) && k < |log| && log[k].answer.op.OnWorkers?
    ensures WA.RegistersOnce(WorkerOps(log[..k]))
    ensures var op := log[k].answer.op.w; op.Register? ==> op.pid !in WA.Roster(WorkerOps(log[..k]))
  {
    hide WA.RegistersOnce, WA.Roster, WorkerOps;
    WorkerOpsNext(log, k);
    WorkerOpsGrow(log, k + 1);
    WA.OnceInFront(WorkerOps(log), WorkerOps(log[..k]), log[k].answer.op.w);
  }

  lemma WorkersAnswer(log: Log, k: nat) returns (a: W.Answer)
    requires ReplayExplains(log) && WA.RegistersOnce(WorkerOps(log)) && k < |log| && log[k].answer.op.OnWorkers?
    ensures AnsweredWorkers(log, k, a)
    ensures WA.Answers(log[k].answer.op.w, WA.Roster(WorkerOps(log[..k])), a)
  {
    hide W.Meaning, WA.Answers, WA.Agrees, WA.Roster, WA.Board, WA.RegistersOnce, Replay, WorkerOps, WA.AllRun;
    var ops := WorkerOps(log[..k]);
    OnceUpTo(log, k);
    PartsOfLog(log[..k]);
    WA.SlotsAreARoster(ops);
    WA.OperationAgrees(WA.Board(ops), WA.Roster(ops), log[k].answer.op.w);
    a := W.Meaning(log[k].answer.op.w, WA.Board(ops)).1;
  }

  lemma QueueAnswer(log: Log, k: nat) returns (a: Q.Answer)
    requires ReplayExplains(log) && k < |log| && log[k].answer.op.OnQueue?
    ensures AnsweredQueue(log, k, a) && QueueAnswers(log[k].answer.op.q, Pending(log[..k]), a)
  {
    hide Replay, Pending;
    PartsOfLog(log[..k]);
    a := Q.Meaning(log[k].answer.op.q, Pending(log[..k])).1;
  }

  // ---- Every concurrent run ----

  /** In every concurrent run a call on the stock table answers what the calls before it say: a get the
      last write of its symbol that found room and was not removed since, the others whether the symbol
      is there or finds room, and where. */
  lemma StockAnswersOfEveryRun(scripts: seq<seq<Op>>, segment: Memory, moves: seq<Move>,
                               v: World<Op, Local, Memory>, k: nat) returns (a: S.Answer)
    requires Shared().Leads(Launched(scripts, segment), moves, v)
    requires SymbolsFit(v.log) && k < |v.log| && v.log[k].answer.op.OnStocks?
    ensures AnsweredStocks(v.log, k, a)
    ensures SA.Answers(v.log[k].answer.op.s, SA.Known(StockOps(v.log[..k])), SA.Names(StockOps(v.log[..k])), a)
  {
    hide ReplayExplains, SymbolsFit, SA.Answers, AnsweredStocks;
    EveryRunIsSerial(scripts, segment, moves, v);
    a := StocksAnswer(v.log, k);
  }

  /** In particular a get: it returns an entry exactly when some earlier call wrote the symbol, finding
      room, and none removed it since; after an update that is what that update wrote, with its time. */
  lemma GetReturnsLastUpdate(scripts: seq<seq<Op>>, segment: Memory, moves: seq<Move>,
                             v: World<Op, Local, Memory>, k: nat, symbol: string) returns (a: S.Answer)
    requires Shared().Leads(Launched(scripts, segment), moves, v)
    requires SymbolsFit(v.log) && k < |v.log| && v.log[k].answer.op == OnStocks(S.Get(symbol))
    ensures AnsweredStocks(v.log, k, a)
    ensures var ops := StockOps(v.log[..k]);
            && (a.Got? <==> exists j: nat :: SA.LastingWrite(ops, j, symbol))
            && (!a.Got? ==> a == S.Code(-1))
            && forall j: nat | SA.LastingWrite(ops, j, symbol)
                               && forall i :: j < i < |ops| ==> !(ops[i].Update? && ops[i].stock.symbol == symbol) ::
                 && (ops[j].Update? ==> a == S.Got(ops[j].stock.(lastUpdate := ops[j].now)))
                 && (ops[j].Add? && symbol !in SA.Known(ops[..j]) ==>
                       a == S.Got(S.Stock(symbol, "", 0.0, 0.0, 0.0, 0.0, 0.0, 0.0, 0.0, 0, 0, 0)))
  {
    a := StockAnswersOfEveryRun(scripts, segment, moves, v, k);
    hide ReplayExplains, SymbolsFit, StockOps, SA.Known, SA.LastingWrite;
    var ops := StockOps(v.log[..k]);
    SA.KnownExactlyWhen(ops, symbol);
    forall j: nat | SA.LastingWrite(ops, j, symbol)
                    && forall i :: j < i < |ops| ==> !(ops[i].Update? && ops[i].stock.symbol == symbol)
      ensures ops[j].Update? ==> a == S.Got(ops[j].stock.(lastUpdate := ops[j].now))
      ensures ops[j].Add? && symbol !in SA.Known(ops[..j]) ==>
                a == S.Got(S.Stock(symbol, "", 0.0, 0.0, 0.0, 0.0, 0.0, 0.0, 0.0, 0, 0, 0))
    {
      SA.LastingIsThere(ops, j, symbol);
      if ops[j].Update? {
        SA.KnownIsLastUpdate(ops, j, symbol);
      } else if ops[j].Add? && symbol !in SA.Known(ops[..j]) {
        SA.KnownIsBlank(ops, j, symbol);
      }
    }
  }

  /** In every concurrent run that registers no registered pid, a call on the worker slots answers what
      the calls before it say. */
  lemma WorkerAnswersOfEveryRun(scripts: seq<seq<Op>>, segment: Memory, moves: seq<Move>,
                                v: World<Op, Local, Memory>, k: nat) returns (a: W.Answer)
    requires Shared().Leads(Launched(scripts, segment), moves, v)
    requires WA.RegistersOnce(WorkerOps(v.log)) && k < |v.log| && v.log[k].answer.op.OnWorkers?
    ensures AnsweredWorkers(v.log, k, a) && WA.Answers(v.log[k].answer.op.w, WA.Roster(WorkerOps(v.log[..k])), a)
  {
    hide ReplayExplains, WA.RegistersOnce, WA.Answers, AnsweredWorkers;
    EveryRunIsSerial(scripts, segment, moves, v);
    a := WorkersAnswer(v.log, k);
  }

  /** In every such run a dead scan reports a worker that has kept its slot exactly when its last
      heartbeat is more than thirty seconds before the scan's reading, if there is room for all. */
  lemma SilentWorkersAreReported(scripts: seq<seq<Op>>, segment: Memory, moves: seq<Move>,
                                 v: World<Op, Local, Memory>, k: nat, now: int, max: int, i: nat, pid: int)
    returns (pids: seq<int>)
    requires Shared().Leads(Launched(scripts, segment), moves, v)
    requires WA.RegistersOnce(WorkerOps(v.log))
    requires k < |v.log| && v.log[k].answer.op == OnWorkers(W.DeadScan(now, max))
    requires WA.HasSlot(WorkerOps(v.log[..k]), i, pid) && pid > 0
    ensures AnsweredWorkers(v.log, k, W.Pids(pids))
    ensures var last := WA.LastBeat(WorkerOps(v.log[..k]), pid);
            && last.Some?
            && (pid in pids ==> now - last.value > 30)
            && (max >= |WA.Roster(WorkerOps(v.log[..k]))| && now - last.value > 30 ==> pid in pids)
  {
    var a := WorkerAnswersOfEveryRun(scripts, segment, moves, v, k);
    pids := a.pids;
    var ops := WorkerOps(v.log[..k]);
    WorkerOpsGrow(v.log, k);
    assert WorkerOps(v.log)[..|ops|] == ops;
    WA.OnceBefore(WorkerOps(v.log), |ops|);
    hide WA.RegistersOnce, WA.HasSlot, WA.Roster, WA.LastBeat, WorkerOps;
    WA.ReportedExactlyWhenSilent(ops, i, pid, now, max, pids);
  }

  /** In every concurrent run a call on the message ring answers what the calls before it say. */
  lemma QueueAnswersOfEveryRun(scripts: seq<seq<Op>>, segment: Memory, moves: seq<Move>,
                               v: World<Op, Local, Memory>, k: nat) returns (a: Q.Answer)
    requires Shared().Leads(Launched(scripts, segment), moves, v)
    requires k < |v.log| && v.log[k].answer.op.OnQueue?
    ensures AnsweredQueue(v.log, k, a) && QueueAnswers(v.log[k].answer.op.q, Pending(v.log[..k]), a)
  {
    hide ReplayExplains, QueueAnswers, AnsweredQueue;
    EveryRunIsSerial(scripts, segment, moves, v);
    a := QueueAnswer(v.log, k);
  }

  /** And whenever nobody writes, the segment holds what the calls so far say. */
  lemma SegmentOfEveryRun(scripts: seq<seq<Op>>, segment: Memory, moves: seq<Move>, v: World<Op, Local, Memory>)
    requires Shared().Leads(Launched(scripts, segment), moves, v)
    requires v.boot.Booted? && Shared().NobodyWrites(v)
    ensures DataOf(v.mem).queue == Pending(v.log)
    ensures SymbolsFit(v.log) ==>
              SA.Agrees(DataOf(v.mem).stocks, SA.Known(StockOps(v.log)), SA.Names(StockOps(v.log)))
    ensures WA.RegistersOnce(WorkerOps(v.log)) ==> WA.Agrees(DataOf(v.mem).workers, WA.Roster(WorkerOps(v.log)))
  {
    hide ReplayExplains, Replay, SA.Agrees, WA.Agrees, WA.RegistersOnce, WA.AllRun, Linkages, SA.Known, SA.Names;
    EveryRunIsSerial(scripts, segment, moves, v);
    PartsOfLog(v.log);
    assert v.log[..|v.log|] == v.log;
    if SymbolsFit(v.log) {
      SymbolsFitAll(v.log, |v.log|);
      SA.TableIsAMap(StockOps(v.log));
    }
    if WA.RegistersOnce(WorkerOps(v.log)) {
      WA.SlotsAreARoster(WorkerOps(v.log));
    }
  }
}
