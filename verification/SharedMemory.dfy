/** The shared segment of src/ipc.c under its lock: every concurrent run of its operations gives the
    answers and the data of a serial run of atomic operations on a queue, an ordered table, a set of
    workers and some counters. */
module SharedMemory {
  import opened RwLock
  import opened LockedRuns
  import opened SlotArrays
  import Q = MessageQueue
  import S = StockTable
  import W = WorkerTable
  import T = Statistics

  datatype Memory = Memory(queue: Q.Queue, stocks: S.Table, board: W.Board, stats: T.Stats)

  datatype Op = OnQueue(q: Q.Op) | OnStocks(s: S.Op) | OnWorkers(w: W.Op) | OnStats(t: T.Op)

  /** The next step of a body, or of the initialisation. */
  datatype Local =
    | InQueue(q: Q.Local)
    | InStocks(s: S.Local)
    | InWorkers(w: W.Local)
    | InStats(t: T.Local)
    | Initialise(k: nat)

  const ASSIGNMENTS := 12

  function Zeroed(): Memory {
    Memory(Q.Zeroed(), S.Zeroed(), W.Zeroed(), T.Zeroed())
  }

  /** shm_init_master: the memset, then one field at a time. */
  function InitStep(k: nat, m: Memory): Memory {
    match k
    case 0 => Zeroed()
    case 1 => m.(stocks := m.stocks.(count := 0))
    case 2 => m.(board := m.board.(mark := 0))
    case 3 => m.(stats := m.stats.(total := 0))
    case 4 => m.(stats := m.stats.(successful := 0))
    case 5 => m.(stats := m.stats.(failed := 0))
    case 6 => m.(board := m.board.(active := 0))
    case 7 => m.(stats := m.stats.(alerts := 0))
    case 8 => m.(stats := m.stats.(average := 0.0))
    case 9 => m.(queue := m.queue.(head := 0))
    case 10 => m.(queue := m.queue.(tail := 0))
    case 11 => m.(queue := m.queue.(count := 0))
    case _ => m
  }

  function Start(op: Op): Local {
    match op
    case OnQueue(q) => InQueue(Q.Start(q))
    case OnStocks(s) => InStocks(S.Start(s))
    case OnWorkers(w) => InWorkers(W.Start(w))
    case OnStats(t) => InStats(T.Start(t))
  }

  function Step(l: Local, m: Memory): (Local, Memory) {
    match l
    case InQueue(q) => var (q', r) := Q.Step(q, m.queue); (InQueue(q'), m.(queue := r))
    case InStocks(s) => var (s', r) := S.Step(s, m.stocks); (InStocks(s'), m.(stocks := r))
    case InWorkers(w) => var (w', r) := W.Step(w, m.board); (InWorkers(w'), m.(board := r))
    case InStats(t) => var (t', r) := T.Step(t, m.stats); (InStats(t'), m.(stats := r))
    case Initialise(k) => (if k < ASSIGNMENTS then Initialise(k + 1) else l, InitStep(k, m))
  }

  predicate IsDone(l: Local) {
    match l
    case InQueue(q) => q.Done?
    case InStocks(s) => s.Done?
    case InWorkers(w) => w.Done?
    case InStats(t) => t.Done?
    case Initialise(k) => k >= ASSIGNMENTS
  }

  predicate Writes(l: Local) {
    match l
    case InQueue(q) => Q.Writes(q)
    case InStocks(s) => S.Writes(s)
    case InWorkers(w) => W.Writes(w)
    case InStats(_) => true
    case Initialise(_) => true
  }

  function Rank(l: Local): nat {
    match l
    case InQueue(q) => Q.Rank(q)
    case InStocks(s) => S.Rank(s)
    case InWorkers(w) => W.Rank(w)
    case InStats(t) => T.Rank(t)
    case Initialise(k) => if k < ASSIGNMENTS then ASSIGNMENTS - k else 0
  }

  function Shared(): Program<Op, Local, Memory> {
    Program(Start, Step, IsDone, Writes, Rank)
  }

  lemma SharedWellFormed()
    ensures Shared().WellFormed()
  {
    hide Q.Step, Q.Writes, Q.Rank, S.Step, S.Writes, S.Rank, W.Step, W.Writes, W.Rank, T.Step, T.Rank, InitStep;
    forall l: Local, m: Memory
      ensures !IsDone(l) ==> Rank(Step(l, m).0) < Rank(l)
      ensures Writes(Step(l, m).0) == Writes(l)
      ensures !Writes(l) ==> Step(l, m).1 == m
    {
      match l {
        case InQueue(q) =>
          if !q.Done? { Q.StepDescends(q, m.queue); }
          Q.StepKeepsKind(q, m.queue);
        case InStocks(s) =>
          if !s.Done? { S.StepDescends(s, m.stocks); }
          S.StepKeepsKind(s, m.stocks);
        case InWorkers(w) =>
          if !w.Done? { W.StepDescends(w, m.board); }
          W.StepKeepsKind(w, m.board);
        case InStats(t) =>
          if !t.Done? { T.StepDescends(t, m.stats); }
        case Initialise(k) =>
      }
    }
  }

  // ---- A body touches its own part of the segment ----

  lemma Steps(l: Local, m: Memory)
    requires Shared().WellFormed()
    ensures Shared().Finish(l, m) == if IsDone(l) then (l, m) else Shared().Finish(Step(l, m).0, Step(l, m).1)
  {
    Shared().FinishStep(l, m);
  }

  lemma {:induction false} QueueLifts(q: Q.Local, m: Memory)
    requires Shared().WellFormed() && Q.Bodies().WellFormed()
    ensures var (l, r) := Q.Bodies().Finish(q, m.queue);
            Shared().Finish(InQueue(q), m) == (InQueue(l), m.(queue := r))
    decreases Q.Rank(q)
  {
    hide Program.WellFormed, Program.Finish, Q.Step, Q.Rank;
    Steps(InQueue(q), m);
    Q.Steps(q, m.queue);
    if q.Done? {
    } else {
      Q.StepDescends(q, m.queue);
      var (q', r) := Q.Step(q, m.queue);
      QueueLifts(q', m.(queue := r));
    }
  }

  lemma {:induction false} StocksLift(s: S.Local, m: Memory)
    requires Shared().WellFormed() && S.Bodies().WellFormed()
    ensures var (l, r) := S.Bodies().Finish(s, m.stocks);
            Shared().Finish(InStocks(s), m) == (InStocks(l), m.(stocks := r))
    decreases S.Rank(s)
  {
    hide Program.WellFormed, Program.Finish, S.Step, S.Rank;
    Steps(InStocks(s), m);
    S.Steps(s, m.stocks);
    if s.Done? {
    } else {
      S.StepDescends(s, m.stocks);
      var (s', r) := S.Step(s, m.stocks);
      StocksLift(s', m.(stocks := r));
    }
  }

  lemma {:induction false} WorkersLift(w: W.Local, m: Memory)
    requires Shared().WellFormed() && W.Bodies().WellFormed()
    ensures var (l, r) := W.Bodies().Finish(w, m.board);
            Shared().Finish(InWorkers(w), m) == (InWorkers(l), m.(board := r))
    decreases W.Rank(w)
  {
    hide Program.WellFormed, Program.Finish, W.Step, W.Rank;
    Steps(InWorkers(w), m);
    W.Steps(w, m.board);
    if w.Done? {
    } else {
      W.StepDescends(w, m.board);
      var (w', r) := W.Step(w, m.board);
      WorkersLift(w', m.(board := r));
    }
  }

  lemma {:induction false} StatsLift(t: T.Local, m: Memory)
    requires Shared().WellFormed() && T.Bodies().WellFormed()
    ensures var (l, r) := T.Bodies().Finish(t, m.stats);
            Shared().Finish(InStats(t), m) == (InStats(l), m.(stats := r))
    decreases T.Rank(t)
  {
    hide Program.WellFormed, Program.Finish, T.Step, T.Rank;
    Steps(InStats(t), m);
    T.Steps(t, m.stats);
    if t.Done? {
    } else {
      T.StepDescends(t, m.stats);
      var (t', r) := T.Step(t, m.stats);
      StatsLift(t', m.(stats := r));
    }
  }

  // ---- The abstract data ----

  datatype Data = Data(queue: seq<Q.Message>, stocks: seq<S.Stock>, workers: W.View, stats: T.Stats)

  function DataOf(m: Memory): Data {
    Data(Q.Contents(m.queue), S.Entries(m.stocks), W.ViewOf(m.board), m.stats)
  }

  function Empty(): Data {
    Data([], [], W.View(map[], 0), T.Zeroed())
  }

  /** One atomic operation on the abstract data. */
  function After(op: Op, d: Data): Data {
    match op
    case OnQueue(q) => d.(queue := Q.Meaning(q, d.queue).0)
    case OnStocks(s) => d.(stocks := S.Meaning(s, d.stocks).0)
    case OnWorkers(w) => d.(workers := W.Meaning(w, d.workers).0)
    case OnStats(t) => d.(stats := T.Meaning(t, d.stats))
  }

  /** What the caller is left with. */
  function Result(op: Op, d: Data): Local {
    match op
    case OnQueue(q) => InQueue(Q.Done(Q.Writes(Q.Start(q)), Q.Meaning(q, d.queue).1))
    case OnStocks(s) => InStocks(S.Done(S.Writes(S.Start(s)), S.Meaning(s, d.stocks).1))
    case OnWorkers(w) => InWorkers(W.Done(W.Writes(W.Start(w)), W.Meaning(w, d.workers).1))
    case OnStats(_) => InStats(T.Done)
  }

  /** The data after the logged operations, executed atomically in order from empty data. */
  function Replay(log: seq<Entry<Op, Local>>): Data {
    if log == [] then Empty() else After(log[|log| - 1].answer.op, Replay(log[..|log| - 1]))
  }

  ghost predicate Linkages(m: Memory) {
    Q.Linked(m.queue) && W.Marked(m.board)
  }

  lemma AtomicMeans(op: Op, m: Memory)
    requires Shared().WellFormed() && Linkages(m)
    ensures var (l, r) := Shared().Atomic(op, m);
            Linkages(r) && DataOf(r) == After(op, DataOf(m)) && l == Result(op, DataOf(m))
  {
    hide Program.WellFormed, Program.Finish;
    match op {
      case OnQueue(q) =>
        Q.BodiesMean(q, m.queue);
        QueueLifts(Q.Start(q), m);
      case OnStocks(s) =>
        S.BodiesMean(s, m.stocks);
        StocksLift(S.Start(s), m);
      case OnWorkers(w) =>
        W.BodiesMean(w, m.board);
        WorkersLift(W.Start(w), m);
      case OnStats(t) =>
        T.BodiesMean(t, m.stats);
        StatsLift(T.Start(t), m);
    }
  }

  lemma {:induction false} InitialiseFinishes(k: nat, m: Memory)
    requires Shared().WellFormed() && k <= ASSIGNMENTS && (k > 0 ==> m == Zeroed())
    ensures Shared().Finish(Initialise(k), m) == (Initialise(ASSIGNMENTS), if k == ASSIGNMENTS then m else Zeroed())
    decreases ASSIGNMENTS - k
  {
    hide Program.WellFormed, Program.Finish;
    Steps(Initialise(k), m);
    if k == ASSIGNMENTS {
    } else {
      InitialiseFinishes(k + 1, Zeroed());
    }
  }

  lemma ZeroedIsEmpty()
    ensures Linkages(Zeroed()) && DataOf(Zeroed()) == Empty()
  {
  }

  lemma {:induction false} SerialIsReplay(log: seq<Entry<Op, Local>>)
    requires Shared().WellFormed()
    ensures var m := Shared().Serial(Zeroed(), log);
            Linkages(m) && DataOf(m) == Replay(log)
  {
    if log == [] {
      ZeroedIsEmpty();
    } else {
      hide Program.WellFormed, Program.Atomic, After, Linkages, DataOf;
      var k := |log| - 1;
      SerialIsReplay(log[..k]);
      AtomicMeans(log[k].answer.op, Shared().Serial(Zeroed(), log[..k]));
    }
  }

  lemma {:induction false} ExplainedByReplay(log: seq<Entry<Op, Local>>, k: nat)
    requires Shared().WellFormed() && Shared().Explains(Zeroed(), log) && k < |log|
    ensures log[k].answer.result == Result(log[k].answer.op, Replay(log[..k]))
    decreases |log|
  {
    hide Program.WellFormed, Program.Atomic, After, Linkages, DataOf, Result, Replay;
    var n := |log| - 1;
    if k == n {
      SerialIsReplay(log[..n]);
      AtomicMeans(log[n].answer.op, Shared().Serial(Zeroed(), log[..n]));
    } else {
      ExplainedByReplay(log[..n], k);
      assert log[..n][..k] == log[..k];
    }
  }

  /** The master starts to initialise a segment, and clients start with these calls to make. */
  function Launched(scripts: seq<seq<Op>>, segment: Memory): World<Op, Local, Memory> {
    Shared().Launch(scripts, Initialise(0), segment)
  }

  /** Every call returned what its operation returns at its place in the log. */
  ghost predicate ReplayExplains(log: seq<Entry<Op, Local>>) {
    forall k :: 0 <= k < |log| ==> log[k].answer.result == Result(log[k].answer.op, Replay(log[..k]))
  }

  /** Whatever the interleaving of semaphore calls, assignments and initialisation, the calls that
      have ended are those of a serial run of atomic operations on the abstract data, starting
      empty: each returned what the operation returns at its place in the log, and outside write
      sections the segment holds the data of that run. */
  lemma EveryRunIsSerial(scripts: seq<seq<Op>>, segment: Memory, moves: seq<Move>, v: World<Op, Local, Memory>)
    requires Shared().Leads(Launched(scripts, segment), moves, v)
    ensures ReplayExplains(v.log)
    ensures v.boot.Booted? && Shared().NobodyWrites(v) ==> Linkages(v.mem) && DataOf(v.mem) == Replay(v.log)
  {
    SharedWellFormed();
    hide Program.WellFormed, Program.Serial, Program.Explains, Program.Finish, Result, Replay, DataOf, Linkages;
    InitialiseFinishes(0, segment);
    Shared().Serializable(scripts, Initialise(0), segment, moves, v);
    forall k | 0 <= k < |v.log|
      ensures v.log[k].answer.result == Result(v.log[k].answer.op, Replay(v.log[..k]))
    {
      ExplainedByReplay(v.log, k);
    }
    SerialIsReplay(v.log);
  }

  /** A run that can go no further has answered every call of every script, has the semaphores back
      at (1, 0, 1), and has the data of the serial run in the segment. */
  lemma EveryRunEndsInOrder(scripts: seq<seq<Op>>, segment: Memory, moves: seq<Move>,
                            v: World<Op, Local, Memory>)
    requires Shared().Leads(Launched(scripts, segment), moves, v)
    requires forall mv :: !Shared().Possible(v, mv)
    ensures |v.clients| == |scripts| && v.lock.sems == Sems(1, 0, 1)
    ensures forall i :: 0 <= i < |scripts| ==>
              OpsOf(v.clients[i].answers) == scripts[i] && EntriesOf(v.log, i) == v.clients[i].answers
    ensures DataOf(v.mem) == Replay(v.log)
    ensures |moves| <= Shared().Effort(Launched(scripts, segment))
  {
    SharedWellFormed();
    hide Program.WellFormed, Program.Serial, Program.Explains, Program.Finish, Program.Effort, Replay, DataOf, Linkages;
    InitialiseFinishes(0, segment);
    Shared().StopsOnlyWhenDone(scripts, Initialise(0), segment, moves, v);
    Shared().RunsAreBounded(Launched(scripts, segment), moves, v);
    SerialIsReplay(v.log);
  }

  // ---- What holds of the data throughout ----

  /** The invariants of the data. */
  ghost predicate Sound(d: Data) {
    && |d.queue| <= 100
    && Distinct(d.stocks, S.NameOf) && |d.stocks| <= 50
    && W.InSlots(d.workers.live)
    && d.stats.total == d.stats.successful + d.stats.failed
  }

  predicate Fits(op: Op) {
    op.OnStocks? && op.s.Add? ==> |op.s.symbol| <= 15
  }

  /** Every operation with a symbol that fits keeps the invariants. */
  lemma OperationKeepsSound(op: Op, d: Data)
    requires Sound(d) && Fits(op)
    ensures Sound(After(op, d))
  {
    match op {
      case OnQueue(_) =>
      case OnStocks(s) =>
        match s {
          case Add(symbol) => S.AddKeepsDistinctExactlyWhen(d.stocks, symbol);
          case Update(stock, now) => S.UpdateKeepsDistinct(d.stocks, stock, now);
          case Get(_) =>
          case Remove(symbol) => S.RemoveKeepsDistinct(d.stocks, symbol);
        }
      case OnWorkers(_) =>
      case OnStats(_) =>
    }
  }

  ghost predicate SoundMemory(m: Memory) {
    Linkages(m) && Sound(DataOf(m))
  }

  lemma BodyKeepsSound(op: Op, m: Memory)
    requires Shared().WellFormed() && SoundMemory(m) && Fits(op)
    ensures SoundMemory(Shared().Atomic(op, m).1)
  {
    hide Program.WellFormed, Program.Atomic, Sound, DataOf, Linkages, After, Fits;
    AtomicMeans(op, m);
    OperationKeepsSound(op, DataOf(m));
  }

  /** So a serial run keeps them, in the segment and in the data it holds. */
  lemma ReplayIsSound(log: seq<Entry<Op, Local>>)
    requires forall k :: 0 <= k < |log| ==> Fits(log[k].answer.op)
    ensures Sound(Replay(log))
  {
    hide Program.WellFormed, Program.Atomic, Program.Serial, Sound, Linkages, Fits, Replay;
    SharedWellFormed();
    ZeroedIsSound();
    forall op, m | Fits(op) && SoundMemory(m) ensures SoundMemory(Shared().Atomic(op, m).1) {
      BodyKeepsSound(op, m);
    }
    Shared().SerialKeeps(Zeroed(), log, SoundMemory, Fits);
    SerialIsReplay(log);
  }

  lemma ZeroedIsSound()
    ensures SoundMemory(Zeroed())
  {
  }

  /** A reader never sees a half-done operation: while it is inside, the segment holds the data of
      the serial run, and with symbols that fit that data satisfies its invariants. */
  lemma ReadersSeeSoundData(scripts: seq<seq<Op>>, segment: Memory, moves: seq<Move>,
                            v: World<Op, Local, Memory>, i: nat)
    requires Shared().Leads(Launched(scripts, segment), moves, v)
    requires i < |v.lock.procs| && v.lock.procs[i].pc == Reading
    requires forall k :: 0 <= k < |v.log| ==> Fits(v.log[k].answer.op)
    ensures Linkages(v.mem) && DataOf(v.mem) == Replay(v.log) && Sound(DataOf(v.mem))
    ensures NeverRegistersTwice(v.log) ==> W.Settled(DataOf(v.mem).workers)
  {
    SharedWellFormed();
    hide Program.WellFormed, Program.Serial, Program.Explains, Program.Finish, Replay, DataOf, Linkages, Sound;
    hide NeverRegistersTwice, W.Settled;
    Shared().ReadersSeeSerialMemory(scripts, Initialise(0), segment, moves, v, i);
    EveryRunIsSerial(scripts, segment, moves, v);
    ReplayIsSound(v.log);
    if NeverRegistersTwice(v.log) {
      ActiveCountIsExact(v.log);
    }
  }

  /** No entry registers a pid that is live at that point. */
  ghost predicate NeverRegistersTwice(log: seq<Entry<Op, Local>>) {
    forall k :: 0 <= k < |log| ==>
      var op := log[k].answer.op;
      op.OnWorkers? && op.w.Register? ==> !W.IsLive(Replay(log[..k]).workers.live, op.w.pid)
  }

  lemma {:induction false} ActiveCountIsExact(log: seq<Entry<Op, Local>>)
    requires NeverRegistersTwice(log)
    ensures W.Settled(Replay(log).workers) && W.InSlots(Replay(log).workers.live)
  {
    if log == [] {
    } else {
      var n := |log| - 1;
      var v := Replay(log[..n]).workers;
      forall k | 0 <= k < n
        ensures var op := log[..n][k].answer.op;
                op.OnWorkers? && op.w.Register? ==> !W.IsLive(Replay(log[..n][..k]).workers.live, op.w.pid)
      {
        assert log[..n][..k] == log[..k];
        assert log[k].answer.op == log[..n][k].answer.op;
      }
      ActiveCountIsExact(log[..n]);
      assert log[n].answer.op.OnWorkers? && log[n].answer.op.w.Register? ==>
          !W.IsLive(v.live, log[n].answer.op.w.pid);
      if log[n].answer.op.OnWorkers? {
        match log[n].answer.op.w {
          case Register(pid, symbol, started, beat) =>
            W.RegisterKeepsSettledExactlyWhen(v, pid, symbol, started, beat);
          case Unregister(pid) => W.UnregisterAndHeartbeatKeepSettled(v, pid, 0);
          case Heartbeat(pid, now) => W.UnregisterAndHeartbeatKeepSettled(v, pid, now);
          case DeadScan(_, _) =>
        }
      }
    }
  }

  /** The times that calls write as a heartbeat never go back in the order of the log. */
  ghost predicate ClockNeverGoesBack(log: seq<Entry<Op, Local>>) {
    forall j, k :: 0 <= j < k < |log| && Beats(log[j].answer.op) && Beats(log[k].answer.op) ==>
      W.BeatOf(log[j].answer.op.w).value.time <= W.BeatOf(log[k].answer.op.w).value.time
  }

  predicate Beats(op: Op) {
    op.OnWorkers? && W.BeatOf(op.w).Some?
  }

  /** Every live worker's heartbeat is at least every heartbeat the log holds for its pid. */
  ghost predicate BeatsKept(log: seq<Entry<Op, Local>>, live: map<int, W.Worker>) {
    forall i, k :: i in live && 0 <= k < |log| && Beats(log[k].answer.op)
                   && W.BeatOf(log[k].answer.op.w).value.pid == live[i].pid ==>
      W.BeatOf(log[k].answer.op.w).value.time <= live[i].lastHeartbeat
  }

  lemma PrefixRegistersOnce(log: seq<Entry<Op, Local>>, n: nat)
    requires n <= |log| && NeverRegistersTwice(log)
    ensures NeverRegistersTwice(log[..n])
  {
    forall k | 0 <= k < n
      ensures var op := log[..n][k].answer.op;
              op.OnWorkers? && op.w.Register? ==> !W.IsLive(Replay(log[..n][..k]).workers.live, op.w.pid)
    {
      assert log[..n][..k] == log[..k];
      assert log[k].answer.op == log[..n][k].answer.op;
    }
  }

  lemma {:induction false} BeatsAreKept(log: seq<Entry<Op, Local>>)
    requires NeverRegistersTwice(log) && ClockNeverGoesBack(log)
    ensures BeatsKept(log, Replay(log).workers.live)
  {
    hide W.Settled, W.InSlots, W.Meaning, W.IsLive;
    if log == [] {
    } else {
      var n := |log| - 1;
      var op := log[n].answer.op;
      PrefixRegistersOnce(log, n);
      BeatsAreKept(log[..n]);
      ActiveCountIsExact(log[..n]);
      var v, r := Replay(log[..n]).workers, Replay(log).workers;
      forall i, k | i in r.live && 0 <= k < |log| && Beats(log[k].answer.op)
                    && W.BeatOf(log[k].answer.op.w).value.pid == r.live[i].pid
        ensures W.BeatOf(log[k].answer.op.w).value.time <= r.live[i].lastHeartbeat
      {
        if op.OnWorkers? {
          W.BeatStep(v, op.w, i);
        }
        if k < n {
          assert log[..n][k] == log[k];
        }
      }
    }
  }

  /** In runs that never register a live pid, with a clock that does not go back, the dead scan reports
      no pid that has a heartbeat in the thirty seconds before the scan's clock reading. */
  lemma FreshWorkersAreNotReported(log: seq<Entry<Op, Local>>, j: nat, k: nat, now: int, max: int)
    requires ReplayExplains(log) && NeverRegistersTwice(log) && ClockNeverGoesBack(log)
    requires j < k < |log| && log[k].answer.op == OnWorkers(W.DeadScan(now, max))
    requires Beats(log[j].answer.op) && now - W.BeatOf(log[j].answer.op.w).value.time <= 30
    ensures var r := log[k].answer.result;
            r.InWorkers? && r.w.Done? && r.w.answer.Pids?
            && W.BeatOf(log[j].answer.op.w).value.pid !in r.w.answer.pids
  {
    hide Replay, W.StalePids, NeverRegistersTwice;
    var pid := W.BeatOf(log[j].answer.op.w).value.pid;
    var live := Replay(log[..k]).workers.live;
    PrefixRegistersOnce(log, k);
    BeatsAreKept(log[..k]);
    W.StalePidsAreStale(live, now, W.MAX_WORKERS, pid);
    assert log[..k][j] == log[j];
    assert forall i :: i in live && live[i].pid == pid ==> !W.Stale(live[i], now);
  }

  /** So it is in every concurrent run. */
  lemma FreshWorkersAreNeverReported(scripts: seq<seq<Op>>, segment: Memory, moves: seq<Move>,
                                     v: World<Op, Local, Memory>, j: nat, k: nat, now: int, max: int)
    requires Shared().Leads(Launched(scripts, segment), moves, v)
    requires NeverRegistersTwice(v.log) && ClockNeverGoesBack(v.log)
    requires j < k < |v.log| && v.log[k].answer.op == OnWorkers(W.DeadScan(now, max))
    requires Beats(v.log[j].answer.op) && now - W.BeatOf(v.log[j].answer.op.w).value.time <= 30
    ensures var r := v.log[k].answer.result;
            r.InWorkers? && r.w.Done? && r.w.answer.Pids?
            && W.BeatOf(v.log[j].answer.op.w).value.pid !in r.w.answer.pids
  {
    hide ReplayExplains, Replay, NeverRegistersTwice, ClockNeverGoesBack;
    EveryRunIsSerial(scripts, segment, moves, v);
    FreshWorkersAreNotReported(v.log, j, k, now, max);
  }

  /** The queue operations of a log that change the queue. */
  function ActOf(op: Op): seq<Q.Act> {
    match op
    case OnQueue(SendOp(m)) => [Q.Send(m)]
    case OnQueue(ReceiveOp) => [Q.Receive]
    case OnQueue(ClearOp) => [Q.Clear]
    case _ => []
  }

  function ActsOf(log: seq<Entry<Op, Local>>): seq<Q.Act> {
    if log == [] then [] else ActsOf(log[..|log| - 1]) + ActOf(log[|log| - 1].answer.op)
  }

  lemma QueueStep(t: Q.Trace, op: Op, d: Data)
    requires Q.Linked(t.queue) && Q.Contents(t.queue) == d.queue
    ensures var r := if ActOf(op) != [] then Q.Perform(t, ActOf(op)[0]).queue else t.queue;
            Q.Linked(r) && Q.Contents(r) == After(op, d).queue
  {
    hide Q.Contents, Q.Sent, Q.DropHead, Q.Linked;
    match op {
      case OnQueue(SendOp(m)) => Q.SentPushes(t.queue, m);
      case OnQueue(ReceiveOp) => QueuePops(t.queue);
      case OnQueue(ClearOp) => QueueClears(t.queue);
      case _ =>
    }
  }

  lemma RunOfLog(log: seq<Entry<Op, Local>>)
    requires log != []
    ensures var k := |log| - 1;
            var t, act := Q.Run(Q.Zeroed(), ActsOf(log[..k])), ActOf(log[k].answer.op);
            Q.Run(Q.Zeroed(), ActsOf(log)) == if act != [] then Q.Perform(t, act[0]) else t
  {
    hide Q.Perform, Q.Run, ActOf;
    var k := |log| - 1;
    var acts, act := ActsOf(log[..k]), ActOf(log[k].answer.op);
    AtMostOneAct(log[k].answer.op);
    if act == [] {
      assert acts + act == acts;
    } else {
      assert act == [act[0]];
      Q.RunNext(Q.Zeroed(), acts, act[0]);
    }
  }

  lemma AtMostOneAct(op: Op)
    ensures |ActOf(op)| <= 1
  {
  }

  /** So the accounting of whole runs of the ring holds of the queue of every concurrent run. */
  lemma {:induction false} QueueOfLog(log: seq<Entry<Op, Local>>)
    ensures var t := Q.Run(Q.Zeroed(), ActsOf(log));
            Q.Linked(t.queue) && Q.Contents(t.queue) == Replay(log).queue
  {
    if log == [] {
      QueueStartsEmpty();
    } else {
      hide Q.Contents, Q.Linked, Q.Perform, Q.Run, After, ActOf, ActsOf;
      var k := |log| - 1;
      QueueOfLog(log[..k]);
      RunOfLog(log);
      QueueStep(Q.Run(Q.Zeroed(), ActsOf(log[..k])), log[k].answer.op, Replay(log[..k]));
    }
  }

  /** The messages of the send calls of a log, and those that its receive calls returned. */
  function SentBy(log: seq<Entry<Op, Local>>): seq<Q.Message> {
    if log == [] then [] else SentBy(log[..|log| - 1]) + GivenBy(log[|log| - 1].answer.op)
  }

  function GivenBy(op: Op): seq<Q.Message> {
    match op
    case OnQueue(SendOp(m)) => [m]
    case _ => []
  }

  function ReceivedBy(log: seq<Entry<Op, Local>>): seq<Q.Message> {
    if log == [] then []
    else ReceivedBy(log[..|log| - 1]) + GotBy(log[|log| - 1].answer.op, log[|log| - 1].answer.result)
  }

  function GotBy(op: Op, result: Local): seq<Q.Message> {
    match (op, result)
    case (OnQueue(ReceiveOp), InQueue(Done(_, Got(m)))) => [m]
    case _ => []
  }

  /** The oldest queued message, wherever a log sends to a full queue. */
  function DroppedBy(log: seq<Entry<Op, Local>>): seq<Q.Message> {
    if log == [] then []
    else
      var k := |log| - 1;
      DroppedBy(log[..k]) + LostToSend(log[k].answer.op, Replay(log[..k]))
  }

  function LostToSend(op: Op, d: Data): seq<Q.Message> {
    match op
    case OnQueue(SendOp(_)) => if |d.queue| >= 100 then [d.queue[0]] else []
    case _ => []
  }

  /** All queued messages, wherever a log clears the queue. */
  function ClearedBy(log: seq<Entry<Op, Local>>): seq<Q.Message> {
    if log == [] then []
    else
      var k := |log| - 1;
      ClearedBy(log[..k]) + LostToClear(log[k].answer.op, Replay(log[..k]))
  }

  function LostToClear(op: Op, d: Data): seq<Q.Message> {
    if op == OnQueue(Q.ClearOp) then d.queue else []
  }

  lemma GotIsOldest(op: Op, d: Data)
    ensures GotBy(op, Result(op, d)) == if op == OnQueue(Q.ReceiveOp) && d.queue != [] then [d.queue[0]] else []
  {
  }

  lemma TraceStep(t: Q.Trace, op: Op, d: Data)
    requires Q.Linked(t.queue) && Q.Contents(t.queue) == d.queue
    ensures var r := if ActOf(op) != [] then Q.Perform(t, ActOf(op)[0]) else t;
            && r.sent == t.sent + GivenBy(op)
            && r.received == t.received + (if op == OnQueue(Q.ReceiveOp) && d.queue != [] then [d.queue[0]] else [])
            && r.dropped == t.dropped + LostToSend(op, d)
            && r.cleared == t.cleared + LostToClear(op, d)
  {
    hide Q.Contents, Q.Sent, Q.DropHead, Q.Linked;
    Q.ClearedIsEmpty(t.queue);
    QueuePops(t.queue);
    if t.queue.count > 0 {
      Q.DropHeadDropsOldest(t.queue);
    }
  }

  /** What clients sent and received is what the ring of that run was given and gave, and what was lost
      is what it dropped and what was cleared. */
  lemma {:induction false} MessagesOfLog(log: seq<Entry<Op, Local>>)
    requires ReplayExplains(log)
    ensures var t := Q.Run(Q.Zeroed(), ActsOf(log));
            && t.sent == SentBy(log) && t.received == ReceivedBy(log)
            && t.dropped == DroppedBy(log) && t.cleared == ClearedBy(log)
  {
    if log == [] {
    } else {
      hide Q.Contents, Q.Linked, Q.Perform, Q.Run, After, Result, Replay, GotBy, GivenBy, ActOf, ActsOf;
      hide LostToSend, LostToClear;
      var k := |log| - 1;
      var op := log[k].answer.op;
      PrefixExplains(log, k);
      MessagesOfLog(log[..k]);
      QueueOfLog(log[..k]);
      RunOfLog(log);
      TraceStep(Q.Run(Q.Zeroed(), ActsOf(log[..k])), op, Replay(log[..k]));
      GotIsOldest(op, Replay(log[..k]));
      assert log[k].answer.result == Result(op, Replay(log[..k]));
    }
  }

  lemma PrefixExplains(log: seq<Entry<Op, Local>>, n: nat)
    requires n <= |log| && ReplayExplains(log)
    ensures ReplayExplains(log[..n])
  {
    hide Result, Replay;
    forall k | 0 <= k < n
      ensures log[..n][k].answer.result == Result(log[..n][k].answer.op, Replay(log[..n][..k]))
    {
      assert log[..n][..k] == log[..k] && log[..n][k] == log[k];
    }
  }

  /** In every concurrent run each message sent has one fate or is still queued, in order of sending:
      clients received exactly the messages with that fate, exactly the oldest one was dropped by each
      send to a full queue, exactly the queued ones were cleared by each clear, and nothing else is
      gone. */
  lemma MessagesOfEveryRun(scripts: seq<seq<Op>>, segment: Memory, moves: seq<Move>,
                           v: World<Op, Local, Memory>) returns (fates: seq<Q.Fate>)
    requires Shared().Leads(Launched(scripts, segment), moves, v)
    ensures Q.Books(SentBy(v.log), ReceivedBy(v.log), DroppedBy(v.log), ClearedBy(v.log), Replay(v.log).queue, fates)
    ensures |SentBy(v.log)| ==
            |ReceivedBy(v.log)| + |DroppedBy(v.log)| + |ClearedBy(v.log)| + |Replay(v.log).queue|
  {
    hide ReplayExplains, Replay, Q.Run, Q.Select, Q.Contents, Q.Linked;
    EveryRunIsSerial(scripts, segment, moves, v);
    QueueOfLog(v.log);
    MessagesOfLog(v.log);
    QueueStartsEmpty();
    fates := Q.RunAccounts(Q.Zeroed(), ActsOf(v.log));
    Q.FatesPartition(SentBy(v.log), fates);
  }

  // ---- The statistics of a run ----

  function StatOps(log: seq<Entry<Op, Local>>): seq<T.Op> {
    if log == [] then [] else StatOps(log[..|log| - 1]) + StatOp(log[|log| - 1].answer.op)
  }

  function StatOp(op: Op): seq<T.Op> {
    if op.OnStats? then [op.t] else []
  }

  lemma StatsStep(op: Op, d: Data)
    ensures After(op, d).stats == if op.OnStats? then T.Meaning(op.t, d.stats) else d.stats
  {
    hide Q.Meaning, S.Meaning, W.Meaning, T.Meaning;
  }

  lemma {:induction false} StatsOfLog(log: seq<Entry<Op, Local>>)
    ensures Replay(log).stats == T.Run(StatOps(log))
  {
    if log == [] {
      assert T.Run([]) == T.Zeroed();
    } else {
      hide T.Meaning, T.Run, After;
      var k := |log| - 1;
      var op, ops := log[k].answer.op, StatOps(log[..k]);
      StatsOfLog(log[..k]);
      StatsStep(op, Replay(log[..k]));
      if op.OnStats? {
        T.RunNext(ops, op.t);
      } else {
        assert ops + [] == ops;
      }
    }
  }

  /** In every concurrent run, whenever nobody writes: each request is counted as a success or a
      failure, the average is between 0 and any bound on the times reported, and it is their exact mean
      if requests and times alternate in the log, with anything else in between, or every time was
      harmless. */
  lemma StatisticsOfEveryRun(scripts: seq<seq<Op>>, segment: Memory, moves: seq<Move>,
                             v: World<Op, Local, Memory>, bound: real)
    requires Shared().Leads(Launched(scripts, segment), moves, v)
    requires v.boot.Booted? && Shared().NobodyWrites(v) && bound >= 0.0
    requires forall k :: 0 <= k < |v.log| && v.log[k].answer.op.OnStats? && v.log[k].answer.op.t.Time? ==>
               0.0 <= v.log[k].answer.op.t.ms <= bound
    ensures v.mem.stats.total == v.mem.stats.successful + v.mem.stats.failed
    ensures T.Counts(v.mem.stats, StatOps(v.log))
    ensures 0.0 <= v.mem.stats.average <= bound
    ensures var times := T.TimesOf(StatOps(v.log));
            && (T.PhaseOf(StatOps(v.log)) == T.Ready ==> T.IsMean(v.mem.stats, |times|, T.Sum(times)))
            && (T.PhaseOf(StatOps(v.log)) == T.Waiting ==> T.IsMeanBefore(v.mem.stats, |times|, T.Sum(times)))
            && (T.AllHarmless(StatOps(v.log)) ==> T.AverageIs(v.mem.stats.average, |times|, T.Sum(times)))
  {
    hide ReplayExplains, Replay, Linkages;
    hide T.Run, T.IsMean, T.IsMeanBefore, T.PhaseOf, T.AllHarmless, T.AverageIs, T.Counts;
    EveryRunIsSerial(scripts, segment, moves, v);
    StatsOfLog(v.log);
    StatOpsAreLogged(v.log, bound);
    T.AverageStaysInRange(StatOps(v.log), bound);
    T.CountersCount(StatOps(v.log));
    if T.PhaseOf(StatOps(v.log)) != T.Broken {
      T.AlternatingRunIsMean(StatOps(v.log));
    }
    T.AlwaysMeanExactlyWhen(StatOps(v.log));
    assert StatOps(v.log)[..|StatOps(v.log)|] == StatOps(v.log);
  }

  lemma {:induction false} StatOpsAreLogged(log: seq<Entry<Op, Local>>, bound: real)
    requires forall k :: 0 <= k < |log| && log[k].answer.op.OnStats? && log[k].answer.op.t.Time? ==>
               0.0 <= log[k].answer.op.t.ms <= bound
    ensures forall k :: 0 <= k < |StatOps(log)| && StatOps(log)[k].Time? ==> 0.0 <= StatOps(log)[k].ms <= bound
  {
    if log == [] {
    } else {
      StatOpsAreLogged(log[..|log| - 1], bound);
    }
  }

  lemma QueueStartsEmpty()
    ensures Q.Linked(Q.Zeroed()) && Q.Contents(Q.Zeroed()) == []
  {
  }

  lemma QueuePops(q: Q.Queue)
    requires Q.Linked(q)
    ensures q.count == 0 <==> Q.Contents(q) == []
    ensures q.count > 0 ==> Q.Linked(Q.DropHead(q)) && Q.Contents(Q.DropHead(q)) == Q.Contents(q)[1..]
  {
    if q.count > 0 {
      Q.DropHeadDropsOldest(q);
    }
  }

  lemma QueueClears(q: Q.Queue)
    ensures Q.Linked(q.(head := 0, tail := 0, count := 0)) && Q.Contents(q.(head := 0, tail := 0, count := 0)) == []
  {
  }
}
