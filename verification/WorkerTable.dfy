/** The worker slots of src/ipc.c: twenty slots, reused when freed, scanned only below a high-water mark. */
module WorkerTable {
  import opened Wrappers
  import opened SlotArrays
  import opened LockedRuns
  import StockTable

  const MAX_WORKERS := 20
  const TIMEOUT := 30

  datatype Worker = Worker(
    pid: int, symbol: StockTable.Symbol, status: int,
    startTime: int, lastHeartbeat: int, requestCount: int, errorCount: int)

  function Zero(): Worker {
    Worker(0, "", 0, 0, 0, 0, 0)
  }

  /** The slots, the high-water mark worker_count, and stats.active_workers. */
  datatype RawBoard = RawBoard(workers: seq<Worker>, mark: int, active: int)

  predicate InBounds(b: RawBoard) {
    |b.workers| == MAX_WORKERS && 0 <= b.mark <= MAX_WORKERS
  }

  function Zeroed(): RawBoard {
    RawBoard(seq(MAX_WORKERS, _ => Zero()), 0, 0)
  }

  type Board = b: RawBoard | InBounds(b) witness Zeroed()

  /** Every live slot is below the mark. */
  ghost predicate Marked(b: Board) {
    forall i :: b.mark <= i < MAX_WORKERS ==> b.workers[i].pid == 0
  }

  /** The live workers by slot, and the count the statistics show. */
  datatype View = View(live: map<int, Worker>, active: int)

  function Live(ws: seq<Worker>): map<int, Worker> {
    map i | 0 <= i < |ws| && ws[i].pid != 0 :: ws[i]
  }

  function ViewOf(b: Board): View {
    View(Live(b.workers), b.active)
  }

  lemma LiveAfterWrite(ws: seq<Worker>, i: nat, w: Worker)
    requires i < |ws|
    ensures Live(ws[i := w]) == if w.pid != 0 then Live(ws)[i := w] else Live(ws) - {i}
  {
  }

  // ---- What the operations mean ----

  /** The first slot from i on that is free or already has this pid, or -1. */
  function SlotFor(live: map<int, Worker>, pid: int, i: nat): (r: int)
    ensures r == -1 || i <= r < MAX_WORKERS
    ensures r == -1 ==> forall k :: i <= k < MAX_WORKERS ==> k in live && live[k].pid != pid
    ensures r != -1 ==> (r in live ==> live[r].pid == pid)
    ensures r != -1 ==> forall k :: i <= k < r ==> k in live && live[k].pid != pid
    decreases MAX_WORKERS - i
  {
    if i >= MAX_WORKERS then -1
    else if i !in live || live[i].pid == pid then i
    else SlotFor(live, pid, i + 1)
  }

  /** The first slot from i on with this pid, or -1. */
  function SlotOf(live: map<int, Worker>, pid: int, i: nat): (r: int)
    ensures r == -1 || i <= r < MAX_WORKERS
    ensures r == -1 ==> forall k :: i <= k < MAX_WORKERS ==> k !in live || live[k].pid != pid
    ensures r != -1 ==> r in live && live[r].pid == pid
    ensures r != -1 ==> forall k :: i <= k < r ==> k !in live || live[k].pid != pid
    decreases MAX_WORKERS - i
  {
    if i >= MAX_WORKERS then -1
    else if i in live && live[i].pid == pid then i
    else SlotOf(live, pid, i + 1)
  }

  function Registered(pid: int, symbol: string, started: int, beat: int): Worker {
    Worker(pid, StockTable.Stored(symbol), 1, started, beat, 0, 0)
  }

  function AfterRegister(v: View, pid: int, symbol: string, started: int, beat: int): (View, int) {
    var k := SlotFor(v.live, pid, 0);
    if k < 0 then (v, -1) else (View(v.live[k := Registered(pid, symbol, started, beat)], v.active + 1), k)
  }

  function AfterUnregister(v: View, pid: int): (View, int) {
    var k := SlotOf(v.live, pid, 0);
    if k < 0 then (v, -1) else (View(v.live - {k}, v.active - 1), 0)
  }

  function AfterHeartbeat(v: View, pid: int, now: int): (View, int) {
    var k := SlotOf(v.live, pid, 0);
    if k < 0 then (v, -1) else (v.(live := v.live[k := v.live[k].(lastHeartbeat := now)]), 0)
  }

  predicate Stale(w: Worker, now: int) {
    w.pid > 0 && w.status == 1 && now - w.lastHeartbeat > TIMEOUT
  }

  /** The pids of the stale workers of the first n slots, in slot order. */
  function StalePids(live: map<int, Worker>, now: int, n: nat): seq<int> {
    if n == 0 then []
    else StalePids(live, now, n - 1) + StaleAt(live, now, n - 1)
  }

  function StaleAt(live: map<int, Worker>, now: int, i: nat): seq<int> {
    if i in live && Stale(live[i], now) then [live[i].pid] else []
  }

  /** The dead scan: the first `max` stale workers of all the slots. */
  function Dead(live: map<int, Worker>, now: int, max: int): seq<int> {
    var all := StalePids(live, now, MAX_WORKERS);
    if max <= 0 then [] else if |all| <= max then all else all[..max]
  }

  // ---- Live pids and the active count ----

  /** No pid has two slots, and the active count is the number of live workers. */
  ghost predicate Settled(v: View) {
    && (forall i, j :: i in v.live && j in v.live && i != j ==> v.live[i].pid != v.live[j].pid)
    && v.active == |v.live|
  }

  predicate IsLive(live: map<int, Worker>, pid: int) {
    exists i :: i in live && live[i].pid == pid
  }

  predicate InSlots(live: map<int, Worker>) {
    forall i :: i in live ==> 0 <= i < MAX_WORKERS
  }

  /** Registering keeps the table settled exactly when the pid is not live already. */
  lemma RegisterKeepsSettledExactlyWhen(v: View, pid: int, symbol: string, started: int, beat: int)
    requires Settled(v) && InSlots(v.live)
    ensures Settled(AfterRegister(v, pid, symbol, started, beat).0) <==> !IsLive(v.live, pid)
  {
    var k := SlotFor(v.live, pid, 0);
    var r := AfterRegister(v, pid, symbol, started, beat).0;
    if k < 0 {
      assert r == v;
    } else if k in v.live {
      assert r.live.Keys == v.live.Keys;
      assert |r.live| == |r.live.Keys| == |v.live|;
    } else {
      assert r.live.Keys == v.live.Keys + {k};
      assert |r.live| == |r.live.Keys| == |v.live| + 1;
      if IsLive(v.live, pid) {
        var i :| i in v.live && v.live[i].pid == pid;
        assert r.live[i].pid == r.live[k].pid && i != k;
      }
    }
  }

  lemma UnregisterAndHeartbeatKeepSettled(v: View, pid: int, now: int)
    requires Settled(v) && InSlots(v.live)
    ensures Settled(AfterUnregister(v, pid).0) && !IsLive(AfterUnregister(v, pid).0.live, pid)
    ensures Settled(AfterHeartbeat(v, pid, now).0)
  {
    var k := SlotOf(v.live, pid, 0);
    if k >= 0 {
      var r := AfterUnregister(v, pid).0;
      assert r.live.Keys == v.live.Keys - {k};
      assert |r.live| == |r.live.Keys| == |v.live| - 1;
      var h := AfterHeartbeat(v, pid, now).0;
      assert h.live.Keys == v.live.Keys;
      assert |h.live| == |h.live.Keys| == |v.live|;
    }
  }

  lemma {:induction false} StalePidsAreStale(live: map<int, Worker>, now: int, n: nat, pid: int)
    ensures pid in StalePids(live, now, n) <==>
            exists i :: 0 <= i < n && i in live && live[i].pid == pid && Stale(live[i], now)
  {
    if n == 0 {
    } else {
      StalePidsAreStale(live, now, n - 1, pid);
      var rest := if n - 1 in live && Stale(live[n - 1], now) then [live[n - 1].pid] else [];
      assert pid in StalePids(live, now, n) <==> pid in StalePids(live, now, n - 1) || pid in rest;
    }
  }

  /** On a settled table the scan reports a live worker only if its own last heartbeat is more than
      thirty seconds before the clock reading, and reports every such worker when there is room. */
  lemma DeadExactlyWhenStale(v: View, now: int, max: int, k: int)
    requires Settled(v) && InSlots(v.live) && k in v.live
    ensures var w := v.live[k];
            var silent := w.pid > 0 && w.status == 1 && now - w.lastHeartbeat > 30;
            && (w.pid in Dead(v.live, now, max) ==> silent)
            && (max >= |StalePids(v.live, now, 20)| && silent && max > 0 ==> w.pid in Dead(v.live, now, max))
  {
    StalePidsAreStale(v.live, now, MAX_WORKERS, v.live[k].pid);
  }

  /** The tail of the scan, from slot i on with room for some more pids. */
  function DeadFrom(live: map<int, Worker>, now: int, i: nat, room: int): seq<int>
    decreases MAX_WORKERS - i
  {
    if i >= MAX_WORKERS || room <= 0 then []
    else if i in live && Stale(live[i], now) then [live[i].pid] + DeadFrom(live, now, i + 1, room - 1)
    else DeadFrom(live, now, i + 1, room)
  }

  lemma {:induction false} DeadFromContinues(live: map<int, Worker>, now: int, i: nat, max: int)
    requires i <= MAX_WORKERS && |StalePids(live, now, i)| <= max
    ensures Dead(live, now, max) == StalePids(live, now, i) + DeadFrom(live, now, i, max - |StalePids(live, now, i)|)
    decreases MAX_WORKERS - i
  {
    hide Stale, Dead, DeadFrom, StalePids;
    var found := StalePids(live, now, i);
    DeadFromStep(live, now, i, max - |found|);
    if |found| == max || i == MAX_WORKERS {
      DeadAtEnd(live, now, i, max);
    } else {
      StalePidsStep(live, now, i);
      DeadFromContinues(live, now, i + 1, max);
      var more := StaleAt(live, now, i);
      var tail := DeadFrom(live, now, i + 1, max - |found + more|);
      assert (found + more) + tail == found + (more + tail);
    }
  }

  lemma StalePidsStep(live: map<int, Worker>, now: int, i: nat)
    ensures StalePids(live, now, i + 1) == StalePids(live, now, i) + StaleAt(live, now, i)
  {
  }

  lemma DeadFromStep(live: map<int, Worker>, now: int, i: nat, room: nat)
    ensures DeadFrom(live, now, i, room) ==
            if i >= MAX_WORKERS || room == 0 then []
            else
              StaleAt(live, now, i) + DeadFrom(live, now, i + 1, room - |StaleAt(live, now, i)|)
  {
  }

  lemma DeadAtEnd(live: map<int, Worker>, now: int, i: nat, max: int)
    requires i <= MAX_WORKERS && |StalePids(live, now, i)| <= max
    requires |StalePids(live, now, i)| == max || i == MAX_WORKERS
    ensures Dead(live, now, max) == StalePids(live, now, i)
  {
    hide StalePids;
    StalePidsGrow(live, now, i, MAX_WORKERS);
  }

  lemma {:induction false} StalePidsGrow(live: map<int, Worker>, now: int, i: nat, n: nat)
    requires i <= n
    ensures StalePids(live, now, i) <= StalePids(live, now, n)
  {
    if i == n {
    } else {
      StalePidsGrow(live, now, i, n - 1);
    }
  }

  lemma {:induction false} NothingAbove(live: map<int, Worker>, pid: int, now: int, i: nat, room: int)
    requires forall k :: i <= k < MAX_WORKERS ==> k !in live
    ensures SlotOf(live, pid, i) == -1 && DeadFrom(live, now, i, room) == []
    decreases MAX_WORKERS - i
  {
    if i >= MAX_WORKERS {
    } else {
      NothingAbove(live, pid, now, i + 1, room);
    }
  }

  // ---- The slots in place ----

  lemma LiveAt(ws: seq<Worker>, i: nat)
    requires i < |ws|
    ensures i in Live(ws) <==> ws[i].pid != 0
    ensures i in Live(ws) ==> Live(ws)[i] == ws[i]
  {
  }

  lemma FreeIsNotLive(ws: seq<Worker>, i: nat, w: Worker)
    requires i < |ws| && ws[i].pid == 0 && w.pid == 0
    ensures Live(ws[i := w]) == Live(ws)
  {
    LiveAfterWrite(ws, i, w);
  }

  /** The first slot with a pid other than 0 is where the scan of the slots finds it. */
  lemma {:induction false} FirstSlotOf(ws: seq<Worker>, pid: int, i: nat, j: nat)
    requires pid != 0 && |ws| == MAX_WORKERS && j <= i <= MAX_WORKERS
    requires forall k :: j <= k < i ==> ws[k].pid != pid
    ensures SlotOf(Live(ws), pid, j) == SlotOf(Live(ws), pid, i)
    ensures i < MAX_WORKERS && ws[i].pid == pid ==> SlotOf(Live(ws), pid, i) == i
    decreases i - j
  {
    hide Live;
    if i < MAX_WORKERS {
      LiveAt(ws, i);
    }
    if j == i {
    } else {
      LiveAt(ws, j);
      FirstSlotOf(ws, pid, i, j + 1);
    }
  }

  lemma {:induction false} FirstSlotFor(ws: seq<Worker>, pid: int, i: nat, j: nat)
    requires |ws| == MAX_WORKERS && j <= i <= MAX_WORKERS
    requires forall k :: j <= k < i ==> ws[k].pid != 0 && ws[k].pid != pid
    ensures SlotFor(Live(ws), pid, j) == SlotFor(Live(ws), pid, i)
    ensures i < MAX_WORKERS && (ws[i].pid == 0 || ws[i].pid == pid) ==> SlotFor(Live(ws), pid, i) == i
    ensures i == MAX_WORKERS ==> SlotFor(Live(ws), pid, i) == -1
    decreases i - j
  {
    hide Live;
    if i < MAX_WORKERS {
      LiveAt(ws, i);
    }
    if j == i {
    } else {
      LiveAt(ws, j);
      FirstSlotFor(ws, pid, i, j + 1);
    }
  }

  /** A scan up to the mark that finds no slot with the pid. */
  lemma NoSlotBelow(b: Board, pid: int)
    requires Marked(b) && forall k :: 0 <= k < b.mark ==> b.workers[k].pid != pid
    ensures pid != 0 ==> SlotOf(Live(b.workers), pid, 0) == -1
    ensures pid == 0 ==> !FreeBelow(Live(b.workers), b.mark)
  {
    hide SlotOf, Live;
    if pid == 0 {
      forall i | 0 <= i < b.mark ensures i in Live(b.workers) {
        LiveAt(b.workers, i);
      }
    } else {
      FirstSlotOf(b.workers, pid, MAX_WORKERS, 0);
      NothingFrom(Live(b.workers), pid);
    }
  }

  lemma NothingFrom(live: map<int, Worker>, pid: int)
    ensures SlotOf(live, pid, MAX_WORKERS) == -1
  {
  }

  lemma RegisterHit(b: Board, i: nat, pid: int, symbol: string, started: int, beat: int)
    requires i < MAX_WORKERS && (b.workers[i].pid == 0 || b.workers[i].pid == pid)
    requires forall k :: 0 <= k < i ==> b.workers[k].pid != 0 && b.workers[k].pid != pid
    ensures var live := Live(b.workers[i := Registered(pid, symbol, started, beat)]);
            && SlotFor(Live(b.workers), pid, 0) == i
            && (pid != 0 ==> View(live, b.active + 1) == AfterRegister(ViewOf(b), pid, symbol, started, beat).0)
            && (pid == 0 ==> live == Live(b.workers))
  {
    hide SlotFor, Live;
    FirstSlotFor(b.workers, pid, i, 0);
    if pid == 0 {
      FreeIsNotLive(b.workers, i, Registered(pid, symbol, started, beat));
    } else {
      LiveAfterWrite(b.workers, i, Registered(pid, symbol, started, beat));
    }
  }

  lemma UnregisterHit(b: Board, i: nat, pid: int)
    requires i < b.mark && b.workers[i].pid == pid && forall k :: 0 <= k < i ==> b.workers[k].pid != pid
    ensures var live := Live(b.workers[i := b.workers[i].(pid := 0, status := 0)]);
            && (pid != 0 ==> (View(live, b.active - 1), 0) == AfterUnregister(ViewOf(b), pid))
            && (pid == 0 ==> live == Live(b.workers) && FreeBelow(Live(b.workers), b.mark))
  {
    hide SlotOf, Live;
    LiveAt(b.workers, i);
    if pid == 0 {
      FreeIsNotLive(b.workers, i, b.workers[i].(pid := 0, status := 0));
    } else {
      FirstSlotOf(b.workers, pid, i, 0);
      LiveAfterWrite(b.workers, i, b.workers[i].(pid := 0, status := 0));
    }
  }

  lemma HeartbeatHit(b: Board, i: nat, pid: int, now: int)
    requires i < b.mark && b.workers[i].pid == pid && forall k :: 0 <= k < i ==> b.workers[k].pid != pid
    ensures var live := Live(b.workers[i := b.workers[i].(lastHeartbeat := now)]);
            && (pid != 0 ==> (View(live, b.active), 0) == AfterHeartbeat(ViewOf(b), pid, now))
            && (pid == 0 ==> live == Live(b.workers) && FreeBelow(Live(b.workers), b.mark))
  {
    hide SlotOf, Live;
    LiveAt(b.workers, i);
    if pid == 0 {
      FreeIsNotLive(b.workers, i, b.workers[i].(lastHeartbeat := now));
    } else {
      FirstSlotOf(b.workers, pid, i, 0);
      LiveAfterWrite(b.workers, i, b.workers[i].(lastHeartbeat := now));
    }
  }

  /** Some slot below the mark is free; a call about pid 0 takes the first such slot for its own. */
  ghost predicate FreeBelow(live: map<int, Worker>, mark: int) {
    exists i :: 0 <= i < mark && i !in live
  }

  /** The functions of src/ipc.c on the slots in place, without the lock around them. */
  class SharedWorkers {
    var workers: array<Worker>
    var mark: int
    var active: int

    ghost predicate Valid()
      reads this, workers
    {
      InBounds(RawBoard(workers[..], mark, active)) && Marked(RawBoard(workers[..], mark, active))
    }

    ghost function Seen(): View
      reads this, workers
      requires Valid()
    {
      ViewOf(RawBoard(workers[..], mark, active))
    }

    constructor ()
      ensures Valid() && fresh(workers) && Seen() == View(map[], 0)
    {
      workers := new Worker[MAX_WORKERS](_ => Zero());
      mark, active := 0, 0;
    }

    ghost function Value(): Board
      reads this, workers
      requires Valid()
    {
      RawBoard(workers[..], mark, active)
    }

    method Register(pid: int, symbol: string, started: int, beat: int) returns (slot: int)
      requires Valid()
      modifies this, workers
      ensures Valid() && workers == old(workers)
      ensures pid != 0 ==> (Seen(), slot) == AfterRegister(old(Seen()), pid, symbol, started, beat)
      ensures pid == 0 ==> slot == SlotFor(old(Seen()).live, pid, 0)
      ensures pid == 0 ==> Seen() == View(old(Seen()).live, old(active) + if slot >= 0 then 1 else 0)
    {
      hide Live, SlotFor;
      ghost var b := Value();
      var i := 0;
      while i < MAX_WORKERS
        invariant 0 <= i <= MAX_WORKERS && workers == old(workers) && Valid() && Value() == b
        invariant forall k :: 0 <= k < i ==> b.workers[k].pid != 0 && b.workers[k].pid != pid
      {
        if workers[i].pid == 0 || workers[i].pid == pid {
          RegisterHit(b, i, pid, symbol, started, beat);
          workers[i] := workers[i].(pid := pid);
          workers[i] := workers[i].(symbol := StockTable.Stored(symbol));
          workers[i] := workers[i].(status := 1);
          workers[i] := workers[i].(startTime := started);
          workers[i] := workers[i].(lastHeartbeat := beat);
          workers[i] := workers[i].(requestCount := 0);
          workers[i] := workers[i].(errorCount := 0);
          if i >= mark {
            mark := i + 1;
          }
          active := active + 1;
          assert workers[..] == b.workers[i := Registered(pid, symbol, started, beat)];
          return i;
        }
        i := i + 1;
      }
      FirstSlotFor(b.workers, pid, i, 0);
      return -1;
    }

    method Unregister(pid: int) returns (code: int)
      requires Valid()
      modifies this, workers
      ensures Valid() && workers == old(workers)
      ensures pid != 0 ==> (Seen(), code) == AfterUnregister(old(Seen()), pid)
      ensures pid == 0 ==> code == if FreeBelow(old(Seen()).live, old(mark)) then 0 else -1
      ensures pid == 0 ==> Seen() == View(old(Seen()).live, old(active) - if code == 0 then 1 else 0)
    {
      hide Live, SlotOf, FreeBelow;
      ghost var b := Value();
      var i := 0;
      while i < mark
        invariant 0 <= i <= mark && workers == old(workers) && Valid() && Value() == b
        invariant forall k :: 0 <= k < i ==> b.workers[k].pid != pid
      {
        if workers[i].pid == pid {
          UnregisterHit(b, i, pid);
          workers[i] := workers[i].(pid := 0);
          workers[i] := workers[i].(status := 0);
          active := active - 1;
          assert workers[..] == b.workers[i := b.workers[i].(pid := 0, status := 0)];
          return 0;
        }
        i := i + 1;
      }
      NoSlotBelow(b, pid);
      return -1;
    }

    method Heartbeat(pid: int, now: int) returns (code: int)
      requires Valid()
      modifies workers
      ensures Valid()
      ensures pid != 0 ==> (Seen(), code) == AfterHeartbeat(old(Seen()), pid, now)
      ensures pid == 0 ==> code == (if FreeBelow(Seen().live, mark) then 0 else -1) && Seen() == old(Seen())
    {
      hide Live, SlotOf, FreeBelow;
      ghost var b := Value();
      var i := 0;
      while i < mark
        invariant 0 <= i <= mark && Valid() && Value() == b
        invariant forall k :: 0 <= k < i ==> b.workers[k].pid != pid
      {
        if workers[i].pid == pid {
          HeartbeatHit(b, i, pid, now);
          workers[i] := workers[i].(lastHeartbeat := now);
          assert workers[..] == b.workers[i := b.workers[i].(lastHeartbeat := now)];
          return 0;
        }
        i := i + 1;
      }
      NoSlotBelow(b, pid);
      return -1;
    }

    method DeadWorkers(now: int, dead: array<int>, max: int) returns (count: int)
      requires Valid() && max <= dead.Length
      modifies dead
      ensures 0 <= count <= dead.Length && Valid() && Seen() == old(Seen())
      ensures dead[..count] == Dead(Seen().live, now, max)
    {
      count := 0;
      var i := 0;
      ghost var live := Seen().live;
      while i < mark && count < max
        invariant 0 <= i <= mark && 0 <= count && (count <= max || count == 0) && count <= dead.Length
        invariant Valid() && Seen() == old(Seen())
        invariant dead[..count] == StalePids(live, now, i)
      {
        if workers[i].pid > 0 && workers[i].status == 1 {
          if now - workers[i].lastHeartbeat > TIMEOUT {
            dead[count] := workers[i].pid;
            count := count + 1;
          }
        }
        i := i + 1;
      }
      if max > 0 {
        DeadFromContinues(live, now, i, max);
        if i == mark {
          NothingAbove(live, 0, now, i, max - count);
        }
      }
    }
  }

  // ---- The bodies, one assignment at a time ----

  type Pid = p: int | p != 0 witness 1

  datatype Op =
    | Register(pid: Pid, symbol: string, started: int, beat: int)
    | Unregister(pid: Pid)
    | Heartbeat(pid: Pid, now: int)
    | DeadScan(now: int, max: int)

  datatype Answer = Code(code: int) | Pids(pids: seq<int>)

  datatype Local =
    | RegisterFind(worker: Worker, i: nat)
    | RegisterSet(worker: Worker, i: nat, field: nat)   // the seven assignments to the slot
    | RegisterMark(i: nat)
    | RegisterCount(i: nat)
    | UnregisterFind(pid: int, i: nat)
    | UnregisterPid(i: nat)
    | UnregisterStatus(i: nat)
    | UnregisterCount
    | HeartbeatFind(pid: int, now: int, i: nat)
    | HeartbeatSet(now: int, i: nat)
    | Scanning(now: int, max: int, i: nat, found: seq<int>)
    | Done(write: bool, answer: Answer)

  function Start(op: Op): Local {
    match op
    case Register(pid, symbol, started, beat) => RegisterFind(Registered(pid, symbol, started, beat), 0)
    case Unregister(pid) => UnregisterFind(pid, 0)
    case Heartbeat(pid, now) => HeartbeatFind(pid, now, 0)
    case DeadScan(now, max) => Scanning(now, max, 0, [])
  }

  predicate Writes(l: Local) {
    match l
    case Scanning(_, _, _, _) => false
    case Done(write, _) => write
    case _ => true
  }

  function Left(n: nat, i: nat): nat {
    if i < n then n - i else 0
  }

  function Rank(l: Local): nat {
    match l
    case RegisterFind(_, i) => 20 + Left(MAX_WORKERS, i)
    case RegisterSet(_, _, field) => 3 + Left(7, field)
    case UnregisterFind(_, i) => 4 + Left(MAX_WORKERS, i)
    case HeartbeatFind(_, _, i) => 2 + Left(MAX_WORKERS, i)
    case Scanning(_, _, i, _) => 1 + Left(MAX_WORKERS, i)
    case UnregisterPid(_) => 3
    case RegisterMark(_) | UnregisterStatus(_) => 2
    case RegisterCount(_) | UnregisterCount | HeartbeatSet(_, _) => 1
    case Done(_, _) => 0
  }

  function SetField(w: Worker, worker: Worker, field: nat): Worker {
    match field
    case 0 => w.(pid := worker.pid)
    case 1 => w.(symbol := worker.symbol)
    case 2 => w.(status := 1)
    case 3 => w.(startTime := worker.startTime)
    case 4 => w.(lastHeartbeat := worker.lastHeartbeat)
    case 5 => w.(requestCount := 0)
    case 6 => w.(errorCount := 0)
    case _ => w
  }

  /** One step. Put, At and the bound on the mark only make the step total. */
  function Step(l: Local, b: Board): (Local, Board) {
    match l
    case RegisterFind(worker, i) =>
      (if i >= MAX_WORKERS then Done(true, Code(-1))
       else if b.workers[i].pid == 0 || b.workers[i].pid == worker.pid then RegisterSet(worker, i, 0)
       else RegisterFind(worker, i + 1), b)
    case RegisterSet(worker, i, field) =>
      (if field < 6 then RegisterSet(worker, i, field + 1) else RegisterMark(i),
       b.(workers := Put(b.workers, i, SetField(At(b.workers, i, Zero()), worker, field))))
    case RegisterMark(i) => (RegisterCount(i), if b.mark <= i < MAX_WORKERS then b.(mark := i + 1) else b)
    case RegisterCount(i) => (Done(true, Code(i)), b.(active := b.active + 1))
    case UnregisterFind(pid, i) =>
      (if i >= b.mark then Done(true, Code(-1))
       else if b.workers[i].pid == pid then UnregisterPid(i) else UnregisterFind(pid, i + 1), b)
    case UnregisterPid(i) =>
      (UnregisterStatus(i), b.(workers := Put(b.workers, i, At(b.workers, i, Zero()).(pid := 0))))
    case UnregisterStatus(i) =>
      (UnregisterCount, b.(workers := Put(b.workers, i, At(b.workers, i, Zero()).(status := 0))))
    case UnregisterCount => (Done(true, Code(0)), b.(active := b.active - 1))
    case HeartbeatFind(pid, now, i) =>
      (if i >= b.mark then Done(true, Code(-1))
       else if b.workers[i].pid == pid then HeartbeatSet(now, i) else HeartbeatFind(pid, now, i + 1), b)
    case HeartbeatSet(now, i) =>
      (Done(true, Code(0)), b.(workers := Put(b.workers, i, At(b.workers, i, Zero()).(lastHeartbeat := now))))
    case Scanning(now, max, i, found) =>
      (if i >= b.mark || |found| >= max then Done(false, Pids(found))
       else Scanning(now, max, i + 1, found + if Stale(b.workers[i], now) then [b.workers[i].pid] else []), b)
    case Done(_, _) => (l, b)
  }

  function Bodies(): Program<Op, Local, Board> {
    Program(Start, Step, (l: Local) => l.Done?, Writes, Rank)
  }

  lemma StepDescends(l: Local, b: Board)
    requires !l.Done?
    ensures Rank(Step(l, b).0) < Rank(l)
  {
  }

  lemma StepKeepsKind(l: Local, b: Board)
    ensures Writes(Step(l, b).0) == Writes(l)
    ensures !Writes(l) ==> Step(l, b).1 == b
  {
  }

  lemma BodiesWellFormed()
    ensures Bodies().WellFormed()
  {
    hide Step, Rank, Writes;
    forall l: Local, b: Board
      ensures !l.Done? ==> Rank(Step(l, b).0) < Rank(l)
      ensures Writes(Step(l, b).0) == Writes(l)
      ensures !Writes(l) ==> Step(l, b).1 == b
    {
      if !l.Done? {
        StepDescends(l, b);
      }
      StepKeepsKind(l, b);
    }
  }

  function Meaning(op: Op, v: View): (View, Answer) {
    match op
    case Register(pid, symbol, started, beat) =>
      var (r, code) := AfterRegister(v, pid, symbol, started, beat); (r, Code(code))
    case Unregister(pid) => var (r, code) := AfterUnregister(v, pid); (r, Code(code))
    case Heartbeat(pid, now) => var (r, code) := AfterHeartbeat(v, pid, now); (r, Code(code))
    case DeadScan(now, max) => (v, Pids(Dead(v.live, now, max)))
  }

  /** The heartbeat an operation records, if the pid has or gets a slot. */
  datatype Beat = Beat(pid: int, time: int)

  function BeatOf(op: Op): Option<Beat> {
    match op
    case Register(pid, _, _, beat) => Some(Beat(pid, beat))
    case Heartbeat(pid, now) => Some(Beat(pid, now))
    case _ => None
  }

  /** After an operation a live worker has the heartbeat it recorded, or the one it had. */
  lemma BeatStep(v: View, op: Op, i: int)
    requires Settled(v) && InSlots(v.live) && (op.Register? ==> !IsLive(v.live, op.pid))
    requires i in Meaning(op, v).0.live
    ensures var w := Meaning(op, v).0.live[i];
            if BeatOf(op).Some? && BeatOf(op).value.pid == w.pid then w.lastHeartbeat == BeatOf(op).value.time
            else i in v.live && v.live[i].pid == w.pid && v.live[i].lastHeartbeat == w.lastHeartbeat
  {
    match op {
      case Register(pid, symbol, started, beat) =>
      case Unregister(pid) =>
      case Heartbeat(pid, now) =>
      case DeadScan(_, _) =>
    }
  }

  lemma Steps(l: Local, b: Board)
    requires Bodies().WellFormed()
    ensures Bodies().Finish(l, b) == if l.Done? then (l, b) else Bodies().Finish(Step(l, b).0, Step(l, b).1)
  {
    Bodies().FinishStep(l, b);
  }

  lemma {:induction false} RegisterFindFinishes(worker: Worker, i: nat, b: Board)
    requires Bodies().WellFormed() && i <= MAX_WORKERS && worker.pid != 0
    ensures var k := SlotFor(Live(b.workers), worker.pid, i);
            Bodies().Finish(RegisterFind(worker, i), b) ==
            if k < 0 then (Done(true, Code(-1)), b) else Bodies().Finish(RegisterSet(worker, k, 0), b)
    decreases MAX_WORKERS - i
  {
    hide Program.WellFormed, Program.Finish;
    Steps(RegisterFind(worker, i), b);
    Steps(Done(true, Code(-1)), b);
    if i >= MAX_WORKERS || b.workers[i].pid == 0 || b.workers[i].pid == worker.pid {
    } else {
      RegisterFindFinishes(worker, i + 1, b);
    }
  }

  /** The assignments from `field` on. */
  function SetFields(w: Worker, worker: Worker, field: nat): Worker
    decreases 7 - field
  {
    if field >= 7 then w else SetFields(SetField(w, worker, field), worker, field + 1)
  }

  lemma {:induction false} RegisterSetFinishes(worker: Worker, i: nat, field: nat, b: Board)
    requires Bodies().WellFormed() && i < MAX_WORKERS && field <= 6
    ensures Bodies().Finish(RegisterSet(worker, i, field), b) ==
            Bodies().Finish(RegisterMark(i),
                            b.(workers := b.workers[i := SetFields(b.workers[i], worker, field)]))
    decreases 7 - field
  {
    hide Program.WellFormed, Program.Finish, SetField;
    Steps(RegisterSet(worker, i, field), b);
    var w := SetField(b.workers[i], worker, field);
    var b' := b.(workers := b.workers[i := w]);
    if field < 6 {
      RegisterSetFinishes(worker, i, field + 1, b');
      assert b'.workers[i := SetFields(w, worker, field + 1)] == b.workers[i := SetFields(w, worker, field + 1)];
    } else {
      assert SetFields(w, worker, 7) == w;
    }
  }

  lemma AllFieldsSet(w: Worker, pid: int, symbol: string, started: int, beat: int)
    ensures SetFields(w, Registered(pid, symbol, started, beat), 0) == Registered(pid, symbol, started, beat)
  {
    var r := Registered(pid, symbol, started, beat);
    var w3 := SetField(SetField(SetField(w, r, 0), r, 1), r, 2);
    var w6 := SetField(SetField(SetField(w3, r, 3), r, 4), r, 5);
    assert SetFields(w, r, 0) == SetFields(w3, r, 3) == SetFields(w6, r, 6);
  }

  lemma LastRegisterSteps(k: nat, b: Board)
    requires k < MAX_WORKERS
    ensures Step(RegisterMark(k), b) == (RegisterCount(k), b.(mark := if b.mark <= k then k + 1 else b.mark))
    ensures Step(RegisterCount(k), b) == (Done(true, Code(k)), b.(active := b.active + 1))
  {
  }

  lemma RegisterEnds(k: nat, b: Board)
    requires Bodies().WellFormed() && k < MAX_WORKERS
    ensures Bodies().Finish(RegisterMark(k), b) ==
            (Done(true, Code(k)), b.(mark := if b.mark <= k then k + 1 else b.mark, active := b.active + 1))
  {
    hide Program.WellFormed, Program.Finish, Step, Rank;
    var b1 := Step(RegisterMark(k), b).1;
    var b2 := Step(RegisterCount(k), b1).1;
    LastRegisterSteps(k, b);
    LastRegisterSteps(k, b1);
    Steps(RegisterMark(k), b);
    Steps(RegisterCount(k), b1);
    Steps(Done(true, Code(k)), b2);
  }

  lemma RegisterFinishes(op: Op, b: Board)
    requires Bodies().WellFormed() && op.Register? && Marked(b)
    ensures var (l, r) := Bodies().Finish(Start(op), b);
            Marked(r) && (ViewOf(r), l) == (Meaning(op, ViewOf(b)).0, Done(true, Meaning(op, ViewOf(b)).1))
  {
    hide Program.WellFormed, Program.Finish, SetFields, Step;
    var w := Registered(op.pid, op.symbol, op.started, op.beat);
    var k := SlotFor(Live(b.workers), op.pid, 0);
    RegisterFindFinishes(w, 0, b);
    if k >= 0 {
      RegisterSetFinishes(w, k, 0, b);
      AllFieldsSet(b.workers[k], op.pid, op.symbol, op.started, op.beat);
      RegisterEnds(k, b.(workers := b.workers[k := w]));
      LiveAfterWrite(b.workers, k, w);
    }
  }

  lemma {:induction false} UnregisterFindFinishes(pid: int, i: nat, b: Board)
    requires Bodies().WellFormed() && i <= b.mark && pid != 0 && Marked(b)
    ensures var k := SlotOf(Live(b.workers), pid, i);
            Bodies().Finish(UnregisterFind(pid, i), b) ==
            Bodies().Finish(if k < 0 then Done(true, Code(-1)) else UnregisterPid(k), b)
    decreases b.mark - i
  {
    hide Program.WellFormed, Program.Finish;
    Steps(UnregisterFind(pid, i), b);
    if i >= b.mark {
      NothingAbove(Live(b.workers), pid, 0, i, 0);
    } else if b.workers[i].pid != pid {
      UnregisterFindFinishes(pid, i + 1, b);
    }
  }

  lemma UnregisterFinishes(op: Op, b: Board)
    requires Bodies().WellFormed() && op.Unregister? && Marked(b)
    ensures var (l, r) := Bodies().Finish(Start(op), b);
            Marked(r) && (ViewOf(r), l) == (Meaning(op, ViewOf(b)).0, Done(true, Meaning(op, ViewOf(b)).1))
  {
    hide Program.WellFormed, Program.Finish;
    var k := SlotOf(Live(b.workers), op.pid, 0);
    UnregisterFindFinishes(op.pid, 0, b);
    Steps(Done(true, Code(-1)), b);
    if k >= 0 {
      var w := b.workers[k].(pid := 0);
      var b1 := b.(workers := b.workers[k := w]);
      var b2 := b.(workers := b.workers[k := w.(status := 0)]);
      var b3 := b2.(active := b.active - 1);
      assert b1.workers[k := w.(status := 0)] == b2.workers;
      Steps(UnregisterPid(k), b);
      Steps(UnregisterStatus(k), b1);
      Steps(UnregisterCount, b2);
      Steps(Done(true, Code(0)), b3);
      LiveAfterWrite(b.workers, k, w.(status := 0));
    }
  }

  lemma {:induction false} HeartbeatFindFinishes(pid: int, now: int, i: nat, b: Board)
    requires Bodies().WellFormed() && i <= b.mark && pid != 0 && Marked(b)
    ensures var k := SlotOf(Live(b.workers), pid, i);
            Bodies().Finish(HeartbeatFind(pid, now, i), b) ==
            Bodies().Finish(if k < 0 then Done(true, Code(-1)) else HeartbeatSet(now, k), b)
    decreases b.mark - i
  {
    hide Program.WellFormed, Program.Finish;
    Steps(HeartbeatFind(pid, now, i), b);
    if i >= b.mark {
      NothingAbove(Live(b.workers), pid, 0, i, 0);
    } else if b.workers[i].pid != pid {
      HeartbeatFindFinishes(pid, now, i + 1, b);
    }
  }

  lemma HeartbeatFinishes(op: Op, b: Board)
    requires Bodies().WellFormed() && op.Heartbeat? && Marked(b)
    ensures var (l, r) := Bodies().Finish(Start(op), b);
            Marked(r) && (ViewOf(r), l) == (Meaning(op, ViewOf(b)).0, Done(true, Meaning(op, ViewOf(b)).1))
  {
    hide Program.WellFormed, Program.Finish;
    var k := SlotOf(Live(b.workers), op.pid, 0);
    HeartbeatFindFinishes(op.pid, op.now, 0, b);
    Steps(Done(true, Code(-1)), b);
    if k >= 0 {
      var w := b.workers[k].(lastHeartbeat := op.now);
      Steps(HeartbeatSet(op.now, k), b);
      Steps(Done(true, Code(0)), b.(workers := b.workers[k := w]));
      LiveAfterWrite(b.workers, k, w);
    }
  }

  lemma ScanStep(now: int, max: int, i: nat, found: seq<int>, b: Board)
    requires Marked(b)
    ensures Step(Scanning(now, max, i, found), b) ==
            (if i >= b.mark || |found| >= max then Done(false, Pids(found))
             else Scanning(now, max, i + 1, found + if Stale(b.workers[i], now) then [b.workers[i].pid] else []), b)
  {
  }

  lemma {:induction false} ScanningFinishes(now: int, max: int, i: nat, found: seq<int>, b: Board)
    requires Bodies().WellFormed() && i <= b.mark && Marked(b)
    ensures Bodies().Finish(Scanning(now, max, i, found), b) ==
            (Done(false, Pids(found + DeadFrom(Live(b.workers), now, i, max - |found|))), b)
    decreases b.mark - i
  {
    hide Program.WellFormed, Program.Finish, DeadFrom, Step, Rank, Live;
    ScanStep(now, max, i, found, b);
    Steps(Scanning(now, max, i, found), b);
    if i >= b.mark || |found| >= max {
      NothingToAdd(now, max, i, found, b);
      Steps(Done(false, Pids(found)), b);
    } else {
      DeadFromStep(Live(b.workers), now, i, max - |found|);
      LiveAt(b.workers, i);
      var more := if Stale(b.workers[i], now) then [b.workers[i].pid] else [];
      ScanningFinishes(now, max, i + 1, found + more, b);
      assert found + more + DeadFrom(Live(b.workers), now, i + 1, max - |found + more|)
          == found + DeadFrom(Live(b.workers), now, i, max - |found|);
    }
  }

  lemma NothingToAdd(now: int, max: int, i: nat, found: seq<int>, b: Board)
    requires Marked(b) && (i >= b.mark || |found| >= max)
    ensures found + DeadFrom(Live(b.workers), now, i, max - |found|) == found
  {
    if i >= b.mark {
      NothingAbove(Live(b.workers), 0, now, i, max - |found|);
    }
  }

  /** A body run to its end, for pids other than 0, does to the slots what the operation does to the
      live workers: the scans that stop at the mark miss none of them. */
  lemma BodiesMean(op: Op, b: Board)
    requires Marked(b)
    ensures Bodies().WellFormed()
    ensures var (l, r) := Bodies().Atomic(op, b);
            && Marked(r)
            && ViewOf(r) == Meaning(op, ViewOf(b)).0
            && l == Done(Writes(Start(op)), Meaning(op, ViewOf(b)).1)
  {
    BodiesWellFormed();
    hide Program.WellFormed, Program.Finish, Step;
    match op {
      case Register(_, _, _, _) =>
        RegisterFinishes(op, b);
      case Unregister(_) =>
        UnregisterFinishes(op, b);
      case Heartbeat(_, _) =>
        HeartbeatFinishes(op, b);
      case DeadScan(now, max) =>
        ScanningFinishes(now, max, 0, [], b);
        if max > 0 {
          DeadFromContinues(Live(b.workers), now, 0, max);
        }
        assert [] + DeadFrom(Live(b.workers), now, 0, max) == Dead(Live(b.workers), now, max);
    }
  }
}
