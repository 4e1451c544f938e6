/** What the calls on the worker slots of src/ipc.c answer, from the calls before them alone. */
module WorkerAnswers {
  import opened Wrappers
  import opened WorkerTable

  // ---- The workers by pid ----

  /** The worker of every registered pid: what its registration wrote, with its last heartbeat. */
  function RosterAfter(roster: map<int, Worker>, op: Op): map<int, Worker> {
    match op
    case Register(pid, symbol, started, beat) =>
      if pid in roster || |roster| >= 20 then roster
      else roster[pid := Worker(pid, if |symbol| <= 15 then symbol else symbol[..15], 1, started, beat, 0, 0)]
    case Unregister(pid) => roster - {pid}
    case Heartbeat(pid, now) => if pid in roster then roster[pid := roster[pid].(lastHeartbeat := now)] else roster
    case DeadScan(_, _) => roster
  }

  function Roster(ops: seq<Op>): map<int, Worker> {
    if ops == [] then map[] else RosterAfter(Roster(ops[..|ops| - 1]), ops[|ops| - 1])
  }

  /** No call registers a pid that is registered at that point. */
  ghost predicate RegistersOnce(ops: seq<Op>) {
    forall k :: 0 <= k < |ops| && ops[k].Register? ==> ops[k].pid !in Roster(ops[..k])
  }

  /** The pids that have been silent for more than thirty seconds. */
  function Silent(roster: map<int, Worker>, now: int): set<int> {
    set pid | pid in roster && pid > 0 && now - roster[pid].lastHeartbeat > 30
  }

  ghost predicate NoRepeats(pids: seq<int>) {
    forall i, j :: 0 <= i < j < |pids| ==> pids[i] != pids[j]
  }

  /** A dead scan: silent pids, each once, and all of them if there is room. */
  ghost predicate Reports(pids: seq<int>, silent: set<int>, max: int) {
    && NoRepeats(pids)
    && (forall k :: 0 <= k < |pids| ==> pids[k] in silent)
    && |pids| == (if max <= 0 then 0 else if |silent| <= max then |silent| else max)
    && (max > 0 && |silent| <= max ==> forall pid :: pid in silent ==> pid in pids)
  }

  /** What a call answers, given the workers before it. */
  ghost predicate Answers(op: Op, roster: map<int, Worker>, a: Answer) {
    match op
    case Register(_, _, _, _) =>
      if |roster| < 20 then a.Code? && 0 <= a.code < 20 else a == Code(-1)
    case Unregister(pid) => a == Code(if pid in roster then 0 else -1)
    case Heartbeat(pid, _) => a == Code(if pid in roster then 0 else -1)
    case DeadScan(now, max) => a.Pids? && Reports(a.pids, Silent(roster, now), max)
  }

  // ---- The slots do that ----

  function Board(ops: seq<Op>): View {
    if ops == [] then View(map[], 0) else Meaning(ops[|ops| - 1], Board(ops[..|ops| - 1])).0
  }

  ghost predicate Agrees(v: View, roster: map<int, Worker>) {
    && Settled(v) && InSlots(v.live)
    && |v.live| == |roster|
    && Listed(v.live, roster)
  }

  ghost predicate Listed(live: map<int, Worker>, roster: map<int, Worker>) {
    && (forall i :: i in live ==> live[i].pid in roster && roster[live[i].pid] == live[i])
    && (forall pid :: pid in roster ==> IsLive(live, pid))
  }

  lemma CountWith<T>(m: map<int, T>, k: int, x: T)
    ensures |m[k := x]| == if k in m then |m| else |m| + 1
    ensures |m - {k}| == if k in m then |m| - 1 else |m|
  {
    assert m[k := x].Keys == m.Keys + {k};
    assert (m - {k}).Keys == m.Keys - {k};
    assert |m| == |m.Keys| && |m[k := x]| == |m[k := x].Keys| && |m - {k}| == |(m - {k}).Keys|;
    if k in m {
      assert m.Keys + {k} == m.Keys;
    } else {
      assert m.Keys - {k} == m.Keys;
    }
  }

  function Below(n: nat): (s: set<int>)
    ensures |s| == n && forall i :: i in s <==> 0 <= i < n
  {
    if n == 0 then {} else Below(n - 1) + {n - 1}
  }

  lemma SubsetSize(a: set<int>, b: set<int>)
    requires a <= b
    ensures |a| <= |b|
    ensures |a| == |b| ==> a == b
  {
    assert b == a + (b - a);
    assert |b| == |a| + |b - a|;
  }

  /** There is a free slot exactly when fewer than twenty are live. */
  lemma FreeSlot(live: map<int, Worker>)
    requires InSlots(live)
    ensures |live| <= 20
    ensures |live| < 20 <==> exists i :: 0 <= i < 20 && i !in live
  {
    var all := Below(20);
    assert |live| == |live.Keys|;
    assert live.Keys <= all;
    SubsetSize(live.Keys, all);
    if forall i :: 0 <= i < 20 ==> i in live {
      assert live.Keys == all;
    }
  }

  lemma ListedSlot(live: map<int, Worker>, roster: map<int, Worker>, pid: int)
    requires Listed(live, roster)
    ensures var k := SlotOf(live, pid, 0);
            InSlots(live) ==> ((pid in roster <==> k >= 0) && (k >= 0 ==> k in live && live[k].pid == pid && k < 20))
  {
    var k := SlotOf(live, pid, 0);
    if InSlots(live) && pid in roster {
      assert IsLive(live, pid);
      var i :| i in live && live[i].pid == pid;
    }
  }

  lemma RegisterMeans(v: View, op: Op)
    requires op.Register?
    ensures var k := SlotFor(v.live, op.pid, 0);
            var symbol := if |op.symbol| <= 15 then op.symbol else op.symbol[..15];
            var w := Worker(op.pid, symbol, 1, op.started, op.beat, 0, 0);
            Meaning(op, v) == if k < 0 then (v, Code(-1)) else (View(v.live[k := w], v.active + 1), Code(k))
  {
    hide SlotFor;
  }

  lemma AgreesAdded(v: View, roster: map<int, Worker>, k: int, w: Worker)
    requires Agrees(v, roster) && k !in v.live && 0 <= k < 20 && w.pid !in roster
    requires Settled(View(v.live[k := w], v.active + 1))
    ensures Agrees(View(v.live[k := w], v.active + 1), roster[w.pid := w])
  {
    hide Settled, Listed, InSlots;
    CountWith(v.live, k, w);
    CountWith(roster, w.pid, w);
    ListedAdded(v.live, roster, k, w);
    InSlotsAdded(v.live, k, w);
  }

  /** What registering an unregistered pid starts from. */
  lemma RegisterFinds(v: View, roster: map<int, Worker>, pid: int)
    requires Agrees(v, roster) && pid !in roster
    ensures Settled(v) && InSlots(v.live) && !IsLive(v.live, pid)
    ensures var k := SlotFor(v.live, pid, 0);
            -1 <= k < 20 && k !in v.live && (k >= 0 <==> |roster| < 20)
  {
    hide SlotFor, Settled, Listed, IsLive;
    FreeSlot(v.live);
    NotLive(v.live, roster, pid);
    RegisterSlot(v.live, pid);
  }

  lemma RegisterAgrees(v: View, roster: map<int, Worker>, op: Op)
    requires Agrees(v, roster) && op.Register? && op.pid !in roster
    ensures Agrees(Meaning(op, v).0, RosterAfter(roster, op)) && Answers(op, roster, Meaning(op, v).1)
  {
    hide SlotFor, Settled, InSlots, IsLive, Meaning, Agrees;
    RegisterFinds(v, roster, op.pid);
    SettledRegisters(v, op);
    RegisterMeans(v, op);
    var k := SlotFor(v.live, op.pid, 0);
    if k >= 0 {
      AgreesAdded(v, roster, k, RosterAfter(roster, op)[op.pid]);
    }
  }

  lemma SettledRegisters(v: View, op: Op)
    requires op.Register? && Settled(v) && InSlots(v.live) && !IsLive(v.live, op.pid)
    ensures Settled(Meaning(op, v).0)
  {
    RegisterKeepsSettledExactlyWhen(v, op.pid, op.symbol, op.started, op.beat);
    hide Settled, SlotFor;
  }

  lemma InSlotsAdded(live: map<int, Worker>, k: int, w: Worker)
    requires InSlots(live) && 0 <= k < 20
    ensures InSlots(live[k := w])
  {
  }

  lemma NotLive(live: map<int, Worker>, roster: map<int, Worker>, pid: int)
    requires Listed(live, roster) && pid !in roster
    ensures !IsLive(live, pid)
  {
  }

  lemma RegisterSlot(live: map<int, Worker>, pid: int)
    requires InSlots(live) && !IsLive(live, pid)
    ensures var k := SlotFor(live, pid, 0);
            && -1 <= k < 20 && k !in live
            && (k >= 0 <==> exists i :: 0 <= i < 20 && i !in live)
  {
  }

  lemma ListedAdded(live: map<int, Worker>, roster: map<int, Worker>, k: int, w: Worker)
    requires Listed(live, roster) && k !in live && w.pid !in roster
    ensures Listed(live[k := w], roster[w.pid := w])
  {
    var l, r := live[k := w], roster[w.pid := w];
    forall pid | pid in r ensures IsLive(l, pid) {
      if pid == w.pid {
        assert l[k].pid == pid;
      } else {
        assert IsLive(live, pid);
        var i :| i in live && live[i].pid == pid;
        assert l[i].pid == pid;
      }
    }
  }

  lemma AgreesRemoved(v: View, roster: map<int, Worker>, k: int)
    requires Agrees(v, roster) && k in v.live && Settled(View(v.live - {k}, v.active - 1))
    ensures Agrees(View(v.live - {k}, v.active - 1), roster - {v.live[k].pid})
  {
    ListedRemoved(v, roster, k);
    PidListed(v.live, roster, k);
    CountWith(v.live, k, v.live[k]);
    CountWith(roster, v.live[k].pid, v.live[k]);
    hide Settled, Listed;
  }

  lemma PidListed(live: map<int, Worker>, roster: map<int, Worker>, k: int)
    requires Listed(live, roster) && k in live
    ensures live[k].pid in roster && roster[live[k].pid] == live[k]
  {
  }

  lemma NothingRemoved(roster: map<int, Worker>, pid: int)
    requires pid !in roster
    ensures roster - {pid} == roster
  {
  }

  lemma SlotFinds(v: View, roster: map<int, Worker>, pid: int)
    requires Agrees(v, roster)
    ensures Settled(v) && InSlots(v.live) && Listed(v.live, roster)
    ensures var k := SlotOf(v.live, pid, 0);
            (pid in roster <==> k >= 0) && (k >= 0 ==> k in v.live && v.live[k].pid == pid)
  {
    ListedSlot(v.live, roster, pid);
  }

  lemma UnregisterAgrees(v: View, roster: map<int, Worker>, op: Op)
    requires Agrees(v, roster) && op.Unregister?
    ensures Agrees(Meaning(op, v).0, RosterAfter(roster, op)) && Answers(op, roster, Meaning(op, v).1)
  {
    hide Settled, Listed, SlotOf, Agrees, InSlots, IsLive;
    SlotFinds(v, roster, op.pid);
    UnregisterAndHeartbeatKeepSettled(v, op.pid, 0);
    var k := SlotOf(v.live, op.pid, 0);
    if k >= 0 {
      AgreesRemoved(v, roster, k);
    } else {
      NothingRemoved(roster, op.pid);
    }
  }

  lemma ListedRemoved(v: View, roster: map<int, Worker>, k: int)
    requires Settled(v) && Listed(v.live, roster) && k in v.live
    ensures Listed(v.live - {k}, roster - {v.live[k].pid})
  {
    var l, r := v.live - {k}, roster - {v.live[k].pid};
    forall pid | pid in r ensures IsLive(l, pid) {
      assert IsLive(v.live, pid);
      var i :| i in v.live && v.live[i].pid == pid;
      assert l[i].pid == pid;
    }
  }

  lemma AgreesUpdated(v: View, roster: map<int, Worker>, k: int, w: Worker)
    requires Agrees(v, roster) && k in v.live && w.pid == v.live[k].pid && Settled(View(v.live[k := w], v.active))
    ensures Agrees(View(v.live[k := w], v.active), roster[w.pid := w])
  {
    ListedUpdated(v, roster, k, w);
    PidListed(v.live, roster, k);
    CountWith(v.live, k, w);
    CountWith(roster, w.pid, w);
    hide Settled, Listed;
  }

  lemma HeartbeatAgrees(v: View, roster: map<int, Worker>, op: Op)
    requires Agrees(v, roster) && op.Heartbeat?
    ensures Agrees(Meaning(op, v).0, RosterAfter(roster, op)) && Answers(op, roster, Meaning(op, v).1)
  {
    hide Settled, Listed, SlotOf, Agrees, InSlots, IsLive;
    SlotFinds(v, roster, op.pid);
    UnregisterAndHeartbeatKeepSettled(v, op.pid, op.now);
    var k := SlotOf(v.live, op.pid, 0);
    if k >= 0 {
      PidListed(v.live, roster, k);
      AgreesUpdated(v, roster, k, v.live[k].(lastHeartbeat := op.now));
    }
  }

  lemma ListedUpdated(v: View, roster: map<int, Worker>, k: int, w: Worker)
    requires Settled(v) && Listed(v.live, roster) && k in v.live && w.pid == v.live[k].pid
    ensures Listed(v.live[k := w], roster[w.pid := w])
  {
    var l, r := v.live[k := w], roster[w.pid := w];
    forall pid | pid in r ensures IsLive(l, pid) {
      if pid == w.pid {
        assert l[k].pid == pid;
      } else {
        assert IsLive(v.live, pid);
        var i :| i in v.live && v.live[i].pid == pid;
        assert l[i].pid == pid;
      }
    }
  }

  // ---- The scan ----

  /** The pids of the first n slots that are silent. */
  lemma {:induction false} StaleOnes(v: View, roster: map<int, Worker>, now: int, n: nat)
    requires Settled(v) && Listed(v.live, roster) && (forall i :: i in v.live ==> v.live[i].status == 1)
    ensures var pids := StalePids(v.live, now, n);
            && NoRepeats(pids)
            && forall pid :: pid in pids <==>
                 exists i :: 0 <= i < n && i in v.live && v.live[i].pid == pid && pid in Silent(roster, now)
  {
    if n == 0 {
    } else {
      StaleOnes(v, roster, now, n - 1);
      var before, more := StalePids(v.live, now, n - 1), StaleAt(v.live, now, n - 1);
      assert StalePids(v.live, now, n) == before + more;
      if more != [] {
        assert more[0] !in before;
      }
      forall pid ensures pid in before + more <==> pid in before || pid in more {
      }
    }
  }

  lemma {:induction false} DistinctSize(pids: seq<int>)
    requires NoRepeats(pids)
    ensures |set p | p in pids| == |pids|
  {
    if pids == [] {
    } else {
      var k := |pids| - 1;
      DistinctSize(pids[..k]);
      assert (set p | p in pids) == (set p | p in pids[..k]) + {pids[k]};
      assert pids[k] !in pids[..k];
    }
  }

  lemma ScanReports(v: View, roster: map<int, Worker>, now: int, max: int)
    requires Agrees(v, roster) && forall i :: i in v.live ==> v.live[i].status == 1
    ensures Reports(Dead(v.live, now, max), Silent(roster, now), max)
  {
    var all, silent := StalePids(v.live, now, 20), Silent(roster, now);
    StaleOnes(v, roster, now, 20);
    forall pid ensures pid in all <==> pid in silent {
      if pid in silent {
        assert IsLive(v.live, pid);
        var i :| i in v.live && v.live[i].pid == pid;
      }
    }
    DistinctSize(all);
    assert (set p | p in all) == silent;
    var pids := Dead(v.live, now, max);
    assert forall k :: 0 <= k < |pids| ==> pids[k] == all[k];
  }

  // ---- Whole runs ----

  ghost predicate AllRun(roster: map<int, Worker>) {
    forall pid :: pid in roster ==> roster[pid].status == 1 && roster[pid].pid == pid
  }

  lemma RosterRuns(roster: map<int, Worker>, op: Op)
    requires AllRun(roster)
    ensures AllRun(RosterAfter(roster, op))
  {
  }

  lemma OperationAgrees(v: View, roster: map<int, Worker>, op: Op)
    requires Agrees(v, roster) && AllRun(roster) && (op.Register? ==> op.pid !in roster)
    ensures Agrees(Meaning(op, v).0, RosterAfter(roster, op)) && Answers(op, roster, Meaning(op, v).1)
  {
    match op {
      case Register(_, _, _, _) => RegisterAgrees(v, roster, op);
      case Unregister(_) => UnregisterAgrees(v, roster, op);
      case Heartbeat(_, _) => HeartbeatAgrees(v, roster, op);
      case DeadScan(now, max) => ScanReports(v, roster, now, max);
    }
  }

  /** Over any run of calls that registers no registered pid, the slots hold exactly the registered
      workers, each as its registration and its last heartbeat left it. */
  lemma {:induction false} SlotsAreARoster(ops: seq<Op>)
    requires RegistersOnce(ops)
    ensures Agrees(Board(ops), Roster(ops)) && AllRun(Roster(ops))
  {
    hide Agrees, Meaning, RosterAfter, Answers, AllRun;
    if ops == [] {
      NobodyAgrees();
    } else {
      var n := |ops| - 1;
      OnceBefore(ops, n);
      SlotsAreARoster(ops[..n]);
      assert ops[n].Register? ==> ops[n].pid !in Roster(ops[..n]);
      OperationAgrees(Board(ops[..n]), Roster(ops[..n]), ops[n]);
      RosterRuns(Roster(ops[..n]), ops[n]);
    }
  }

  lemma OnceBefore(ops: seq<Op>, n: nat)
    requires RegistersOnce(ops) && n <= |ops|
    ensures RegistersOnce(ops[..n])
  {
    forall k | 0 <= k < n && ops[..n][k].Register? ensures ops[..n][k].pid !in Roster(ops[..n][..k]) {
      assert ops[..n][..k] == ops[..k] && ops[k].Register?;
    }
  }

  lemma OnceInFront(ops: seq<Op>, front: seq<Op>, op: Op)
    requires RegistersOnce(ops) && front + [op] <= ops
    ensures RegistersOnce(front) && (op.Register? ==> op.pid !in Roster(front))
  {
    hide Roster;
    var n := |front|;
    assert ops[..n] == front && ops[n] == op;
    OnceBefore(ops, n);
  }

  lemma NobodyAgrees()
    ensures Agrees(View(map[], 0), map[]) && AllRun(map[])
  {
  }

  /** The time of the last heartbeat that the calls hold for a pid. */
  function LastBeat(ops: seq<Op>, pid: int): Option<int> {
    if ops == [] then None
    else
      match ops[|ops| - 1]
      case Register(p, _, _, beat) => if p == pid then Some(beat) else LastBeat(ops[..|ops| - 1], pid)
      case Heartbeat(p, now) => if p == pid then Some(now) else LastBeat(ops[..|ops| - 1], pid)
      case _ => LastBeat(ops[..|ops| - 1], pid)
  }

  lemma {:induction false} RosterHasLastBeat(ops: seq<Op>, pid: int)
    requires RegistersOnce(ops) && pid in Roster(ops)
    ensures LastBeat(ops, pid) == Some(Roster(ops)[pid].lastHeartbeat)
  {
    var n := |ops| - 1;
    OnceBefore(ops, n);
    assert ops[n].Register? ==> ops[n].pid !in Roster(ops[..n]);
    if pid !in Roster(ops[..n]) {
    } else {
      RosterHasLastBeat(ops[..n], pid);
    }
  }

  /** Call i gave the pid a slot, and no later call took it away. */
  ghost predicate HasSlot(ops: seq<Op>, i: nat, pid: int) {
    && i < |ops| && ops[i].Register? && ops[i].pid == pid && |Roster(ops[..i])| < 20
    && forall k :: i < k < |ops| ==> !(ops[k].Unregister? && ops[k].pid == pid)
  }

  lemma StaysStep(roster: map<int, Worker>, op: Op, pid: int)
    ensures pid in roster && !(op.Unregister? && op.pid == pid) ==> pid in RosterAfter(roster, op)
    ensures op.Register? && op.pid == pid && |roster| < 20 ==> pid in RosterAfter(roster, op)
  {
  }

  lemma {:induction false} SlotStays(ops: seq<Op>, i: nat, pid: int)
    requires HasSlot(ops, i, pid)
    ensures pid in Roster(ops)
    decreases |ops|
  {
    hide RosterAfter;
    var n := |ops| - 1;
    StaysStep(Roster(ops[..n]), ops[n], pid);
    if i == n {
    } else {
      assert ops[..n][..i] == ops[..i];
      SlotStays(ops[..n], i, pid);
    }
  }

  /** A worker with a slot whose last heartbeat is more than thirty seconds before the scan's reading is
      reported, when there is room for all workers; one with a later heartbeat never is. */
  lemma ReportedExactlyWhenSilent(ops: seq<Op>, i: nat, pid: int, now: int, max: int, pids: seq<int>)
    requires RegistersOnce(ops) && HasSlot(ops, i, pid) && pid > 0
    requires Answers(DeadScan(now, max), Roster(ops), Pids(pids))
    ensures LastBeat(ops, pid).Some?
    ensures pid in pids ==> now - LastBeat(ops, pid).value > 30
    ensures max >= |Roster(ops)| && now - LastBeat(ops, pid).value > 30 ==> pid in pids
  {
    SlotStays(ops, i, pid);
    RosterHasLastBeat(ops, pid);
    var roster := Roster(ops);
    assert Silent(roster, now) <= roster.Keys;
    SubsetSize(Silent(roster, now), roster.Keys);
    assert |roster| == |roster.Keys|;
    if now - LastBeat(ops, pid).value > 30 {
      assert pid in Silent(roster, now);
      SubsetSize({pid}, Silent(roster, now));
    }
  }
}
