/** The watch mode of src/monitor.c: four parallel arrays that are collected into, compacted in place
    when processes exit, and carried from one refresh to the next while keys come in. */
module WatchMode {
  import opened Wrappers
  import opened PriceRing
  import opened CpuUsage

  const MAX_WATCH_PIDS := 32

  /** What a collecting child sends back: nothing, or a fresh snapshot. */
  datatype Report = Failed | Got(data: ProcessData)

  /** One round of collecting: what the child forked for a slot sends back when it is asked for a pid. */
  type Kernel = (int, nat) -> Report

  /** One watched process: its pid, its last snapshot, and the history of its CPU percentages. */
  datatype Watched = Watched(pid: int, prev: ProcessData, history: Ring)

  /** collect_parallel for one pid: what the slot of curr holds afterwards. A failed read only clears
      the valid flag of whatever was there. */
  function Collected(prev: ProcessData, stale: ProcessData, report: Report, tb: Timebase): ProcessData {
    match report
    case Failed => stale.(valid := false)
    case Got(data) => if prev.valid then Computed(prev, data, tb) else data
  }

  /** One refresh of one process: gone if its report is not valid, else with the new snapshot and one
      more percentage in its history. */
  function Observe(w: Watched, report: Report, tb: Timebase): Option<Watched> {
    match report
    case Failed => None
    case Got(data) =>
      if !data.valid then None
      else
        var curr := if w.prev.valid then Computed(w.prev, data, tb) else data;
        Some(Watched(w.pid, curr, Added(w.history, curr.cpuPercent)))
  }

  /** The survivors among the first n slots, in order; the child of each slot is asked for its pid. */
  function Survivors(ws: seq<Watched>, kernel: Kernel, tb: Timebase, n: nat): (r: seq<Watched>)
    requires n <= |ws|
    ensures |r| <= n
  {
    if n == 0 then []
    else
      Survivors(ws, kernel, tb, n - 1) +
      match Observe(ws[n - 1], kernel(ws[n - 1].pid, n - 1), tb) case None => [] case Some(w) => [w]
  }

  lemma NoneAtFirst(ws: seq<Watched>, kernel: Kernel, tb: Timebase)
    ensures Survivors(ws, kernel, tb, 0) == []
  {
  }

  lemma OneMore(ws: seq<Watched>, kernel: Kernel, tb: Timebase, i: nat)
    requires i < |ws|
    ensures |Survivors(ws, kernel, tb, i)| <= i
    ensures match Observe(ws[i], kernel(ws[i].pid, i), tb)
            case None => Survivors(ws, kernel, tb, i + 1) == Survivors(ws, kernel, tb, i)
            case Some(w) => Survivors(ws, kernel, tb, i + 1) == Survivors(ws, kernel, tb, i) + [w]
    ensures forall w | Observe(ws[i], kernel(ws[i].pid, i), tb) == Some(w) ::
              w == Watched(ws[i].pid, w.prev, Added(ws[i].history, w.prev.cpuPercent))
  {
    hide Added;
  }

  /** The state the keys change. */
  datatype Controls = Controls(
    running: bool, sort: int, interval: int, paused: bool,
    showInsights: bool, insightIndex: int, needsAi: bool)

  /** handle_keypress: the controls afterwards, or nothing where it divides by a count of zero. */
  function AfterKey(c: Controls, key: char, count: nat): Option<Controls> {
    match key
    case 'q' | 'Q' => Some(c.(running := false))
    case 's' | 'S' => Some(c.(sort := (c.sort + 1) % 4))
    case '+' | '=' => Some(c.(interval := if c.interval - 1 < 1 then 1 else c.interval - 1))
    case '-' => Some(c.(interval := if c.interval + 1 > 30 then 30 else c.interval + 1))
    case 'p' | 'P' => Some(c.(paused := !c.paused))
    case 'i' | 'I' =>
      if !c.showInsights then Some(c.(showInsights := true, insightIndex := 0))
      else if count == 0 then None
      else Some(c.(insightIndex := (c.insightIndex + 1) % count))
    case 'a' | 'A' => Some(c.(needsAi := true))
    case '\U{1b}' => Some(c.(showInsights := false))
    case _ => Some(c)
  }

  /** The AI overlay, which is shown when it was asked for and there is a process to show it for. */
  function AfterOverlay(c: Controls, count: int): Controls {
    if c.needsAi && count > 0 then c.(needsAi := false) else c
  }

  function NoData(): ProcessData {
    ProcessData(0, false, Info("", 0, 0, 0), 0.0, 0, 0, 0)
  }

  /** Three parallel arrays as one list of processes. */
  function Aligned(pids: seq<int>, prevs: seq<ProcessData>, histories: seq<Ring>): (ws: seq<Watched>)
    requires |pids| == |prevs| == |histories|
    ensures |ws| == |pids|
  {
    seq(|pids|, i requires 0 <= i < |pids| => Watched(pids[i], prevs[i], histories[i]))
  }

  /** The arrays and controls of run_watch_mode. */
  class Watch {
    const watchPids: array<int>
    const prev: array<ProcessData>
    const curr: array<ProcessData>
    const histories: array<Ring>
    const timebase: Timebase
    var count: int
    var controls: Controls

    ghost predicate Valid()
      reads this`count
    {
      && watchPids.Length == prev.Length == curr.Length == histories.Length == MAX_WATCH_PIDS
      && prev != curr && 0 <= count <= MAX_WATCH_PIDS
    }

    /** Slot i of every array that is carried to the next refresh. */
    ghost function Slots(): seq<Watched>
      reads this`count, watchPids, prev, histories
      requires Valid()
    {
      Aligned(watchPids[..count], prev[..count], histories[..count])
    }

    constructor (pids: seq<int>, interval: int, timebase: Timebase)
      requires |pids| <= 32
      ensures Valid() && count == |pids| && this.timebase == timebase
      ensures controls == StartControls(interval)
      ensures Slots() == StartSlots(pids)
      ensures fresh(watchPids) && fresh(prev) && fresh(curr) && fresh(histories)
    {
      this.timebase := timebase;
      watchPids := new int[MAX_WATCH_PIDS](i => if 0 <= i < |pids| then pids[i] else 0);
      prev := new ProcessData[MAX_WATCH_PIDS](_ => NoData());
      curr := new ProcessData[MAX_WATCH_PIDS](_ => NoData());
      histories := new Ring[MAX_WATCH_PIDS](_ => Cleared());
      count := |pids|;
      controls := Controls(true, 0, interval, false, false, 0, false);
    }

    /** The child for slot i is asked for the pid in slot i, and its answer is compared with the
        snapshot in slot i. */
    method CollectParallel(kernel: Kernel)
      requires Valid()
      modifies curr
      ensures forall i :: 0 <= i < count ==>
                curr[i] == Collected(prev[i], old(curr[i]), kernel(watchPids[i], i), timebase)
      ensures Slots() == old(Slots())
    {
      for i := 0 to count
        invariant forall k :: 0 <= k < i ==>
                    curr[k] == Collected(prev[k], old(curr[k]), kernel(watchPids[k], k), timebase)
        invariant forall k :: i <= k < curr.Length ==> curr[k] == old(curr[k])
      {
        match kernel(watchPids[i], i) {
          case Failed =>
            curr[i] := curr[i].(valid := false);
          case Got(data) =>
            if prev[i].valid {
              curr[i] := Computed(prev[i], data, timebase);
            } else {
              curr[i] := data;
            }
        }
      }
    }

    /** Removes the slots of exited processes, in place, and returns how many are left. */
    method Compact(ghost before: seq<Watched>, ghost kernel: Kernel) returns (alive: int)
      requires Valid() && |before| == count
      requires forall i :: 0 <= i < count ==> before[i].pid == watchPids[i] && before[i].history == histories[i]
      requires forall i :: 0 <= i < count ==>
                 match Observe(before[i], kernel(before[i].pid, i), timebase)
                 case None => !curr[i].valid
                 case Some(w) => curr[i] == w.prev && curr[i].valid
      modifies curr, histories, watchPids
      ensures alive == |Survivors(before, kernel, timebase, count)|
      ensures forall k :: 0 <= k < alive ==>
                Watched(watchPids[k], curr[k], histories[k]) == Survivors(before, kernel, timebase, count)[k]
    {
      hide Added, Survivors, Observe;
      alive := 0;
      NoneAtFirst(before, kernel, timebase);
      for i := 0 to count
        invariant alive == |Survivors(before, kernel, timebase, i)|
        invariant forall k :: 0 <= k < alive ==>
                    Watched(watchPids[k], curr[k], histories[k]) == Survivors(before, kernel, timebase, i)[k]
        invariant forall k :: i <= k < count ==>
                    curr[k] == old(curr[k]) && histories[k] == before[k].history && watchPids[k] == before[k].pid
      {
        ghost var kept := Survivors(before, kernel, timebase, i);
        OneMore(before, kernel, timebase, i);
        if curr[i].valid {
          assert Survivors(before, kernel, timebase, i + 1)
              == kept + [Watched(watchPids[i], curr[i], Added(histories[i], curr[i].cpuPercent))];
          if i != alive {
            curr[alive] := curr[i];
            histories[alive] := histories[i];
            watchPids[alive] := watchPids[i];
          }
          histories[alive] := Added(histories[alive], curr[alive].cpuPercent);
          alive := alive + 1;
        }
      }
    }

    /** One pass of the refresh loop. The survivors keep their order and their own data. */
    method Refresh(kernel: Kernel)
      requires Valid()
      modifies this`count, watchPids, prev, curr, histories
      ensures Valid() && Slots() == Survivors(old(Slots()), kernel, timebase, old(count))
      ensures controls == old(controls)
    {
      hide Computed, Added, Survivors;
      ghost var before := Slots();
      CollectParallel(kernel);
      forall i | 0 <= i < count
        ensures match Observe(before[i], kernel(before[i].pid, i), timebase)
                case None => !curr[i].valid
                case Some(w) => curr[i] == w.prev && curr[i].valid
      {
        assert before[i] == Watched(watchPids[i], prev[i], histories[i]);
        if kernel(watchPids[i], i).Got? {
          ComputedKeepsPid(prev[i], kernel(watchPids[i], i).data, timebase);
        }
      }
      count := Compact(before, kernel);
      forall i | 0 <= i < count {
        prev[i] := curr[i];
      }
    }

    /** Shows the overlay and takes the request back. */
    method ShowOverlay()
      modifies this`controls
      ensures controls == AfterOverlay(old(controls), count)
    {
      if controls.needsAi && count > 0 {
        controls := controls.(needsAi := false);
      }
    }

    /** sort_processes: the library's qsort leaves some permutation of the displayed snapshots. */
    method SortProcesses(sorted: seq<ProcessData>)
      requires Valid() && multiset(sorted) == multiset(curr[..count])
      modifies curr
      ensures curr[..count] == sorted
      ensures Slots() == old(Slots())
    {
      assert |multiset(sorted)| == |multiset(curr[..count])|;
      forall i | 0 <= i < count {
        curr[i] := sorted[i];
      }
    }

    /** Returns whether it got past the division by the count. */
    method HandleKeypress(key: char, sorted: seq<ProcessData>) returns (ok: bool)
      requires Valid() && multiset(sorted) == multiset(curr[..count])
      modifies this`controls, curr
      ensures Valid() && Slots() == old(Slots())
      ensures ok <==> AfterKey(old(controls), key, count).Some?
      ensures controls == if ok then AfterKey(old(controls), key, count).value else old(controls)
      ensures curr[..count] == if key == 's' || key == 'S' then sorted else old(curr[..count])
    {
      hide Slots;
      ok := true;
      match key {
        case 'q' | 'Q' =>
          controls := controls.(running := false);
        case 's' | 'S' =>
          controls := controls.(sort := (controls.sort + 1) % 4);
          SortProcesses(sorted);
        case '+' | '=' =>
          controls := controls.(interval := controls.interval - 1);
          if controls.interval < 1 {
            controls := controls.(interval := 1);
          }
        case '-' =>
          controls := controls.(interval := controls.interval + 1);
          if controls.interval > 30 {
            controls := controls.(interval := 30);
          }
        case 'p' | 'P' =>
          controls := controls.(paused := !controls.paused);
        case 'i' | 'I' =>
          if !controls.showInsights {
            controls := controls.(showInsights := true, insightIndex := 0);
          } else if count == 0 {
            ok := false;
          } else {
            controls := controls.(insightIndex := (controls.insightIndex + 1) % count);
          }
        case 'a' | 'A' =>
          controls := controls.(needsAi := true);
        case '\U{1b}' =>
          controls := controls.(showInsights := false);
        case _ =>
      }
    }
  }

  // ---- Watching together is watching alone ----

  /** The processes that are still there, in order. */
  function Living(team: seq<Option<Watched>>): (ws: seq<Watched>)
    ensures |ws| <= |team|
  {
    if team == [] then []
    else Living(team[..|team| - 1]) + match team[|team| - 1] case None => [] case Some(w) => [w]
  }

  /** The slot of process j: the number of processes before it that are still there. */
  function Place(team: seq<Option<Watched>>, j: nat): nat
    requires j < |team|
  {
    |Living(team[..j])|
  }

  /** A process watched on its own, by a child that happens to be the one of a certain slot: gone for
      good after the first refresh that finds it invalid. */
  function Alone(w: Option<Watched>, kernel: Kernel, slot: nat, tb: Timebase): Option<Watched> {
    if w.None? then None else Observe(w.value, kernel(w.value.pid, slot), tb)
  }

  function AllAlone(team: seq<Option<Watched>>, kernel: Kernel, tb: Timebase): seq<Option<Watched>> {
    seq(|team|, j requires 0 <= j < |team| => Alone(team[j], kernel, Place(team, j), tb))
  }

  lemma {:induction false} SurvivorsIgnoreTheRest(ws: seq<Watched>, more: seq<Watched>, kernel: Kernel,
                                                  tb: Timebase, n: nat)
    requires n <= |ws|
    ensures Survivors(ws + more, kernel, tb, n) == Survivors(ws, kernel, tb, n)
  {
    if n == 0 {
    } else {
      SurvivorsIgnoreTheRest(ws, more, kernel, tb, n - 1);
    }
  }

  lemma AllAloneFront(team: seq<Option<Watched>>, kernel: Kernel, tb: Timebase)
    requires team != []
    ensures var n := |team| - 1;
            AllAlone(team, kernel, tb) ==
            AllAlone(team[..n], kernel, tb) + [Alone(team[n], kernel, |Living(team[..n])|, tb)]
  {
    hide Alone, Living;
    var n := |team| - 1;
    forall j | 0 <= j < n ensures Place(team, j) == Place(team[..n], j) {
      assert team[..n][..j] == team[..j];
    }
  }

  lemma LivingNext(team: seq<Option<Watched>>, w: Option<Watched>)
    ensures match w
            case None => Living(team + [w]) == Living(team)
            case Some(x) => Living(team + [w]) == Living(team) + [x]
  {
    assert (team + [w])[..|team|] == team;
  }

  /** Refreshing the slots, each asked for its own pid, is letting everyone refresh alone and keeping
      those that are still there. */
  lemma {:induction false} RefreshIsEveryoneAlone(team: seq<Option<Watched>>, kernel: Kernel, tb: Timebase)
    ensures Survivors(Living(team), kernel, tb, |Living(team)|) == Living(AllAlone(team, kernel, tb))
  {
    hide Survivors, AllAlone, Living, Observe;
    if team == [] {
      NobodyRefreshes(kernel, tb);
    } else {
      var n := |team| - 1;
      var front, ws := team[..n], Living(team[..n]);
      assert team == front + [team[n]];
      RefreshIsEveryoneAlone(front, kernel, tb);
      AllAloneFront(team, kernel, tb);
      LivingNext(front, team[n]);
      LivingNext(AllAlone(front, kernel, tb), Alone(team[n], kernel, |ws|, tb));
      if team[n].Some? {
        SurvivorsIgnoreTheRest(ws, [team[n].value], kernel, tb, |ws|);
        OneMore(ws + [team[n].value], kernel, tb, |ws|);
      }
    }
  }

  lemma NobodyRefreshes(kernel: Kernel, tb: Timebase)
    ensures Survivors(Living([]), kernel, tb, 0) == Living(AllAlone([], kernel, tb)) && Living([]) == []
  {
  }

  // ---- Whole runs ----

  /** What happens to the watch: refreshes, each with its round of collecting, keys, whether between two
      refreshes or in a pause, and the AI overlay that the loop gets to after a key has asked for it. */
  datatype Event = Refresh(kernel: Kernel) | Key(key: char) | Overlay

  datatype Mode = Mode(running: bool, paused: bool, insights: bool)

  /** Whether the watch has not been quit, is paused, and shows insights after these events. */
  function ModeAfter(events: seq<Event>): Mode {
    if |events| == 0 then Mode(true, false, false)
    else
      var m := ModeAfter(events[..|events| - 1]);
      if !m.running then m
      else
        match events[|events| - 1]
        case Key('q') | Key('Q') => m.(running := false)
        case Key('p') | Key('P') => m.(paused := !m.paused)
        case Key('i') | Key('I') => m.(insights := true)
        case Key('\U{1b}') => m.(insights := false)
        case _ => m
  }

  /** Whether the last event is a refresh that takes place: the watch is neither quit nor paused. */
  predicate Refreshes(events: seq<Event>) {
    && |events| > 0 && events[|events| - 1].Refresh?
    && var m := ModeAfter(events[..|events| - 1]); m.running && !m.paused
  }

  function Started(pids: seq<int>): seq<Option<Watched>> {
    seq(|pids|, i requires 0 <= i < |pids| => Some(Watched(pids[i], NoData(), Cleared())))
  }

  function StartSlots(pids: seq<int>): seq<Watched> {
    seq(|pids|, i requires 0 <= i < |pids| => Watched(pids[i], NoData(), Cleared()))
  }

  /** Every process watched on its own through the run. */
  function Team(pids: seq<int>, events: seq<Event>, tb: Timebase): (team: seq<Option<Watched>>)
    ensures |team| == |pids|
  {
    if |events| == 0 then Started(pids)
    else
      var k := |events| - 1;
      var team := Team(pids, events[..k], tb);
      if Refreshes(events) then AllAlone(team, events[k].kernel, tb) else team
  }

  /** The slots of the watch through the run. */
  function Watching(pids: seq<int>, events: seq<Event>, tb: Timebase): seq<Watched> {
    if |events| == 0 then StartSlots(pids)
    else
      var k := |events| - 1;
      var slots := Watching(pids, events[..k], tb);
      if Refreshes(events) then Survivors(slots, events[k].kernel, tb, |slots|) else slots
  }

  lemma {:induction false} LivingStarted(pids: seq<int>)
    ensures Living(Started(pids)) == StartSlots(pids)
  {
    if pids == [] {
    } else {
      var n := |pids| - 1;
      LivingStarted(pids[..n]);
      assert Started(pids)[..n] == Started(pids[..n]);
    }
  }

  /** After any run of refreshes, exits, pauses and key presses, the slots of the watch are exactly the
      processes that are still there, in their first order, each with the snapshot and the history it
      would have had on its own. */
  lemma {:induction false} WatchingTogetherIsWatchingAlone(pids: seq<int>, events: seq<Event>, tb: Timebase)
    ensures Watching(pids, events, tb) == Living(Team(pids, events, tb))
    decreases |events|
  {
    if |events| == 0 {
      LivingStarted(pids);
    } else {
      var k := |events| - 1;
      WatchingTogetherIsWatchingAlone(pids, events[..k], tb);
      if Refreshes(events) {
        RefreshIsEveryoneAlone(Team(pids, events[..k], tb), events[k].kernel, tb);
      }
    }
  }

  // ---- The keys of a run ----

  function StartControls(interval: int): Controls {
    Controls(true, 0, interval, false, false, 0, false)
  }

  function ControlsAfter(pids: seq<int>, events: seq<Event>, interval: int, tb: Timebase): Controls {
    if |events| == 0 then StartControls(interval)
    else
      var k := |events| - 1;
      var c := ControlsAfter(pids, events[..k], interval, tb);
      match events[k]
      case Refresh(_) => c
      case Key(key) =>
        if !c.running then c
        else (match AfterKey(c, key, |Watching(pids, events[..k], tb)|) case Some(d) => d case None => c)
      case Overlay => AfterOverlay(c, |Watching(pids, events[..k], tb)|)
  }

  /** Event k is a key that asks for the next insight while insights are shown and no process is left:
      the one input on which handle_keypress divides by zero. */
  predicate Divides(pids: seq<int>, events: seq<Event>, k: nat, tb: Timebase) {
    && k < |events|
    && var m := ModeAfter(events[..k]);
       && events[k].Key? && (events[k].key == 'i' || events[k].key == 'I')
       && m.running && m.insights && Watching(pids, events[..k], tb) == []
  }

  lemma KeyMovesMode(c: Controls, key: char, count: nat)
    ensures AfterKey(c, key, count).None? <==> (key == 'i' || key == 'I') && c.showInsights && count == 0
    ensures AfterKey(c, key, count).Some? ==>
              var r := AfterKey(c, key, count).value;
              && r.running == (c.running && key != 'q' && key != 'Q')
              && r.paused == (c.paused != (key == 'p' || key == 'P'))
              && r.showInsights == ((c.showInsights || key == 'i' || key == 'I') && key != '\U{1b}')
  {
  }

  function Next(sort: int): int {
    match sort
    case 0 => 1
    case 1 => 2
    case 2 => 3
    case _ => 0
  }

  function Max(x: int, y: int): int {
    if x < y then y else x
  }

  function Min(x: int, y: int): int {
    if x < y then x else y
  }

  /** The other controls: s goes through the four orders, + and - move the interval within 1 and 30, i
      opens the insights at the first process and then goes round, a asks for the overlay. */
  lemma KeyMovesControls(c: Controls, key: char, count: nat)
    requires AfterKey(c, key, count).Some?
    ensures var r := AfterKey(c, key, count).value;
            && (0 <= c.sort < 4 ==> r.sort == if key == 's' || key == 'S' then Next(c.sort) else c.sort)
            && r.interval == (if key == '+' || key == '=' then Max(1, c.interval - 1)
                              else if key == '-' then Min(30, c.interval + 1) else c.interval)
            && (key != 'i' && key != 'I' ==> r.insightIndex == c.insightIndex)
            && ((key == 'i' || key == 'I') && !c.showInsights ==> r.insightIndex == 0)
            && ((key == 'i' || key == 'I') && c.showInsights && 0 <= c.insightIndex < count ==>
                  r.insightIndex == if c.insightIndex == count - 1 then 0 else c.insightIndex + 1)
            && r.needsAi == (c.needsAi || key == 'a' || key == 'A')
  {
  }

  /** The keys of a run that were handled: those before the watch was quit. */
  function KeysOf(events: seq<Event>): seq<char> {
    if |events| == 0 then []
    else
      var k := |events| - 1;
      KeysOf(events[..k]) + if events[k].Key? && ModeAfter(events[..k]).running then [events[k].key] else []
  }

  function SortKeys(keys: seq<char>): nat {
    if keys == [] then 0
    else SortKeys(keys[..|keys| - 1]) + if keys[|keys| - 1] == 's' || keys[|keys| - 1] == 'S' then 1 else 0
  }

  ghost predicate InStep(c: Controls, sorts: nat, interval: int) {
    && c.sort == sorts % 4
    && (1 <= interval <= 30 ==> 1 <= c.interval <= 30)
  }

  lemma KeyKeepsStep(c: Controls, key: char, count: nat, sorts: nat, interval: int)
    requires InStep(c, sorts, interval) && AfterKey(c, key, count).Some?
    ensures InStep(AfterKey(c, key, count).value, if key == 's' || key == 'S' then sorts + 1 else sorts, interval)
  {
    hide AfterKey;
    KeyMovesControls(c, key, count);
  }

  lemma SortKeysNext(keys: seq<char>, key: char)
    ensures SortKeys(keys + [key]) == if key == 's' || key == 'S' then SortKeys(keys) + 1 else SortKeys(keys)
  {
    assert (keys + [key])[..|keys|] == keys;
  }

  /** After any run the order is the one that the number of s keys says, and the interval is within 1 and
      30 if it was at the start. (A key that divides by zero is not an s.) */
  lemma {:induction false} SortAndInterval(pids: seq<int>, events: seq<Event>, interval: int, tb: Timebase)
    ensures InStep(ControlsAfter(pids, events, interval, tb), SortKeys(KeysOf(events)), interval)
    decreases |events|
  {
    hide AfterKey, Watching, SortKeys, InStep;
    if |events| == 0 {
      StepStarts(interval);
    } else {
      var k := |events| - 1;
      var keys := KeysOf(events[..k]);
      var c, count := ControlsAfter(pids, events[..k], interval, tb), |Watching(pids, events[..k], tb)|;
      SortAndInterval(pids, events[..k], interval, tb);
      ControlsHaveMode(pids, events[..k], interval, tb);
      OverlayKeepsStep(c, count, SortKeys(keys), interval);
      if events[k].Key? && c.running {
        KeyMovesMode(c, events[k].key, count);
        SortKeysNext(keys, events[k].key);
        if AfterKey(c, events[k].key, count).Some? {
          KeyKeepsStep(c, events[k].key, count, SortKeys(keys), interval);
        }
      } else {
        assert keys + [] == keys;
      }
    }
  }

  lemma StepStarts(interval: int)
    ensures InStep(StartControls(interval), SortKeys([]), interval)
  {
  }

  lemma OverlayKeepsStep(c: Controls, count: int, sorts: nat, interval: int)
    requires InStep(c, sorts, interval)
    ensures InStep(AfterOverlay(c, count), sorts, interval)
  {
  }

  lemma {:induction false} ControlsHaveMode(pids: seq<int>, events: seq<Event>, interval: int, tb: Timebase)
    ensures var c := ControlsAfter(pids, events, interval, tb);
            Mode(c.running, c.paused, c.showInsights) == ModeAfter(events)
    decreases |events|
  {
    hide AfterKey, Watching;
    if |events| == 0 {
    } else {
      var k := |events| - 1;
      ControlsHaveMode(pids, events[..k], interval, tb);
      var c := ControlsAfter(pids, events[..k], interval, tb);
      if events[k].Key? {
        KeyMovesMode(c, events[k].key, |Watching(pids, events[..k], tb)|);
      }
    }
  }

  /** What event k does to the slots and the controls. */
  lemma WatchingStep(pids: seq<int>, events: seq<Event>, k: nat, interval: int, tb: Timebase)
    requires k < |events|
    ensures var slots := Watching(pids, events[..k], tb);
            var c := ControlsAfter(pids, events[..k], interval, tb);
            match events[k]
            case Refresh(kernel) =>
              && ControlsAfter(pids, events[..k + 1], interval, tb) == c
              && Watching(pids, events[..k + 1], tb) ==
                 (if c.running && !c.paused then Survivors(slots, kernel, tb, |slots|) else slots)
              && !Divides(pids, events, k, tb)
            case Key(key) =>
              && Watching(pids, events[..k + 1], tb) == slots
              && (Divides(pids, events, k, tb) <==> c.running && AfterKey(c, key, |slots|).None?)
              && ControlsAfter(pids, events[..k + 1], interval, tb) ==
                 (if c.running && AfterKey(c, key, |slots|).Some? then AfterKey(c, key, |slots|).value else c)
            case Overlay =>
              && Watching(pids, events[..k + 1], tb) == slots
              && !Divides(pids, events, k, tb)
              && ControlsAfter(pids, events[..k + 1], interval, tb) == AfterOverlay(c, |slots|)
  {
    hide AfterKey, Survivors;
    assert events[..k + 1][..k] == events[..k];
    ControlsHaveMode(pids, events[..k], interval, tb);
    if events[k].Key? {
      KeyMovesMode(ControlsAfter(pids, events[..k], interval, tb), events[k].key, |Watching(pids, events[..k], tb)|);
    }
  }

  /** run_watch_mode: a run of the arrays in place. It handles every event, up to the first one, if any,
      that divides by zero. */
  method RunWatchMode(pids: seq<int>, interval: int, events: seq<Event>, tb: Timebase)
    returns (watch: Watch, handled: nat)
    requires |pids| <= 32
    ensures fresh(watch) && watch.Valid() && watch.timebase == tb && handled <= |events|
    ensures watch.Slots() == Watching(pids, events[..handled], tb)
    ensures watch.controls == ControlsAfter(pids, events[..handled], interval, tb)
    ensures forall k :: 0 <= k < handled ==> !Divides(pids, events, k, tb)
    ensures handled < |events| ==> Divides(pids, events, handled, tb)
  {
    hide Watching, Survivors, AfterKey, ControlsAfter, Divides, StartSlots;
    RunStarts(pids, interval, tb);
    watch := new Watch(pids, interval, tb);
    handled := 0;
    while handled < |events|
      invariant handled <= |events|
      invariant fresh(watch) && watch.Valid() && watch.timebase == tb
      invariant fresh(watch.watchPids) && fresh(watch.prev) && fresh(watch.curr) && fresh(watch.histories)
      invariant watch.Slots() == Watching(pids, events[..handled], tb)
      invariant watch.controls == ControlsAfter(pids, events[..handled], interval, tb)
      invariant forall k :: 0 <= k < handled ==> !Divides(pids, events, k, tb)
    {
      WatchingStep(pids, events, handled, interval, tb);
      match events[handled] {
        case Refresh(kernel) =>
          if watch.controls.running && !watch.controls.paused {
            watch.Refresh(kernel);
          }
        case Key(key) =>
          if watch.controls.running {
            var sorted :| multiset(sorted) == multiset(watch.curr[..watch.count]);
            var ok := watch.HandleKeypress(key, sorted);
            if !ok {
              return;
            }
          }
        case Overlay =>
          watch.ShowOverlay();
      }
      handled := handled + 1;
    }
  }

  lemma RunStarts(pids: seq<int>, interval: int, tb: Timebase)
    ensures Watching(pids, [], tb) == StartSlots(pids)
    ensures ControlsAfter(pids, [], interval, tb) == StartControls(interval)
  {
  }

  // ---- One process on its own ----

  /** What process j reports, refresh by refresh: what the child of its slot sends back for its pid. */
  function ReportsOf(pids: seq<int>, events: seq<Event>, tb: Timebase, j: nat): seq<Report>
    requires j < |pids|
  {
    if |events| == 0 then []
    else
      var k := |events| - 1;
      ReportsOf(pids, events[..k], tb, j) +
      if Refreshes(events) then [events[k].kernel(pids[j], Place(Team(pids, events[..k], tb), j))] else []
  }

  /** The CPU percentages of a process from its reports: the first has no predecessor, every other one
      compares it with the report before. */
  function Percentages(reports: seq<Report>, tb: Timebase): seq<real> {
    if reports == [] then []
    else
      var k := |reports| - 1;
      Percentages(reports[..k], tb) +
      match reports[k]
      case Failed => []
      case Got(data) => [LastSnapshot(reports[..k], data, tb).cpuPercent]
  }

  function LastSnapshot(before: seq<Report>, data: ProcessData, tb: Timebase): ProcessData {
    if before == [] || before[|before| - 1].Failed? then data
    else Computed(before[|before| - 1].data, data, tb)
  }

  predicate Valid(report: Report) {
    report.Got? && report.data.valid
  }

  ghost predicate AllValid(reports: seq<Report>) {
    forall k :: 0 <= k < |reports| ==> Valid(reports[k])
  }

  lemma PercentIgnoresComputed(a: ProcessData, older: ProcessData, b: ProcessData, tb: Timebase)
    ensures Computed(Computed(older, a, tb), b, tb) == Computed(a, b, tb)
  {
    hide DeltaNs, Percent;
    assert DeltaNs(Computed(older, a, tb), b, tb) == DeltaNs(a, b, tb) by {
      SameTicks(Computed(older, a, tb), a, b, tb);
    }
  }

  lemma SameTicks(a: ProcessData, same: ProcessData, b: ProcessData, tb: Timebase)
    requires a.ticksCurr == same.ticksCurr
    ensures DeltaNs(a, b, tb) == DeltaNs(same, b, tb)
  {
  }

  /** What a process looks like after these reports, when it is watched on its own: there as long as
      all were valid, with the history of its percentages and its last snapshot. */
  ghost predicate Matches(w: Option<Watched>, pid: int, reports: seq<Report>, tb: Timebase) {
    && (w.Some? <==> AllValid(reports))
    && (w.Some? ==>
          && w.value.pid == pid
          && w.value.history == RingFed(Percentages(reports, tb))
          && w.value.prev == (if reports == [] then NoData()
                              else LastSnapshot(reports[..|reports| - 1], reports[|reports| - 1].data, tb))
          && (w.value.prev.valid <==> reports != []))
  }

  /** A process alone: each percentage compares two neighbouring reports of it, and its history holds
      the last sixty positive percentages. */
  lemma {:induction false} AloneMatches(pids: seq<int>, events: seq<Event>, tb: Timebase, j: nat)
    requires j < |pids|
    ensures Matches(Team(pids, events, tb)[j], pids[j], ReportsOf(pids, events, tb, j), tb)
    decreases |events|
  {
    hide Matches, Alone, Place;
    if |events| == 0 {
      NothingReported(pids[j], tb);
    } else {
      var k := |events| - 1;
      var team, before := Team(pids, events[..k], tb), ReportsOf(pids, events[..k], tb, j);
      AloneMatches(pids, events[..k], tb, j);
      if Refreshes(events) {
        OneMoreReport(team[j], before, events[k].kernel, Place(team, j), tb, pids[j]);
      } else {
        assert before + [] == before;
      }
    }
  }

  lemma NothingReported(pid: int, tb: Timebase)
    ensures Matches(Some(Watched(pid, NoData(), Cleared())), pid, [], tb)
  {
  }

  lemma HistoryGrows(before: seq<Report>, data: ProcessData, tb: Timebase)
    ensures RingFed(Percentages(before + [Got(data)], tb)) ==
            Added(RingFed(Percentages(before, tb)), LastSnapshot(before, data, tb).cpuPercent)
  {
    hide Added, LastSnapshot;
    assert (before + [Got(data)])[..|before|] == before;
    var ps := Percentages(before, tb);
    var pct := LastSnapshot(before, data, tb).cpuPercent;
    assert Percentages(before + [Got(data)], tb) == ps + [pct];
    assert (ps + [pct])[..|ps|] == ps;
  }

  /** The snapshot kept for the next refresh gives the same percentage as the report it was made from. */
  lemma SnapshotStandsForReport(prev: ProcessData, before: seq<Report>, data: ProcessData, tb: Timebase)
    requires |before| > 0 && before[|before| - 1].Got?
    requires prev == LastSnapshot(before[..|before| - 1], before[|before| - 1].data, tb)
    ensures Computed(prev, data, tb) == LastSnapshot(before, data, tb)
  {
    hide Computed;
    var m := |before| - 1;
    if m > 0 && before[m - 1].Got? {
      PercentIgnoresComputed(before[m].data, before[m - 1].data, data, tb);
    }
  }

  lemma ComputedKeepsPid(prev: ProcessData, data: ProcessData, tb: Timebase)
    ensures Computed(prev, data, tb).pid == data.pid && Computed(prev, data, tb).valid == data.valid
  {
  }

  lemma OneMoreReport(w: Option<Watched>, before: seq<Report>, kernel: Kernel, slot: nat, tb: Timebase, pid: int)
    requires Matches(w, pid, before, tb)
    ensures Matches(Alone(w, kernel, slot, tb), pid, before + [kernel(pid, slot)], tb)
  {
    hide Added, RingFed, Percentages, Computed;
    var report := kernel(pid, slot);
    var all := before + [report];
    assert all[..|before|] == before && all[|all| - 1] == report;
    AllValidNext(before, report);
    if w.Some? && Valid(report) {
      if before != [] {
        assert Valid(before[|before| - 1]);
        SnapshotStandsForReport(w.value.prev, before, report.data, tb);
        ComputedKeepsPid(before[|before| - 1].data, report.data, tb);
      }
      HistoryGrows(before, report.data, tb);
    }
  }

  lemma AllValidNext(before: seq<Report>, report: Report)
    ensures AllValid(before + [report]) <==> AllValid(before) && Valid(report)
  {
    var all := before + [report];
    assert all[|before|] == report;
    assert forall k :: 0 <= k < |before| ==> all[k] == before[k];
  }

  // ---- The process in a slot ----

  /** The process in slot i. */
  function Origin(team: seq<Option<Watched>>, i: nat): nat
    requires i < |Living(team)|
  {
    var n := |team| - 1;
    if i < |Living(team[..n])| then Origin(team[..n], i) else n
  }

  lemma {:induction false} OriginIsThere(team: seq<Option<Watched>>, i: nat)
    requires i < |Living(team)|
    ensures var j := Origin(team, i);
            j < |team| && team[j] == Some(Living(team)[i]) && Place(team, j) == i
  {
    var n := |team| - 1;
    if i < |Living(team[..n])| {
      OriginIsThere(team[..n], i);
      assert team[..n][..Origin(team[..n], i)] == team[..Origin(team[..n], i)];
    } else {
    }
  }

  lemma {:induction false} LivingFront(team: seq<Option<Watched>>, m: nat)
    requires m <= |team|
    ensures Living(team[..m]) <= Living(team)
  {
    if m == |team| {
      assert team[..m] == team;
    } else {
      var n := |team| - 1;
      assert team[..n][..m] == team[..m];
      LivingFront(team[..n], m);
    }
  }

  /** Slot i of the watch, whenever it is looked at, holds one of the processes that the watch started
      with: its pid, a last snapshot and percentages from nothing but its own reports, all of them
      valid, and a history of exactly its last sixty positive percentages. */
  lemma EachHistoryIsItsOwn(pids: seq<int>, events: seq<Event>, tb: Timebase, i: nat)
    requires i < |Watching(pids, events, tb)|
    ensures Watching(pids, events, tb) == Living(Team(pids, events, tb))
    ensures var j := Origin(Team(pids, events, tb), i);
            && j < |pids| && Place(Team(pids, events, tb), j) == i
            && Matches(Some(Watching(pids, events, tb)[i]), pids[j], ReportsOf(pids, events, tb, j), tb)
  {
    hide Watching, Team, Matches, Living, Origin, Place;
    WatchingTogetherIsWatchingAlone(pids, events, tb);
    OriginIsThere(Team(pids, events, tb), i);
    AloneMatches(pids, events, tb, Origin(Team(pids, events, tb), i));
  }

  /** And every process whose reports were all valid has its slot, in the first order. */
  lemma EveryProcessHasItsSlot(pids: seq<int>, events: seq<Event>, tb: Timebase, j: nat)
    requires j < |pids| && AllValid(ReportsOf(pids, events, tb, j))
    ensures var i := Place(Team(pids, events, tb), j);
            i < |Watching(pids, events, tb)| && Watching(pids, events, tb)[i].pid == pids[j]
    ensures forall k :: 0 <= k < j ==> Place(Team(pids, events, tb), k) <= Place(Team(pids, events, tb), j)
  {
    var team := Team(pids, events, tb);
    hide Watching, Team, Percentages, LastSnapshot, ReportsOf;
    WatchingTogetherIsWatchingAlone(pids, events, tb);
    AloneMatches(pids, events, tb, j);
    assert team[..j + 1][..j] == team[..j];
    LivingFront(team, j + 1);
    forall k | 0 <= k < j ensures Place(team, k) <= Place(team, j) {
      assert team[..j][..k] == team[..k];
      LivingFront(team[..j], k);
    }
  }

  /** When every child reports on the pid it was asked for, the snapshot kept in a slot is of the pid in
      that slot, so the next percentage compares two samples of one process. */
  lemma SnapshotIsOfItsPid(pids: seq<int>, events: seq<Event>, tb: Timebase, i: nat)
    requires i < |Watching(pids, events, tb)|
    requires forall k :: 0 <= k < |events| && events[k].Refresh? ==> Truthful(events[k].kernel)
    ensures var w := Watching(pids, events, tb)[i]; w.prev.valid ==> w.prev.pid == w.pid
  {
    EachHistoryIsItsOwn(pids, events, tb, i);
    var j := Origin(Team(pids, events, tb), i);
    var reports := ReportsOf(pids, events, tb, j);
    ReportsAreTruthful(pids, events, tb, j);
    hide ReportsOf, Team, Watching, Origin, Percentages;
    if reports != [] {
      var m := |reports| - 1;
      assert Valid(reports[m]);
      if m > 0 {
        ComputedKeepsPid(reports[m - 1].data, reports[m].data, tb);
      }
    }
  }

  ghost predicate Truthful(kernel: Kernel) {
    forall pid, slot: nat :: kernel(pid, slot).Got? ==> kernel(pid, slot).data.pid == pid
  }

  ghost predicate AllOf(reports: seq<Report>, pid: int) {
    forall m :: 0 <= m < |reports| && reports[m].Got? ==> reports[m].data.pid == pid
  }

  lemma AllOfNext(before: seq<Report>, report: Report, pid: int)
    requires AllOf(before, pid) && (report.Got? ==> report.data.pid == pid)
    ensures AllOf(before + [report], pid)
  {
  }

  lemma {:induction false} ReportsAreTruthful(pids: seq<int>, events: seq<Event>, tb: Timebase, j: nat)
    requires j < |pids|
    requires forall k :: 0 <= k < |events| && events[k].Refresh? ==> Truthful(events[k].kernel)
    ensures AllOf(ReportsOf(pids, events, tb, j), pids[j])
    decreases |events|
  {
    if |events| == 0 {
    } else {
      var k := |events| - 1;
      hide Place, Team, AllOf;
      var before := ReportsOf(pids, events[..k], tb, j);
      ReportsAreTruthful(pids, events[..k], tb, j);
      if Refreshes(events) {
        assert Truthful(events[k].kernel);
        AllOfNext(before, events[k].kernel(pids[j], Place(Team(pids, events[..k], tb), j)), pids[j]);
      } else {
        assert before + [] == before;
      }
    }
  }
}
