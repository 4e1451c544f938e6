/** Concurrent runs of operations whose bodies run under the readers-writer lock.

    A body is a sequence of small steps, each one assignment or one test on the shared memory, and
    processes interleave after every semaphore call and every body step. The memory itself is set
    up without a lock, by the process that created it, before the writer token exists.
 */
module LockedRuns {
  import opened RwLock

  /** What a call was and what it left in the caller's variables. */
  datatype Answer<Op, Local> = Answer(op: Op, result: Local)

  datatype Entry<Op, Local> = Entry(client: nat, answer: Answer<Op, Local>)

  datatype Activity<Op, Local> = Resting | Busy(op: Op, local: Local)

  datatype Client<Op, Local> = Client(
    todo: seq<Op>,
    activity: Activity<Op, Local>,
    answers: seq<Answer<Op, Local>>)

  datatype Boot<Local> = Booting(local: Local) | Booted

  /** `log` lists the calls in the order in which their bodies ended. */
  datatype World<Op, Local, Mem> = World(
    lock: Lock,
    clients: seq<Client<Op, Local>>,
    mem: Mem,
    boot: Boot<Local>,
    log: seq<Entry<Op, Local>>)

  datatype Move =
    | Begin(i: nat)    // call the lock function
    | Advance(i: nat)  // one semaphore call
    | Body(i: nat)     // one step inside the section
    | Commit(i: nat)   // the body has ended: call the unlock function
    | BootStep         // one step of the unlocked initialisation
    | Open             // SETVAL

  function EntriesOf<Op, Local>(log: seq<Entry<Op, Local>>, i: nat): seq<Answer<Op, Local>> {
    if log == [] then []
    else
      var k := |log| - 1;
      EntriesOf(log[..k], i) + if log[k].client == i then [log[k].answer] else []
  }

  function OpsOf<Op, Local>(answers: seq<Answer<Op, Local>>): seq<Op> {
    seq(|answers|, k requires 0 <= k < |answers| => answers[k].op)
  }

  /** The calls a client has made, is making and will make. */
  function Calls<Op, Local>(c: Client<Op, Local>): seq<Op> {
    OpsOf(c.answers) + (if c.activity.Busy? then [c.activity.op] else []) + c.todo
  }

  predicate BeforeSection(pc: Pc) {
    pc.ReadEnter? || pc.ReadCount? || pc.ReadTest? || pc.ReadClaim? || pc.ReadOpen? || pc.WriteClaim?
  }

  predicate AfterSection(pc: Pc) {
    pc.LeaveEnter? || pc.LeaveCount? || pc.LeaveTest? || pc.LeaveReturn? || pc.LeaveOpen? || pc.WriteReturn?
  }

  predicate WriterPc(pc: Pc) {
    pc.WriteClaim? || pc.Writing? || pc.WriteReturn?
  }

  /** A semaphore call moves a process through its call in order. */
  lemma PhaseSteps(pc: Pc, readers: int)
    requires AtSemop(pc)
    ensures var q := After(pc, readers);
            && q != Gone
            && (BeforeSection(pc) != AfterSection(pc))
            && (BeforeSection(pc) ==> BeforeSection(q) || q == (if WriterPc(pc) then Writing else Reading))
            && (AfterSection(pc) ==> AfterSection(q) || q == Idle)
            && (q != Idle ==> WriterPc(q) == WriterPc(pc))
            && PcLeft(q) < PcLeft(pc)
  {
  }

  /** The step function of every operation's body. `rank` bounds the steps a body has left. */
  datatype Program<!Op(!new), !Local(!new), !Mem(!new)> = Program(
    start: Op -> Local,
    step: (Local, Mem) -> (Local, Mem),
    done: Local -> bool,
    writes: Local -> bool,
    rank: Local -> nat)
  {
    ghost predicate WellFormed() {
      && (forall l, m :: !done(l) ==> rank(step(l, m).0) < rank(l))
      && (forall l, m :: writes(step(l, m).0) == writes(l))
      && (forall l, m :: !writes(l) ==> step(l, m).1 == m)
    }

    /** Runs the rest of a body with nobody else around. */
    ghost function Finish(l: Local, m: Mem): (Local, Mem)
      requires WellFormed()
      decreases rank(l)
    {
      if done(l) then (l, m)
      else
        var (l', m') := step(l, m);
        Finish(l', m')
    }

    /** The whole body as one atomic operation. */
    ghost function Atomic(op: Op, m: Mem): (Local, Mem)
      requires WellFormed()
    {
      Finish(start(op), m)
    }

    /** The memory after the logged calls have run atomically, one after the other. */
    ghost function Serial(m: Mem, log: seq<Entry<Op, Local>>): Mem
      requires WellFormed()
    {
      if log == [] then m
      else Atomic(log[|log| - 1].answer.op, Serial(m, log[..|log| - 1])).1
    }

    /** Every logged result is the one the serial execution gives. */
    ghost predicate Explains(m: Mem, log: seq<Entry<Op, Local>>)
      requires WellFormed()
    {
      log == [] ||
      (var k := |log| - 1;
       && Explains(m, log[..k])
       && log[k].answer.result == Atomic(log[k].answer.op, Serial(m, log[..k])).0)
    }

    lemma FinishStep(l: Local, m: Mem)
      requires WellFormed()
      ensures Finish(l, m) == if done(l) then (l, m) else Finish(step(l, m).0, step(l, m).1)
    {
    }

    lemma {:induction false} ReadersKeepMemory(l: Local, m: Mem)
      requires WellFormed() && !writes(l)
      ensures Finish(l, m).1 == m
      decreases rank(l)
    {
      if done(l) {
      } else {
        ReadersKeepMemory(step(l, m).0, m);
      }
    }

    // ---- Moves ----

    predicate Possible(w: World<Op, Local, Mem>, mv: Move) {
      && |w.clients| == |w.lock.procs|
      && match mv
         case Begin(i) => i < |w.clients| && w.clients[i].activity.Resting? && w.clients[i].todo != []
                          && w.lock.procs[i].pc == Idle
         case Advance(i) => i < |w.clients| && w.clients[i].activity.Busy? && Can(w.lock, i, Semop)
         case Body(i) => i < |w.clients| && w.clients[i].activity.Busy? && InSection(w.lock.procs[i].pc)
                         && !done(w.clients[i].activity.local)
         case Commit(i) => i < |w.clients| && w.clients[i].activity.Busy? && InSection(w.lock.procs[i].pc)
                           && done(w.clients[i].activity.local)
         case BootStep => w.boot.Booting? && !done(w.boot.local)
         case Open => w.boot.Booting? && done(w.boot.local)
    }

    function Perform(w: World<Op, Local, Mem>, mv: Move): World<Op, Local, Mem>
      requires Possible(w, mv)
    {
      match mv
      case Begin(i) =>
        var c := w.clients[i];
        var l := start(c.todo[0]);
        w.(lock := Do(w.lock, i, Call(writes(l))),
           clients := w.clients[i := c.(todo := c.todo[1..], activity := Busy(c.todo[0], l))])
      case Advance(i) =>
        var c := w.clients[i];
        var lock := Do(w.lock, i, Semop);
        w.(lock := lock,
           clients := if lock.procs[i].pc != Idle then w.clients
                      else w.clients[i := c.(activity := Resting,
                                             answers := c.answers + [Answer(c.activity.op, c.activity.local)])])
      case Body(i) =>
        var c := w.clients[i];
        var (l, m) := step(c.activity.local, w.mem);
        w.(clients := w.clients[i := c.(activity := Busy(c.activity.op, l))], mem := m)
      case Commit(i) =>
        var c := w.clients[i];
        w.(lock := Do(w.lock, i, LeaveSection),
           log := w.log + [Entry(i, Answer(c.activity.op, c.activity.local))])
      case BootStep =>
        var (l, m) := step(w.boot.local, w.mem);
        w.(boot := Booting(l), mem := m)
      case Open =>
        w.(lock := SetVal(w.lock), boot := Booted)
    }

    /** The master has created the set and is about to initialise a segment with any contents. */
    function Launch(scripts: seq<seq<Op>>, boot: Local, garbage: Mem): World<Op, Local, Mem> {
      World(Created(|scripts|),
            seq(|scripts|, i requires 0 <= i < |scripts| => Client(scripts[i], Resting, [])),
            garbage, Booting(boot), [])
    }

    ghost predicate Leads(w: World<Op, Local, Mem>, moves: seq<Move>, v: World<Op, Local, Mem>)
      decreases |moves|
    {
      if moves == [] then w == v
      else Possible(w, moves[0]) && Leads(Perform(w, moves[0]), moves[1..], v)
    }

    // ---- The invariant ----

    /** What a client's program counter says about its local state. */
    ghost predicate ClientInv(w: World<Op, Local, Mem>, base: Mem, i: nat)
      requires WellFormed() && i < |w.clients| && |w.clients| == |w.lock.procs|
    {
      var pc := w.lock.procs[i].pc;
      var c := w.clients[i];
      && pc != Gone
      && (c.activity.Resting? <==> pc == Idle)
      && EntriesOf(w.log, i) ==
         c.answers + (if AfterSection(pc) && c.activity.Busy? then [Answer(c.activity.op, c.activity.local)] else [])
      && (c.activity.Busy? ==>
            && writes(c.activity.local) == writes(start(c.activity.op)) == WriterPc(pc)
            && (BeforeSection(pc) ==> c.activity.local == start(c.activity.op))
            && (pc == Reading ==> Finish(c.activity.local, w.mem).0 == Atomic(c.activity.op, w.mem).0)
            && (pc == Writing ==> Finish(c.activity.local, w.mem) == Atomic(c.activity.op, Serial(base, w.log))))
    }

    ghost predicate NobodyWrites(w: World<Op, Local, Mem>) {
      forall i :: 0 <= i < |w.lock.procs| ==> w.lock.procs[i].pc != Writing
    }

    ghost predicate MemInv(w: World<Op, Local, Mem>, base: Mem)
      requires WellFormed()
    {
      && Explains(base, w.log)
      && w.lock.published == w.boot.Booted?
      && (w.boot.Booting? ==> w.log == [] && Finish(w.boot.local, w.mem).1 == base)
      && (w.boot.Booted? && NobodyWrites(w) ==> w.mem == Serial(base, w.log))
    }

    ghost predicate WorldInv(w: World<Op, Local, Mem>, base: Mem, scripts: seq<seq<Op>>) {
      && WellFormed()
      && Inv(w.lock) && UndoMatches(w.lock) && Ledger(w.lock)
      && |w.clients| == |w.lock.procs| == |scripts|
      && MemInv(w, base)
      && (forall i :: 0 <= i < |w.clients| ==> ClientInv(w, base, i))
      && (forall i :: 0 <= i < |w.clients| ==> Calls(w.clients[i]) == scripts[i])
    }

    lemma Appended(m: Mem, log: seq<Entry<Op, Local>>, e: Entry<Op, Local>, i: nat)
      requires WellFormed()
      ensures EntriesOf(log + [e], i) == EntriesOf(log, i) + if e.client == i then [e.answer] else []
      ensures Serial(m, log + [e]) == Atomic(e.answer.op, Serial(m, log)).1
      ensures Explains(m, log + [e]) <==>
              Explains(m, log) && e.answer.result == Atomic(e.answer.op, Serial(m, log)).0
    {
      assert (log + [e])[..|log|] == log;
    }

    /** A client keeps its part of the invariant when nothing it depends on has changed. */
    lemma ClientUntouched(w: World<Op, Local, Mem>, v: World<Op, Local, Mem>, base: Mem, j: nat)
      requires WellFormed() && j < |w.clients| == |w.lock.procs| && |v.clients| == |v.lock.procs| == |w.clients|
      requires ClientInv(w, base, j)
      requires v.clients[j] == w.clients[j] && v.lock.procs[j].pc == w.lock.procs[j].pc
      requires EntriesOf(v.log, j) == EntriesOf(w.log, j)
      requires v.mem == w.mem || !InSection(w.lock.procs[j].pc)
      requires v.log == w.log || w.lock.procs[j].pc != Writing
      ensures ClientInv(v, base, j)
    {
    }

    lemma NobodyWroteBefore(w: World<Op, Local, Mem>, v: World<Op, Local, Mem>, i: nat)
      requires NobodyWrites(v) && |w.lock.procs| == |v.lock.procs| && i < |w.lock.procs|
      requires forall j :: 0 <= j < |w.lock.procs| && j != i ==> w.lock.procs[j].pc == v.lock.procs[j].pc
      requires w.lock.procs[i].pc != Writing
      ensures NobodyWrites(w)
    {
      forall j | 0 <= j < |w.lock.procs| ensures w.lock.procs[j].pc != Writing {
        assert v.lock.procs[j].pc != Writing;
      }
    }

    lemma BeginClient(w: World<Op, Local, Mem>, base: Mem, i: nat)
      requires WellFormed() && Possible(w, Begin(i)) && ClientInv(w, base, i)
      ensures ClientInv(Perform(w, Begin(i)), base, i)
      ensures Calls(Perform(w, Begin(i)).clients[i]) == Calls(w.clients[i])
    {
      hide Finish, Serial, Explains, EntriesOf;
      var c := w.clients[i];
      assert c.todo == [c.todo[0]] + c.todo[1..];
    }

    lemma BeginKeeps(w: World<Op, Local, Mem>, base: Mem, scripts: seq<seq<Op>>, i: nat)
      requires WorldInv(w, base, scripts) && Possible(w, Begin(i))
      ensures WorldInv(Perform(w, Begin(i)), base, scripts)
    {
      hide Inv, UndoMatches, Ledger, Finish, Serial, Explains, EntriesOf;
      var v := Perform(w, Begin(i));
      var c := w.clients[i];
      QuietStepKeeps(w.lock, i, Call(writes(start(c.todo[0]))));
      BeginClient(w, base, i);
      forall j | 0 <= j < |v.clients|
        ensures ClientInv(v, base, j) && Calls(v.clients[j]) == scripts[j]
      {
        if j != i {
          ClientUntouched(w, v, base, j);
        }
      }
      if NobodyWrites(v) {
        NobodyWroteBefore(w, v, i);
      }
    }

    lemma BodyKeeps(w: World<Op, Local, Mem>, base: Mem, scripts: seq<seq<Op>>, i: nat)
      requires WorldInv(w, base, scripts) && Possible(w, Body(i))
      ensures WorldInv(Perform(w, Body(i)), base, scripts)
    {
      var v := Perform(w, Body(i));
      InvExcludes(w.lock);
      hide Inv, UndoMatches, Ledger, Serial, Explains, EntriesOf;
      assert ClientInv(w, base, i);
      forall j | 0 <= j < |v.clients|
        ensures ClientInv(v, base, j) && Calls(v.clients[j]) == scripts[j]
      {
        if j != i {
          ClientUntouched(w, v, base, j);
        }
      }
    }

    lemma CommitExtendsSerial(w: World<Op, Local, Mem>, base: Mem, i: nat)
      requires WellFormed() && Possible(w, Commit(i)) && ClientInv(w, base, i)
      requires w.boot.Booted? && MemInv(w, base)
      requires w.lock.procs[i].pc == Reading ==> NobodyWrites(w)
      ensures MemInv(Perform(w, Commit(i)), base)
      ensures Perform(w, Commit(i)).mem == Serial(base, Perform(w, Commit(i)).log)
    {
      hide Serial, Explains, EntriesOf;
      var c := w.clients[i];
      var v := Perform(w, Commit(i));
      if w.lock.procs[i].pc == Reading {
        ReadersKeepMemory(start(c.activity.op), w.mem);
      }
      Appended(base, w.log, Entry(i, Answer(c.activity.op, c.activity.local)), i);
    }

    lemma CommitKeeps(w: World<Op, Local, Mem>, base: Mem, scripts: seq<seq<Op>>, i: nat)
      requires WorldInv(w, base, scripts) && Possible(w, Commit(i))
      ensures WorldInv(Perform(w, Commit(i)), base, scripts)
    {
      hide Inv, UndoMatches, Ledger, Serial, Explains, EntriesOf, Finish, Atomic;
      var v := Perform(w, Commit(i));
      var c := w.clients[i];
      var e := Entry(i, Answer(c.activity.op, c.activity.local));
      InvExcludes(w.lock);
      QuietStepKeeps(w.lock, i, LeaveSection);
      assert ClientInv(w, base, i);
      assert HoldsWrite(w.lock.procs[i]) || HoldsRead(w.lock.procs[i]);
      CommitExtendsSerial(w, base, i);
      forall j | 0 <= j < |v.clients|
        ensures ClientInv(v, base, j) && Calls(v.clients[j]) == scripts[j]
      {
        Appended(base, w.log, e, j);
        if j != i {
          ClientUntouched(w, v, base, j);
        }
      }
    }

    lemma AdvanceClient(w: World<Op, Local, Mem>, base: Mem, i: nat)
      requires WellFormed() && Possible(w, Advance(i)) && ClientInv(w, base, i)
      requires Do(w.lock, i, Semop).procs[i].pc == Writing ==> w.mem == Serial(base, w.log)
      ensures ClientInv(Perform(w, Advance(i)), base, i)
      ensures Calls(Perform(w, Advance(i)).clients[i]) == Calls(w.clients[i])
    {
      hide After, Serial, EntriesOf, Finish, Delta;
      PhaseSteps(w.lock.procs[i].pc, w.lock.sems.readers);
    }

    /** A writer that gets the token finds the memory the serial execution has. */
    lemma TokenIsFree(w: World<Op, Local, Mem>, i: nat)
      requires Inv(w.lock) && i < |w.lock.procs| && Can(w.lock, i, Semop) && w.lock.procs[i].pc == WriteClaim
      ensures w.lock.published && NobodyWrites(w)
    {
      StepKeepsInv(w.lock, i, Semop);
      InvExcludes(w.lock);
      InvExcludes(Do(w.lock, i, Semop));
      hide Inv;
      assert HoldsWrite(Do(w.lock, i, Semop).procs[i]);
      forall j | 0 <= j < |w.lock.procs| ensures w.lock.procs[j].pc != Writing {
        if j != i {
          assert !HoldsWrite(Do(w.lock, i, Semop).procs[j]);
        }
      }
    }

    lemma AdvanceKeeps(w: World<Op, Local, Mem>, base: Mem, scripts: seq<seq<Op>>, i: nat)
      requires WorldInv(w, base, scripts) && Possible(w, Advance(i))
      ensures WorldInv(Perform(w, Advance(i)), base, scripts)
    {
      hide Inv, UndoMatches, Ledger, Serial, Explains, EntriesOf, Finish, After, Delta;
      var v := Perform(w, Advance(i));
      QuietStepKeeps(w.lock, i, Semop);
      assert ClientInv(w, base, i);
      PhaseSteps(w.lock.procs[i].pc, w.lock.sems.readers);
      if w.lock.procs[i].pc == WriteClaim {
        TokenIsFree(w, i);
      }
      AdvanceClient(w, base, i);
      forall j | 0 <= j < |v.clients|
        ensures ClientInv(v, base, j) && Calls(v.clients[j]) == scripts[j]
      {
        if j != i {
          ClientUntouched(w, v, base, j);
        }
      }
      if NobodyWrites(v) {
        NobodyWroteBefore(w, v, i);
      }
    }

    lemma BootKeeps(w: World<Op, Local, Mem>, base: Mem, scripts: seq<seq<Op>>)
      requires WorldInv(w, base, scripts) && Possible(w, BootStep)
      ensures WorldInv(Perform(w, BootStep), base, scripts)
    {
      var v := Perform(w, BootStep);
      InvExcludes(w.lock);
      hide Inv, UndoMatches, Ledger, Serial, Explains, EntriesOf;
      forall j | 0 <= j < |v.clients|
        ensures ClientInv(v, base, j)
      {
        ClientUntouched(w, v, base, j);
      }
    }

    lemma OpenKeeps(w: World<Op, Local, Mem>, base: Mem, scripts: seq<seq<Op>>)
      requires WorldInv(w, base, scripts) && Possible(w, Open)
      ensures WorldInv(Perform(w, Open), base, scripts)
    {
      var v := Perform(w, Open);
      SetValKeepsInv(w.lock);
      hide Inv, UndoMatches, Ledger, EntriesOf;
      forall j | 0 <= j < |v.clients|
        ensures ClientInv(v, base, j)
      {
        ClientUntouched(w, v, base, j);
      }
    }

    lemma MoveKeeps(w: World<Op, Local, Mem>, base: Mem, scripts: seq<seq<Op>>, mv: Move)
      requires WorldInv(w, base, scripts) && Possible(w, mv)
      ensures WorldInv(Perform(w, mv), base, scripts)
    {
      hide WorldInv, Possible, Perform;
      match mv {
        case Begin(i) => BeginKeeps(w, base, scripts, i);
        case Advance(i) => AdvanceKeeps(w, base, scripts, i);
        case Body(i) => BodyKeeps(w, base, scripts, i);
        case Commit(i) => CommitKeeps(w, base, scripts, i);
        case BootStep => BootKeeps(w, base, scripts);
        case Open => OpenKeeps(w, base, scripts);
      }
    }

    lemma LaunchKeeps(scripts: seq<seq<Op>>, boot: Local, garbage: Mem)
      requires WellFormed()
      ensures WorldInv(Launch(scripts, boot, garbage), Finish(boot, garbage).1, scripts)
    {
      hide Inv, Ledger, UndoMatches;
      InitiallyInv(|scripts|);
    }

    lemma {:induction false} LeadsKeep(w: World<Op, Local, Mem>, moves: seq<Move>, v: World<Op, Local, Mem>,
                                       base: Mem, scripts: seq<seq<Op>>)
      requires Leads(w, moves, v) && WorldInv(w, base, scripts)
      ensures WorldInv(v, base, scripts)
      decreases |moves|
    {
      hide WorldInv, Possible, Perform;
      if moves == [] {
      } else {
        MoveKeeps(w, base, scripts, moves[0]);
        LeadsKeep(Perform(w, moves[0]), moves[1..], v, base, scripts);
      }
    }

    // ---- Serializability ----

    /** Whatever the interleaving, the calls that have ended are explained by running their bodies
        one after the other, in the order of the log, on the memory the initialisation leaves:
        every result in the log is the one of that serial execution, every client has been answered
        with its own logged results in its own order of calling (the last may still be on its way),
        and while nobody is inside the write section the memory is the one of that execution. */
    lemma Serializable(scripts: seq<seq<Op>>, boot: Local, garbage: Mem, moves: seq<Move>,
                       v: World<Op, Local, Mem>)
      requires WellFormed() && Leads(Launch(scripts, boot, garbage), moves, v)
      ensures |v.clients| == |v.lock.procs| == |scripts|
      ensures Explains(Finish(boot, garbage).1, v.log)
      ensures forall i :: 0 <= i < |v.clients| ==>
                EntriesOf(v.log, i) == v.clients[i].answers +
                  if AfterSection(v.lock.procs[i].pc) && v.clients[i].activity.Busy?
                  then [Answer(v.clients[i].activity.op, v.clients[i].activity.local)] else []
      ensures forall i :: 0 <= i < |v.clients| ==> Calls(v.clients[i]) == scripts[i]
      ensures v.boot.Booted? && NobodyWrites(v) ==> v.mem == Serial(Finish(boot, garbage).1, v.log)
      ensures v.boot.Booting? ==> v.log == [] && NobodyInside(v.lock)
    {
      LaunchKeeps(scripts, boot, garbage);
      LeadsKeep(Launch(scripts, boot, garbage), moves, v, Finish(boot, garbage).1, scripts);
      InvExcludes(v.lock);
      hide Inv, Ledger, UndoMatches, Finish, Serial, Explains, EntriesOf, Calls;
      forall i | 0 <= i < |v.clients|
        ensures EntriesOf(v.log, i) == v.clients[i].answers +
                  if AfterSection(v.lock.procs[i].pc) && v.clients[i].activity.Busy?
                  then [Answer(v.clients[i].activity.op, v.clients[i].activity.local)] else []
      {
        assert ClientInv(v, Finish(boot, garbage).1, i);
      }
    }

    /** A reader inside its section sees the memory of the serial execution, for as long as it is
        inside. */
    lemma ReadersSeeSerialMemory(scripts: seq<seq<Op>>, boot: Local, garbage: Mem, moves: seq<Move>,
                                 v: World<Op, Local, Mem>, i: nat)
      requires WellFormed() && Leads(Launch(scripts, boot, garbage), moves, v)
      requires i < |v.lock.procs| && v.lock.procs[i].pc == Reading
      ensures v.boot.Booted? && NobodyWrites(v) && v.mem == Serial(Finish(boot, garbage).1, v.log)
    {
      LaunchKeeps(scripts, boot, garbage);
      LeadsKeep(Launch(scripts, boot, garbage), moves, v, Finish(boot, garbage).1, scripts);
      InvExcludes(v.lock);
      hide Inv, Ledger, UndoMatches;
      assert HoldsRead(v.lock.procs[i]);
      forall j | 0 <= j < |v.lock.procs| ensures v.lock.procs[j].pc != Writing {
        if j != i {
          assert !HoldsWrite(v.lock.procs[j]);
        }
      }
    }

    /** What every operation keeps holds of the memory of the serial execution. */
    lemma {:induction false} SerialKeeps(m: Mem, log: seq<Entry<Op, Local>>, good: Mem -> bool, allowed: Op -> bool)
      requires WellFormed() && good(m)
      requires forall op, m' :: allowed(op) && good(m') ==> good(Atomic(op, m').1)
      requires forall k :: 0 <= k < |log| ==> allowed(log[k].answer.op)
      ensures good(Serial(m, log))
    {
      if log == [] {
      } else {
        SerialKeeps(m, log[..|log| - 1], good, allowed);
      }
    }

    /** The log only grows: a call that begins after another has been answered follows it in the
        serial order. */
    lemma {:induction false} LogGrows(w: World<Op, Local, Mem>, moves: seq<Move>, v: World<Op, Local, Mem>)
      requires Leads(w, moves, v)
      ensures w.log <= v.log
      decreases |moves|
    {
      if moves == [] {
      } else {
        LogGrows(Perform(w, moves[0]), moves[1..], v);
      }
    }

    lemma {:induction false} EntriesGrow(log: seq<Entry<Op, Local>>, longer: seq<Entry<Op, Local>>, i: nat)
      requires log <= longer
      ensures |EntriesOf(log, i)| <= |EntriesOf(longer, i)|
    {
      if log == longer {
      } else {
        var k := |longer| - 1;
        assert log <= longer[..k];
        EntriesGrow(log, longer[..k], i);
      }
    }

    /** Entry k of the log is the n-th call of client i, counting from 0. */
    ghost predicate IsCall(log: seq<Entry<Op, Local>>, k: nat, i: nat, n: nat) {
      k < |log| && log[k].client == i && |EntriesOf(log[..k], i)| == n
    }

    /** How many calls a client has begun. */
    function Begun(c: Client<Op, Local>): nat {
      |c.answers| + if c.activity.Busy? then 1 else 0
    }

    /** The serial order respects real time: if at some moment of a run call m of client i has been
        answered and call n of client j has not begun, then call m precedes call n in the log. */
    lemma RealTimeOrder(scripts: seq<seq<Op>>, boot: Local, garbage: Mem, before: seq<Move>, w: World<Op, Local, Mem>,
                        after: seq<Move>, v: World<Op, Local, Mem>, i: nat, m: nat, j: nat, n: nat, a: nat, b: nat)
      requires WellFormed() && Leads(Launch(scripts, boot, garbage), before, w) && Leads(w, after, v)
      requires i < |w.clients| && m < |w.clients[i].answers|
      requires j < |w.clients| && n >= Begun(w.clients[j])
      requires IsCall(v.log, a, i, m) && IsCall(v.log, b, j, n)
      ensures a < b
    {
      var base := Finish(boot, garbage).1;
      LaunchKeeps(scripts, boot, garbage);
      LeadsKeep(Launch(scripts, boot, garbage), before, w, base, scripts);
      LogGrows(w, after, v);
      assert ClientInv(w, base, i) && ClientInv(w, base, j);
      hide Inv, Ledger, UndoMatches, Finish, Serial, Explains, EntriesOf, Leads, Launch;
      if a >= |w.log| {
        EntriesGrow(w.log, v.log[..a], i);
      }
      if b < |w.log| {
        LastIsCounted(v.log, b, j, n);
        EntriesGrow(v.log[..b + 1], w.log, j);
      }
    }

    lemma LastIsCounted(log: seq<Entry<Op, Local>>, k: nat, i: nat, n: nat)
      requires IsCall(log, k, i, n)
      ensures |EntriesOf(log[..k + 1], i)| == n + 1
    {
      assert log[..k + 1][..k] == log[..k];
    }

    // ---- Termination and progress ----

    /** One more than the lock steps of the longest call. */
    function TodoEffort(todo: seq<Op>): nat {
      if todo == [] then 0 else 12 + rank(start(todo[0])) + TodoEffort(todo[1..])
    }

    function ClientEffort(c: Client<Op, Local>, pc: Pc): nat {
      TodoEffort(c.todo) + PcLeft(pc) + if c.activity.Busy? then rank(c.activity.local) else 0
    }

    function Efforts(cs: seq<Client<Op, Local>>, ps: seq<Proc>): nat
      requires |cs| == |ps|
    {
      if cs == [] then 0 else ClientEffort(cs[0], ps[0].pc) + Efforts(cs[1..], ps[1..])
    }

    /** A bound on the moves left. */
    function Effort(w: World<Op, Local, Mem>): nat
      requires |w.clients| == |w.lock.procs|
    {
      Efforts(w.clients, w.lock.procs) + match w.boot case Booting(l) => rank(l) + 1 case Booted => 0
    }

    lemma {:induction false} EffortsUpdate(cs: seq<Client<Op, Local>>, ps: seq<Proc>, i: nat,
                                           c: Client<Op, Local>, p: Proc)
      requires i < |cs| == |ps|
      ensures Efforts(cs[i := c], ps[i := p]) ==
              Efforts(cs, ps) - ClientEffort(cs[i], ps[i].pc) + ClientEffort(c, p.pc)
    {
      if i == 0 {
        assert cs[i := c][1..] == cs[1..] && ps[i := p][1..] == ps[1..];
      } else {
        assert cs[i := c][1..] == cs[1..][i - 1 := c] && ps[i := p][1..] == ps[1..][i - 1 := p];
        EffortsUpdate(cs[1..], ps[1..], i - 1, c, p);
      }
    }

    lemma {:induction false} EffortsAgree(cs: seq<Client<Op, Local>>, ps: seq<Proc>, qs: seq<Proc>)
      requires |cs| == |ps| == |qs| && forall i :: 0 <= i < |ps| ==> ps[i].pc == qs[i].pc
      ensures Efforts(cs, ps) == Efforts(cs, qs)
    {
      if cs == [] {
      } else {
        EffortsAgree(cs[1..], ps[1..], qs[1..]);
      }
    }

    lemma MoveCosts(w: World<Op, Local, Mem>, mv: Move)
      requires WellFormed() && Possible(w, mv)
      ensures Effort(Perform(w, mv)) < Effort(w)
    {
      hide Efforts, After, Delta;
      var v := Perform(w, mv);
      match mv {
        case Begin(i) =>
          EffortsUpdate(w.clients, w.lock.procs, i, v.clients[i], v.lock.procs[i]);
        case Advance(i) =>
          PhaseSteps(w.lock.procs[i].pc, w.lock.sems.readers);
          EffortsUpdate(w.clients, w.lock.procs, i, v.clients[i], v.lock.procs[i]);
          assert w.clients[i := w.clients[i]] == w.clients;
        case Body(i) =>
          EffortsUpdate(w.clients, w.lock.procs, i, v.clients[i], v.lock.procs[i]);
          assert w.lock.procs[i := w.lock.procs[i]] == w.lock.procs;
        case Commit(i) =>
          EffortsUpdate(w.clients, w.lock.procs, i, v.clients[i], v.lock.procs[i]);
          assert w.clients[i := w.clients[i]] == w.clients;
        case BootStep =>
        case Open =>
          EffortsAgree(w.clients, w.lock.procs, v.lock.procs);
      }
    }

    /** Every run is finite: no run from w is longer than Effort(w). */
    lemma {:induction false} RunsAreBounded(w: World<Op, Local, Mem>, moves: seq<Move>, v: World<Op, Local, Mem>)
      requires WellFormed() && |w.clients| == |w.lock.procs| && Leads(w, moves, v)
      ensures |v.clients| == |v.lock.procs| && |moves| + Effort(v) <= Effort(w)
      decreases |moves|
    {
      hide Effort, Possible, Perform;
      if moves == [] {
      } else {
        MoveCosts(w, moves[0]);
        assert |Perform(w, moves[0]).clients| == |Perform(w, moves[0]).lock.procs| by {
          SameSize(w, moves[0]);
        }
        RunsAreBounded(Perform(w, moves[0]), moves[1..], v);
      }
    }

    lemma SameSize(w: World<Op, Local, Mem>, mv: Move)
      requires Possible(w, mv)
      ensures |Perform(w, mv).clients| == |Perform(w, mv).lock.procs| == |w.clients| == |w.lock.procs|
    {
    }

    ghost predicate Finished(w: World<Op, Local, Mem>) {
      w.boot.Booted? && forall i :: 0 <= i < |w.clients| ==> w.clients[i].activity.Resting? && w.clients[i].todo == []
    }

    lemma Progress(w: World<Op, Local, Mem>, base: Mem, scripts: seq<seq<Op>>) returns (mv: Move)
      requires WorldInv(w, base, scripts) && !Finished(w)
      ensures Possible(w, mv)
    {
      hide Shape, Surplus, Inv, Ledger, UndoMatches, Finish, Serial, Explains, EntriesOf, Calls;
      if w.boot.Booting? {
        mv := if done(w.boot.local) then Open else BootStep;
      } else {
        var k :| 0 <= k < |w.clients| && !(w.clients[k].activity.Resting? && w.clients[k].todo == []);
        assert ClientInv(w, base, k);
        if w.clients[k].activity.Resting? {
          mv := Begin(k);
        } else {
          InvIsShape(w.lock);
          var i := SomebodyMoves(w.lock, k);
          assert ClientInv(w, base, i);
          mv := if !InSection(w.lock.procs[i].pc) then Advance(i)
                else if done(w.clients[i].activity.local) then Commit(i) else Body(i);
        }
      }
    }

    /** No deadlock: a reachable world from which no move is possible has answered every call of
        every script, has the semaphores back at (1, 0, 1) and the memory of the serial execution. */
    lemma StopsOnlyWhenDone(scripts: seq<seq<Op>>, boot: Local, garbage: Mem, moves: seq<Move>,
                            v: World<Op, Local, Mem>)
      requires WellFormed() && Leads(Launch(scripts, boot, garbage), moves, v)
      requires forall mv :: !Possible(v, mv)
      ensures |v.clients| == |scripts| && v.lock.sems == Sems(1, 0, 1)
      ensures forall i :: 0 <= i < |scripts| ==>
                OpsOf(v.clients[i].answers) == scripts[i] && EntriesOf(v.log, i) == v.clients[i].answers
      ensures v.mem == Serial(Finish(boot, garbage).1, v.log)
    {
      var base := Finish(boot, garbage).1;
      LaunchKeeps(scripts, boot, garbage);
      LeadsKeep(Launch(scripts, boot, garbage), moves, v, base, scripts);
      if !Finished(v) {
        var mv := Progress(v, base, scripts);
      }
      AllIdle(v, base, scripts);
    }

    lemma AllIdle(v: World<Op, Local, Mem>, base: Mem, scripts: seq<seq<Op>>)
      requires WorldInv(v, base, scripts) && Finished(v)
      ensures v.lock.sems == Sems(1, 0, 1) && v.mem == Serial(base, v.log)
      ensures forall i :: 0 <= i < |scripts| ==>
                OpsOf(v.clients[i].answers) == scripts[i] && EntriesOf(v.log, i) == v.clients[i].answers
    {
      hide Ledger, UndoMatches, Finish, Serial, Explains, EntriesOf, Total, OpsOf;
      forall i | 0 <= i < |scripts|
        ensures v.lock.procs[i].pc == Idle
        ensures OpsOf(v.clients[i].answers) == scripts[i] && EntriesOf(v.log, i) == v.clients[i].answers
      {
        assert ClientInv(v, base, i);
        assert Calls(v.clients[i]) == scripts[i];
      }
      TotalZero(v.lock.procs, HoldsMutex);
      TotalZero(v.lock.procs, Counted);
      TotalZero(v.lock.procs, HoldsToken);
      TotalZero(v.lock.procs, Opening);
      TotalZero(v.lock.procs, Closing);
    }
  }
}
