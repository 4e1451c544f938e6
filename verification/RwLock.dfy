/** The readers-writer lock of src/ipc.c at the granularity of one semop or semctl call.

    Three semaphores (mutex, reader count, writer token) are shared by any number of processes.
    Every process has a program counter that names the next semaphore call it makes, and the
    SEM_UNDO adjustments the kernel keeps for it. A semop that would drive a value below zero
    blocks: the step is not enabled. A semop interrupted by a signal is retried and changes nothing.
 */
module RwLock {

  /** The values of the semaphore set, and also a change to it or an undo adjustment. */
  datatype Sems = Sems(mutex: int, readers: int, writers: int) {
    function Plus(d: Sems): Sems {
      Sems(mutex + d.mutex, readers + d.readers, writers + d.writers)
    }

    function Minus(d: Sems): Sems {
      Sems(mutex - d.mutex, readers - d.readers, writers - d.writers)
    }

    /** The kernel undoes an adjustment at exit without driving a value below zero. */
    function Undone(d: Sems): Sems {
      Sems(AtLeastZero(mutex + d.mutex), AtLeastZero(readers + d.readers), AtLeastZero(writers + d.writers))
    }

    predicate NonNegative() {
      mutex >= 0 && readers >= 0 && writers >= 0
    }
  }

  function AtLeastZero(x: int): int {
    if x < 0 then 0 else x
  }

  /** The next thing a process does. */
  datatype Pc =
    | Idle
    | ReadEnter    // rwlock_read_lock: P(mutex)
    | ReadCount    //                   V(readers)
    | ReadTest     //                   GETVAL(readers)
    | ReadClaim    //                   P(writers), by the first reader only
    | ReadOpen     //                   V(mutex)
    | Reading      // inside the read section
    | LeaveEnter   // rwlock_read_unlock: P(mutex)
    | LeaveCount   //                     P(readers)
    | LeaveTest    //                     GETVAL(readers)
    | LeaveReturn  //                     V(writers), by the last reader only
    | LeaveOpen    //                     V(mutex)
    | WriteClaim   // rwlock_write_lock: P(writers)
    | Writing      // inside the write section
    | WriteReturn  // rwlock_write_unlock: V(writers)
    | Gone         // the process has exited

  /** `reader` records whether the process has ever called rwlock_read_lock. */
  datatype Proc = Proc(pc: Pc, undo: Sems, reader: bool)

  /** `published` records the SETVAL that ends shm_init_master. */
  datatype Lock = Lock(sems: Sems, procs: seq<Proc>, published: bool)

  datatype Action =
    | Call(write: bool)
    | Semop
    | LeaveSection
    | Exit

  /** What the semaphore call at a program counter adds to the set (GETVAL adds nothing). */
  function Delta(pc: Pc): Sems {
    match pc
    case ReadEnter | LeaveEnter => Sems(-1, 0, 0)
    case ReadCount => Sems(0, 1, 0)
    case LeaveCount => Sems(0, -1, 0)
    case ReadClaim | WriteClaim => Sems(0, 0, -1)
    case LeaveReturn | WriteReturn => Sems(0, 0, 1)
    case ReadOpen | LeaveOpen => Sems(1, 0, 0)
    case _ => Sems(0, 0, 0)
  }

  /** Where the process goes after that call; `readers` is the value GETVAL returns. */
  function After(pc: Pc, readers: int): Pc {
    match pc
    case ReadEnter => ReadCount
    case ReadCount => ReadTest
    case ReadTest => if readers == 1 then ReadClaim else ReadOpen
    case ReadClaim => ReadOpen
    case ReadOpen => Reading
    case LeaveEnter => LeaveCount
    case LeaveCount => LeaveTest
    case LeaveTest => if readers == 0 then LeaveReturn else LeaveOpen
    case LeaveReturn => LeaveOpen
    case LeaveOpen => Idle
    case WriteClaim => Writing
    case WriteReturn => Idle
    case other => other
  }

  /** The number of lock steps left in a call. */
  function PcLeft(pc: Pc): nat {
    match pc
    case Idle | Gone => 0
    case LeaveOpen | WriteReturn => 1
    case LeaveReturn | Writing => 2
    case LeaveTest | WriteClaim => 3
    case LeaveCount => 4
    case LeaveEnter => 5
    case Reading => 6
    case ReadOpen => 7
    case ReadClaim => 8
    case ReadTest => 9
    case ReadCount => 10
    case ReadEnter => 11
  }

  predicate InSection(pc: Pc) {
    pc == Reading || pc == Writing
  }

  predicate AtSemop(pc: Pc) {
    pc != Idle && pc != Gone && !InSection(pc)
  }

  predicate Can(s: Lock, i: nat, a: Action)
    requires i < |s.procs|
  {
    var p := s.procs[i];
    match a
    case Call(_) => p.pc == Idle
    case Semop => AtSemop(p.pc) && s.sems.Plus(Delta(p.pc)).NonNegative()
    case LeaveSection => InSection(p.pc)
    case Exit => p.pc != Gone
  }

  function Do(s: Lock, i: nat, a: Action): Lock
    requires i < |s.procs| && Can(s, i, a)
  {
    var p := s.procs[i];
    match a
    case Call(write) =>
      s.(procs := s.procs[i := if write then p.(pc := WriteClaim) else p.(pc := ReadEnter, reader := true)])
    case Semop =>
      s.(sems := s.sems.Plus(Delta(p.pc)),
         procs := s.procs[i := p.(pc := After(p.pc, s.sems.readers), undo := p.undo.Minus(Delta(p.pc)))])
    case LeaveSection =>
      s.(procs := s.procs[i := p.(pc := if p.pc == Reading then LeaveEnter else WriteReturn)])
    case Exit =>
      s.(sems := s.sems.Undone(p.undo), procs := s.procs[i := p.(pc := Gone, undo := Sems(0, 0, 0))])
  }

  /** semctl(SEM_WRITERS, SETVAL, 1): sets the value and clears that semaphore's adjustments. */
  function SetVal(s: Lock): Lock {
    Lock(s.sems.(writers := 1),
         seq(|s.procs|, i requires 0 <= i < |s.procs| => s.procs[i].(undo := s.procs[i].undo.(writers := 0))),
         true)
  }

  /** The state after SETALL in sem_create: (1, 0, 0), with `n` processes that have done nothing. */
  function Created(n: nat): Lock {
    Lock(Sems(1, 0, 0), seq(n, _ => Proc(Idle, Sems(0, 0, 0), false)), false)
  }

  // ---- Counting processes ----

  function Total(ps: seq<Proc>, f: Proc -> int): int {
    if ps == [] then 0 else f(ps[0]) + Total(ps[1..], f)
  }

  function One(b: bool): int {
    if b then 1 else 0
  }

  function HoldsMutex(p: Proc): int {
    One(p.pc.ReadCount? || p.pc.ReadTest? || p.pc.ReadClaim? || p.pc.ReadOpen?
        || p.pc.LeaveCount? || p.pc.LeaveTest? || p.pc.LeaveReturn? || p.pc.LeaveOpen?)
  }

  function Counted(p: Proc): int {
    One(p.pc.ReadTest? || p.pc.ReadClaim? || p.pc.ReadOpen? || p.pc.Reading? || p.pc.LeaveEnter? || p.pc.LeaveCount?)
  }

  function HoldsToken(p: Proc): int {
    One(p.pc.Writing? || p.pc.WriteReturn?)
  }

  /** A reader that has been counted but has not yet settled whether it is the first. */
  function Opening(p: Proc): int {
    One(p.pc.ReadTest? || p.pc.ReadClaim?)
  }

  /** A reader that is no longer counted but has not yet settled whether it was the last. */
  function Closing(p: Proc): int {
    One(p.pc.LeaveTest? || p.pc.LeaveReturn?)
  }

  function Settled(p: Proc): int {
    HoldsMutex(p) - Opening(p) - Closing(p)
  }

  /** Holds the read lock: from the end of P(writers) until P(readers). */
  function Inside(p: Proc): int {
    Counted(p) - Opening(p)
  }

  function UndoMutex(p: Proc): int { p.undo.mutex }
  function UndoReaders(p: Proc): int { p.undo.readers }
  function UndoWriters(p: Proc): int { p.undo.writers }

  lemma {:induction false} TotalUpdate(ps: seq<Proc>, i: nat, p: Proc, f: Proc -> int)
    requires i < |ps|
    ensures Total(ps[i := p], f) == Total(ps, f) - f(ps[i]) + f(p)
  {
    if i == 0 {
      assert ps[i := p][1..] == ps[1..];
    } else {
      assert ps[i := p][1..] == ps[1..][i - 1 := p];
      TotalUpdate(ps[1..], i - 1, p, f);
    }
  }

  lemma {:induction false} TotalAtLeast(ps: seq<Proc>, i: nat, f: Proc -> int)
    requires i < |ps| && forall p :: f(p) >= 0
    ensures Total(ps, f) >= f(ps[i])
  {
    TotalNonNegative(ps[1..], f);
    if i == 0 {
    } else {
      TotalAtLeast(ps[1..], i - 1, f);
    }
  }

  lemma {:induction false} TotalNonNegative(ps: seq<Proc>, f: Proc -> int)
    requires forall p :: f(p) >= 0
    ensures Total(ps, f) >= 0
  {
    if ps == [] {
    } else {
      TotalNonNegative(ps[1..], f);
    }
  }

  lemma {:induction false} TotalAtLeastTwo(ps: seq<Proc>, i: nat, j: nat, f: Proc -> int)
    requires i < |ps| && j < |ps| && i != j && forall p :: f(p) >= 0
    ensures Total(ps, f) >= f(ps[i]) + f(ps[j])
  {
    if i == 0 {
      TotalAtLeast(ps[1..], j - 1, f);
    } else if j == 0 {
      TotalAtLeast(ps[1..], i - 1, f);
    } else {
      TotalAtLeastTwo(ps[1..], i - 1, j - 1, f);
    }
  }

  lemma {:induction false} TotalPositive(ps: seq<Proc>, f: Proc -> int) returns (i: nat)
    requires Total(ps, f) > 0
    ensures i < |ps| && f(ps[i]) > 0
  {
    if f(ps[0]) > 0 {
      i := 0;
    } else {
      i := TotalPositive(ps[1..], f);
      i := i + 1;
    }
  }

  lemma {:induction false} TotalZero(ps: seq<Proc>, f: Proc -> int)
    requires forall i :: 0 <= i < |ps| ==> f(ps[i]) == 0
    ensures Total(ps, f) == 0
  {
    if ps == [] {
    } else {
      TotalZero(ps[1..], f);
    }
  }

  lemma {:induction false} MutexSplit(ps: seq<Proc>)
    ensures Total(ps, HoldsMutex) == Total(ps, Opening) + Total(ps, Closing) + Total(ps, Settled)
    ensures Total(ps, Opening) >= 0 && Total(ps, Closing) >= 0 && Total(ps, Settled) >= 0
    ensures Total(ps, Counted) == Total(ps, Opening) + Total(ps, Inside)
    ensures Total(ps, Inside) >= 0 && Total(ps, HoldsToken) >= 0
  {
    if ps == [] {
    } else {
      MutexSplit(ps[1..]);
    }
  }

  // ---- The invariant ----

  /** 1 when the readers as a group own the writer token. Only a reader between GETVAL and
      P(writers) can be counted while the group does not own it, and only a reader between
      P(readers) and V(writers) can be uncounted while the group still owns it. */
  function Group(ps: seq<Proc>): int {
    var readers := Total(ps, Counted);
    if Total(ps, Opening) > 0 then One(readers > 1)
    else One(Total(ps, Closing) > 0 || readers > 0)
  }

  /** The mutex and the reader count, in terms of where the processes are. */
  ghost predicate Shape(s: Lock) {
    && s.sems.NonNegative()
    && s.sems.mutex == 1 - Total(s.procs, HoldsMutex)
    && s.sems.readers == Total(s.procs, Counted)
    && (forall i :: 0 <= i < |s.procs| && s.procs[i].pc == ReadClaim ==> s.sems.readers == 1)
    && (forall i :: 0 <= i < |s.procs| && s.procs[i].pc == LeaveReturn ==> s.sems.readers == 0)
  }

  /** The writer tokens there are, in the semaphore and in hands, beyond the one that was published;
      negative when that one is lost. */
  function Surplus(s: Lock): int {
    s.sems.writers + Total(s.procs, HoldsToken) + Group(s.procs) - One(s.published)
  }

  ghost predicate Inv(s: Lock) {
    Shape(s) && Surplus(s) == 0
  }

  /** Every process's mutex and reader-count adjustments undo exactly its own holdings; for a
      process that has never read, so does the adjustment of the writer token. */
  ghost predicate UndoMatches(s: Lock) {
    forall i :: 0 <= i < |s.procs| ==> Owes(s.procs[i], s.published)
  }

  predicate WritersPc(pc: Pc) {
    pc.Idle? || pc.WriteClaim? || pc.Writing? || pc.WriteReturn? || pc.Gone?
  }

  predicate Owes(p: Proc, published: bool) {
    && p.undo.mutex == HoldsMutex(p)
    && p.undo.readers == -Counted(p)
    && (!p.reader ==> p.undo.writers == HoldsToken(p) && WritersPc(p.pc))
    && (!published ==> p.undo.writers == 0)
    && (p.pc == Gone ==> p.undo == Sems(0, 0, 0))
  }

  /** The ledger: value plus all adjustments is the initial value. */
  ghost predicate Ledger(s: Lock) {
    && s.sems.mutex + Total(s.procs, UndoMutex) == 1
    && s.sems.readers + Total(s.procs, UndoReaders) == 0
    && s.sems.writers + Total(s.procs, UndoWriters) == One(s.published)
  }

  lemma Recount(ps: seq<Proc>, i: nat, p: Proc)
    requires i < |ps|
    ensures Total(ps[i := p], HoldsMutex) == Total(ps, HoldsMutex) - HoldsMutex(ps[i]) + HoldsMutex(p)
    ensures Total(ps[i := p], Counted) == Total(ps, Counted) - Counted(ps[i]) + Counted(p)
    ensures Total(ps[i := p], HoldsToken) == Total(ps, HoldsToken) - HoldsToken(ps[i]) + HoldsToken(p)
    ensures Total(ps[i := p], Opening) == Total(ps, Opening) - Opening(ps[i]) + Opening(p)
    ensures Total(ps[i := p], Closing) == Total(ps, Closing) - Closing(ps[i]) + Closing(p)
  {
    hide Total;
    TotalUpdate(ps, i, p, HoldsMutex);
    TotalUpdate(ps, i, p, Counted);
    TotalUpdate(ps, i, p, HoldsToken);
    TotalUpdate(ps, i, p, Opening);
    TotalUpdate(ps, i, p, Closing);
  }

  /** What process i's own program counter tells about the totals. */
  lemma OwnShare(s: Lock, i: nat)
    requires Shape(s) && i < |s.procs|
    ensures Total(s.procs, Opening) + Total(s.procs, Closing) + Total(s.procs, Settled) <= 1
    ensures Total(s.procs, Opening) >= Opening(s.procs[i]) && Total(s.procs, Closing) >= Closing(s.procs[i])
    ensures Total(s.procs, Settled) >= Settled(s.procs[i]) && Total(s.procs, Inside) >= Inside(s.procs[i])
    ensures Total(s.procs, HoldsToken) >= HoldsToken(s.procs[i])
    ensures Total(s.procs, Opening) >= 0 && Total(s.procs, Closing) >= 0 && Total(s.procs, Settled) >= 0
    ensures Total(s.procs, HoldsToken) >= 0 && Total(s.procs, Inside) >= 0
    ensures Total(s.procs, Counted) == Total(s.procs, Opening) + Total(s.procs, Inside)
    ensures Total(s.procs, HoldsMutex) == Total(s.procs, Opening) + Total(s.procs, Closing) + Total(s.procs, Settled)
  {
    hide Total;
    MutexSplit(s.procs);
    TotalAtLeast(s.procs, i, Opening);
    TotalAtLeast(s.procs, i, Closing);
    TotalAtLeast(s.procs, i, Settled);
    TotalAtLeast(s.procs, i, Inside);
    TotalAtLeast(s.procs, i, HoldsToken);
  }

  /** While one process holds the mutex no other is at a mutex-protected step. */
  lemma MutexAlone(s: Lock, i: nat, j: nat)
    requires Shape(s) && i < |s.procs| && j < |s.procs| && i != j && HoldsMutex(s.procs[i]) == 1
    ensures HoldsMutex(s.procs[j]) == 0
  {
    hide Total;
    TotalAtLeastTwo(s.procs, i, j, HoldsMutex);
  }

  lemma InitiallyInv(n: nat)
    ensures Inv(Created(n)) && UndoMatches(Created(n)) && Ledger(Created(n))
  {
    var ps := Created(n).procs;
    TotalZero(ps, HoldsMutex);
    TotalZero(ps, Counted);
    TotalZero(ps, HoldsToken);
    TotalZero(ps, Opening);
    TotalZero(ps, Closing);
    TotalZero(ps, UndoMutex);
    TotalZero(ps, UndoReaders);
    TotalZero(ps, UndoWriters);
  }

  /** The parts of Shape that are about totals. */
  ghost predicate Balanced(s: Lock) {
    && s.sems.NonNegative()
    && s.sems.mutex == 1 - Total(s.procs, HoldsMutex)
    && s.sems.readers == Total(s.procs, Counted)
  }

  lemma SemopKeepsBalance(s: Lock, i: nat)
    requires Shape(s) && i < |s.procs| && Can(s, i, Semop)
    ensures Balanced(Do(s, i, Semop)) && Surplus(Do(s, i, Semop)) == Surplus(s)
  {
    hide Total;
    var t := Do(s, i, Semop);
    Recount(s.procs, i, t.procs[i]);
    OwnShare(s, i);
  }

  lemma OtherStepKeepsBalance(s: Lock, i: nat, a: Action)
    requires Shape(s) && i < |s.procs| && Can(s, i, a) && (a.Call? || a.LeaveSection?)
    ensures Balanced(Do(s, i, a)) && Surplus(Do(s, i, a)) == Surplus(s)
  {
    hide Total;
    var t := Do(s, i, a);
    Recount(s.procs, i, t.procs[i]);
  }

  lemma ReadersChangeUnderMutex(s: Lock, i: nat)
    requires i < |s.procs| && Can(s, i, Semop)
    ensures HoldsMutex(s.procs[i]) == 1 || Do(s, i, Semop).sems.readers == s.sems.readers
  {
  }

  /** A step other than an exit neither makes nor loses a token. */
  lemma StepKeepsShape(s: Lock, i: nat, a: Action)
    requires Shape(s) && i < |s.procs| && Can(s, i, a) && a != Exit
    ensures Shape(Do(s, i, a)) && Surplus(Do(s, i, a)) == Surplus(s)
  {
    hide Total, Surplus;
    var t := Do(s, i, a);
    assert Balanced(t) && Surplus(t) == Surplus(s) by {
      if a == Semop {
        SemopKeepsBalance(s, i);
      } else {
        OtherStepKeepsBalance(s, i, a);
      }
    }
    forall j | 0 <= j < |t.procs| && j != i
      ensures t.procs[j].pc == ReadClaim ==> t.sems.readers == 1
      ensures t.procs[j].pc == LeaveReturn ==> t.sems.readers == 0
    {
      if a == Semop {
        ReadersChangeUnderMutex(s, i);
        if HoldsMutex(s.procs[i]) == 1 {
          MutexAlone(s, i, j);
        }
      }
    }
  }

  lemma StepKeepsInv(s: Lock, i: nat, a: Action)
    requires Inv(s) && i < |s.procs| && Can(s, i, a) && a != Exit
    ensures Inv(Do(s, i, a))
  {
    StepKeepsShape(s, i, a);
  }

  /** Before SETVAL there is no token to take and nobody has one to give back. */
  lemma GateShut(s: Lock, i: nat)
    requires Shape(s) && Surplus(s) <= 0 && !s.published && i < |s.procs|
    ensures s.sems.writers == 0 && s.procs[i].pc != LeaveReturn && s.procs[i].pc != WriteReturn
  {
    hide Total;
    OwnShare(s, i);
  }

  lemma SemopMovesMutexUndo(p: Proc, readers: int)
    requires AtSemop(p.pc)
    ensures HoldsMutex(p.(pc := After(p.pc, readers))) == HoldsMutex(p) - Delta(p.pc).mutex
  {
  }

  lemma SemopMovesReadersUndo(p: Proc, readers: int)
    requires AtSemop(p.pc)
    ensures Counted(p.(pc := After(p.pc, readers))) == Counted(p) + Delta(p.pc).readers
  {
  }

  lemma SemopMovesWritersUndo(p: Proc, readers: int)
    requires AtSemop(p.pc) && WritersPc(p.pc)
    ensures HoldsToken(p.(pc := After(p.pc, readers))) == HoldsToken(p) - Delta(p.pc).writers
    ensures WritersPc(After(p.pc, readers))
  {
  }

  lemma SemopStaysInLife(pc: Pc, readers: int)
    requires AtSemop(pc)
    ensures After(pc, readers) != Gone
    ensures Delta(pc).writers != 0 <==> pc == ReadClaim || pc == WriteClaim || pc == LeaveReturn || pc == WriteReturn
    ensures Delta(pc).writers < 0 <==> pc == ReadClaim || pc == WriteClaim
  {
  }

  lemma SemopKeepsOwes(p: Proc, readers: int, published: bool)
    requires AtSemop(p.pc) && Owes(p, published) && (!published ==> Delta(p.pc).writers == 0)
    ensures Owes(p.(pc := After(p.pc, readers), undo := p.undo.Minus(Delta(p.pc))), published)
  {
    hide Delta, After, AtSemop, WritersPc;
    SemopMovesMutexUndo(p, readers);
    SemopMovesReadersUndo(p, readers);
    SemopStaysInLife(p.pc, readers);
    if !p.reader {
      SemopMovesWritersUndo(p, readers);
    }
  }

  lemma StepKeepsOwes(s: Lock, i: nat, a: Action)
    requires i < |s.procs| && Can(s, i, a) && Owes(s.procs[i], s.published)
    requires !s.published ==> s.sems.writers == 0 && s.procs[i].pc != LeaveReturn && s.procs[i].pc != WriteReturn
    ensures Owes(Do(s, i, a).procs[i], s.published)
  {
    if a == Semop {
      hide After, Owes;
      SemopStaysInLife(s.procs[i].pc, s.sems.readers);
      SemopKeepsOwes(s.procs[i], s.sems.readers, s.published);
    } else {
    }
  }

  /** Adjustments keep matching through every step. The ledger stays balanced exactly when an exit is
      not cut short at zero. */
  lemma StepKeepsUndo(s: Lock, i: nat, a: Action)
    requires Shape(s) && Surplus(s) <= 0 && UndoMatches(s) && Ledger(s) && i < |s.procs| && Can(s, i, a)
    ensures UndoMatches(Do(s, i, a))
    ensures Ledger(Do(s, i, a)) <==> a != Exit || s.sems.writers + s.procs[i].undo.writers >= 0
  {
    hide Total, Delta, After, Owes;
    var t := Do(s, i, a);
    StepKeepsMatch(s, i, a);
    TotalUpdate(s.procs, i, t.procs[i], UndoMutex);
    TotalUpdate(s.procs, i, t.procs[i], UndoReaders);
    TotalUpdate(s.procs, i, t.procs[i], UndoWriters);
    if a == Exit {
      ExitReturnsOwn(s, i);
    }
  }

  lemma StepKeepsMatch(s: Lock, i: nat, a: Action)
    requires Shape(s) && Surplus(s) <= 0 && UndoMatches(s) && i < |s.procs| && Can(s, i, a)
    ensures UndoMatches(Do(s, i, a))
  {
    hide Total, Delta, After, Owes;
    if !s.published {
      GateShut(s, i);
    }
    StepKeepsOwes(s, i, a);
  }

  /** The mutex and the reader count an exit undoes are the process's own, so they are never cut short. */
  lemma ExitReturnsOwn(s: Lock, i: nat)
    requires Shape(s) && UndoMatches(s) && i < |s.procs|
    ensures s.sems.mutex + s.procs[i].undo.mutex >= 0 && s.sems.readers + s.procs[i].undo.readers >= 0
  {
    hide Total;
    TotalAtLeast(s.procs, i, Counted);
    assert Owes(s.procs[i], s.published);
  }

  lemma QuietStepKeeps(s: Lock, i: nat, a: Action)
    requires Inv(s) && UndoMatches(s) && Ledger(s) && i < |s.procs| && Can(s, i, a) && a != Exit
    ensures Inv(Do(s, i, a)) && UndoMatches(Do(s, i, a)) && Ledger(Do(s, i, a))
  {
    hide Shape, Surplus, UndoMatches, Ledger, Delta, After;
    StepKeepsShape(s, i, a);
    StepKeepsUndo(s, i, a);
  }

  lemma InvIsShape(s: Lock)
    requires Inv(s)
    ensures Shape(s) && Surplus(s) == 0
  {
  }

  lemma {:induction false} TotalAgree(ps: seq<Proc>, qs: seq<Proc>, f: Proc -> int)
    requires |ps| == |qs| && forall i :: 0 <= i < |ps| ==> f(ps[i]) == f(qs[i])
    ensures Total(ps, f) == Total(qs, f)
  {
    if ps == [] {
    } else {
      TotalAgree(ps[1..], qs[1..], f);
    }
  }

  /** SETVAL publishes one token, whatever was lost before. */
  lemma SetValKeepsShape(s: Lock)
    requires Shape(s) && Surplus(s) <= 0 && UndoMatches(s) && !s.published
    ensures Shape(SetVal(s)) && Surplus(SetVal(s)) == 0 && UndoMatches(SetVal(s))
  {
    hide Total;
    var t := SetVal(s);
    TotalAgree(s.procs, t.procs, HoldsMutex);
    TotalAgree(s.procs, t.procs, Counted);
    TotalAgree(s.procs, t.procs, HoldsToken);
    TotalAgree(s.procs, t.procs, Opening);
    TotalAgree(s.procs, t.procs, Closing);
    MutexSplit(s.procs);
  }

  lemma SetValKeepsInv(s: Lock)
    requires Inv(s) && UndoMatches(s) && Ledger(s) && !s.published
    ensures Inv(SetVal(s)) && UndoMatches(SetVal(s)) && Ledger(SetVal(s))
  {
    hide Total;
    SetValKeepsShape(s);
    var t := SetVal(s);
    TotalAgree(s.procs, t.procs, UndoMutex);
    TotalAgree(s.procs, t.procs, UndoReaders);
    TotalZero(t.procs, UndoWriters);
    GateTotals(s);
  }

  lemma GateTotals(s: Lock)
    requires Shape(s) && Surplus(s) <= 0 && !s.published
    ensures s.sems.writers == 0 && Total(s.procs, HoldsToken) == 0 && Group(s.procs) == 0
  {
    hide Total;
    MutexSplit(s.procs);
  }

  // ---- Exits ----

  /** The group's token, once process i is no longer there. */
  function GroupWithout(s: Lock, i: nat): int
    requires i < |s.procs|
  {
    Group(s.procs[i := s.procs[i].(pc := Gone, undo := Sems(0, 0, 0))])
  }

  /** The tokens that leave with process i: its own, and the group's if the group ends with it. */
  function Freed(s: Lock, i: nat): int
    requires i < |s.procs|
  {
    HoldsToken(s.procs[i]) + Group(s.procs) - GroupWithout(s, i)
  }

  /** The exit of process i would give back a token that is neither freed by it nor lost. */
  predicate Excess(s: Lock, i: nat)
    requires i < |s.procs|
  {
    s.procs[i].undo.writers > Freed(s, i) - Surplus(s)
  }

  lemma LeavingFrees(s: Lock, i: nat)
    requires Shape(s) && i < |s.procs|
    ensures Group(s.procs) >= GroupWithout(s, i)
  {
    hide Total;
    Recount(s.procs, i, s.procs[i].(pc := Gone, undo := Sems(0, 0, 0)));
    OwnShare(s, i);
  }

  /** What an exit leaves: the shape, and as many tokens as it gives back beyond those it frees. */
  lemma ExitKeepsShape(s: Lock, i: nat)
    requires Shape(s) && UndoMatches(s) && i < |s.procs| && Can(s, i, Exit)
    ensures Shape(Do(s, i, Exit))
    ensures Surplus(Do(s, i, Exit)) ==
            Surplus(s) - Freed(s, i) + AtLeastZero(s.sems.writers + s.procs[i].undo.writers) - s.sems.writers
  {
    hide Total, Owes;
    var t := Do(s, i, Exit);
    Recount(s.procs, i, t.procs[i]);
    OwnShare(s, i);
    ExitReturnsOwn(s, i);
    assert Owes(s.procs[i], s.published);
    OwesOwn(s.procs[i], s.published);
    forall j | 0 <= j < |t.procs| && j != i
      ensures t.procs[j].pc == ReadClaim ==> t.sems.readers == 1
      ensures t.procs[j].pc == LeaveReturn ==> t.sems.readers == 0
    {
      if t.procs[j].pc == ReadClaim {
        TotalAtLeastTwo(s.procs, i, j, Counted);
      }
    }
  }

  lemma OwesOwn(p: Proc, published: bool)
    requires Owes(p, published)
    ensures p.undo.mutex == HoldsMutex(p) && p.undo.readers == -Counted(p)
    ensures !p.reader ==> p.undo.writers == HoldsToken(p) && WritersPc(p.pc)
  {
  }

  /** An exit restores the lock completely exactly when what the kernel gives back is what is freed. */
  lemma ExitKeepsInvExactlyWhen(s: Lock, i: nat)
    requires Inv(s) && UndoMatches(s) && i < |s.procs| && Can(s, i, Exit)
    ensures Inv(Do(s, i, Exit)) <==>
            AtLeastZero(s.sems.writers + s.procs[i].undo.writers) - s.sems.writers == Freed(s, i)
  {
    ExitKeepsShape(s, i);
  }

  lemma WriterFreesOwn(s: Lock, i: nat)
    requires Shape(s) && UndoMatches(s) && i < |s.procs| && !s.procs[i].reader
    ensures s.procs[i].undo.writers == Freed(s, i) == HoldsToken(s.procs[i])
  {
    hide Total;
    assert Owes(s.procs[i], s.published);
    Recount(s.procs, i, s.procs[i].(pc := Gone, undo := Sems(0, 0, 0)));
  }

  lemma WriterExitKeepsInv(s: Lock, i: nat)
    requires Inv(s) && UndoMatches(s) && i < |s.procs| && Can(s, i, Exit) && !s.procs[i].reader
    ensures Inv(Do(s, i, Exit)) && s.sems.writers + s.procs[i].undo.writers >= 0
  {
    WriterFreesOwn(s, i);
    ExitKeepsInvExactlyWhen(s, i);
  }

  // ---- Runs ----

  datatype Step = By(i: nat, a: Action) | Publish

  predicate CanStep(s: Lock, e: Step) {
    match e
    case By(i, a) => i < |s.procs| && Can(s, i, a)
    case Publish => !s.published
  }

  function DoStep(s: Lock, e: Step): Lock
    requires CanStep(s, e)
  {
    match e
    case By(i, a) => Do(s, i, a)
    case Publish => SetVal(s)
  }

  /** Which exits a run may contain: none, those of processes that never called rwlock_read_lock,
      those that give back no excess token, or any. */
  datatype Exits = Never | Writers | Harmless | Any

  predicate Allowed(s: Lock, e: Step, exits: Exits)
    requires CanStep(s, e)
  {
    e.By? && e.a == Exit ==>
      match exits
      case Never => false
      case Writers => !s.procs[e.i].reader
      case Harmless => !Excess(s, e.i)
      case Any => true
  }

  /** `steps` leads from s to t. */
  ghost predicate Runs(s: Lock, steps: seq<Step>, t: Lock, exits: Exits)
    decreases |steps|
  {
    if steps == [] then s == t
    else
      && CanStep(s, steps[0])
      && Allowed(s, steps[0], exits)
      && Runs(DoStep(s, steps[0]), steps[1..], t, exits)
  }

  predicate HoldsRead(p: Proc) {
    p.pc.ReadOpen? || p.pc.Reading? || p.pc.LeaveEnter? || p.pc.LeaveCount?
  }

  predicate HoldsWrite(p: Proc) {
    p.pc.Writing? || p.pc.WriteReturn?
  }

  ghost predicate Exclusive(s: Lock) {
    forall i, j :: 0 <= i < |s.procs| && 0 <= j < |s.procs| && i != j && HoldsWrite(s.procs[i]) ==>
      !HoldsWrite(s.procs[j]) && !HoldsRead(s.procs[j])
  }

  ghost predicate NobodyInside(s: Lock) {
    forall i :: 0 <= i < |s.procs| ==> !HoldsWrite(s.procs[i]) && !HoldsRead(s.procs[i])
  }

  /** With no token too many locks exclude each other; with no token at all nobody holds one. */
  lemma NoSurplusExcludes(s: Lock)
    requires Shape(s) && Surplus(s) <= 0
    ensures Exclusive(s)
    ensures One(s.published) + Surplus(s) <= 0 ==> NobodyInside(s)
  {
    hide Total;
    forall i, j | 0 <= i < |s.procs| && 0 <= j < |s.procs| && i != j && HoldsWrite(s.procs[i])
      ensures !HoldsWrite(s.procs[j]) && !HoldsRead(s.procs[j])
    {
      TotalAtLeastTwo(s.procs, i, j, HoldsToken);
      OwnShare(s, j);
    }
    if One(s.published) + Surplus(s) <= 0 {
      forall i | 0 <= i < |s.procs|
        ensures !HoldsWrite(s.procs[i]) && !HoldsRead(s.procs[i])
      {
        OwnShare(s, i);
      }
    }
  }

  lemma InvExcludes(s: Lock)
    requires Inv(s)
    ensures Exclusive(s)
    ensures !s.published ==> NobodyInside(s)
  {
    NoSurplusExcludes(s);
  }

  lemma {:induction false} RunsKeepInv(s: Lock, steps: seq<Step>, t: Lock)
    requires Runs(s, steps, t, Writers) && Inv(s) && UndoMatches(s) && Ledger(s)
    ensures Inv(t) && UndoMatches(t) && Ledger(t)
    decreases |steps|
  {
    if steps == [] {
    } else {
      match steps[0] {
        case By(i, a) =>
          StepKeepsUndo(s, i, a);
          if a == Exit {
            WriterExitKeepsInv(s, i);
          } else {
            StepKeepsInv(s, i, a);
          }
        case Publish =>
          SetValKeepsInv(s);
      }
      RunsKeepInv(DoStep(s, steps[0]), steps[1..], t);
    }
  }

  /** From the state sem_create leaves, whatever any number of processes do, in any order, and
      whichever writers exit at any point: a write lock excludes every other lock, nobody holds
      either lock before SETVAL, and value plus adjustments stays at the initial value. */
  lemma LockIsSafe(n: nat, steps: seq<Step>, t: Lock)
    requires Runs(Created(n), steps, t, Writers)
    ensures Exclusive(t)
    ensures !t.published ==> NobodyInside(t)
    ensures Ledger(t)
  {
    InitiallyInv(n);
    RunsKeepInv(Created(n), steps, t);
    InvExcludes(t);
  }

  // ---- Which exits are harmless ----

  /** The shape, at most one token, and matching adjustments: what harmless exits keep. */
  ghost predicate Safe(s: Lock) {
    Shape(s) && Surplus(s) <= 0 && UndoMatches(s)
  }

  /** An exit leaves at most one token exactly when it gives back none in excess. */
  lemma ExitKeepsSafeExactlyWhen(s: Lock, i: nat)
    requires Safe(s) && i < |s.procs| && Can(s, i, Exit)
    ensures Safe(Do(s, i, Exit)) <==> !Excess(s, i)
    ensures Excess(s, i) ==> s.published
  {
    hide Total, Group, Owes;
    ExitKeepsShape(s, i);
    StepKeepsMatch(s, i, Exit);
    LeavingFrees(s, i);
    if !s.published {
      GateTotals(s);
      Unpublished(s, i);
    }
  }

  lemma Unpublished(s: Lock, i: nat)
    requires UndoMatches(s) && i < |s.procs| && !s.published
    ensures s.procs[i].undo.writers == 0
  {
    assert Owes(s.procs[i], s.published);
  }

  lemma {:induction false} HarmlessRunsKeepSafe(s: Lock, steps: seq<Step>, t: Lock)
    requires Runs(s, steps, t, Harmless) && Safe(s)
    ensures Safe(t)
    decreases |steps|
  {
    hide Surplus, Excess, UndoMatches, Shape;
    if steps == [] {
    } else {
      match steps[0] {
        case By(i, a) =>
          StepKeepsMatch(s, i, a);
          if a == Exit {
            ExitKeepsSafeExactlyWhen(s, i);
          } else {
            StepKeepsShape(s, i, a);
          }
        case Publish =>
          SetValKeepsShape(s);
      }
      HarmlessRunsKeepSafe(DoStep(s, steps[0]), steps[1..], t);
    }
  }

  /** Readers may exit too, as long as no exit gives back an excess token. */
  lemma LockSurvivesHarmlessExits(n: nat, steps: seq<Step>, t: Lock)
    requires Runs(Created(n), steps, t, Harmless)
    ensures Exclusive(t)
    ensures !t.published ==> NobodyInside(t)
  {
    InitiallyInv(n);
    HarmlessRunsKeepSafe(Created(n), steps, t);
    NoSurplusExcludes(t);
  }

  /** A writer's exit is harmless. */
  lemma WriterExitIsHarmless(s: Lock, i: nat)
    requires Safe(s) && i < |s.procs| && !s.procs[i].reader
    ensures !Excess(s, i)
  {
    WriterFreesOwn(s, i);
  }

  /** Once the token is lost nobody ever holds a lock again, until the next exit. */
  lemma LostTokenLocksOut(s: Lock, steps: seq<Step>, t: Lock)
    requires Shape(s) && Surplus(s) < 0 && s.published && Runs(s, steps, t, Never)
    ensures NobodyInside(t)
  {
    StepsKeepSurplus(s, steps, t);
    NoSurplusExcludes(t);
  }

  /** An exit that gives back less than it frees loses the token. */
  lemma DeficitExitLocksOut(s: Lock, i: nat, steps: seq<Step>, t: Lock)
    requires Inv(s) && UndoMatches(s) && s.published && i < |s.procs| && Can(s, i, Exit)
    requires AtLeastZero(s.sems.writers + s.procs[i].undo.writers) - s.sems.writers < Freed(s, i)
    requires Runs(Do(s, i, Exit), steps, t, Never)
    ensures NobodyInside(t)
  {
    hide Shape, Freed, Runs, NobodyInside, UndoMatches;
    ExitKeepsShape(s, i);
    LostTokenLocksOut(Do(s, i, Exit), steps, t);
  }

  /** Without exits no token is made or lost, and who has exited stays away. */
  lemma {:induction false} StepsKeepSurplus(s: Lock, steps: seq<Step>, t: Lock)
    requires Shape(s) && s.published && Runs(s, steps, t, Never)
    ensures Shape(t) && Surplus(t) == Surplus(s) && t.published && |t.procs| == |s.procs|
    ensures forall k :: 0 <= k < |s.procs| && s.procs[k].pc == Gone ==> t.procs[k].pc == Gone
    decreases |steps|
  {
    hide Surplus, Shape, Delta, After;
    if steps == [] {
    } else {
      var (i, a) := (steps[0].i, steps[0].a);
      StepKeepsShape(s, i, a);
      GoneStaysGone(s, i, a);
      StepsKeepSurplus(Do(s, i, a), steps[1..], t);
    }
  }

  lemma GoneStaysGone(s: Lock, i: nat, a: Action)
    requires i < |s.procs| && Can(s, i, a) && a != Exit
    ensures forall k :: 0 <= k < |s.procs| ==> (s.procs[k].pc == Gone <==> Do(s, i, a).procs[k].pc == Gone)
  {
    if a == Semop {
      SemopStaysInLife(s.procs[i].pc, s.sems.readers);
    }
  }

  /** At least two processes other than i have not exited. */
  ghost predicate TwoOthersLive(s: Lock, i: nat) {
    exists j, k :: Live(s, i, j) && Live(s, i, k) && j != k
  }

  predicate Live(s: Lock, i: nat, j: nat) {
    j < |s.procs| && j != i && s.procs[j].pc != Gone
  }

  /** The exact condition: after an exit, exclusion holds in every continuation without further exits
      if and only if the exit gave back no excess token or leaves fewer than two processes. */
  lemma ExitKeepsExclusionExactlyWhen(s: Lock, i: nat)
    requires Safe(s) && i < |s.procs| && Can(s, i, Exit)
    ensures (forall steps, t :: Runs(Do(s, i, Exit), steps, t, Never) ==> Exclusive(t)) <==>
            !Excess(s, i) || !TwoOthersLive(s, i)
  {
    hide Safe, Shape, Surplus, Excess, Runs, Exclusive;
    ExitKeepsSafeExactlyWhen(s, i);
    if !Excess(s, i) {
      forall steps, t | Runs(Do(s, i, Exit), steps, t, Never) ensures Exclusive(t) {
        SafeStaysExclusive(Do(s, i, Exit), steps, t);
      }
    } else if TwoOthersLive(s, i) {
      var j, k :| Live(s, i, j) && Live(s, i, k) && j != k;
      var steps, t := ExcessBreaksExclusion(s, i, j, k);
    } else {
      forall steps, t | Runs(Do(s, i, Exit), steps, t, Never) ensures Exclusive(t) {
        AloneIsExclusive(s, i, steps, t);
      }
    }
  }

  lemma SafeStaysExclusive(s: Lock, steps: seq<Step>, t: Lock)
    requires Safe(s) && Runs(s, steps, t, Never)
    ensures Exclusive(t)
  {
    NeverIsHarmless(s, steps, t);
    HarmlessRunsKeepSafe(s, steps, t);
    NoSurplusExcludes(t);
  }

  lemma {:induction false} NeverIsHarmless(s: Lock, steps: seq<Step>, t: Lock)
    requires Runs(s, steps, t, Never)
    ensures Runs(s, steps, t, Harmless)
    decreases |steps|
  {
    hide Excess;
    if steps == [] {
    } else {
      NeverIsHarmless(DoStep(s, steps[0]), steps[1..], t);
    }
  }

  lemma AloneIsExclusive(s: Lock, i: nat, steps: seq<Step>, t: Lock)
    requires Safe(s) && s.published && i < |s.procs| && Can(s, i, Exit) && !TwoOthersLive(s, i)
    requires Runs(Do(s, i, Exit), steps, t, Never)
    ensures Exclusive(t)
  {
    hide Surplus, Shape;
    ExitKeepsShape(s, i);
    StepsKeepSurplus(Do(s, i, Exit), steps, t);
    forall j, k | 0 <= j < |t.procs| && 0 <= k < |t.procs| && j != k && HoldsWrite(t.procs[j])
      ensures !HoldsWrite(t.procs[k]) && !HoldsRead(t.procs[k])
    {
      assert t.procs[i].pc == Gone;
      assert Live(s, i, j);
      assert !Live(s, i, k);
    }
  }

  /** With an excess token everybody can finish and then two writers walk in. */
  lemma ExcessBreaksExclusion(s: Lock, i: nat, j: nat, k: nat) returns (steps: seq<Step>, t: Lock)
    requires Safe(s) && i < |s.procs| && Can(s, i, Exit) && Excess(s, i)
    requires Live(s, i, j) && Live(s, i, k) && j != k
    ensures Runs(Do(s, i, Exit), steps, t, Never) && !Exclusive(t)
  {
    hide Shape, UndoMatches, Runs, Delta, After, Total;
    ExitKeepsSafeExactlyWhen(s, i);
    ExitKeepsShape(s, i);
    StepKeepsMatch(s, i, Exit);
    var s0 := Do(s, i, Exit);
    assert s0.published;
    var rest, idle := Drained(s0);
    IdleTokens(idle);
    steps, t := TwoWriters(s0, rest, idle, j, k);
  }

  /** Every process finishes its call. */
  lemma {:induction false} Drained(s: Lock) returns (steps: seq<Step>, t: Lock)
    requires Shape(s) && Surplus(s) >= 0 && s.published
    ensures Runs(s, steps, t, Never) && Shape(t) && Surplus(t) == Surplus(s) && t.published
    ensures |t.procs| == |s.procs|
    ensures forall k :: 0 <= k < |s.procs| ==> t.procs[k].pc == if s.procs[k].pc == Gone then Gone else Idle
    decreases Total(s.procs, StepsLeft)
  {
    hide Total, Surplus, Shape, Delta, After;
    TotalNonNegative(s.procs, StepsLeft);
    if forall k :: 0 <= k < |s.procs| ==> s.procs[k].pc == Gone || s.procs[k].pc == Idle {
      steps, t := [], s;
    } else {
      var k :| 0 <= k < |s.procs| && s.procs[k].pc != Gone && s.procs[k].pc != Idle;
      var i := SomebodyMoves(s, k);
      var a := if InSection(s.procs[i].pc) then LeaveSection else Semop;
      var s' := Do(s, i, a);
      StepKeepsShape(s, i, a);
      GoneStaysGone(s, i, a);
      StepShortens(s, i, a);
      TotalNonNegative(s'.procs, StepsLeft);
      var rest;
      rest, t := Drained(s');
      steps := [By(i, a)] + rest;
      assert steps[1..] == rest;
      assert DoStep(s, steps[0]) == s';
    }
  }

  function StepsLeft(p: Proc): int {
    PcLeft(p.pc)
  }

  lemma StepShortens(s: Lock, i: nat, a: Action)
    requires i < |s.procs| && Can(s, i, a) && (a == Semop || a == LeaveSection)
    ensures Total(Do(s, i, a).procs, StepsLeft) < Total(s.procs, StepsLeft)
  {
    hide Total;
    TotalUpdate(s.procs, i, Do(s, i, a).procs[i], StepsLeft);
  }

  lemma IdleTokens(s: Lock)
    requires Shape(s) && s.published
    requires forall k :: 0 <= k < |s.procs| ==> s.procs[k].pc == Gone || s.procs[k].pc == Idle
    ensures s.sems.writers == 1 + Surplus(s) && s.sems.NonNegative()
  {
    hide Total;
    TotalZero(s.procs, HoldsToken);
    TotalZero(s.procs, Opening);
    TotalZero(s.procs, Closing);
    TotalZero(s.procs, Counted);
  }

  lemma TwoWriters(s: Lock, before: seq<Step>, idle: Lock, j: nat, k: nat) returns (steps: seq<Step>, t: Lock)
    requires Runs(s, before, idle, Never) && idle.sems.NonNegative() && idle.sems.writers >= 2
    requires j < |idle.procs| && k < |idle.procs| && j != k
    requires idle.procs[j].pc == Idle && idle.procs[k].pc == Idle
    ensures Runs(s, steps, t, Never) && !Exclusive(t)
  {
    hide Runs;
    steps, t := WriterEnters(s, before, idle, j);
    steps, t := WriterEnters(s, steps, t, k);
    assert HoldsWrite(t.procs[j]) && HoldsWrite(t.procs[k]);
  }

  lemma WriterEnters(s: Lock, before: seq<Step>, u: Lock, j: nat) returns (steps: seq<Step>, t: Lock)
    requires Runs(s, before, u, Never) && u.sems.NonNegative() && u.sems.writers >= 1
    requires j < |u.procs| && u.procs[j].pc == Idle
    ensures Runs(s, steps, t, Never)
    ensures t.sems == u.sems.(writers := u.sems.writers - 1) && |t.procs| == |u.procs|
    ensures t.procs[j].pc == Writing && forall k :: 0 <= k < |u.procs| && k != j ==> t.procs[k] == u.procs[k]
  {
    hide Runs;
    var c := Do(u, j, Call(true));
    RunsExtend(s, before, u, By(j, Call(true)), Never);
    RunsExtend(s, before + [By(j, Call(true))], c, By(j, Semop), Never);
    steps, t := before + [By(j, Call(true))] + [By(j, Semop)], Do(c, j, Semop);
  }

  lemma {:induction false} RunsExtend(s: Lock, steps: seq<Step>, t: Lock, e: Step, exits: Exits)
    requires Runs(s, steps, t, exits) && CanStep(t, e) && Allowed(t, e, exits)
    ensures Runs(s, steps + [e], DoStep(t, e), exits)
    decreases |steps|
  {
    if steps == [] {
      assert Runs(DoStep(s, e), [], DoStep(t, e), exits);
      assert (steps + [e])[1..] == [];
    } else {
      RunsExtend(DoStep(s, steps[0]), steps[1..], t, e, exits);
      assert (steps + [e])[1..] == steps[1..] + [e];
    }
  }

  // ---- A reader's exit that breaks exclusion ----

  lemma Script(s: Lock, steps: seq<Step>, t: Lock, i: nat, a: Action) returns (steps': seq<Step>, t': Lock)
    requires Runs(s, steps, t, Any) && i < |t.procs| && Can(t, i, a)
    ensures t' == Do(t, i, a) && Runs(s, steps', t', Any)
  {
    steps', t' := steps + [By(i, a)], Do(t, i, a);
    RunsExtend(s, steps, t, By(i, a), Any);
  }

  /** A semop takes these semaphore values and this process to those. */
  predicate Ticks(sems: Sems, p: Proc, sems': Sems, p': Proc) {
    && AtSemop(p.pc)
    && sems' == sems.Plus(Delta(p.pc)) && sems'.NonNegative()
    && p' == p.(pc := After(p.pc, sems.readers), undo := p.undo.Minus(Delta(p.pc)))
  }

  lemma ScriptSemop(s: Lock, steps: seq<Step>, t: Lock, i: nat, sems: Sems, p: Proc)
    returns (steps': seq<Step>, t': Lock)
    requires Runs(s, steps, t, Any) && i < |t.procs| && Ticks(t.sems, t.procs[i], sems, p)
    ensures t' == t.(sems := sems, procs := t.procs[i := p]) && Runs(s, steps', t', Any)
  {
    steps', t' := Script(s, steps, t, i, Semop);
  }

  lemma ScriptOpen(n: nat) returns (steps: seq<Step>, t: Lock)
    ensures t == Lock(Sems(1, 0, 1), seq(n, _ => Proc(Idle, Sems(0, 0, 0), false)), true)
    ensures Runs(Created(n), steps, t, Any)
  {
    steps, t := [Publish], SetVal(Created(n));
    assert Runs(t, [], t, Any);
  }

  lemma ScriptCall(s: Lock, steps: seq<Step>, t: Lock, i: nat, p: Proc, write: bool, p': Proc)
    returns (steps': seq<Step>, t': Lock)
    requires Runs(s, steps, t, Any) && i < |t.procs| && t.procs[i] == p && p.pc == Idle
    requires p' == if write then p.(pc := WriteClaim) else p.(pc := ReadEnter, reader := true)
    ensures t' == t.(procs := t.procs[i := p']) && Runs(s, steps', t', Any)
  {
    steps', t' := Script(s, steps, t, i, Call(write));
  }

  function Fresh(): Proc { Proc(Idle, Sems(0, 0, 0), false) }

  function Reader(pc: Pc, mutex: int, readers: int, writers: int): Proc {
    Proc(pc, Sems(mutex, readers, writers), true)
  }

  lemma ReadEnterTicks(r: nat, w: nat)
    ensures Ticks(Sems(1, r, w), Reader(ReadEnter, 0, 0, 0), Sems(0, r, w), Reader(ReadCount, 1, 0, 0))
  {
  }

  lemma ReadCountTicks(r: nat, w: nat)
    ensures Ticks(Sems(0, r, w), Reader(ReadCount, 1, 0, 0), Sems(0, r + 1, w), Reader(ReadTest, 1, -1, 0))
  {
  }

  lemma ReadTestTicks(r: nat, w: nat)
    ensures Ticks(Sems(0, r, w), Reader(ReadTest, 1, -1, 0),
                  Sems(0, r, w), Reader(if r == 1 then ReadClaim else ReadOpen, 1, -1, 0))
  {
  }

  lemma ReadClaimTicks(r: nat)
    ensures Ticks(Sems(0, r, 1), Reader(ReadClaim, 1, -1, 0), Sems(0, r, 0), Reader(ReadOpen, 1, -1, 1))
  {
  }

  lemma ReadOpenTicks(r: nat, w: nat, token: int)
    ensures Ticks(Sems(0, r, w), Reader(ReadOpen, 1, -1, token), Sems(1, r, w), Reader(Reading, 0, -1, token))
  {
  }

  lemma WriteClaimTicks(r: nat)
    ensures Ticks(Sems(1, r, 1), Proc(WriteClaim, Sems(0, 0, 0), false),
                  Sems(1, r, 0), Proc(Writing, Sems(0, 0, 1), false))
  {
  }

  /** One reader comes in, as the first. */
  lemma FirstReaderInside() returns (steps: seq<Step>, t: Lock)
    ensures Runs(Created(3), steps, t, Any)
    ensures t == Lock(Sems(1, 1, 0), [Reader(Reading, 0, -1, 1), Fresh(), Fresh()], true)
  {
    hide Runs, Created, Ticks;
    var s := Created(3);
    ReadEnterTicks(0, 1); ReadCountTicks(0, 1); ReadTestTicks(1, 1); ReadClaimTicks(1); ReadOpenTicks(1, 0, 1);
    steps, t := ScriptOpen(3);
    steps, t := ScriptCall(s, steps, t, 0, Fresh(), false, Reader(ReadEnter, 0, 0, 0));
    steps, t := ScriptSemop(s, steps, t, 0, Sems(0, 0, 1), Reader(ReadCount, 1, 0, 0));
    steps, t := ScriptSemop(s, steps, t, 0, Sems(0, 1, 1), Reader(ReadTest, 1, -1, 0));
    steps, t := ScriptSemop(s, steps, t, 0, Sems(0, 1, 1), Reader(ReadClaim, 1, -1, 0));
    steps, t := ScriptSemop(s, steps, t, 0, Sems(0, 1, 0), Reader(ReadOpen, 1, -1, 1));
    steps, t := ScriptSemop(s, steps, t, 0, Sems(1, 1, 0), Reader(Reading, 0, -1, 1));
  }

  /** A second reader joins it. */
  lemma TwoReadersInside() returns (steps: seq<Step>, t: Lock)
    ensures Runs(Created(3), steps, t, Any)
    ensures t == Lock(Sems(1, 2, 0), [Reader(Reading, 0, -1, 1), Reader(Reading, 0, -1, 0), Fresh()], true)
  {
    hide Runs, Created, Ticks;
    var s := Created(3);
    ReadEnterTicks(1, 0); ReadCountTicks(1, 0); ReadTestTicks(2, 0); ReadOpenTicks(2, 0, 0);
    steps, t := FirstReaderInside();
    steps, t := ScriptCall(s, steps, t, 1, Fresh(), false, Reader(ReadEnter, 0, 0, 0));
    steps, t := ScriptSemop(s, steps, t, 1, Sems(0, 1, 0), Reader(ReadCount, 1, 0, 0));
    steps, t := ScriptSemop(s, steps, t, 1, Sems(0, 2, 0), Reader(ReadTest, 1, -1, 0));
    steps, t := ScriptSemop(s, steps, t, 1, Sems(0, 2, 0), Reader(ReadOpen, 1, -1, 0));
    steps, t := ScriptSemop(s, steps, t, 1, Sems(1, 2, 0), Reader(Reading, 0, -1, 0));
  }

  lemma FirstReaderExits(s: Lock, steps: seq<Step>, t: Lock) returns (steps': seq<Step>, t': Lock)
    requires Runs(s, steps, t, Any)
    requires t == Lock(Sems(1, 2, 0), [Reader(Reading, 0, -1, 1), Reader(Reading, 0, -1, 0), Fresh()], true)
    ensures t' == Lock(Sems(1, 1, 1), [Reader(Gone, 0, 0, 0), Reader(Reading, 0, -1, 0), Fresh()], true)
    ensures Runs(s, steps', t', Any)
  {
    hide Runs, Delta, After;
    steps', t' := Script(s, steps, t, 0, Exit);
  }

  lemma WriterWalksIn(s: Lock, steps: seq<Step>, t: Lock) returns (steps': seq<Step>, t': Lock)
    requires Runs(s, steps, t, Any)
    requires t == Lock(Sems(1, 1, 1), [Reader(Gone, 0, 0, 0), Reader(Reading, 0, -1, 0), Fresh()], true)
    ensures |t'.procs| == 3 && t'.procs[1].pc == Reading && t'.procs[2].pc == Writing
    ensures Runs(s, steps', t', Any)
  {
    hide Runs, Ticks;
    WriteClaimTicks(1);
    steps', t' := ScriptCall(s, steps, t, 2, Fresh(), true, Proc(WriteClaim, Sems(0, 0, 0), false));
    steps', t' := ScriptSemop(s, steps', t', 2, Sems(1, 1, 0), Proc(Writing, Sems(0, 0, 1), false));
  }

  /** The exclusion of LockIsSafe fails once a reader exits: the first reader's adjustment hands
      the token back while the second reader is still inside, and a writer walks in. */
  lemma ReaderExitBreaksExclusion() returns (steps: seq<Step>, t: Lock)
    ensures Runs(Created(3), steps, t, Any) && |t.procs| == 3
    ensures t.procs[1].pc == Reading && t.procs[2].pc == Writing && !Exclusive(t)
  {
    hide Runs, Created;
    var s := Created(3);
    steps, t := TwoReadersInside();
    steps, t := FirstReaderExits(s, steps, t);
    steps, t := WriterWalksIn(s, steps, t);
    assert HoldsWrite(t.procs[2]) && HoldsRead(t.procs[1]);
  }

  // ---- Progress ----

  /** P(readers) in rwlock_read_unlock never blocks. */
  lemma LeavingNeverBlocks(s: Lock, i: nat)
    requires Shape(s) && i < |s.procs| && s.procs[i].pc in {LeaveCount, LeaveTest, LeaveReturn, LeaveOpen, WriteReturn}
    ensures Can(s, i, Semop)
  {
    hide Total;
    TotalAtLeast(s.procs, i, Counted);
  }

  /** With the lock published and some process neither idle nor gone, a process inside a section or
      a semaphore call that does not block exists. The reader that waits for the token while it
      holds the mutex is let in by a writer, whose V(writers) needs no mutex. */
  lemma SomebodyMoves(s: Lock, k: nat) returns (i: nat)
    requires Shape(s) && Surplus(s) >= 0 && s.published && k < |s.procs| && s.procs[k].pc !in {Idle, Gone}
    ensures i < |s.procs| && (InSection(s.procs[i].pc) || Can(s, i, Semop))
  {
    hide Total;
    OwnShare(s, k);
    if Total(s.procs, HoldsToken) > 0 {
      i := TotalPositive(s.procs, HoldsToken);
    } else if s.sems.mutex == 0 {
      i := TotalPositive(s.procs, HoldsMutex);
      OwnShare(s, i);
    } else if s.sems.readers > 0 {
      i := TotalPositive(s.procs, Counted);
      TotalAtLeast(s.procs, i, HoldsMutex);
    } else {
      i := k;
    }
  }
}
