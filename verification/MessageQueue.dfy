/** The message ring of src/ipc.c: a bounded queue that drops its oldest message when full. */
module MessageQueue {
  import opened LockedRuns

  const MAX_MESSAGES := 100

  datatype Message = Message(kind: int, senderPid: int, timestamp: int, symbol: string, value: real, text: string)

  /** The MessageQueue struct, with every index inside its array. */
  datatype RawQueue = RawQueue(messages: seq<Message>, head: int, tail: int, count: int)

  predicate InBounds(q: RawQueue) {
    |q.messages| == MAX_MESSAGES && 0 <= q.head < MAX_MESSAGES && 0 <= q.tail < MAX_MESSAGES
    && 0 <= q.count <= MAX_MESSAGES
  }

  function Zeroed(): RawQueue {
    RawQueue(seq(MAX_MESSAGES, _ => Message(0, 0, 0, "", 0.0, "")), 0, 0, 0)
  }

  type Queue = q: RawQueue | InBounds(q) witness Zeroed()

  /** The queued messages, oldest first. */
  function Contents(q: Queue): seq<Message> {
    seq(q.count, k requires 0 <= k < q.count => q.messages[Slot(q.head, k)])
  }

  function Slot(head: int, k: int): (slot: int)
    ensures 0 <= slot < MAX_MESSAGES
  {
    (head + k) % MAX_MESSAGES
  }

  predicate Linked(q: Queue) {
    q.tail == Slot(q.head, q.count)
  }

  // ---- What the operations mean ----

  /** Sending drops the oldest message exactly when the queue is full. */
  function Push(c: seq<Message>, m: Message): (r: seq<Message>)
    ensures |c| <= MAX_MESSAGES ==> |r| <= MAX_MESSAGES
  {
    (if |c| >= MAX_MESSAGES then c[1..] else c) + [m]
  }

  // ---- The ring ----

  function DropHead(q: Queue): (r: Queue)
    requires q.count > 0
  {
    q.(head := (q.head + 1) % MAX_MESSAGES, count := q.count - 1)
  }

  function Store(q: Queue, m: Message): Queue
    requires q.count < MAX_MESSAGES
  {
    q.(messages := q.messages[q.tail := m], tail := (q.tail + 1) % MAX_MESSAGES, count := q.count + 1)
  }

  function Sent(q: Queue, m: Message): Queue {
    Store(if q.count >= MAX_MESSAGES then DropHead(q) else q, m)
  }

  lemma NextSlot(head: int, k: int)
    requires 0 <= head < MAX_MESSAGES && 0 <= k
    ensures Slot((head + 1) % MAX_MESSAGES, k) == Slot(head, k + 1)
  {
  }

  lemma SlotsDiffer(head: int, count: int)
    requires 0 <= head < MAX_MESSAGES && 0 <= count < MAX_MESSAGES
    ensures forall k :: 0 <= k < count ==> Slot(head, k) != Slot(head, count)
    ensures (Slot(head, count) + 1) % MAX_MESSAGES == Slot(head, count + 1)
  {
  }

  lemma FirstSlot(head: int)
    requires 0 <= head < MAX_MESSAGES
    ensures Slot(head, 0) == head
  {
  }

  lemma DropHeadDropsOldest(q: Queue)
    requires Linked(q) && q.count > 0
    ensures Linked(DropHead(q)) && Contents(DropHead(q)) == Contents(q)[1..]
    ensures q.messages[q.head] == Contents(q)[0]
  {
    hide Slot;
    var r := DropHead(q);
    FirstSlot(q.head);
    NextSlot(q.head, r.count);
    forall k | 0 <= k < r.count ensures Contents(r)[k] == Contents(q)[1..][k] {
      NextSlot(q.head, k);
    }
  }

  lemma StoreAppends(q: Queue, m: Message)
    requires Linked(q) && q.count < MAX_MESSAGES
    ensures Linked(Store(q, m)) && Contents(Store(q, m)) == Contents(q) + [m]
  {
    hide Slot;
    var r := Store(q, m);
    SlotsDiffer(q.head, q.count);
    forall k | 0 <= k < r.count ensures Contents(r)[k] == (Contents(q) + [m])[k] {
      if k < q.count {
        assert Slot(q.head, k) != q.tail;
      }
    }
  }

  lemma SentPushes(q: Queue, m: Message)
    requires Linked(q)
    ensures Linked(Sent(q, m)) && Contents(Sent(q, m)) == Push(Contents(q), m)
  {
    if q.count >= MAX_MESSAGES {
      DropHeadDropsOldest(q);
      StoreAppends(DropHead(q), m);
    } else {
      StoreAppends(q, m);
    }
  }

  /** The functions of src/ipc.c on the ring in place, without the lock around them. */
  class MessageRing {
    var messages: array<Message>
    var head: int
    var tail: int
    var count: int

    ghost predicate Valid()
      reads this, messages
    {
      InBounds(RawQueue(messages[..], head, tail, count)) && tail == Slot(head, count)
    }

    ghost function Queued(): seq<Message>
      reads this, messages
      requires Valid()
    {
      Contents(RawQueue(messages[..], head, tail, count))
    }

    constructor ()
      ensures Valid() && fresh(messages) && Queued() == []
    {
      messages := new Message[MAX_MESSAGES](_ => Message(0, 0, 0, "", 0.0, ""));
      head, tail, count := 0, 0, 0;
    }

    method Send(m: Message)
      requires Valid()
      modifies this, messages
      ensures Valid() && messages == old(messages)
      ensures Queued() == Push(old(Queued()), m)
    {
      ghost var before: Queue := RawQueue(messages[..], head, tail, count);
      if count >= MAX_MESSAGES {
        head := (head + 1) % MAX_MESSAGES;
        count := count - 1;
      }
      messages[tail] := m;
      tail := (tail + 1) % MAX_MESSAGES;
      count := count + 1;
      SentPushes(before, m);
      assert RawQueue(messages[..], head, tail, count) == Sent(before, m);
    }

    method Receive() returns (code: int, m: Message)
      requires Valid()
      modifies this
      ensures Valid() && messages == old(messages)
      ensures code == -1 <==> old(Queued()) == []
      ensures code == -1 ==> Queued() == []
      ensures code != -1 ==> code == 0 && [m] + Queued() == old(Queued())
    {
      m := messages[head];
      if count == 0 {
        return -1, m;
      }
      DropHeadDropsOldest(RawQueue(messages[..], head, tail, count));
      head := (head + 1) % MAX_MESSAGES;
      count := count - 1;
      code := 0;
    }

    method Peek() returns (code: int, m: Message)
      requires Valid()
      ensures code == -1 <==> Queued() == []
      ensures code != -1 ==> code == 0 && m == Queued()[0]
    {
      m := messages[head];
      code := if count == 0 then -1 else 0;
    }

    method Count() returns (n: int)
      requires Valid()
      ensures n == |Queued()|
    {
      n := count;
    }

    method Clear()
      requires Valid()
      modifies this
      ensures Valid() && messages == old(messages) && Queued() == []
    {
      head := 0;
      tail := 0;
      count := 0;
    }
  }

  // ---- Whole runs ----

  datatype Act = Send(m: Message) | Receive | Clear

  /** The ring, everything sent to it, everything received from it, and what the drop branch and the
      clears discarded. */
  datatype Trace = Trace(
    queue: Queue, sent: seq<Message>, received: seq<Message>, dropped: seq<Message>, cleared: seq<Message>)

  function Perform(t: Trace, a: Act): Trace {
    match a
    case Send(m) =>
      Trace(Sent(t.queue, m), t.sent + [m], t.received,
            if t.queue.count >= MAX_MESSAGES then t.dropped + [t.queue.messages[t.queue.head]] else t.dropped,
            t.cleared)
    case Receive =>
      if t.queue.count == 0 then t
      else t.(queue := DropHead(t.queue), received := t.received + [t.queue.messages[t.queue.head]])
    case Clear =>
      t.(queue := t.queue.(head := 0, tail := 0, count := 0), cleared := t.cleared + Contents(t.queue))
  }

  function Run(q: Queue, acts: seq<Act>): Trace {
    if acts == [] then Trace(q, [], [], [], []) else Perform(Run(q, acts[..|acts| - 1]), acts[|acts| - 1])
  }

  lemma RunNext(q: Queue, acts: seq<Act>, a: Act)
    ensures Run(q, acts + [a]) == Perform(Run(q, acts), a)
  {
    hide Perform;
    assert (acts + [a])[..|acts|] == acts;
  }

  datatype Fate = Received | Dropped | Cleared

  /** The messages with one fate, in the order in which they were sent. */
  function Select(sent: seq<Message>, fates: seq<Fate>, f: Fate): seq<Message>
    requires |fates| <= |sent|
  {
    if fates == [] then []
    else
      var k := |fates| - 1;
      Select(sent, fates[..k], f) + if fates[k] == f then [sent[k]] else []
  }

  /** The first messages sent have left the queue with one fate each; the rest is the queue. */
  ghost predicate Books(sent: seq<Message>, received: seq<Message>, dropped: seq<Message>, cleared: seq<Message>,
                        queue: seq<Message>, fates: seq<Fate>) {
    && |fates| <= |sent| && queue == sent[|fates|..]
    && received == Select(sent, fates, Received)
    && dropped == Select(sent, fates, Dropped)
    && cleared == Select(sent, fates, Cleared)
  }

  /** Every message that has left the queue has one fate, in order of sending; the rest is queued. */
  ghost predicate Accounts(t: Trace, fates: seq<Fate>) {
    Linked(t.queue) && Books(t.sent, t.received, t.dropped, t.cleared, Contents(t.queue), fates)
  }

  lemma {:induction false} SelectIgnoresLaterSends(sent: seq<Message>, m: Message, fates: seq<Fate>, f: Fate)
    requires |fates| <= |sent|
    ensures Select(sent + [m], fates, f) == Select(sent, fates, f)
  {
    if fates == [] {
    } else {
      SelectIgnoresLaterSends(sent, m, fates[..|fates| - 1], f);
    }
  }

  lemma SelectAppend(sent: seq<Message>, fates: seq<Fate>, x: Fate, f: Fate)
    requires |fates| < |sent|
    ensures Select(sent, fates + [x], f) == Select(sent, fates, f) + if x == f then [sent[|fates|]] else []
  {
    assert (fates + [x])[..|fates|] == fates;
  }

  lemma {:induction false} SelectClearedAll(sent: seq<Message>, fates: seq<Fate>, n: nat, f: Fate)
    requires |fates| + n <= |sent|
    ensures Select(sent, fates + seq(n, _ => Cleared), f) ==
            Select(sent, fates, f) + if f == Cleared then sent[|fates|..|fates| + n] else []
  {
    hide Select;
    if n == 0 {
      assert fates + seq(n, _ => Cleared) == fates;
    } else {
      var shorter := fates + seq(n - 1, _ => Cleared);
      assert fates + seq(n, _ => Cleared) == shorter + [Cleared];
      SelectAppend(sent, shorter, Cleared, f);
      SelectClearedAll(sent, fates, n - 1, f);
      assert f == Cleared ==> sent[|fates|..|fates| + n] == sent[|fates|..|fates| + n - 1] + [sent[|fates| + n - 1]];
    }
  }

  lemma BooksAfterSend(sent: seq<Message>, received: seq<Message>, dropped: seq<Message>, cleared: seq<Message>,
                       queue: seq<Message>, fates: seq<Fate>, m: Message)
    requires Books(sent, received, dropped, cleared, queue, fates)
    ensures Books(sent + [m], received, dropped, cleared, queue + [m], fates)
  {
    hide Select;
    SelectIgnoresLaterSends(sent, m, fates, Received);
    SelectIgnoresLaterSends(sent, m, fates, Dropped);
    SelectIgnoresLaterSends(sent, m, fates, Cleared);
  }

  /** The oldest queued message leaves, received or dropped. */
  lemma BooksAfterLeaving(sent: seq<Message>, received: seq<Message>, dropped: seq<Message>, cleared: seq<Message>,
                          queue: seq<Message>, fates: seq<Fate>, x: Fate)
    requires Books(sent, received, dropped, cleared, queue, fates) && queue != [] && x != Cleared
    ensures Books(sent, if x == Received then received + [queue[0]] else received,
                  if x == Dropped then dropped + [queue[0]] else dropped, cleared, queue[1..], fates + [x])
  {
    hide Select;
    SelectAppend(sent, fates, x, Received);
    SelectAppend(sent, fates, x, Dropped);
    SelectAppend(sent, fates, x, Cleared);
  }

  lemma BooksAfterClear(sent: seq<Message>, received: seq<Message>, dropped: seq<Message>, cleared: seq<Message>,
                        queue: seq<Message>, fates: seq<Fate>)
    requires Books(sent, received, dropped, cleared, queue, fates)
    ensures Books(sent, received, dropped, cleared + queue, [], fates + seq(|queue|, _ => Cleared))
  {
    hide Select;
    SelectClearedAll(sent, fates, |queue|, Received);
    SelectClearedAll(sent, fates, |queue|, Dropped);
    SelectClearedAll(sent, fates, |queue|, Cleared);
  }

  lemma ClearedIsEmpty(q: Queue)
    ensures Linked(q.(head := 0, tail := 0, count := 0)) && Contents(q.(head := 0, tail := 0, count := 0)) == []
    ensures |Contents(q)| == q.count
  {
  }

  /** Each operation seals the fate of the oldest messages only; it drops one only when the ring is full. */
  lemma PerformAccounts(t: Trace, a: Act, fates: seq<Fate>) returns (fates': seq<Fate>)
    requires Accounts(t, fates)
    ensures Accounts(Perform(t, a), fates') && fates <= fates'
    ensures a.Send? ==> fates' == fates + if t.queue.count >= MAX_MESSAGES then [Dropped] else []
    ensures a.Receive? ==> fates' == fates + if t.queue.count > 0 then [Received] else []
    ensures a.Clear? ==> fates' == fates + seq(t.queue.count, _ => Cleared)
  {
    hide Books, Contents, Linked, Sent, DropHead;
    var c := Contents(t.queue);
    ClearedIsEmpty(t.queue);
    match a {
      case Send(m) =>
        SentPushes(t.queue, m);
        if t.queue.count >= MAX_MESSAGES {
          DropHeadDropsOldest(t.queue);
          BooksAfterLeaving(t.sent, t.received, t.dropped, t.cleared, c, fates, Dropped);
          fates' := fates + [Dropped];
          BooksAfterSend(t.sent, t.received, t.dropped + [c[0]], t.cleared, c[1..], fates', m);
        } else {
          fates' := fates;
          assert fates + [] == fates;
          BooksAfterSend(t.sent, t.received, t.dropped, t.cleared, c, fates, m);
        }
      case Receive =>
        if t.queue.count == 0 {
          fates' := fates;
          assert fates + [] == fates;
        } else {
          DropHeadDropsOldest(t.queue);
          BooksAfterLeaving(t.sent, t.received, t.dropped, t.cleared, c, fates, Received);
          fates' := fates + [Received];
        }
      case Clear =>
        BooksAfterClear(t.sent, t.received, t.dropped, t.cleared, c, fates);
        fates' := fates + seq(t.queue.count, _ => Cleared);
    }
  }

  lemma EmptyAccounts(q: Queue)
    requires Linked(q) && q.count == 0
    ensures Accounts(Run(q, []), [])
  {
  }

  lemma {:induction false} RunAccounts(q: Queue, acts: seq<Act>) returns (fates: seq<Fate>)
    requires Linked(q) && q.count == 0
    ensures Accounts(Run(q, acts), fates)
  {
    if acts == [] {
      fates := [];
      EmptyAccounts(q);
    } else {
      hide Accounts;
      fates := RunAccounts(q, acts[..|acts| - 1]);
      fates := PerformAccounts(Run(q, acts[..|acts| - 1]), acts[|acts| - 1], fates);
    }
  }

  lemma {:induction false} FatesPartition(sent: seq<Message>, fates: seq<Fate>)
    requires |fates| <= |sent|
    ensures |Select(sent, fates, Received)| + |Select(sent, fates, Dropped)| + |Select(sent, fates, Cleared)| == |fates|
  {
    if fates == [] {
    } else {
      FatesPartition(sent, fates[..|fates| - 1]);
    }
  }

  /** Over any run of sends, receives and clears from an empty ring: the received messages are a
      subsequence of the sent log, the queue is the end of that log, and every message sent has been
      received, dropped or cleared, or is queued. */
  lemma NothingIsLost(q: Queue, acts: seq<Act>) returns (fates: seq<Fate>)
    requires Linked(q) && q.count == 0
    ensures Accounts(Run(q, acts), fates)
    ensures var t := Run(q, acts); |t.sent| == |t.received| + |t.dropped| + |t.cleared| + t.queue.count
  {
    fates := RunAccounts(q, acts);
    FatesPartition(Run(q, acts).sent, fates);
    ClearedIsEmpty(Run(q, acts).queue);
  }

  /** The queue never reaches back past the last clear: it holds messages sent since. */
  lemma ClearForgets(q: Queue, before: seq<Act>, after: seq<Act>)
    requires Linked(q) && q.count == 0
    ensures var t := Run(q, before + [Clear] + after);
            && Run(q, before).sent <= t.sent
            && |Contents(t.queue)| <= |t.sent| - |Run(q, before).sent|
            && Contents(t.queue) == t.sent[|t.sent| - |Contents(t.queue)|..]
  {
    ClearEmpties(q, before, after);
    var fates := RunAccounts(q, before + [Clear] + after);
  }

  lemma {:induction false} ClearEmpties(q: Queue, before: seq<Act>, after: seq<Act>)
    ensures var t := Run(q, before + [Clear] + after);
            Run(q, before).sent <= t.sent && t.queue.count <= |t.sent| - |Run(q, before).sent|
    decreases |after|
  {
    if after == [] {
      assert before + [Clear] + after == before + [Clear];
      assert (before + [Clear])[..|before|] == before;
    } else {
      var shorter := after[..|after| - 1];
      assert before + [Clear] + after == (before + [Clear] + shorter) + [after[|after| - 1]];
      assert (before + [Clear] + after)[..|before + [Clear] + after| - 1] == before + [Clear] + shorter;
      ClearEmpties(q, before, shorter);
    }
  }

  // ---- The bodies, one assignment at a time ----

  datatype Op = SendOp(m: Message) | ReceiveOp | PeekOp | CountOp | ClearOp

  datatype Answer = Code(code: int) | Got(m: Message) | Void

  /** The next step of a body; the fields are the C function's variables. */
  datatype Local =
    | SendTest(m: Message)
    | SendDropHead(m: Message)
    | SendDropCount(m: Message)
    | SendCopy(m: Message)
    | SendTail
    | SendCount
    | ReceiveTest
    | ReceiveCopy
    | ReceiveHead(m: Message)
    | ReceiveCount(m: Message)
    | PeekTest
    | PeekCopy
    | CountRead
    | ClearHead
    | ClearTail
    | ClearCount
    | Done(write: bool, answer: Answer)

  function Start(op: Op): Local {
    match op
    case SendOp(m) => SendTest(m)
    case ReceiveOp => ReceiveTest
    case PeekOp => PeekTest
    case CountOp => CountRead
    case ClearOp => ClearHead
  }

  predicate Writes(l: Local) {
    match l
    case PeekTest | PeekCopy | CountRead => false
    case Done(write, _) => write
    case _ => true
  }

  function Rank(l: Local): nat {
    match l
    case SendTest(_) => 6
    case SendDropHead(_) => 5
    case SendDropCount(_) | ReceiveTest => 4
    case SendCopy(_) | ReceiveCopy | ClearHead => 3
    case SendTail | ReceiveHead(_) | ClearTail | PeekTest => 2
    case SendCount | ReceiveCount(_) | ClearCount | PeekCopy | CountRead => 1
    case Done(_, _) => 0
  }

  /** One step. The guards on `count` hold whenever these steps are reached from a linked queue;
      they only make the step total. */
  function Step(l: Local, q: Queue): (Local, Queue) {
    match l
    case SendTest(m) => (if q.count >= MAX_MESSAGES then SendDropHead(m) else SendCopy(m), q)
    case SendDropHead(m) => (SendDropCount(m), q.(head := (q.head + 1) % MAX_MESSAGES))
    case SendDropCount(m) => (SendCopy(m), if q.count > 0 then q.(count := q.count - 1) else q)
    case SendCopy(m) => (SendTail, q.(messages := q.messages[q.tail := m]))
    case SendTail => (SendCount, q.(tail := (q.tail + 1) % MAX_MESSAGES))
    case SendCount => (Done(true, Code(0)), if q.count < MAX_MESSAGES then q.(count := q.count + 1) else q)
    case ReceiveTest => (if q.count == 0 then Done(true, Code(-1)) else ReceiveCopy, q)
    case ReceiveCopy => (ReceiveHead(q.messages[q.head]), q)
    case ReceiveHead(m) => (ReceiveCount(m), q.(head := (q.head + 1) % MAX_MESSAGES))
    case ReceiveCount(m) => (Done(true, Got(m)), if q.count > 0 then q.(count := q.count - 1) else q)
    case PeekTest => (if q.count == 0 then Done(false, Code(-1)) else PeekCopy, q)
    case PeekCopy => (Done(false, Got(q.messages[q.head])), q)
    case CountRead => (Done(false, Code(q.count)), q)
    case ClearHead => (ClearTail, q.(head := 0))
    case ClearTail => (ClearCount, q.(tail := 0))
    case ClearCount => (Done(true, Void), q.(count := 0))
    case Done(_, _) => (l, q)
  }

  function Bodies(): Program<Op, Local, Queue> {
    Program(Start, Step, (l: Local) => l.Done?, Writes, Rank)
  }

  lemma StepDescends(l: Local, q: Queue)
    requires !l.Done?
    ensures Rank(Step(l, q).0) < Rank(l)
  {
  }

  lemma StepKeepsKind(l: Local, q: Queue)
    ensures Writes(Step(l, q).0) == Writes(l)
    ensures !Writes(l) ==> Step(l, q).1 == q
  {
  }

  lemma BodiesWellFormed()
    ensures Bodies().WellFormed()
  {
    hide Step, Rank, Writes;
    forall l: Local, q: Queue
      ensures !l.Done? ==> Rank(Step(l, q).0) < Rank(l)
      ensures Writes(Step(l, q).0) == Writes(l)
      ensures !Writes(l) ==> Step(l, q).1 == q
    {
      if !l.Done? {
        StepDescends(l, q);
      }
      StepKeepsKind(l, q);
    }
  }

  /** The queue after the operation, and its answer. */
  function Meaning(op: Op, c: seq<Message>): (seq<Message>, Answer) {
    match op
    case SendOp(m) => (Push(c, m), Code(0))
    case ReceiveOp => if c == [] then (c, Code(-1)) else (c[1..], Got(c[0]))
    case PeekOp => (c, if c == [] then Code(-1) else Got(c[0]))
    case CountOp => (c, Code(|c|))
    case ClearOp => ([], Void)
  }

  lemma Steps(l: Local, q: Queue)
    requires Bodies().WellFormed()
    ensures Bodies().Finish(l, q) == if l.Done? then (l, q) else Bodies().Finish(Step(l, q).0, Step(l, q).1)
  {
    Bodies().FinishStep(l, q);
  }

  lemma SendFinishes(q: Queue, m: Message)
    requires Bodies().WellFormed()
    ensures Bodies().Finish(SendTest(m), q) == (Done(true, Code(0)), Sent(q, m))
  {
    hide Program.WellFormed, Program.Finish;
    var d := if q.count >= MAX_MESSAGES then DropHead(q) else q;
    var d1 := d.(messages := d.messages[d.tail := m]);
    var d2 := d1.(tail := (d1.tail + 1) % MAX_MESSAGES);
    Steps(SendTest(m), q);
    Steps(SendDropHead(m), q);
    Steps(SendDropCount(m), q.(head := (q.head + 1) % MAX_MESSAGES));
    Steps(SendCopy(m), d);
    Steps(SendTail, d1);
    Steps(SendCount, d2);
    Steps(Done(true, Code(0)), Sent(q, m));
  }

  lemma ReceiveFinishes(q: Queue)
    requires Bodies().WellFormed()
    ensures Bodies().Finish(ReceiveTest, q) ==
            if q.count == 0 then (Done(true, Code(-1)), q)
            else (Done(true, Got(q.messages[q.head])), DropHead(q))
  {
    hide Program.WellFormed, Program.Finish;
    Steps(ReceiveTest, q);
    if q.count == 0 {
      Steps(Done(true, Code(-1)), q);
    } else {
      Steps(ReceiveCopy, q);
      RemovalFinishes(q, q.messages[q.head]);
    }
  }

  lemma RemovalFinishes(q: Queue, m: Message)
    requires Bodies().WellFormed() && q.count > 0
    ensures Bodies().Finish(ReceiveHead(m), q) == (Done(true, Got(m)), DropHead(q))
  {
    hide Program.WellFormed, Program.Finish;
    Steps(ReceiveHead(m), q);
    Steps(ReceiveCount(m), q.(head := (q.head + 1) % MAX_MESSAGES));
    Steps(Done(true, Got(m)), DropHead(q));
  }

  lemma PeekFinishes(q: Queue)
    requires Bodies().WellFormed()
    ensures Bodies().Finish(PeekTest, q) ==
            (Done(false, if q.count == 0 then Code(-1) else Got(q.messages[q.head])), q)
  {
    hide Program.WellFormed, Program.Finish;
    Steps(PeekTest, q);
    if q.count == 0 {
      Steps(Done(false, Code(-1)), q);
    } else {
      Steps(PeekCopy, q);
      Steps(Done(false, Got(q.messages[q.head])), q);
    }
  }

  lemma CountFinishes(q: Queue)
    requires Bodies().WellFormed()
    ensures Bodies().Finish(CountRead, q) == (Done(false, Code(q.count)), q)
  {
    hide Program.WellFormed, Program.Finish;
    Steps(CountRead, q);
    Steps(Done(false, Code(q.count)), q);
  }

  lemma ClearFinishes(q: Queue)
    requires Bodies().WellFormed()
    ensures Bodies().Finish(ClearHead, q) == (Done(true, Void), q.(head := 0, tail := 0, count := 0))
  {
    hide Program.WellFormed, Program.Finish;
    Steps(ClearHead, q);
    Steps(ClearTail, q.(head := 0));
    Steps(ClearCount, q.(head := 0, tail := 0));
    Steps(Done(true, Void), q.(head := 0, tail := 0, count := 0));
  }

  /** A body run to its end does to a linked ring what the operation does to a queue. */
  lemma BodiesMean(op: Op, q: Queue)
    requires Linked(q)
    ensures Bodies().WellFormed()
    ensures var (l, r) := Bodies().Atomic(op, q);
            && Linked(r)
            && Contents(r) == Meaning(op, Contents(q)).0
            && l == Done(Writes(Start(op)), Meaning(op, Contents(q)).1)
  {
    BodiesWellFormed();
    hide Program.WellFormed, Program.Finish;
    match op {
      case SendOp(m) =>
        SendFinishes(q, m);
        SentPushes(q, m);
      case ReceiveOp =>
        ReceiveFinishes(q);
        if q.count > 0 {
          DropHeadDropsOldest(q);
        }
      case PeekOp =>
        PeekFinishes(q);
        if q.count > 0 {
          DropHeadDropsOldest(q);
        }
      case CountOp =>
        CountFinishes(q);
      case ClearOp =>
        ClearFinishes(q);
    }
  }
}
