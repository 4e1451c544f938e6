/** The shared stock table of src/ipc.c: a bounded table in order of insertion, searched by symbol. */
module StockTable {
  import opened Wrappers
  import opened SlotArrays
  import opened LockedRuns

  const MAX_SHARED_STOCKS := 50
  const SYMBOL_SIZE := 15

  /** What fits in a char[16] with its terminator. */
  type Symbol = s: string | |s| <= SYMBOL_SIZE

  datatype Stock = Stock(
    symbol: Symbol, name: string,
    price: real, previousClose: real, change: real, changePercent: real, high: real, low: real, openPrice: real,
    lastUpdate: int, valid: int, workerPid: int)

  /** What strncpy keeps of a symbol. */
  function Stored(symbol: string): Symbol {
    if |symbol| <= SYMBOL_SIZE then symbol else symbol[..SYMBOL_SIZE]
  }

  function Zero(): Stock {
    Stock("", "", 0.0, 0.0, 0.0, 0.0, 0.0, 0.0, 0.0, 0, 0, 0)
  }

  function Blank(symbol: string): Stock {
    Zero().(symbol := Stored(symbol))
  }

  datatype RawTable = RawTable(stocks: seq<Stock>, count: int)

  predicate InBounds(t: RawTable) {
    |t.stocks| == MAX_SHARED_STOCKS && 0 <= t.count <= MAX_SHARED_STOCKS
  }

  function Zeroed(): RawTable {
    RawTable(seq(MAX_SHARED_STOCKS, _ => Zero()), 0)
  }

  type Table = t: RawTable | InBounds(t) witness Zeroed()

  function Entries(t: Table): seq<Stock> {
    t.stocks[..t.count]
  }

  // ---- What the operations mean ----

  function NameOf(stock: Stock): string {
    stock.symbol
  }

  function Find(es: seq<Stock>, symbol: string): int {
    FindFrom(es, NameOf, symbol, 0)
  }

  /** The entries after the operation, and its return code. */
  function AfterAdd(es: seq<Stock>, symbol: string): (seq<Stock>, int) {
    var k := Find(es, symbol);
    if k >= 0 then (es, k)
    else if |es| >= MAX_SHARED_STOCKS then (es, -1)
    else (es + [Blank(symbol)], |es|)
  }

  function AfterUpdate(es: seq<Stock>, stock: Stock, now: int): (seq<Stock>, int) {
    var k := Find(es, stock.symbol);
    var stamped := stock.(lastUpdate := now);
    if k >= 0 then (es[k := stamped], 0)
    else if |es| >= MAX_SHARED_STOCKS then (es, -1)
    else (es + [stamped], 0)
  }

  function AfterRemove(es: seq<Stock>, symbol: string): (seq<Stock>, int) {
    var k := Find(es, symbol);
    if k < 0 then (es, -1) else (es[..k] + es[k + 1..], 0)
  }

  function Lookup(es: seq<Stock>, symbol: string): Option<Stock> {
    var k := Find(es, symbol);
    if k < 0 then None else Some(es[k])
  }

  // ---- The laws of an ordered map ----

  /** A symbol that does not fit is stored cut off and never found again, so adding it keeps the
      symbols distinct exactly when it fits, the table is full, or its stored form is not there. */
  lemma AddKeepsDistinctExactlyWhen(es: seq<Stock>, symbol: string)
    requires Distinct(es, NameOf)
    ensures Distinct(AfterAdd(es, symbol).0, NameOf) <==>
            |symbol| <= 15 || |es| >= 50 || forall i :: 0 <= i < |es| ==> es[i].symbol != symbol[..15]
  {
    var r := AfterAdd(es, symbol).0;
    var k := Find(es, Stored(symbol));
    if k >= 0 && r != es {
      assert r[k].symbol == r[|es|].symbol || |symbol| <= SYMBOL_SIZE;
    }
  }

  lemma UpdateKeepsDistinct(es: seq<Stock>, stock: Stock, now: int)
    requires Distinct(es, NameOf)
    ensures Distinct(AfterUpdate(es, stock, now).0, NameOf)
  {
    var r := AfterUpdate(es, stock, now).0;
    forall i, j | 0 <= i < j < |r| ensures r[i].symbol != r[j].symbol {
      if j < |es| {
        assert es[i].symbol != es[j].symbol;
      }
    }
  }

  lemma RemoveKeepsDistinct(es: seq<Stock>, symbol: string)
    requires Distinct(es, NameOf)
    ensures Distinct(AfterRemove(es, symbol).0, NameOf)
  {
  }

  /** What a lookup finds after an addition, for every symbol that fits. */
  lemma LookupAfterAdd(es: seq<Stock>, symbol: string, other: string)
    requires |symbol| <= 15
    ensures var r := AfterAdd(es, symbol).0;
            Lookup(r, other) ==
              if other == symbol && Lookup(es, symbol).None? && |es| < 50 then Some(Blank(symbol))
              else Lookup(es, other)
  {
    var r := AfterAdd(es, symbol).0;
    if r != es {
      FindInExtension(es, Blank(symbol), other);
    }
  }

  lemma LookupAfterUpdate(es: seq<Stock>, stock: Stock, now: int, other: string)
    ensures var r := AfterUpdate(es, stock, now).0;
            Lookup(r, other) ==
              if other == stock.symbol && (Lookup(es, other).Some? || |es| < 50)
              then Some(stock.(lastUpdate := now))
              else Lookup(es, other)
  {
    var k := Find(es, stock.symbol);
    if k >= 0 {
      FindIgnoresTheRest(es, k, stock.(lastUpdate := now), other);
    } else {
      FindInExtension(es, stock.(lastUpdate := now), other);
    }
  }

  lemma FindIgnoresTheRest(es: seq<Stock>, k: nat, x: Stock, symbol: string)
    requires k < |es| && x.symbol == es[k].symbol
    ensures Find(es[k := x], symbol) == Find(es, symbol)
  {
    assert forall j :: 0 <= j < |es| ==> es[k := x][j].symbol == es[j].symbol;
    var i, j := Find(es, symbol), Find(es[k := x], symbol);
    if i >= 0 {
      assert es[k := x][i].symbol == symbol;
    }
    if j >= 0 {
      assert es[j].symbol == symbol;
    }
  }

  lemma FindInExtension(es: seq<Stock>, last: Stock, symbol: string)
    ensures Find(es + [last], symbol) ==
            if Find(es, symbol) >= 0 then Find(es, symbol) else if last.symbol == symbol then |es| else -1
  {
    var r := Find(es + [last], symbol);
    assert (es + [last])[|es|] == last;
    forall k | 0 <= k < |es| ensures (es + [last])[k] == es[k] {
    }
  }

  lemma FoundAt(es: seq<Stock>, i: nat)
    requires Distinct(es, NameOf) && i < |es|
    ensures Find(es, es[i].symbol) == i
  {
    var k := Find(es, es[i].symbol);
    assert es[k].symbol == es[i].symbol;
  }

  lemma FoundOrMissing(es: seq<Stock>, symbol: string)
    ensures var k := Find(es, symbol);
            if k < 0 then forall j :: 0 <= j < |es| ==> es[j].symbol != symbol
            else k < |es| && es[k].symbol == symbol
  {
  }

  lemma LookupAfterRemove(es: seq<Stock>, symbol: string, other: string)
    requires Distinct(es, NameOf)
    ensures Lookup(AfterRemove(es, symbol).0, other) == if other == symbol then None else Lookup(es, other)
  {
    hide Find, Distinct;
    var k, i := Find(es, symbol), Find(es, other);
    var r := AfterRemove(es, symbol).0;
    RemoveKeepsDistinct(es, symbol);
    FoundOrMissing(es, symbol);
    FoundOrMissing(es, other);
    FoundOrMissing(r, other);
    if k >= 0 {
      if i >= 0 && i != k {
        FoundAt(r, if i < k then i else i - 1);
      } else if Find(r, other) >= 0 {
        var q := Find(r, other);
        FoundAt(es, if q < k then q else q + 1);
      }
    }
  }

  // ---- The table in place ----

  /** The functions of src/ipc.c on the table in place, without the lock around them. */
  class SharedStocks {
    var stocks: array<Stock>
    var count: int

    ghost predicate Valid()
      reads this, stocks
    {
      InBounds(RawTable(stocks[..], count))
    }

    ghost function Listed(): seq<Stock>
      reads this, stocks
      requires Valid()
    {
      Entries(RawTable(stocks[..], count))
    }

    constructor ()
      ensures Valid() && fresh(stocks) && Listed() == []
    {
      stocks := new Stock[MAX_SHARED_STOCKS](_ => Zero());
      count := 0;
    }

    method FindIndex(symbol: string) returns (index: int)
      requires Valid()
      ensures index == Find(Listed(), symbol) && -1 <= index < count
    {
      for i := 0 to count
        invariant Find(Listed(), symbol) == FindFrom(Listed(), NameOf, symbol, i)
      {
        if stocks[i].symbol == symbol {
          return i;
        }
      }
      return -1;
    }

    method Add(symbol: string) returns (index: int)
      requires Valid()
      modifies this, stocks
      ensures Valid() && stocks == old(stocks)
      ensures (Listed(), index) == AfterAdd(old(Listed()), symbol)
    {
      index := FindIndex(symbol);
      if index >= 0 {
        return;
      }
      if count >= MAX_SHARED_STOCKS {
        return -1;
      }
      index := count;
      stocks[index] := Zero();
      stocks[index] := stocks[index].(symbol := Stored(symbol));
      stocks[index] := stocks[index].(valid := 0);
      stocks[index] := stocks[index].(workerPid := 0);
      count := count + 1;
      assert Listed() == old(Listed()) + [Blank(symbol)];
    }

    method Update(stock: Stock, now: int) returns (code: int)
      requires Valid()
      modifies this, stocks
      ensures Valid() && stocks == old(stocks)
      ensures (Listed(), code) == AfterUpdate(old(Listed()), stock, now)
    {
      var index := FindIndex(stock.symbol);
      if index < 0 {
        if count >= MAX_SHARED_STOCKS {
          return -1;
        }
        index := count;
        count := count + 1;
      }
      stocks[index] := stock;
      stocks[index] := stocks[index].(lastUpdate := now);
      code := 0;
      assert Listed() == AfterUpdate(old(Listed()), stock, now).0;
    }

    method Get(symbol: string) returns (code: int, stock: Stock)
      requires Valid()
      ensures code == (if Lookup(Listed(), symbol).Some? then 0 else -1)
      ensures code == 0 ==> Lookup(Listed(), symbol) == Some(stock)
    {
      stock := Zero();
      var index := FindIndex(symbol);
      if index < 0 {
        return -1, stock;
      }
      stock := stocks[index];
      code := 0;
    }

    method Remove(symbol: string) returns (code: int)
      requires Valid()
      modifies this, stocks
      ensures Valid() && stocks == old(stocks)
      ensures (Listed(), code) == AfterRemove(old(Listed()), symbol)
    {
      hide Find;
      var index := FindIndex(symbol);
      if index < 0 {
        return -1;
      }
      ghost var es := Listed();
      var i := index;
      while i < count - 1
        invariant index <= i <= count - 1 && count == |es| && stocks == old(stocks)
        invariant forall j :: 0 <= j < count ==> stocks[j] == es[if index <= j < i then j + 1 else j]
      {
        stocks[i] := stocks[i + 1];
        i := i + 1;
      }
      count := count - 1;
      code := 0;
      ShiftedIsRemoved(es, index, Listed());
    }
  }

  lemma ShiftedIsRemoved(es: seq<Stock>, index: nat, r: seq<Stock>)
    requires index < |es| && |r| == |es| - 1
    requires forall j :: 0 <= j < |r| ==> r[j] == es[if j < index then j else j + 1]
    ensures r == es[..index] + es[index + 1..]
  {
  }

  // ---- The bodies, one assignment at a time ----

  datatype Op = Add(symbol: string) | Update(stock: Stock, now: int) | Get(symbol: string) | Remove(symbol: string)

  datatype Answer = Code(code: int) | Got(stock: Stock)

  /** The next step of a body. Every body starts in shm_find_stock_index. */
  datatype Local =
    | Finding(op: Op, i: nat)
    | Room(op: Op)                      // the capacity test of an addition or update
    | AddClear(symbol: string, at: nat)
    | AddSymbol(symbol: string, at: nat)
    | AddValid(at: nat)
    | AddWorker(at: nat)
    | AddGrow(at: nat)
    | UpdateGrow(stock: Stock, now: int)
    | UpdateCopy(stock: Stock, now: int, at: nat)
    | UpdateStamp(now: int, at: nat)
    | GetCopy(at: nat)
    | RemoveShift(i: nat)
    | RemoveShrink
    | Done(write: bool, answer: Answer)

  function SymbolOf(op: Op): string {
    if op.Update? then op.stock.symbol else op.symbol
  }

  function Start(op: Op): Local {
    Finding(op, 0)
  }

  function Hit(op: Op, i: nat): Local {
    match op
    case Add(_) => Done(true, Code(i))
    case Update(stock, now) => UpdateCopy(stock, now, i)
    case Get(_) => GetCopy(i)
    case Remove(_) => RemoveShift(i)
  }

  function Miss(op: Op): Local {
    match op
    case Add(_) | Update(_, _) => Room(op)
    case Get(_) | Remove(_) => Done(!op.Get?, Code(-1))
  }

  predicate Writes(l: Local) {
    match l
    case Finding(op, _) => !op.Get?
    case Room(op) => !op.Get?
    case GetCopy(_) => false
    case Done(write, _) => write
    case _ => true
  }

  function Left(i: nat): nat {
    if i < MAX_SHARED_STOCKS then MAX_SHARED_STOCKS - i else 0
  }

  function Rank(l: Local): nat {
    match l
    case Finding(_, i) => 60 + Left(i)
    case RemoveShift(i) => 2 + Left(i)
    case Room(_) => 6
    case AddClear(_, _) => 5
    case AddSymbol(_, _) => 4
    case AddValid(_) | UpdateGrow(_, _) => 3
    case AddWorker(_) | UpdateCopy(_, _, _) => 2
    case AddGrow(_) | UpdateStamp(_, _) | GetCopy(_) | RemoveShrink => 1
    case Done(_, _) => 0
  }

  /** One step. Indices and counts outside the array cannot be reached; Put, At and the guards on
      `count` only make the step total. */
  function Step(l: Local, t: Table): (Local, Table) {
    match l
    case Finding(op, i) =>
      (if i >= t.count then Miss(op)
       else if t.stocks[i].symbol == SymbolOf(op) then Hit(op, i)
       else Finding(op, i + 1), t)
    case Room(op) =>
      (if t.count >= MAX_SHARED_STOCKS || op.Get? || op.Remove? then Done(!op.Get?, Code(-1))
       else if op.Add? then AddClear(op.symbol, t.count) else UpdateGrow(op.stock, op.now), t)
    case AddClear(symbol, at) => (AddSymbol(symbol, at), t.(stocks := Put(t.stocks, at, Zero())))
    case AddSymbol(symbol, at) =>
      (AddValid(at), t.(stocks := Put(t.stocks, at, At(t.stocks, at, Zero()).(symbol := Stored(symbol)))))
    case AddValid(at) => (AddWorker(at), t.(stocks := Put(t.stocks, at, At(t.stocks, at, Zero()).(valid := 0))))
    case AddWorker(at) => (AddGrow(at), t.(stocks := Put(t.stocks, at, At(t.stocks, at, Zero()).(workerPid := 0))))
    case AddGrow(at) => (Done(true, Code(at)), Grown(t))
    case UpdateGrow(stock, now) => (UpdateCopy(stock, now, t.count), Grown(t))
    case UpdateCopy(stock, now, at) => (UpdateStamp(now, at), t.(stocks := Put(t.stocks, at, stock)))
    case UpdateStamp(now, at) =>
      (Done(true, Code(0)), t.(stocks := Put(t.stocks, at, At(t.stocks, at, Zero()).(lastUpdate := now))))
    case GetCopy(at) => (Done(false, Got(At(t.stocks, at, Zero()))), t)
    case RemoveShift(i) =>
      if i < t.count - 1 then (RemoveShift(i + 1), t.(stocks := Put(t.stocks, i, t.stocks[i + 1])))
      else (RemoveShrink, t)
    case RemoveShrink => (Done(true, Code(0)), if t.count > 0 then t.(count := t.count - 1) else t)
    case Done(_, _) => (l, t)
  }

  function Grown(t: Table): Table {
    if t.count < MAX_SHARED_STOCKS then t.(count := t.count + 1) else t
  }

  function Bodies(): Program<Op, Local, Table> {
    Program(Start, Step, (l: Local) => l.Done?, Writes, Rank)
  }

  lemma StepDescends(l: Local, t: Table)
    requires !l.Done?
    ensures Rank(Step(l, t).0) < Rank(l)
  {
  }

  lemma StepKeepsKind(l: Local, t: Table)
    ensures Writes(Step(l, t).0) == Writes(l)
    ensures !Writes(l) ==> Step(l, t).1 == t
  {
  }

  lemma BodiesWellFormed()
    ensures Bodies().WellFormed()
  {
    hide Step, Rank, Writes;
    forall l: Local, t: Table
      ensures !l.Done? ==> Rank(Step(l, t).0) < Rank(l)
      ensures Writes(Step(l, t).0) == Writes(l)
      ensures !Writes(l) ==> Step(l, t).1 == t
    {
      if !l.Done? {
        StepDescends(l, t);
      }
      StepKeepsKind(l, t);
    }
  }

  function Meaning(op: Op, es: seq<Stock>): (seq<Stock>, Answer) {
    match op
    case Add(symbol) => var (r, code) := AfterAdd(es, symbol); (r, Code(code))
    case Update(stock, now) => var (r, code) := AfterUpdate(es, stock, now); (r, Code(code))
    case Get(symbol) => (es, match Lookup(es, symbol) case None => Code(-1) case Some(stock) => Got(stock))
    case Remove(symbol) => var (r, code) := AfterRemove(es, symbol); (r, Code(code))
  }

  lemma Steps(l: Local, t: Table)
    requires Bodies().WellFormed()
    ensures Bodies().Finish(l, t) == if l.Done? then (l, t) else Bodies().Finish(Step(l, t).0, Step(l, t).1)
  {
    Bodies().FinishStep(l, t);
  }

  lemma {:induction false} FindingFinishes(op: Op, i: nat, t: Table)
    requires Bodies().WellFormed() && i <= t.count
    ensures var k := FindFrom(Entries(t), NameOf, SymbolOf(op), i);
            Bodies().Finish(Finding(op, i), t) == Bodies().Finish(if k < 0 then Miss(op) else Hit(op, k), t)
    decreases t.count - i
  {
    hide Program.WellFormed, Program.Finish;
    Steps(Finding(op, i), t);
    if i >= t.count || t.stocks[i].symbol == SymbolOf(op) {
    } else {
      FindingFinishes(op, i + 1, t);
    }
  }

  lemma {:induction false} ShiftFinishes(i: nat, t: Table)
    requires Bodies().WellFormed() && i < t.count
    ensures var (l, r) := Bodies().Finish(RemoveShift(i), t);
            l == Done(true, Code(0)) && Entries(r) == Entries(t)[..i] + Entries(t)[i + 1..]
    decreases t.count - i
  {
    hide Program.WellFormed, Program.Finish;
    Steps(RemoveShift(i), t);
    if i < t.count - 1 {
      var t' := t.(stocks := t.stocks[i := t.stocks[i + 1]]);
      ShiftFinishes(i + 1, t');
      assert Entries(t')[..i + 1] + Entries(t')[i + 2..] == Entries(t)[..i] + Entries(t)[i + 1..];
    } else {
      Steps(RemoveShrink, t);
      Steps(Done(true, Code(0)), t.(count := t.count - 1));
    }
  }

  lemma AddFinishes(symbol: string, t: Table)
    requires Bodies().WellFormed() && t.count < MAX_SHARED_STOCKS
    ensures var (l, r) := Bodies().Finish(AddClear(symbol, t.count), t);
            l == Done(true, Code(t.count)) && Entries(r) == Entries(t) + [Blank(symbol)]
  {
    hide Program.WellFormed, Program.Finish;
    var at := t.count;
    var t1 := t.(stocks := t.stocks[at := Zero()]);
    var t2 := t.(stocks := t.stocks[at := Blank(symbol)]);
    Steps(AddClear(symbol, at), t);
    Steps(AddSymbol(symbol, at), t1);
    assert t1.stocks[at := Blank(symbol)] == t2.stocks;
    Steps(AddValid(at), t2);
    assert t2.stocks[at := Blank(symbol)] == t2.stocks;
    Steps(AddWorker(at), t2);
    Steps(AddGrow(at), t2);
    Steps(Done(true, Code(at)), Grown(t2));
  }

  lemma UpdateFinishes(stock: Stock, now: int, at: nat, t: Table)
    requires Bodies().WellFormed() && at < t.count
    ensures var (l, r) := Bodies().Finish(UpdateCopy(stock, now, at), t);
            l == Done(true, Code(0)) && Entries(r) == Entries(t)[at := stock.(lastUpdate := now)]
  {
    hide Program.WellFormed, Program.Finish;
    var t1 := t.(stocks := t.stocks[at := stock]);
    var t2 := t.(stocks := t1.stocks[at := stock.(lastUpdate := now)]);
    Steps(UpdateCopy(stock, now, at), t);
    Steps(UpdateStamp(now, at), t1);
    Steps(Done(true, Code(0)), t2);
  }

  lemma RoomFinishes(op: Op, t: Table)
    requires Bodies().WellFormed() && (op.Add? || op.Update?) && Find(Entries(t), SymbolOf(op)) < 0
    ensures var (l, r) := Bodies().Finish(Room(op), t);
            (Entries(r), l) == (Meaning(op, Entries(t)).0, Done(true, Meaning(op, Entries(t)).1))
  {
    hide Program.WellFormed, Program.Finish;
    Steps(Room(op), t);
    if t.count >= MAX_SHARED_STOCKS {
      Steps(Done(true, Code(-1)), t);
    } else if op.Add? {
      AddFinishes(op.symbol, t);
    } else {
      Steps(UpdateGrow(op.stock, op.now), t);
      UpdateFinishes(op.stock, op.now, t.count, Grown(t));
      var stamped := op.stock.(lastUpdate := op.now);
      assert Entries(Grown(t))[t.count := stamped] == Entries(t) + [stamped];
    }
  }

  lemma HitFinishes(op: Op, k: nat, t: Table)
    requires Bodies().WellFormed() && k == Find(Entries(t), SymbolOf(op)) && k < t.count
    ensures var (l, r) := Bodies().Finish(Hit(op, k), t);
            (Entries(r), l) == (Meaning(op, Entries(t)).0, Done(Writes(Start(op)), Meaning(op, Entries(t)).1))
  {
    hide Program.WellFormed, Program.Finish, Find;
    match op {
      case Add(_) =>
        Steps(Hit(op, k), t);
      case Update(stock, now) =>
        UpdateFinishes(stock, now, k, t);
      case Get(_) =>
        Steps(Hit(op, k), t);
        Steps(Done(false, Got(t.stocks[k])), t);
      case Remove(_) =>
        ShiftFinishes(k, t);
    }
  }

  /** A body run to its end does to the table what the operation does to its entries. */
  lemma BodiesMean(op: Op, t: Table)
    ensures Bodies().WellFormed()
    ensures var (l, r) := Bodies().Atomic(op, t);
            && Entries(r) == Meaning(op, Entries(t)).0
            && l == Done(Writes(Start(op)), Meaning(op, Entries(t)).1)
  {
    BodiesWellFormed();
    hide Program.WellFormed, Program.Finish;
    var k := Find(Entries(t), SymbolOf(op));
    FindingFinishes(op, 0, t);
    if k < 0 {
      if op.Add? || op.Update? {
        RoomFinishes(op, t);
      } else {
        Steps(Miss(op), t);
      }
    } else {
      HitFinishes(op, k, t);
    }
  }
}
