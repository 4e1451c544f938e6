/** What the calls on the shared stock table of src/ipc.c answer, from the calls before them alone. */
module StockAnswers {
  import opened Wrappers
  import opened SlotArrays
  import opened StockTable

  // ---- The table as a map and a list of names ----

  predicate Room(known: map<string, Stock>) {
    |known| < 50
  }

  /** The entry of every symbol in the table: what its last update wrote, with the time of that update,
      or all zeros after an addition. */
  function KnownAfter(known: map<string, Stock>, op: Op): map<string, Stock> {
    match op
    case Add(symbol) =>
      if symbol in known || !Room(known) || |symbol| > 15 then known
      else known[symbol := Stock(symbol, "", 0.0, 0.0, 0.0, 0.0, 0.0, 0.0, 0.0, 0, 0, 0)]
    case Update(stock, now) =>
      if stock.symbol in known || Room(known) then known[stock.symbol := stock.(lastUpdate := now)] else known
    case Remove(symbol) => known - {symbol}
    case Get(_) => known
  }

  function Known(ops: seq<Op>): map<string, Stock> {
    if ops == [] then map[] else KnownAfter(Known(ops[..|ops| - 1]), ops[|ops| - 1])
  }

  function Without(names: seq<string>, name: string): seq<string> {
    if names == [] then []
    else if names[0] == name then Without(names[1..], name)
    else [names[0]] + Without(names[1..], name)
  }

  /** The symbols in the table, in the order in which they came in. */
  function NamesAfter(names: seq<string>, op: Op): seq<string> {
    match op
    case Add(symbol) => if symbol in names || |names| >= 50 || |symbol| > 15 then names else names + [symbol]
    case Update(stock, _) => if stock.symbol in names || |names| >= 50 then names else names + [stock.symbol]
    case Remove(symbol) => Without(names, symbol)
    case Get(_) => names
  }

  function Names(ops: seq<Op>): seq<string> {
    if ops == [] then [] else NamesAfter(Names(ops[..|ops| - 1]), ops[|ops| - 1])
  }

  /** What a call answers, given the symbols and entries before it. */
  ghost predicate Answers(op: Op, known: map<string, Stock>, names: seq<string>, a: Answer) {
    match op
    case Add(symbol) =>
      if symbol in known then a.Code? && 0 <= a.code < |names| && names[a.code] == symbol
      else if |known| < 50 then a == Code(|known|)
      else a == Code(-1)
    case Update(stock, _) => a == Code(if stock.symbol in known || |known| < 50 then 0 else -1)
    case Remove(symbol) => a == Code(if symbol in known then 0 else -1)
    case Get(symbol) => a == if symbol in known then Got(known[symbol]) else Code(-1)
  }

  predicate Fits(op: Op) {
    op.Add? ==> |op.symbol| <= 15
  }

  // ---- The table does that ----

  /** The entries after a run of operations. */
  function Shelf(ops: seq<Op>): seq<Stock> {
    if ops == [] then [] else Meaning(ops[|ops| - 1], Shelf(ops[..|ops| - 1])).0
  }

  ghost predicate Agrees(es: seq<Stock>, known: map<string, Stock>, names: seq<string>) {
    && Distinct(es, NameOf)
    && |es| == |names| == |known|
    && Listed(es, known, names)
  }

  ghost predicate Listed(es: seq<Stock>, known: map<string, Stock>, names: seq<string>) {
    && |es| == |names|
    && (forall i :: 0 <= i < |es| ==> names[i] == es[i].symbol && names[i] in known && known[names[i]] == es[i])
    && (forall x :: x in known ==> x in names)
  }

  lemma AgreesFinds(es: seq<Stock>, known: map<string, Stock>, names: seq<string>, symbol: string)
    requires Agrees(es, known, names)
    ensures var k := Find(es, symbol);
            && (symbol in known <==> k >= 0) && (symbol in known <==> symbol in names)
            && -1 <= k < |es|
            && (k >= 0 ==> names[k] == symbol && known[symbol] == es[k])
  {
    FoundOrMissing(es, symbol);
    if symbol in known {
      assert symbol in names;
      var i :| 0 <= i < |names| && names[i] == symbol;
      assert es[i].symbol == symbol;
    }
  }

  lemma CountWith(known: map<string, Stock>, symbol: string, stock: Stock)
    ensures |known[symbol := stock]| == if symbol in known then |known| else |known| + 1
    ensures |known - {symbol}| == if symbol in known then |known| - 1 else |known|
  {
    assert known[symbol := stock].Keys == known.Keys + {symbol};
    assert (known - {symbol}).Keys == known.Keys - {symbol};
    assert |known| == |known.Keys| && |known[symbol := stock]| == |known[symbol := stock].Keys|;
    assert |known - {symbol}| == |(known - {symbol}).Keys|;
    if symbol in known {
      assert known.Keys + {symbol} == known.Keys;
    } else {
      assert known.Keys - {symbol} == known.Keys;
    }
  }

  lemma ListedAppended(es: seq<Stock>, known: map<string, Stock>, names: seq<string>, stock: Stock)
    requires Listed(es, known, names) && stock.symbol !in known
    ensures Listed(es + [stock], known[stock.symbol := stock], names + [stock.symbol])
  {
    var rs, rk, rn := es + [stock], known[stock.symbol := stock], names + [stock.symbol];
    forall i | 0 <= i < |rs| ensures rn[i] == rs[i].symbol && rn[i] in rk && rk[rn[i]] == rs[i] {
      if i < |es| {
        assert names[i] in known;
      }
    }
    forall x | x in rk ensures x in rn {
      if x in known {
        assert x in names;
      }
    }
  }

  lemma DistinctAppended(es: seq<Stock>, stock: Stock)
    requires Distinct(es, NameOf) && forall i :: 0 <= i < |es| ==> es[i].symbol != stock.symbol
    ensures Distinct(es + [stock], NameOf)
  {
    var rs := es + [stock];
    forall i, j | 0 <= i < j < |rs| ensures NameOf(rs[i]) != NameOf(rs[j]) {
      if j < |es| {
        assert NameOf(es[i]) != NameOf(es[j]);
      }
    }
  }

  /** A new symbol at the end. */
  lemma AgreesAppended(es: seq<Stock>, known: map<string, Stock>, names: seq<string>, stock: Stock)
    requires Agrees(es, known, names) && stock.symbol !in known
    ensures Agrees(es + [stock], known[stock.symbol := stock], names + [stock.symbol])
  {
    CountWith(known, stock.symbol, stock);
    AgreesFinds(es, known, names, stock.symbol);
    FoundOrMissing(es, stock.symbol);
    hide Listed, Distinct, Find;
    ListedAppended(es, known, names, stock);
    DistinctAppended(es, stock);
  }

  lemma ListedUpdated(es: seq<Stock>, known: map<string, Stock>, names: seq<string>, k: nat, stock: Stock)
    requires Listed(es, known, names) && Distinct(es, NameOf) && k < |es| && es[k].symbol == stock.symbol
    ensures Listed(es[k := stock], known[stock.symbol := stock], names) && stock.symbol in known
  {
    var rs, rk := es[k := stock], known[stock.symbol := stock];
    assert names[k] in known;
    forall i | 0 <= i < |rs| ensures names[i] == rs[i].symbol && names[i] in rk && rk[names[i]] == rs[i] {
      assert names[i] in known;
      if i < k {
        assert NameOf(es[i]) != NameOf(es[k]);
      } else if i > k {
        assert NameOf(es[k]) != NameOf(es[i]);
      }
    }
  }

  lemma DistinctUpdated(es: seq<Stock>, k: nat, stock: Stock)
    requires Distinct(es, NameOf) && k < |es| && es[k].symbol == stock.symbol
    ensures Distinct(es[k := stock], NameOf)
  {
    var r := es[k := stock];
    forall i, j | 0 <= i < j < |r| ensures NameOf(r[i]) != NameOf(r[j]) {
      assert NameOf(es[i]) != NameOf(es[j]);
    }
  }

  lemma AgreesUpdated(es: seq<Stock>, known: map<string, Stock>, names: seq<string>, k: nat, stock: Stock)
    requires Agrees(es, known, names) && k < |es| && es[k].symbol == stock.symbol
    ensures Agrees(es[k := stock], known[stock.symbol := stock], names)
  {
    hide Listed, Distinct;
    CountWith(known, stock.symbol, stock);
    ListedUpdated(es, known, names, k, stock);
    DistinctUpdated(es, k, stock);
  }

  lemma {:induction false} WithoutOther(names: seq<string>, name: string)
    requires name !in names
    ensures Without(names, name) == names
  {
    if names == [] {
    } else {
      WithoutOther(names[1..], name);
    }
  }

  lemma {:induction false} WithoutAt(names: seq<string>, k: nat)
    requires k < |names| && forall i :: 0 <= i < |names| && i != k ==> names[i] != names[k]
    ensures Without(names, names[k]) == names[..k] + names[k + 1..]
  {
    if k == 0 {
      assert names[k] !in names[1..];
      WithoutOther(names[1..], names[k]);
    } else {
      WithoutAt(names[1..], k - 1);
      assert names[1..][..k - 1] == names[1..k] && names[1..][k..] == names[k + 1..];
    }
  }

  lemma OthersDiffer(es: seq<Stock>, known: map<string, Stock>, names: seq<string>, k: nat)
    requires Agrees(es, known, names) && k < |es|
    ensures forall i :: 0 <= i < |names| && i != k ==> names[i] != names[k]
  {
    forall i | 0 <= i < |names| && i != k ensures names[i] != names[k] {
      if i < k {
        assert NameOf(es[i]) != NameOf(es[k]);
      } else {
        assert NameOf(es[k]) != NameOf(es[i]);
      }
    }
  }

  lemma ListedRemoved(es: seq<Stock>, known: map<string, Stock>, names: seq<string>, k: nat)
    requires Listed(es, known, names) && k < |es|
    requires forall i :: 0 <= i < |names| && i != k ==> names[i] != names[k]
    ensures Listed(es[..k] + es[k + 1..], known - {names[k]}, names[..k] + names[k + 1..])
  {
    var rs, rk, rn := es[..k] + es[k + 1..], known - {names[k]}, names[..k] + names[k + 1..];
    forall i | 0 <= i < |rs| ensures rn[i] == rs[i].symbol && rn[i] in rk && rk[rn[i]] == rs[i] {
      var p := if i < k then i else i + 1;
      assert rs[i] == es[p] && rn[i] == names[p] && names[p] in known;
    }
    forall x | x in rk ensures x in rn {
      assert x in names;
      var i :| 0 <= i < |names| && names[i] == x;
      assert rn[if i < k then i else i - 1] == x;
    }
  }

  lemma DistinctRemoved(es: seq<Stock>, k: nat)
    requires Distinct(es, NameOf) && k < |es|
    ensures Distinct(es[..k] + es[k + 1..], NameOf)
  {
    var rs := es[..k] + es[k + 1..];
    forall i, j | 0 <= i < j < |rs| ensures NameOf(rs[i]) != NameOf(rs[j]) {
      var p, q := if i < k then i else i + 1, if j < k then j else j + 1;
      assert rs[i] == es[p] && rs[j] == es[q] && NameOf(es[p]) != NameOf(es[q]);
    }
  }

  lemma AgreesRemoved(es: seq<Stock>, known: map<string, Stock>, names: seq<string>, k: nat)
    requires Agrees(es, known, names) && k < |es|
    ensures Agrees(es[..k] + es[k + 1..], known - {names[k]}, Without(names, names[k]))
  {
    OthersDiffer(es, known, names, k);
    WithoutAt(names, k);
    assert names[k] in known;
    CountWith(known, names[k], es[k]);
    hide Listed, Distinct, Without;
    ListedRemoved(es, known, names, k);
    DistinctRemoved(es, k);
  }

  lemma AddAgrees(es: seq<Stock>, known: map<string, Stock>, names: seq<string>, symbol: string)
    requires Agrees(es, known, names) && |symbol| <= 15
    ensures Agrees(Meaning(Add(symbol), es).0, KnownAfter(known, Add(symbol)), NamesAfter(names, Add(symbol)))
    ensures Answers(Add(symbol), known, names, Meaning(Add(symbol), es).1)
  {
    hide Find, Agrees;
    AgreesSize(es, known, names);
    AgreesFinds(es, known, names, symbol);
    if symbol !in known && |known| < 50 {
      AgreesAppended(es, known, names, Stock(symbol, "", 0.0, 0.0, 0.0, 0.0, 0.0, 0.0, 0.0, 0, 0, 0));
    }
  }

  lemma UpdateAgrees(es: seq<Stock>, known: map<string, Stock>, names: seq<string>, stock: Stock, now: int)
    requires Agrees(es, known, names)
    ensures var op := Op.Update(stock, now);
            && Agrees(Meaning(op, es).0, KnownAfter(known, op), NamesAfter(names, op))
            && Answers(op, known, names, Meaning(op, es).1)
  {
    hide Find, Agrees;
    AgreesSize(es, known, names);
    AgreesFinds(es, known, names, stock.symbol);
    var stamped := stock.(lastUpdate := now);
    if stock.symbol in known {
      var k := Find(es, stock.symbol);
      NamesAreSymbols(es, known, names, k);
      AgreesUpdated(es, known, names, k, stamped);
    } else if |known| < 50 {
      AgreesAppended(es, known, names, stamped);
    }
  }

  lemma NamesAreSymbols(es: seq<Stock>, known: map<string, Stock>, names: seq<string>, k: nat)
    requires Agrees(es, known, names) && k < |es|
    ensures |names| == |es| && names[k] == es[k].symbol
  {
  }

  lemma AgreesSize(es: seq<Stock>, known: map<string, Stock>, names: seq<string>)
    requires Agrees(es, known, names)
    ensures |es| == |names| == |known|
  {
  }

  lemma NothingRemoved(known: map<string, Stock>, symbol: string)
    requires symbol !in known
    ensures known - {symbol} == known
  {
  }

  lemma RemoveMeans(es: seq<Stock>, symbol: string)
    ensures var k := Find(es, symbol);
            k < |es| &&
            Meaning(Remove(symbol), es) == if k < 0 then (es, Code(-1)) else (es[..k] + es[k + 1..], Code(0))
  {
    FoundOrMissing(es, symbol);
  }

  lemma RemoveAgrees(es: seq<Stock>, known: map<string, Stock>, names: seq<string>, symbol: string)
    requires Agrees(es, known, names)
    ensures Agrees(Meaning(Remove(symbol), es).0, KnownAfter(known, Remove(symbol)), NamesAfter(names, Remove(symbol)))
    ensures Answers(Remove(symbol), known, names, Meaning(Remove(symbol), es).1)
  {
    AgreesFinds(es, known, names, symbol);
    RemoveMeans(es, symbol);
    hide Find, Agrees, Meaning, Without;
    var k := Find(es, symbol);
    if k >= 0 {
      AgreesRemoved(es, known, names, k);
    } else {
      WithoutOther(names, symbol);
      NothingRemoved(known, symbol);
    }
  }

  /** Over any run of calls with symbols that fit: the table holds the known symbols in their order, each
      with its entry, and the next call answers what they say. */
  lemma {:induction false} TableIsAMap(ops: seq<Op>)
    requires forall k :: 0 <= k < |ops| ==> Fits(ops[k])
    ensures Agrees(Shelf(ops), Known(ops), Names(ops))
  {
    hide Agrees, Meaning, KnownAfter, NamesAfter, Answers;
    if ops == [] {
      EmptyAgrees();
    } else {
      var n := |ops| - 1;
      TableIsAMap(ops[..n]);
      OperationAgrees(Shelf(ops[..n]), Known(ops[..n]), Names(ops[..n]), ops[n]);
    }
  }

  lemma EmptyAgrees()
    ensures Agrees([], map[], [])
  {
  }

  lemma OperationAgrees(es: seq<Stock>, known: map<string, Stock>, names: seq<string>, op: Op)
    requires Agrees(es, known, names) && Fits(op)
    ensures Agrees(Meaning(op, es).0, KnownAfter(known, op), NamesAfter(names, op))
    ensures Answers(op, known, names, Meaning(op, es).1)
  {
    match op {
      case Add(symbol) => AddAgrees(es, known, names, symbol);
      case Update(stock, now) => UpdateAgrees(es, known, names, stock, now);
      case Remove(symbol) => RemoveAgrees(es, known, names, symbol);
      case Get(symbol) => AgreesFinds(es, known, names, symbol);
    }
  }

  // ---- The last write ----

  predicate WritesTo(op: Op, symbol: string) {
    match op
    case Add(s) => s == symbol && |s| <= 15
    case Update(stock, _) => stock.symbol == symbol
    case _ => false
  }

  /** Call j writes the symbol and finds room, and no later call removes it. */
  ghost predicate LastingWrite(ops: seq<Op>, j: nat, symbol: string) {
    && j < |ops| && WritesTo(ops[j], symbol)
    && (symbol in Known(ops[..j]) || Room(Known(ops[..j])))
    && forall i :: j < i < |ops| ==> ops[i] != Remove(symbol)
  }

  lemma KnownStep(known: map<string, Stock>, op: Op, symbol: string)
    ensures symbol in KnownAfter(known, op) <==>
            (symbol in known && op != Remove(symbol)) || (WritesTo(op, symbol) && (symbol in known || Room(known)))
  {
  }

  lemma LastingFront(ops: seq<Op>, j: nat, symbol: string)
    requires j < |ops| - 1
    ensures LastingWrite(ops, j, symbol) <==>
            LastingWrite(ops[..|ops| - 1], j, symbol) && ops[|ops| - 1] != Remove(symbol)
  {
    hide Known, WritesTo, Room;
    assert ops[..|ops| - 1][..j] == ops[..j];
  }

  lemma LastingLast(ops: seq<Op>, symbol: string)
    requires ops != []
    ensures var n := |ops| - 1;
            LastingWrite(ops, n, symbol) <==>
            WritesTo(ops[n], symbol) && (symbol in Known(ops[..n]) || Room(Known(ops[..n])))
  {
    hide Known, WritesTo, Room;
  }

  /** A symbol is known exactly when some call wrote it that found room, and none removed it since. */
  lemma {:induction false} KnownExactlyWhen(ops: seq<Op>, symbol: string)
    ensures symbol in Known(ops) <==> exists j: nat :: LastingWrite(ops, j, symbol)
  {
    if ops == [] {
    } else {
      hide KnownAfter, WritesTo, LastingWrite, Room;
      var n := |ops| - 1;
      KnownExactlyWhen(ops[..n], symbol);
      KnownStep(Known(ops[..n]), ops[n], symbol);
      LastingLast(ops, symbol);
      forall j: nat | j < n ensures LastingWrite(ops, j, symbol) <==>
                                    LastingWrite(ops[..n], j, symbol) && ops[n] != Remove(symbol)
      {
        LastingFront(ops, j, symbol);
      }
      forall j: nat ensures LastingWrite(ops, j, symbol) ==> j <= n {
        LastingIsThere(ops, j, symbol);
      }
      forall j: nat ensures LastingWrite(ops[..n], j, symbol) ==> j < n {
        LastingIsThere(ops[..n], j, symbol);
      }
    }
  }

  lemma LastingIsThere(ops: seq<Op>, j: nat, symbol: string)
    ensures LastingWrite(ops, j, symbol) ==> j < |ops|
  {
  }

  lemma UpdateStep(known: map<string, Stock>, op: Op, symbol: string)
    requires symbol in known && op != Remove(symbol) && !(op.Update? && op.stock.symbol == symbol)
    ensures symbol in KnownAfter(known, op) && KnownAfter(known, op)[symbol] == known[symbol]
  {
  }

  /** Its entry is what the last update wrote, with that update's own time. */
  lemma {:induction false} KnownIsLastUpdate(ops: seq<Op>, j: nat, symbol: string)
    requires LastingWrite(ops, j, symbol) && ops[j].Update?
    requires forall i :: j < i < |ops| ==> !(ops[i].Update? && ops[i].stock.symbol == symbol)
    ensures symbol in Known(ops) && Known(ops)[symbol] == ops[j].stock.(lastUpdate := ops[j].now)
    decreases |ops|
  {
    var n := |ops| - 1;
    if j == n {
    } else {
      hide KnownAfter;
      LastingFront(ops, j, symbol);
      KnownIsLastUpdate(ops[..n], j, symbol);
      UpdateStep(Known(ops[..n]), ops[n], symbol);
    }
  }

  /** Or all zeros, when the symbol was added and never updated. */
  lemma {:induction false} KnownIsBlank(ops: seq<Op>, j: nat, symbol: string)
    requires LastingWrite(ops, j, symbol) && ops[j].Add? && symbol !in Known(ops[..j])
    requires forall i :: j < i < |ops| ==> !(ops[i].Update? && ops[i].stock.symbol == symbol)
    ensures symbol in Known(ops)
    ensures Known(ops)[symbol] == Stock(symbol, "", 0.0, 0.0, 0.0, 0.0, 0.0, 0.0, 0.0, 0, 0, 0)
    decreases |ops|
  {
    var n := |ops| - 1;
    if j == n {
    } else {
      hide KnownAfter;
      LastingFront(ops, j, symbol);
      assert ops[..n][..j] == ops[..j];
      KnownIsBlank(ops[..n], j, symbol);
      UpdateStep(Known(ops[..n]), ops[n], symbol);
    }
  }
}
