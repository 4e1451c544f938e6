/** The table of saved price histories of src/history.c: fifty slots searched by symbol. */
module HistoryFile {
  import opened Wrappers
  import opened SlotArrays
  import opened PriceRing
  import StockTable

  const MAX_HISTORY_STOCKS := 50

  type Symbol = StockTable.Symbol

  datatype Slot = Slot(symbol: Symbol, ring: Ring, lastUpdate: int)

  function NameOf(slot: Slot): string {
    slot.symbol
  }

  function Lookup(es: seq<Slot>, symbol: string): Option<Ring> {
    var k := FindFrom(es, NameOf, symbol, 0);
    if k < 0 then None else Some(es[k].ring)
  }

  /** The saved histories after a save. */
  function AfterSave(es: seq<Slot>, symbol: string, ring: Ring, now: int): seq<Slot> {
    var k := FindFrom(es, NameOf, symbol, 0);
    if k >= 0 then es[k := Slot(es[k].symbol, ring, now)]
    else if |es| >= MAX_HISTORY_STOCKS then es
    else es + [Slot(StockTable.Stored(symbol), ring, now)]
  }

  /** The functions of src/history.c on the mapped table in place. */
  class Histories {
    var slots: array<Slot>
    var count: int

    ghost predicate Valid()
      reads this
    {
      slots.Length == MAX_HISTORY_STOCKS && 0 <= count <= MAX_HISTORY_STOCKS
    }

    ghost function Saved(): seq<Slot>
      reads this, slots
      requires Valid()
    {
      slots[..count]
    }

    constructor ()
      ensures Valid() && fresh(slots) && Saved() == []
    {
      slots := new Slot[MAX_HISTORY_STOCKS](_ => Slot("", Cleared(), 0));
      count := 0;
    }

    /** Returns what is in `out` afterwards: the saved ring, or what was there. */
    method Load(symbol: string, out: Ring) returns (loaded: Ring)
      requires Valid()
      ensures loaded == match Lookup(Saved(), symbol) case Some(ring) => ring case None => out
    {
      for i := 0 to count
        invariant FindFrom(Saved(), NameOf, symbol, 0) == FindFrom(Saved(), NameOf, symbol, i)
      {
        if slots[i].symbol == symbol {
          return slots[i].ring;
        }
      }
      return out;
    }

    method Save(symbol: string, ring: Ring, now: int)
      requires Valid()
      modifies this, slots
      ensures Valid() && slots == old(slots)
      ensures Saved() == AfterSave(old(Saved()), symbol, ring, now)
    {
      var slot := -1;
      var i := 0;
      while i < count
        invariant 0 <= i <= count && slot == -1
        invariant FindFrom(Saved(), NameOf, symbol, 0) == FindFrom(Saved(), NameOf, symbol, i)
      {
        if slots[i].symbol == symbol {
          slot := i;
          break;
        }
        i := i + 1;
      }
      if slot == -1 {
        if count >= MAX_HISTORY_STOCKS {
          return;
        }
        slot := count;
        count := count + 1;
        slots[slot] := Slot(StockTable.Stored(symbol), slots[slot].ring, slots[slot].lastUpdate);
      }
      slots[slot] := Slot(slots[slot].symbol, ring, now);
    }
  }

  // ---- A bounded map ----

  /** A saved ring comes back exactly when the symbol fits and has a slot or finds a free one; a
      longer symbol is stored cut off and is never found. */
  lemma LoadReturnsSavedExactlyWhen(es: seq<Slot>, symbol: string, ring: Ring, now: int)
    ensures Lookup(AfterSave(es, symbol, ring, now), symbol) == Some(ring) <==>
            |symbol| <= 15 && (Lookup(es, symbol).Some? || |es| < 50)
  {
    var k := FindFrom(es, NameOf, symbol, 0);
    var r := AfterSave(es, symbol, ring, now);
    var j := FindFrom(r, NameOf, symbol, 0);
    if k >= 0 {
      assert r[k].symbol == symbol && forall i :: 0 <= i < k ==> r[i] == es[i];
      assert |symbol| <= StockTable.SYMBOL_SIZE;
    } else if |es| < MAX_HISTORY_STOCKS {
      assert r[|es|] == Slot(StockTable.Stored(symbol), ring, now);
      assert forall i :: 0 <= i < |es| ==> r[i] == es[i];
    }
  }

  /** A save touches no other symbol, and keeps the symbols distinct when its own fits. */
  lemma SaveKeepsOthers(es: seq<Slot>, symbol: Symbol, ring: Ring, now: int, other: Symbol)
    requires other != symbol
    ensures Lookup(AfterSave(es, symbol, ring, now), other) == Lookup(es, other)
    ensures Distinct(es, NameOf) ==> Distinct(AfterSave(es, symbol, ring, now), NameOf)
  {
    var r := AfterSave(es, symbol, ring, now);
    var i, j := FindFrom(es, NameOf, other, 0), FindFrom(r, NameOf, other, 0);
    assert forall k :: 0 <= k < |es| ==> r[k].symbol == es[k].symbol && (r[k].symbol == other ==> r[k] == es[k]);
    if i >= 0 {
      assert r[i].symbol == other;
    }
    if j >= 0 && j < |es| {
      assert es[j].symbol == other;
    }
  }

  lemma SaveKeepsDistinct(es: seq<Slot>, symbol: Symbol, ring: Ring, now: int)
    requires Distinct(es, NameOf)
    ensures Distinct(AfterSave(es, symbol, ring, now), NameOf)
    ensures |AfterSave(es, symbol, ring, now)| ==
            if Lookup(es, symbol).Some? || |es| >= MAX_HISTORY_STOCKS then |es| else |es| + 1
  {
  }

  /** The saved entry carries the time of the save, every other one its own. */
  lemma SaveStamps(es: seq<Slot>, symbol: Symbol, ring: Ring, now: int)
    requires Distinct(es, NameOf) && (Lookup(es, symbol).Some? || |es| < 50)
    ensures var r := AfterSave(es, symbol, ring, now);
            forall i :: 0 <= i < |r| ==>
              if r[i].symbol == symbol then r[i].lastUpdate == now else i < |es| && r[i] == es[i]
  {
    var k := FindFrom(es, NameOf, symbol, 0);
    var r := AfterSave(es, symbol, ring, now);
    if k >= 0 {
      forall i | 0 <= i < |r| && i != k ensures r[i].symbol != symbol {
        if i < k {
          assert NameOf(es[i]) != NameOf(es[k]);
        } else {
          assert NameOf(es[k]) != NameOf(es[i]);
        }
      }
    }
  }

  // ---- Persistence ----

  /** What programs do with the table, in any order: a sample for a symbol's ring, a save of that ring,
      a load into it, and a restart, after which every ring is initialised and loaded. */
  datatype Event =
    | Sample(symbol: Symbol, price: real)
    | Save(symbol: Symbol, now: int)
    | Load(symbol: Symbol)
    | Restart

  datatype State = State(live: map<Symbol, Ring>, saved: seq<Slot>)

  function RingOf(live: map<Symbol, Ring>, symbol: Symbol): Ring {
    if symbol in live then live[symbol] else Cleared()
  }

  /** history_load into a ring. */
  function Loaded(es: seq<Slot>, symbol: Symbol, out: Ring): Ring {
    match Lookup(es, symbol) case Some(ring) => ring case None => out
  }

  function Symbols(es: seq<Slot>): set<Symbol> {
    set i | 0 <= i < |es| :: es[i].symbol
  }

  function After(s: State, e: Event): State {
    match e
    case Sample(symbol, price) => s.(live := s.live[symbol := Added(RingOf(s.live, symbol), price)])
    case Save(symbol, now) => s.(saved := AfterSave(s.saved, symbol, RingOf(s.live, symbol), now))
    case Load(symbol) => s.(live := s.live[symbol := Loaded(s.saved, symbol, RingOf(s.live, symbol))])
    case Restart => s.(live := map symbol | symbol in Symbols(s.saved) :: Loaded(s.saved, symbol, Cleared()))
  }

  function Run(events: seq<Event>): State {
    if events == [] then State(map[], []) else After(Run(events[..|events| - 1]), events[|events| - 1])
  }

  // ---- The table is a bounded map of streams ----

  /** The stream of samples behind each ring, and behind each saved ring. */
  datatype Book = Book(live: map<Symbol, seq<real>>, saved: map<Symbol, seq<real>>)

  function Stream(m: map<Symbol, seq<real>>, symbol: Symbol): seq<real> {
    if symbol in m then m[symbol] else []
  }

  function BookAfter(b: Book, e: Event): Book {
    match e
    case Sample(symbol, price) => b.(live := b.live[symbol := Stream(b.live, symbol) + [price]])
    case Save(symbol, _) =>
      if symbol in b.saved || |b.saved| < 50
      then b.(saved := b.saved[symbol := Stream(b.live, symbol)])
      else b
    case Load(symbol) => if symbol in b.saved then b.(live := b.live[symbol := b.saved[symbol]]) else b
    case Restart => b.(live := b.saved)
  }

  function BookOf(events: seq<Event>): Book {
    if events == [] then Book(map[], map[]) else BookAfter(BookOf(events[..|events| - 1]), events[|events| - 1])
  }

  /** The rings are those that the streams feed, and the table holds those of the saved streams. */
  ghost predicate Agrees(s: State, b: Book) {
    && (forall x: Symbol :: RingOf(s.live, x) == RingFed(Stream(b.live, x)))
    && TableAgrees(s.saved, b.saved)
  }

  ghost predicate TableAgrees(es: seq<Slot>, saved: map<Symbol, seq<real>>) {
    && Distinct(es, NameOf) && |es| == |saved|
    && (forall x: Symbol :: Lookup(es, x) == if x in saved then Some(RingFed(saved[x])) else None)
  }

  lemma SampleAgrees(s: State, b: Book, symbol: Symbol, price: real)
    requires Agrees(s, b)
    ensures Agrees(After(s, Sample(symbol, price)), BookAfter(b, Sample(symbol, price)))
  {
    hide Added, TableAgrees;
    var stream := Stream(b.live, symbol);
    assert (stream + [price])[..|stream|] == stream;
    var t, c := After(s, Sample(symbol, price)), BookAfter(b, Sample(symbol, price));
    forall x: Symbol ensures RingOf(t.live, x) == RingFed(Stream(c.live, x)) {
      assert RingOf(s.live, x) == RingFed(Stream(b.live, x));
    }
  }

  lemma SaveAgrees(s: State, b: Book, symbol: Symbol, now: int)
    requires Agrees(s, b)
    ensures Agrees(After(s, Save(symbol, now)), BookAfter(b, Save(symbol, now)))
  {
    hide AfterSave, Lookup, Distinct, RingFed;
    var ring := RingOf(s.live, symbol);
    assert ring == RingFed(Stream(b.live, symbol));
    SaveKeepsDistinct(s.saved, symbol, ring, now);
    LoadReturnsSavedExactlyWhen(s.saved, symbol, ring, now);
    FullTableStays(s.saved, symbol, ring, now);
    forall other: Symbol | other != symbol
      ensures Lookup(AfterSave(s.saved, symbol, ring, now), other) == Lookup(s.saved, other)
    {
      SaveKeepsOthers(s.saved, symbol, ring, now, other);
    }
    assert Lookup(s.saved, symbol).Some? <==> symbol in b.saved;
    assert symbol !in b.saved ==> |b.saved[symbol := Stream(b.live, symbol)]| == |b.saved| + 1 by {
      CountKeys(b.saved, symbol, Stream(b.live, symbol));
    }
    assert symbol in b.saved ==> |b.saved[symbol := Stream(b.live, symbol)]| == |b.saved| by {
      CountKeys(b.saved, symbol, Stream(b.live, symbol));
    }
  }

  lemma CountKeys(m: map<Symbol, seq<real>>, symbol: Symbol, stream: seq<real>)
    ensures |m[symbol := stream]| == if symbol in m then |m| else |m| + 1
  {
    assert m[symbol := stream].Keys == m.Keys + {symbol};
    assert |m[symbol := stream]| == |m[symbol := stream].Keys| && |m| == |m.Keys|;
    if symbol in m {
      assert m.Keys + {symbol} == m.Keys;
    }
  }

  /** A 51st symbol changes nothing. */
  lemma FullTableStays(es: seq<Slot>, symbol: string, ring: Ring, now: int)
    ensures Lookup(es, symbol).None? && |es| >= MAX_HISTORY_STOCKS ==> AfterSave(es, symbol, ring, now) == es
  {
  }

  lemma LoadAgrees(s: State, b: Book, symbol: Symbol)
    requires Agrees(s, b)
    ensures Agrees(After(s, Load(symbol)), BookAfter(b, Load(symbol)))
  {
    hide Lookup, TableAgrees, RingFed;
    SavedAgrees(s.saved, b.saved, symbol);
    var t, c := After(s, Load(symbol)), BookAfter(b, Load(symbol));
    forall x: Symbol ensures RingOf(t.live, x) == RingFed(Stream(c.live, x)) {
      assert RingOf(s.live, x) == RingFed(Stream(b.live, x));
    }
  }

  lemma RestartAgrees(s: State, b: Book)
    requires Agrees(s, b)
    ensures Agrees(After(s, Restart), BookAfter(b, Restart))
  {
    hide TableAgrees, Lookup, RingFed, Symbols;
    forall x: Symbol
      ensures RingOf(After(s, Restart).live, x) == RingFed(Stream(b.saved, x))
    {
      SymbolsAreFound(s.saved, x);
      SavedAgrees(s.saved, b.saved, x);
    }
  }

  lemma SymbolsAreFound(es: seq<Slot>, x: Symbol)
    ensures x in Symbols(es) <==> Lookup(es, x).Some?
  {
    if x !in Symbols(es) {
      assert FindFrom(es, NameOf, x, 0) == -1;
    }
  }

  lemma SavedAgrees(es: seq<Slot>, saved: map<Symbol, seq<real>>, x: Symbol)
    requires TableAgrees(es, saved)
    ensures Lookup(es, x) == if x in saved then Some(RingFed(saved[x])) else None
    ensures RingFed([]) == Cleared()
  {
  }

  /** Over any interleaving of samples, saves, loads and restarts of any symbols, every ring is the one
      its stream feeds, where a load or restart goes back to the stream of the last save, and the saved
      rings are a map of at most fifty symbols that a further symbol leaves unchanged. */
  lemma {:induction false} PersistenceIsAMap(events: seq<Event>)
    ensures Agrees(Run(events), BookOf(events))
  {
    hide Agrees, After, BookAfter;
    if events == [] {
      NothingAgrees();
    } else {
      var before := events[..|events| - 1];
      PersistenceIsAMap(before);
      match events[|events| - 1] {
        case Sample(symbol, price) => SampleAgrees(Run(before), BookOf(before), symbol, price);
        case Save(symbol, now) => SaveAgrees(Run(before), BookOf(before), symbol, now);
        case Load(symbol) => LoadAgrees(Run(before), BookOf(before), symbol);
        case Restart => RestartAgrees(Run(before), BookOf(before));
      }
    }
  }

  lemma NothingAgrees()
    ensures Agrees(State(map[], []), Book(map[], map[]))
  {
  }

  // ---- When nothing is lost ----

  /** Every sample ever given for a symbol. */
  function SamplesOf(events: seq<Event>, symbol: Symbol): seq<real> {
    if events == [] then []
    else
      var k := |events| - 1;
      SamplesOf(events[..k], symbol)
      + if events[k].Sample? && events[k].symbol == symbol then [events[k].price] else []
  }

  /** The symbols with a sample that no save has followed. */
  function Unsaved(events: seq<Event>): set<Symbol> {
    if events == [] then {}
    else
      var before := Unsaved(events[..|events| - 1]);
      match events[|events| - 1]
      case Sample(symbol, _) => before + {symbol}
      case Save(symbol, _) => before - {symbol}
      case _ => before
  }

  function SavedSymbols(events: seq<Event>): set<Symbol> {
    set i | 0 <= i < |events| && events[i].Save? :: events[i].symbol
  }

  /** A ring is loaded only when its samples have been saved; at a restart, all have. */
  ghost predicate CleanReloads(events: seq<Event>) {
    forall k :: 0 <= k < |events| ==> CleanReload(events[..k], events[k])
  }

  predicate CleanReload(before: seq<Event>, e: Event) {
    match e
    case Load(symbol) => symbol !in Unsaved(before) || symbol !in SavedSymbols(before)
    case Restart => Unsaved(before) == {}
    case _ => true
  }

  /** The book of a run that loses nothing. */
  ghost predicate Complete(events: seq<Event>, b: Book) {
    && b.saved.Keys == SavedSymbols(events)
    && (forall x: Symbol :: Stream(b.live, x) == SamplesOf(events, x))
    && (forall x: Symbol :: x !in Unsaved(events) ==> Stream(b.saved, x) == Stream(b.live, x))
  }

  lemma CompleteStep(events: seq<Event>, b: Book, e: Event)
    requires Complete(events, b) && CleanReload(events, e)
    requires e.Save? ==> e.symbol in b.saved || |b.saved| < 50
    ensures Complete(events + [e], BookAfter(b, e))
  {
    hide SavedSymbols, SamplesOf, Unsaved;
    SavedSymbolsGrow(events, e);
    var c := BookAfter(b, e);
    forall x: Symbol
      ensures Stream(c.live, x) == SamplesOf(events + [e], x)
      ensures x !in Unsaved(events + [e]) ==> Stream(c.saved, x) == Stream(c.live, x)
    {
      OneMore(events, e, x);
      assert Stream(b.live, x) == SamplesOf(events, x);
      assert x !in Unsaved(events) ==> Stream(b.saved, x) == Stream(b.live, x);
    }
  }

  lemma OneMore(events: seq<Event>, e: Event, x: Symbol)
    ensures SamplesOf(events + [e], x) ==
            if e.Sample? && e.symbol == x then SamplesOf(events, x) + [e.price] else SamplesOf(events, x)
    ensures x in Unsaved(events + [e]) <==>
            (x in Unsaved(events) && !(e.Save? && e.symbol == x)) || (e.Sample? && e.symbol == x)
  {
    var longer := events + [e];
    assert longer[..|events|] == events && longer[|events|] == e;
  }

  lemma SavedSymbolsGrow(events: seq<Event>, e: Event)
    ensures SavedSymbols(events + [e]) == SavedSymbols(events) + if e.Save? then {e.symbol} else {}
  {
    var longer := events + [e];
    forall x | x in SavedSymbols(events) ensures x in SavedSymbols(longer) {
      var i :| 0 <= i < |events| && events[i].Save? && events[i].symbol == x;
      assert longer[i] == events[i];
    }
    if e.Save? {
      assert longer[|events|] == e;
    }
  }

  lemma SubsetSize(a: set<Symbol>, b: set<Symbol>)
    requires a <= b
    ensures |a| <= |b|
  {
    if a == {} {
    } else {
      var x :| x in a;
      SubsetSize(a - {x}, b - {x});
    }
  }

  lemma {:induction false} BookIsComplete(events: seq<Event>)
    requires |SavedSymbols(events)| <= 50 && CleanReloads(events)
    ensures Complete(events, BookOf(events))
  {
    hide Complete, SavedSymbols, CleanReload;
    if events == [] {
      NothingIsComplete();
    } else {
      var k := |events| - 1;
      var before, e := events[..k], events[k];
      assert events == before + [e];
      forall i | 0 <= i < k ensures CleanReload(before[..i], before[i]) {
        assert before[..i] == events[..i] && CleanReload(events[..i], events[i]);
      }
      assert CleanReload(events[..k], events[k]);
      SavedSymbolsGrow(before, e);
      SubsetSize(SavedSymbols(before), SavedSymbols(events));
      BookIsComplete(before);
      SavedKeys(before, BookOf(before));
      if e.Save? && e.symbol !in BookOf(before).saved {
        SubsetSize(SavedSymbols(before) + {e.symbol}, SavedSymbols(events));
      }
      CompleteStep(before, BookOf(before), e);
    }
  }

  lemma SavedKeys(events: seq<Event>, b: Book)
    requires Complete(events, b)
    ensures b.saved.Keys == SavedSymbols(events) && |b.saved| == |SavedSymbols(events)|
  {
    assert |b.saved| == |b.saved.Keys|;
  }

  lemma NothingIsComplete()
    ensures Complete([], Book(map[], map[]))
  {
  }

  /** Then persistence is invisible: with at most fifty saved symbols every ring is at all times the
      one that a program that never stopped would have. */
  lemma ReloadsAreInvisible(events: seq<Event>, symbol: Symbol)
    requires |SavedSymbols(events)| <= 50 && CleanReloads(events)
    ensures RingOf(Run(events).live, symbol) == RingFed(SamplesOf(events, symbol))
  {
    hide RingOf, RingFed, TableAgrees, CleanReloads;
    PersistenceIsAMap(events);
    BookIsComplete(events);
  }
}
