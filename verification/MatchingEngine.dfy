/** The engine as the source keeps it (matching_engine.cpp): a registry of books, one directory of
    handles, and three counters, all changed in place. Every method is proved against EngineSpec. */
module MatchingEngines {
  import opened Domain
  import opened PriceTime
  import opened Exchange
  import opened Matching
  import opened EngineSpec
  import opened EngineLaws
  import opened Completeness
  import opened EngineLinks
  import opened TickLadder
  import opened MatchingBooks

  ghost function ViewOf(book: MatchingBook): View
    reads book
  {
    View(book.Handles(), book.Resting(Buy), book.Resting(Sell))
  }

  /** The book is sound, is made of these objects and shows this view. */
  ghost predicate Displays(book: MatchingBook, frame: set<object>, view: View)
    reads frame
  {
    && book in frame && book.bids in frame && book.asks in frame
    && book.Repr() == frame && book.Valid() && ViewOf(book) == view
  }

  lemma DisplaysIt(book: MatchingBook, frame: set<object>)
    requires book.Valid() && book.Repr() == frame
    ensures Displays(book, frame, ViewOf(book))
  {
  }

  lemma Displayed(book: MatchingBook, frame: set<object>, view: View)
    requires Displays(book, frame, view)
    ensures book.Valid() && book.Repr() == frame && book in frame
    ensures view == View(book.Handles(), book.Resting(Buy), book.Resting(Sell))
  {
  }

  const MAX_INSTRUMENT_ID: nat := 0x3F_FFFF
  const LADDER_BYTE_BUDGET: nat := 0x80_0000

  /** The instruments a universe registers. */
  function Registrable(universe: seq<InstrumentId>): set<InstrumentId> {
    set i | i in universe && i <= MAX_INSTRUMENT_ID
  }

  lemma RegistrableNext(universe: seq<InstrumentId>, n: nat)
    requires n < |universe|
    ensures var before, after := Initial(Registrable(universe[..n])), Initial(Registrable(universe[..n + 1]));
            after == if universe[n] <= MAX_INSTRUMENT_ID && universe[n] !in before.books
                     then before.(books := before.books[universe[n] := Book([], [])]) else before
  {
    assert universe[..n + 1] == universe[..n] + [universe[n]];
    assert Registrable(universe[..n + 1]) ==
           Registrable(universe[..n]) + (if universe[n] <= MAX_INSTRUMENT_ID then {universe[n]} else {});
  }

  lemma OpensEmpty(slotOfId: seq<int>)
    requires forall i | 0 <= i < |slotOfId| :: slotOfId[i] == NO_SLOT
    ensures Agrees(slotOfId, [], map[], map[], map[])
    ensures Initial(Registrable([])) == Engine(map[], map[], 1, 1, 1) && Sound(Initial(Registrable([])))
  {
  }

  lemma EmptyView(book: MatchingBook)
    requires book.bidQueue == [] && book.askQueue == []
    ensures ViewOf(book) == View(map[], [], [])
  {
  }

  lemma SoundRegister(e: Engine, i: InstrumentId)
    requires Sound(e) && i !in e.books
    ensures Sound(e.(books := e.books[i := Book([], [])]))
  {
    hide BookSound, StandsIn;
    var after := e.books[i := Book([], [])];
    assert BookSound(Book([], []), e.nextExchangeOrderId) by { EmptySound(e.nextExchangeOrderId); }
    assert forall key | key in e.directory :: e.directory[key].instrumentId != i;
  }

  lemma EmptySound(next: ExchangeOrderId)
    ensures BookSound(Book([], []), next)
  {
  }

  lemma LiveHandle(book: MatchingBook, handle: nat)
    requires handle in book.Handles()
    ensures book.Live(handle)
  {
  }

  /** Where a live order stands. */
  lemma FoundAt(book: MatchingBook, handle: nat) returns (k: nat)
    requires book.Valid() && handle in book.Handles()
    ensures book.Live(handle) && handle < |book.slab| && book.slab[handle].order == book.Handles()[handle]
    ensures var order := book.Handles()[handle];
            k < |book.Resting(order.side)| && book.Resting(order.side)[k] == order && k < |book.Queue(order.side)|
            && book.Queue(order.side)[k] == handle
  {
    hide MatchingBook.Valid, MatchingBook.Resting;
    k := book.Locate(handle);
  }

  /** Reduces an order and renames it where it stands. */
  method AmendAt(book: MatchingBook, handle: nat, newQuantity: Quantity, newClientOrderId: ClientOrderId, ghost k: nat)
    requires book.Valid() && handle in book.Handles()
    requires k < |book.Resting(book.Handles()[handle].side)|
    requires k < |book.Queue(book.Handles()[handle].side)| && book.Queue(book.Handles()[handle].side)[k] == handle
    modifies book`slab
    ensures book.Valid() && book.Repr() == old(book.Repr())
    ensures var order := old(book.Handles())[handle].(remaining := newQuantity, clientOrderId := newClientOrderId);
            && book.Resting(order.side) == old(book.Resting(order.side))[k := order]
            && book.Resting(Opposite(order.side)) == old(book.Resting(Opposite(order.side)))
            && book.Handles() == old(book.Handles())[handle := order]
  {
    hide MatchingBook.Valid, MatchingBook.Resting;
    LiveHandle(book, handle);
    ghost var j := book.ReduceAt(handle, newQuantity);
    ghost var n := book.SetClientOrderIdAt(handle, newClientOrderId);
    book.OnePlace(book.Handles()[handle].side, j, k);
    book.OnePlace(book.Handles()[handle].side, n, k);
  }

  /** What the books are made of and show, and the books and the directory as values. */
  datatype Model = Model(frames: seq<set<object>>, views: seq<View>, lists: map<InstrumentId, Book>,
                         directory: Directory)

  class MatchingEngine {
    var slotOfId: seq<int>
    var books: seq<MatchingBook>
    var bandTicks: nat
    var orders: map<LiveKey, Entry>
    var nextExchangeOrderId: ExchangeOrderId
    var nextEventSequence: nat
    var nextPriority: nat
    /** Everything the books are made of. */
    ghost var frame: set<object>
    ghost var model: Model

    predicate Knows(i: InstrumentId)
      reads `slotOfId
    {
      EngineLinks.Known(slotOfId, i)
    }

    ghost function Repr(): set<object>
      reads `frame
    {
      {this} + frame
    }

    /** The engine as a value. */
    ghost function State(): Engine
      reads this
    {
      Engine(model.lists, model.directory, nextExchangeOrderId, nextEventSequence, nextPriority)
    }

    /** The books stand apart, each sound and showing its view. */
    ghost predicate Apart()
      reads `books, `model, `frame, frame
    {
      && |model.frames| == |books| == |model.views|
      && (forall s | 0 <= s < |books| ::
            model.frames[s] <= frame && Displays(books[s], model.frames[s], model.views[s]))
      && (forall s, t | 0 <= s < t < |books| :: model.frames[s] !! model.frames[t])
    }

    /** The same, with the book at one slot left out. */
    ghost predicate ApartBut(s: nat)
      reads `books, `model, `frame, frame
    {
      && |model.frames| == |books| == |model.views|
      && (forall t | 0 <= t < |books| && t != s ::
            model.frames[t] <= frame && Displays(books[t], model.frames[t], model.views[t]))
      && (forall t, u | 0 <= t < u < |books| :: model.frames[t] !! model.frames[u])
    }

    /** Takes the new view of one book into the model. */
    ghost method Show(s: nat, repr: set<object>, view: View, lists: map<InstrumentId, Book>, directory: Directory)
      requires s < |books| && this !in frame && this !in repr && ApartBut(s) && Displays(books[s], repr, view)
      requires forall t | 0 <= t < |books| && t != s :: model.frames[t] !! repr
      modifies `frame, `model
      ensures Apart() && this !in frame && frame == old(frame) + repr
      ensures model == Model(old(model).frames[s := repr], old(model).views[s := view], lists, directory)
    {
      hide Displays;
      frame := frame + repr;
      model := Model(model.frames[s := repr], model.views[s := view], lists, directory);
    }

    ghost predicate Wired()
      reads `slotOfId, `books, `bandTicks, `orders, `frame, `model, frame
    {
      BandWidth(bandTicks) && this !in frame && Apart()
        && Agrees(slotOfId, model.views, orders, model.lists, model.directory)
    }

    ghost predicate Valid()
      reads this, frame
    {
      Wired() && Sound(State())
    }

    lemma ApartNone()
      requires books == [] && model == Model([], [], map[], map[])
      ensures Apart()
    {
    }

    /** Opens the exchange for a universe of instruments; duplicates and ids past the limit are skipped. */
    constructor (universe: seq<InstrumentId>)
      ensures Valid() && fresh(frame)
      ensures State() == Initial(Registrable(universe))
    {
      hide Apart, Agrees, Sound;
      var widest: nat := 0;
      for n := 0 to |universe| {
        if universe[n] <= MAX_INSTRUMENT_ID && universe[n] > widest {
          widest := universe[n];
        }
      }
      slotOfId := if universe == [] then [] else seq(widest + 1, _ => NO_SLOT);
      bandTicks := BandFor(|universe|, LADDER_BYTE_BUDGET);
      books, orders := [], map[];
      nextExchangeOrderId, nextEventSequence, nextPriority := 1, 1, 1;
      frame, model := {}, Model([], [], map[], map[]);
      new;
      OpensEmpty(slotOfId);
      ApartNone();
      for n := 0 to |universe|
        invariant Valid() && fresh(frame)
        invariant State() == Initial(Registrable(universe[..n]))
      {
        RegistrableNext(universe, n);
        var registered := RegisterInstrument(universe[n]);
      }
      assert universe[..|universe|] == universe;
    }

    /** Adds one instrument, orders resting or not. */
    method RegisterInstrument(i: InstrumentId) returns (ok: bool)
      requires Valid()
      modifies this
      ensures Valid() && fresh(frame - old(frame))
      ensures ok <==> i <= MAX_INSTRUMENT_ID && i !in old(State()).books
      ensures State() == if ok then old(State()).(books := old(State()).books[i := Book([], [])]) else old(State())
    {
      hide Displays, Agrees, Sound, MatchingBook.Valid, MatchingBook.Repr, MatchingBook.Handles, MatchingBook.Resting;
      BookShown(slotOfId, model.views, orders, model.lists, model.directory, i);
      if i > MAX_INSTRUMENT_ID || Knows(i) {
        return false;
      }
      LinkedRegister(slotOfId, model.views, orders, model.lists, model.directory, i);
      SoundRegister(State(), i);
      var table := if i < |slotOfId| then slotOfId else slotOfId + seq(i + 1 - |slotOfId|, _ => NO_SLOT);
      var band := BandFor(|books| + 1, LADDER_BYTE_BUDGET);
      bandTicks := if band < bandTicks then band else bandTicks;
      var book := new MatchingBook(bandTicks);
      EmptyView(book);
      DisplaysIt(book, book.Repr());
      slotOfId := table[i := |books|];
      books := books + [book];
      frame := frame + book.Repr();
      model := Model(model.frames + [book.Repr()], model.views + [View(map[], [], [])], model.lists[i := Book([], [])],
                     model.directory);
      return true;
    }

    /** The front order of the contra side fills whole and leaves, with its entry. */
    method TakeFront(i: InstrumentId, side: Side, front: BookOrder)
      requires Wired() && Knows(i) && i in model.lists && model.lists[i].On(side) != []
      requires front == model.lists[i].On(side)[0]
      modifies `orders, `model, `frame, frame
      ensures Wired() && frame == old(frame)
      ensures model.lists == old(model.lists)[i := old(model.lists)[i].With(side, old(model.lists)[i].On(side)[1..])]
      ensures model.directory == old(model.directory) - {KeyOf(front)}
    {
      hide Displays, Agrees, MatchingBook.Valid, MatchingBook.Resting, MatchingBook.Repr, MatchingBook.Queue,
        MatchingBook.Live, MatchingBook.Handles;
      ghost var s := slotOfId[i];
      BookShown(slotOfId, model.views, orders, model.lists, model.directory, i);
      var book := books[slotOfId[i]];
      Displayed(book, model.frames[s], model.views[s]);
      ghost var gone := book.RemoveFront(side);
      DisplaysIt(book, model.frames[s]);
      orders := orders - {KeyOf(front)};
      ghost var view := ViewOf(book);
      LinkedDrop(slotOfId, model.views, old(orders), model.lists, model.directory, i, gone, view, KeyOf(front));
      Show(s, model.frames[s], view, model.lists[i := view.Lists()], model.directory - {KeyOf(front)});
    }

    /** The front order of the contra side fills in part and stays. */
    method ShrinkFront(i: InstrumentId, side: Side, remaining: Quantity)
      requires Wired() && Knows(i) && i in model.lists && model.lists[i].On(side) != []
      modifies `model, `frame, frame
      ensures Wired() && frame == old(frame) && model.directory == old(model.directory)
      ensures var queue := old(model.lists)[i].On(side);
              model.lists == old(model.lists)[i := old(model.lists)[i].With(side,
                  queue[0 := queue[0].(remaining := remaining)])]
    {
      hide Displays, Agrees, MatchingBook.Valid, MatchingBook.Resting, MatchingBook.Repr, MatchingBook.Queue,
        MatchingBook.Live, MatchingBook.Handles;
      ghost var s := slotOfId[i];
      BookShown(slotOfId, model.views, orders, model.lists, model.directory, i);
      var book := books[slotOfId[i]];
      Displayed(book, model.frames[s], model.views[s]);
      ghost var front, handle := book.Resting(side)[0], book.FrontHandle(side);
      book.ReduceFront(side, remaining);
      DisplaysIt(book, model.frames[s]);
      ghost var view := ViewOf(book);
      LinkedEdit(slotOfId, model.views, orders, model.lists, model.directory, i, handle, view,
                 front.(remaining := remaining));
      Show(s, model.frames[s], view, model.lists[i := view.Lists()], model.directory);
    }

    /** One trip round the loop: the trade, and what becomes of the order it met. */
    method Trip(incoming: Incoming, contra: BookOrder, commandSequence: nat)
      returns (after: Incoming, events: seq<Event>)
      requires Wired() && Knows(incoming.instrumentId) && incoming.instrumentId in model.lists
      requires !Stops(model.lists[incoming.instrumentId].On(Opposite(incoming.side)), incoming)
      requires contra == model.lists[incoming.instrumentId].On(Opposite(incoming.side))[0]
      modifies `orders, `model, `frame, `nextEventSequence, frame
      ensures Wired() && frame == old(frame)
      ensures (State(), after, events) == Tripped(old(State()), incoming, commandSequence)
    {
      hide Apart, Agrees;
      var i := incoming.instrumentId;
      var quantity := Min(incoming.remaining, contra.remaining);
      after := incoming.(remaining := incoming.remaining - quantity);
      var left := contra.remaining - quantity;
      var trade := Trade(nextEventSequence, commandSequence, after, contra.(remaining := left), quantity);
      nextEventSequence := nextEventSequence + 1;
      if left == 0 {
        TakeFront(i, Opposite(incoming.side), contra);
        events := [trade, BookOrderRemoved(nextEventSequence, i, contra.exchangeOrderId, contra.side, contra.price)];
      } else {
        ShrinkFront(i, Opposite(incoming.side), left);
        events := [trade, BookOrderReduced(nextEventSequence, i, contra.exchangeOrderId, contra.side, contra.price,
                                           left)];
      }
      nextEventSequence := nextEventSequence + 1;
    }

    /** The front of one side of a known book. */
    method FrontOf(i: InstrumentId, side: Side) returns (front: Option<BookOrder>)
      requires Wired() && Knows(i)
      ensures i in model.lists
      ensures front == if model.lists[i].On(side) == [] then None else Some(model.lists[i].On(side)[0])
    {
      hide Displays, Agrees, MatchingBook.Valid, MatchingBook.Resting, MatchingBook.Repr, MatchingBook.Queue,
        MatchingBook.Live, MatchingBook.Handles;
      BookShown(slotOfId, model.views, orders, model.lists, model.directory, i);
      ghost var s := slotOfId[i];
      Displayed(books[s], model.frames[s], model.views[s]);
      front := books[slotOfId[i]].FrontOfBest(side);
    }

    /** Matches an order against the other side of its book, one resting order at a time. */
    method MatchAndRest(incoming: Incoming, commandSequence: nat) returns (after: Incoming, events: seq<Event>)
      requires Wired() && Knows(incoming.instrumentId) && incoming.instrumentId in model.lists
      modifies `orders, `model, `frame, `nextEventSequence, frame
      ensures Wired() && frame == old(frame)
      ensures var m := EnterMatch(old(State()), incoming, commandSequence);
              State() == AfterMatch(old(State()), incoming, m) && after == m.incoming && events == m.events
    {
      hide Apart, Agrees, EnterMatch, Tripped, AfterMatch;
      var i := incoming.instrumentId;
      ghost var e := State();
      ghost var m := EnterMatch(e, incoming, commandSequence);
      after, events := incoming, [];
      while after.remaining > 0
        invariant Wired() && after == incoming.(remaining := after.remaining) && i in model.lists
        invariant slotOfId == old(slotOfId) && frame == old(frame)
        invariant AfterMatch(e, incoming, m) == AfterMatch(State(), after, EnterMatch(State(), after, commandSequence))
        invariant m.incoming == EnterMatch(State(), after, commandSequence).incoming
        invariant m.events == events + EnterMatch(State(), after, commandSequence).events
        decreases Trips(State(), after)
      {
        var contra := FrontOf(i, Opposite(incoming.side));
        if contra.None? || !Crosses(incoming.side, incoming.price, contra.value.price) {
          break;
        }
        MatchUnrolls(State(), after, commandSequence);
        TripsFall(State(), after, commandSequence);
        var more: seq<Event>;
        after, more := Trip(after, contra.value, commandSequence);
        events := events + more;
      }
      MatchUnrolls(State(), after, commandSequence);
    }

    /** An order joins its book, and its key leads to it. */
    method AddOrder(i: InstrumentId, order: BookOrder, originalQuantity: Quantity, orderSequence: nat)
      requires Wired() && Knows(i) && i in model.lists
      modifies `orders, `model, `frame, frame
      ensures Wired() && fresh(frame - old(frame))
      ensures var book := old(model.lists)[i];
              model.lists == old(model.lists)[i := book.With(order.side,
                                                             Insert(order.side, book.On(order.side), order))]
      ensures model.directory ==
              old(model.directory)[KeyOf(order) := OrderRef(order.exchangeOrderId, originalQuantity, orderSequence, i)]
    {
      hide Displays, Agrees, MatchingBook.Valid, MatchingBook.Resting, MatchingBook.Repr, MatchingBook.Queue,
        MatchingBook.Live, MatchingBook.Handles, Insert, BackOf;
      ghost var s := slotOfId[i];
      BookShown(slotOfId, model.views, orders, model.lists, model.directory, i);
      var book := books[slotOfId[i]];
      Displayed(book, model.frames[s], model.views[s]);
      var handle := book.Add(order);
      ghost var view, repr := ViewOf(book), book.Repr();
      DisplaysIt(book, repr);
      var entry := Entry(originalQuantity, orderSequence, handle, i);
      LinkedAdd(slotOfId, model.views, orders, model.lists, model.directory, i, view, order, entry);
      orders := orders[KeyOf(order) := entry];
      Show(s, repr, view, model.lists[i := view.Lists()],
           model.directory[KeyOf(order) := OrderRef(order.exchangeOrderId, originalQuantity, orderSequence, i)]);
    }

    /** A good-till-cancelled remainder rests; any other is discarded. */
    method RestRemainder(order: Incoming) returns (events: seq<Event>)
      requires Wired() && Knows(order.instrumentId) && order.instrumentId in model.lists
      modifies `orders, `model, `frame, `nextEventSequence, frame
      ensures Wired() && fresh(frame - old(frame))
      ensures Out(State(), events) == Rest(old(State()), order)
    {
      hide Apart, Agrees, Insert;
      if order.timeInForce != GTC || order.remaining == 0 {
        return [];
      }
      AddOrder(order.instrumentId, AsBookOrder(order), order.originalQuantity, order.orderSequence);
      events := [BookOrderAdded(nextEventSequence, order.instrumentId, order.exchangeOrderId, order.side, order.price,
                                order.remaining)];
      nextEventSequence := nextEventSequence + 1;
    }

    /** Matches an order, then rests what is left of it. */
    method EnterOrder(order: Incoming, commandSequence: nat) returns (events: seq<Event>)
      requires Wired() && Knows(order.instrumentId) && order.instrumentId in model.lists
      modifies `orders, `model, `frame, `nextEventSequence, frame
      ensures Wired() && fresh(frame - old(frame))
      ensures Out(State(), events) == Enter(old(State()), order, commandSequence)
    {
      hide Apart, Agrees, Match, Rest;
      var after, rested;
      after, events := MatchAndRest(order, commandSequence);
      rested := RestRemainder(after);
      events := events + rested;
    }

    /** The order of a key leaves its book, and its entry the directory. */
    method DropOrder(key: LiveKey, i: InstrumentId) returns (removed: BookOrder)
      requires Valid() && key in orders && orders[key].instrumentId == i
      modifies `orders, `model, `frame, frame
      ensures Wired() && frame == old(frame)
      ensures EngineSpec.Known(old(State()), key, i) && removed == Named(old(State()), key, i)
      ensures removed.side == SideOf(old(model.lists)[i], removed.exchangeOrderId)
      ensures model.lists == old(model.lists)[i := Remove(old(model.lists)[i], removed.exchangeOrderId)]
      ensures model.directory == old(model.directory) - {key}
    {
      hide Displays, Agrees, Sound, MatchingBook.Valid, MatchingBook.Resting, MatchingBook.Repr, MatchingBook.Queue,
        MatchingBook.Handles, Without, Find, SideOf;
      EntryShown(slotOfId, model.views, orders, model.lists, model.directory, key);
      ghost var s := slotOfId[i];
      var book := books[slotOfId[i]];
      Displayed(book, model.frames[s], model.views[s]);
      var handle := orders[key].handle;
      LiveHandle(book, handle);
      ghost var k: nat;
      removed, k := book.RemoveAt(handle);
      DisplaysIt(book, model.frames[s]);
      HandleIsNamed(slotOfId, model.views, orders, State(), key, removed.side, k);
      ghost var view := ViewOf(book);
      LinkedDrop(slotOfId, model.views, orders, model.lists, model.directory, i, handle, view, key);
      orders := orders - {key};
      Show(s, model.frames[s], view, model.lists[i := view.Lists()], model.directory - {key});
    }

    /** Looks an order up, where it rests. */
    method OrderAt(key: LiveKey, i: InstrumentId) returns (resting: BookOrder)
      requires Valid() && key in orders && orders[key].instrumentId == i
      ensures EngineSpec.Known(State(), key, i) && resting == Named(State(), key, i)
      ensures resting.side == SideOf(model.lists[i], resting.exchangeOrderId)
    {
      hide Displays, Agrees, Sound, MatchingBook.Valid, MatchingBook.Resting, MatchingBook.Repr, MatchingBook.Queue,
        MatchingBook.Handles, Find, SideOf;
      EntryShown(slotOfId, model.views, orders, model.lists, model.directory, key);
      ghost var s := slotOfId[i];
      var book := books[slotOfId[i]];
      Displayed(book, model.frames[s], model.views[s]);
      var handle := orders[key].handle;
      ghost var k := FoundAt(book, handle);
      resting := book.At(handle);
      HandleIsNamed(slotOfId, model.views, orders, State(), key, resting.side, k);
    }

    /** A smaller quantity and a new client id, in the same place of the same queue. */
    method AmendOrder(key: LiveKey, i: InstrumentId, newQuantity: Quantity, newClientOrderId: ClientOrderId)
      requires Valid() && key in orders && orders[key].instrumentId == i
      modifies `orders, `model, `frame, frame
      ensures Wired() && frame == old(frame)
      ensures EngineSpec.Known(old(State()), key, i)
      ensures var was := Named(old(State()), key, i);
              var order := was.(remaining := newQuantity, clientOrderId := newClientOrderId);
              && model.lists == old(model.lists)[i := Amend(old(model.lists)[i], was.exchangeOrderId, order)]
              && key in old(model.directory)
              && model.directory ==
                 (old(model.directory) - {key})[LiveKey(key.accountId, newClientOrderId) := old(model.directory)[key]]
    {
      hide Displays, Agrees, Sound, MatchingBook.Valid, MatchingBook.Resting, MatchingBook.Repr, MatchingBook.Queue,
        MatchingBook.Handles, Find, SideOf;
      EntryShown(slotOfId, model.views, orders, model.lists, model.directory, key);
      ghost var s := slotOfId[i];
      var book := books[slotOfId[i]];
      Displayed(book, model.frames[s], model.views[s]);
      var handle, entry := orders[key].handle, orders[key];
      ghost var k := FoundAt(book, handle);
      ghost var was := book.At(handle);
      HandleIsNamed(slotOfId, model.views, orders, State(), key, was.side, k);
      AmendAt(book, handle, newQuantity, newClientOrderId, k);
      DisplaysIt(book, model.frames[s]);
      ghost var view, order := ViewOf(book), was.(remaining := newQuantity, clientOrderId := newClientOrderId);
      LinkedRename(slotOfId, model.views, orders, model.lists, model.directory, i, view, key, order);
      orders := (orders - {key})[LiveKey(key.accountId, newClientOrderId) := entry];
      Show(s, model.frames[s], view, model.lists[i := view.Lists()],
           (model.directory - {key})[LiveKey(key.accountId, newClientOrderId) := model.directory[key]]);
    }

    /** What would cross at once: fill-or-kill's check, which touches nothing. */
    method CrossableQuantity(i: InstrumentId, incomingSide: Side, price: Price, quantity: Quantity)
      returns (total: Quantity)
      requires Wired() && Knows(i)
      ensures i in model.lists
      ensures total == CrossableFrom(Opposite(incomingSide), model.lists[i].On(Opposite(incomingSide)), price, quantity,
                                     0)
    {
      hide Displays, Agrees, MatchingBook.Valid, MatchingBook.Resting, MatchingBook.Repr, CrossableFrom;
      BookShown(slotOfId, model.views, orders, model.lists, model.directory, i);
      ghost var s := slotOfId[i];
      Displayed(books[s], model.frames[s], model.views[s]);
      total := books[slotOfId[i]].CrossableQuantity(Opposite(incomingSide), price, quantity);
    }

    /** A rejection takes an event number and nothing else. */
    method Reject(c: Command, reason: RejectReason) returns (events: seq<Event>)
      requires Wired()
      modifies `nextEventSequence
      ensures Wired()
      ensures Out(State(), events) == Rejected(old(State()), c, ReportId(c), reason)
    {
      hide Apart, Agrees;
      events := [OrderRejected(nextEventSequence, c.commandSequence, c.accountId, ReportId(c), c.instrumentId, reason)];
      nextEventSequence := nextEventSequence + 1;
    }

    method ProcessNewOrder(c: Command) returns (events: seq<Event>)
      requires Valid() && c.NewOrder?
      modifies this, frame
      ensures Wired() && fresh(frame - old(frame))
      ensures Out(State(), events) == ProcessNew(old(State()), c)
    {
      hide Apart, Agrees, Sound, CrossableFrom, Enter;
      var key := LiveKey(c.accountId, c.clientOrderId);
      KnowsLists(c.instrumentId);
      KnowsKey(key);
      if !Knows(c.instrumentId) {
        events := Reject(c, InvalidInstrument);
        return;
      }
      if c.price <= 0 {
        events := Reject(c, InvalidPrice);
        return;
      }
      if c.quantity == 0 {
        events := Reject(c, InvalidQuantity);
        return;
      }
      if key in orders {
        events := Reject(c, DuplicateOrderId);
        return;
      }
      if c.timeInForce == FOK {
        var available := CrossableQuantity(c.instrumentId, c.side, c.price, c.quantity);
        if available < c.quantity {
          events := Reject(c, InsufficientLiquidity);
          return;
        }
      }
      var order := Incoming(nextExchangeOrderId, c.clientOrderId, c.accountId, c.price, c.quantity, c.quantity,
                            nextPriority, c.instrumentId, c.side, c.timeInForce);
      nextExchangeOrderId, nextPriority := nextExchangeOrderId + 1, nextPriority + 1;
      var accepted := OrderAccepted(nextEventSequence, c.commandSequence, c.accountId, c.clientOrderId,
                                    order.exchangeOrderId, c.instrumentId, c.side, c.price, c.quantity, c.timeInForce);
      nextEventSequence := nextEventSequence + 1;
      events := EnterOrder(order, c.commandSequence);
      events := [accepted] + events;
    }

    lemma KnowsLists(i: InstrumentId)
      requires Wired()
      ensures Knows(i) <==> i in model.lists
    {
      BookShown(slotOfId, model.views, orders, model.lists, model.directory, i);
    }

    /** The two directories have the same keys, and a key of one instrument has an order there. */
    lemma KnowsKey(key: LiveKey)
      requires Valid()
      ensures key in orders <==> key in model.directory
      ensures key in orders ==> orders[key].instrumentId == model.directory[key].instrumentId
                                && EngineSpec.Known(State(), key, orders[key].instrumentId)
    {
      hide Apart, Agrees;
      EntryShown(slotOfId, model.views, orders, model.lists, model.directory, key);
      if key in orders {
        NamedIsKeyed(State(), key);
      }
    }

    method ProcessCancelOrder(c: Command) returns (events: seq<Event>)
      requires Valid() && c.CancelOrder?
      modifies this, frame
      ensures Wired() && fresh(frame - old(frame))
      ensures Out(State(), events) == ProcessCancel(old(State()), c)
    {
      hide Apart, Agrees, Sound, Remove, OrderIn;
      var key := LiveKey(c.accountId, c.clientOrderId);
      KnowsLists(c.instrumentId);
      KnowsKey(key);
      if !Knows(c.instrumentId) {
        events := Reject(c, InvalidInstrument);
        return;
      }
      if key !in orders || orders[key].instrumentId != c.instrumentId {
        events := Reject(c, UnknownOrderId);
        return;
      }
      var removed := DropOrder(key, c.instrumentId);
      events := [OrderCancelled(nextEventSequence, c.commandSequence, c.accountId, c.clientOrderId,
                                removed.exchangeOrderId, c.instrumentId),
                 BookOrderRemoved(nextEventSequence + 1, c.instrumentId, removed.exchangeOrderId, removed.side,
                                  removed.price)];
      nextEventSequence := nextEventSequence + 2;
    }

    method ProcessReplaceOrder(c: Command) returns (events: seq<Event>)
      requires Valid() && c.ReplaceOrder?
      modifies this, frame
      ensures Wired() && fresh(frame - old(frame))
      ensures Out(State(), events) == ProcessReplace(old(State()), c)
    {
      hide Apart, Agrees, Sound, Remove, Amend, OrderIn, Enter;
      var key := LiveKey(c.accountId, c.originalClientOrderId);
      KnowsLists(c.instrumentId);
      KnowsKey(key);
      if !Knows(c.instrumentId) {
        events := Reject(c, InvalidInstrument);
        return;
      }
      if c.newPrice <= 0 || c.newQuantity == 0 {
        events := Reject(c, InvalidReplacement);
        return;
      }
      if key !in orders || orders[key].instrumentId != c.instrumentId {
        events := Reject(c, UnknownOrderId);
        return;
      }
      var resting := OrderAt(key, c.instrumentId);
      if c.newPrice == resting.price && c.newQuantity <= resting.remaining {
        AmendOrder(key, c.instrumentId, c.newQuantity, c.newClientOrderId);
        events := [OrderReplaced(nextEventSequence, c.commandSequence, c.accountId, c.originalClientOrderId,
                                 c.newClientOrderId, resting.exchangeOrderId, c.instrumentId, c.newPrice,
                                 c.newQuantity),
                   BookOrderReduced(nextEventSequence + 1, c.instrumentId, resting.exchangeOrderId, resting.side,
                                    resting.price, c.newQuantity)];
        nextEventSequence := nextEventSequence + 2;
        return;
      }
      var removed := DropOrder(key, c.instrumentId);
      var order := Incoming(nextExchangeOrderId, c.newClientOrderId, c.accountId, c.newPrice, c.newQuantity,
                            c.newQuantity,
                            nextPriority, c.instrumentId, resting.side, resting.timeInForce);
      var announced := [OrderReplaced(nextEventSequence, c.commandSequence, c.accountId, c.originalClientOrderId,
                                      c.newClientOrderId, nextExchangeOrderId, c.instrumentId, c.newPrice,
                                      c.newQuantity),
                        BookOrderRemoved(nextEventSequence + 1, c.instrumentId, resting.exchangeOrderId, resting.side,
                                         resting.price)];
      nextExchangeOrderId, nextPriority, nextEventSequence := nextExchangeOrderId + 1, nextPriority + 1,
        nextEventSequence + 2;
      events := EnterOrder(order, c.commandSequence);
      events := announced + events;
    }

    /** One command: the whole state and everything announced are what the specification says. */
    method Process(c: Command) returns (events: seq<Event>)
      requires Valid()
      modifies this, frame
      ensures Valid() && fresh(frame - old(frame))
      ensures Out(State(), events) == EngineSpec.Process(old(State()), c)
    {
      hide Apart, Agrees, Sound, ProcessNew, ProcessCancel, ProcessReplace;
      ProcessSound(State(), c);
      match c {
        case NewOrder(_, _, _, _, _, _, _, _) => events := ProcessNewOrder(c);
        case CancelOrder(_, _, _, _) => events := ProcessCancelOrder(c);
        case ReplaceOrder(_, _, _, _, _, _, _) => events := ProcessReplaceOrder(c);
      }
    }
  }
}
