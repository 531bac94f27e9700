/** The registry of order books (book_manager.cpp), kept in place and proved against BookManagers. */
module BookRegistry {
  import opened Domain
  import opened TraderSpec
  import opened TraderBooks
  import opened BookManagers
  import P = Protocol

  /** The book is sound, keeps within these objects and holds these orders. */
  ghost predicate Keeps(book: OrderBook, frame: set<object>, list: seq<Arrival>)
    reads frame
  {
    book in frame && book.Repr() <= frame && book.Valid() && book.arrivals == list
  }

  lemma KeptBook(book: OrderBook, frame: set<object>, list: seq<Arrival>)
    requires Keeps(book, frame, list)
    ensures book in frame && book.Repr() <= frame && book.Valid() && book.arrivals == list
  {
  }

  lemma KeepsIt(book: OrderBook, frame: set<object>)
    requires book.Repr() <= frame && book.Valid()
    ensures Keeps(book, frame, book.arrivals)
  {
  }

  /** The books share no object. */
  ghost predicate Apart(frames: map<InstrumentId, set<object>>, frame: set<object>) {
    && (forall j | j in frames :: frames[j] <= frame)
    && (forall j, k | j in frames && k in frames && j != k :: frames[j] !! frames[k])
  }

  lemma ApartFrom(frames: map<InstrumentId, set<object>>, frame: set<object>, i: InstrumentId, j: InstrumentId)
    requires Apart(frames, frame) && i in frames && j in frames && i != j
    ensures frames[i] !! frames[j]
  {
  }

  lemma GrownApart(frames: map<InstrumentId, set<object>>, frame: set<object>, i: InstrumentId, more: set<object>)
    requires Apart(frames, frame) && more !! frame
    ensures Apart(frames[i := (if i in frames then frames[i] else {}) + more], frame + more)
  {
  }

  /** What each book is made of and holds. */
  datatype Model = Model(frames: map<InstrumentId, set<object>>, lists: map<InstrumentId, seq<Arrival>>)

  /** What a message other than a trade does to the book it names. */
  function OutcomeOf(list: seq<Arrival>, e: P.Event): Outcome {
    match e
    case AddOrder(_, _, id, _, price, quantity, side) => TraderSpec.AddOrder(list, id, price, quantity, side)
    case CancelOrder(_, _, id, _) => TraderSpec.CancelOrder(list, id)
    case ModifyOrder(_, _, id, _, price, quantity) => TraderSpec.ModifyOrder(list, id, price, quantity)
    case _ => Outcome([], None)
  }

  method ApplyTo(book: OrderBook, e: P.Event) returns (error: Option<BookError>)
    requires book.Valid() && !e.Trade?
    modifies book.Repr()
    ensures book.Valid() && fresh(book.Repr() - old(book.Repr()))
    ensures Outcome(book.arrivals, error) == OutcomeOf(old(book.arrivals), e)
  {
    hide OrderBook.Valid, TraderSpec.AddOrder, TraderSpec.CancelOrder, TraderSpec.ModifyOrder;
    match e {
      case AddOrder(_, _, id, _, price, quantity, side) => error := book.AddOrder(id, price, quantity, side);
      case CancelOrder(_, _, id, _) => error := book.CancelOrder(id);
      case ModifyOrder(_, _, id, _, price, quantity) => error := book.ModifyOrder(id, price, quantity);
      case ClearBook(_, _, _) =>
        book.Clear();
        error := None;
    }
  }

  class BookManager {
    var books: map<InstrumentId, OrderBook>
    var stats: map<InstrumentId, InstrumentStats>
    /** Everything the books are made of. */
    ghost var frame: set<object>
    ghost var model: Model

    /** The books as a value. */
    ghost function State(): Books
      reads this
    {
      Books(model.lists, stats)
    }

    ghost predicate Valid()
      reads `books, `frame, `model, frame
    {
      && this !in frame && Apart(model.frames, frame)
      && model.frames.Keys == model.lists.Keys == books.Keys
      && (forall j | j in books :: model.frames[j] <= frame && Keeps(books[j], model.frames[j], model.lists[j]))
    }

    constructor ()
      ensures Valid() && fresh(frame) && State() == NoBooks
    {
      books, stats, frame, model := map[], map[], {}, Model(map[], map[]);
    }

    /** The book of an instrument, made when something first names it. */
    method BookFor(i: InstrumentId) returns (book: OrderBook)
      requires Valid()
      modifies this
      ensures Valid() && fresh(frame - old(frame)) && i in books && book == books[i] && stats == old(stats)
      ensures model.lists == old(model).lists[i := ListOf(old(State()), i)]
    {
      hide Keeps, Apart, OrderBook.Valid, OrderBook.Repr;
      if i in books {
        return books[i];
      }
      book := new OrderBook();
      ghost var repr := book.Repr();
      KeepsIt(book, repr);
      GrownApart(model.frames, frame, i, repr);
      assert {} + repr == repr;
      books := books[i := book];
      frame := frame + repr;
      model := Model(model.frames[i := repr], model.lists[i := []]);
    }

    method RecordTrade(i: InstrumentId, price: Price, quantity: Quantity)
      requires Valid()
      modifies `stats
      ensures Valid() && State() == BookManagers.RecordTrade(old(State()), i, price, quantity)
    {
      var s := if i in stats then stats[i] else InstrumentStats(0, 0, 0);
      stats := stats[i := InstrumentStats(s.tradeCount + 1, s.tradedQuantity + quantity, price)];
    }

    method Update(i: InstrumentId, e: P.Event) returns (error: Option<BookError>)
      requires Valid() && i in books && !e.Trade?
      modifies this, frame
      ensures Valid() && fresh(frame - old(frame)) && stats == old(stats)
      ensures var outcome := OutcomeOf(old(model).lists[i], e);
              error == outcome.error && model.lists == old(model).lists[i := outcome.list]
    {
      hide Keeps, Apart, OutcomeOf, OrderBook.Valid, OrderBook.Repr;
      var book := books[i];
      KeptBook(book, model.frames[i], model.lists[i]);
      ghost var repr := book.Repr();
      forall j | j in books && j != i ensures model.frames[j] !! repr {
        ApartFrom(model.frames, frame, i, j);
      }
      error := ApplyTo(book, e);
      ghost var more := book.Repr() - repr;
      GrownApart(model.frames, frame, i, more);
      KeepsIt(book, model.frames[i] + more);
      frame := frame + more;
      model := Model(model.frames[i := model.frames[i] + more], model.lists[i := book.arrivals]);
    }

    /** Applies a message; true when the book it names refuses it. */
    method ApplyEvent(e: P.Event) returns (refused: bool)
      requires Valid()
      modifies this, frame
      ensures Valid() && fresh(frame - old(frame))
      ensures Applied(State(), if refused then 1 else 0) == BookManagers.ApplyEvent(old(State()), e)
    {
      hide Keeps, Apart, OutcomeOf, OrderBook.Valid, OrderBook.Repr, Valid;
      if e.Trade? {
        RecordTrade(e.instrumentId, e.price, e.quantity);
        return false;
      }
      StoresOutcome(State(), e);
      var book := BookFor(e.instrumentId);
      var error := Update(e.instrumentId, e);
      refused := error.Some?;
    }
  }

  lemma StoresOutcome(b: Books, e: P.Event)
    requires !e.Trade?
    ensures BookManagers.ApplyEvent(b, e) == Store(b, e.instrumentId, OutcomeOf(ListOf(b, e.instrumentId), e))
  {
  }
}
