/** The trader's books, one arrival list for each instrument named so far, and how a message changes
    them (book_manager.cpp, apply_event in replay_engine.cpp). */
module BookManagers {
  import opened Domain
  import opened TraderSpec
  import P = Protocol

  datatype InstrumentStats = InstrumentStats(tradeCount: nat, tradedQuantity: Quantity, lastTradePrice: Price)

  datatype Books = Books(books: map<InstrumentId, seq<Arrival>>, stats: map<InstrumentId, InstrumentStats>)

  const NoBooks: Books := Books(map[], map[])

  datatype Applied = Applied(books: Books, errors: nat)

  /** The book of an instrument, empty until something names it. */
  function ListOf(b: Books, i: InstrumentId): seq<Arrival> {
    if i in b.books then b.books[i] else []
  }

  function Store(b: Books, i: InstrumentId, outcome: Outcome): Applied {
    Applied(b.(books := b.books[i := outcome.list]), if outcome.error.Some? then 1 else 0)
  }

  function RecordTrade(b: Books, i: InstrumentId, price: Price, quantity: Quantity): Books {
    var s := if i in b.stats then b.stats[i] else InstrumentStats(0, 0, 0);
    b.(stats := b.stats[i := InstrumentStats(s.tradeCount + 1, s.tradedQuantity + quantity, price)])
  }

  function ApplyEvent(b: Books, e: P.Event): Applied {
    match e
    case AddOrder(_, _, id, i, price, quantity, side) => Store(b, i, AddOrder(ListOf(b, i), id, price, quantity, side))
    case CancelOrder(_, _, id, i) => Store(b, i, CancelOrder(ListOf(b, i), id))
    case ModifyOrder(_, _, id, i, price, quantity) => Store(b, i, ModifyOrder(ListOf(b, i), id, price, quantity))
    case Trade(_, _, i, price, quantity, _) => Applied(RecordTrade(b, i, price, quantity), 0)
    case ClearBook(_, _, i) => Store(b, i, Outcome([], None))
  }

  function ApplyEvents(b: Books, events: seq<P.Event>): Applied
    decreases |events|
  {
    if events == [] then Applied(b, 0)
    else
      var first := ApplyEvent(b, events[0]);
      var rest := ApplyEvents(first.books, events[1..]);
      rest.(errors := first.errors + rest.errors)
  }

  lemma {:induction false} ApplyConcat(b: Books, x: seq<P.Event>, y: seq<P.Event>)
    ensures var first := ApplyEvents(b, x);
            var second := ApplyEvents(first.books, y);
            ApplyEvents(b, x + y) == Applied(second.books, first.errors + second.errors)
    decreases |x|
  {
    hide ApplyEvent;
    if x == [] {
      assert x + y == y;
    } else {
      assert (x + y)[0] == x[0] && (x + y)[1..] == x[1..] + y;
      ApplyConcat(ApplyEvent(b, x[0]).books, x[1..], y);
    }
  }

  /** Every book is proper, whatever the messages. */
  ghost predicate AllProper(b: Books) {
    forall i | i in b.books :: Proper(b.books[i])
  }

  lemma ApplyKeepsProper(b: Books, e: P.Event)
    requires AllProper(b)
    ensures AllProper(ApplyEvent(b, e).books)
  {
    hide Proper, TraderSpec.AddOrder, TraderSpec.CancelOrder, TraderSpec.ModifyOrder;
    var list := ListOf(b, e.instrumentId);
    assert Proper([]) by { EmptyProper(); }
    match e
    case AddOrder(_, _, id, _, price, quantity, side) => OperationsKeepProper(list, id, price, quantity, side);
    case CancelOrder(_, _, id, _) => OperationsKeepProper(list, id, 0, 0, Buy);
    case ModifyOrder(_, _, id, _, price, quantity) => OperationsKeepProper(list, id, price, quantity, Buy);
    case _ =>
  }

  lemma EmptyProper()
    ensures Proper([])
  {
  }
}
