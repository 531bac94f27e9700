/** The matching engine as a function of its state (matching_engine.cpp): every book is a pair of
    price-time lists and the directory maps a live key to the order it names. */
module EngineSpec {
  import opened Domain
  import opened PriceTime
  import opened Exchange
  import opened Matching

  datatype Book = Book(bids: seq<BookOrder>, asks: seq<BookOrder>) {
    function On(side: Side): seq<BookOrder> {
      if side == Buy then bids else asks
    }

    function With(side: Side, queue: seq<BookOrder>): Book {
      if side == Buy then this.(bids := queue) else this.(asks := queue)
    }
  }

  datatype Engine = Engine(
    books: map<InstrumentId, Book>,
    directory: Directory,
    nextExchangeOrderId: ExchangeOrderId,
    nextEventSequence: nat,
    nextPriority: nat)

  datatype Out = Out(engine: Engine, events: seq<Event>)

  function Initial(universe: set<InstrumentId>): Engine {
    Engine(map i | i in universe :: Book([], []), map[], 1, 1, 1)
  }

  function Rejected(e: Engine, c: Command, clientOrderId: ClientOrderId, reason: RejectReason): Out {
    Out(e.(nextEventSequence := e.nextEventSequence + 1),
        [OrderRejected(e.nextEventSequence, c.commandSequence, c.accountId, clientOrderId, c.instrumentId, reason)])
  }

  /** The id a rejection is reported under. */
  function ReportId(c: Command): ClientOrderId {
    match c
    case NewOrder(_, _, id, _, _, _, _, _) => id
    case CancelOrder(_, _, id, _) => id
    case ReplaceOrder(_, _, id, _, _, _, _) => id
  }

  // ---------- entering the book ----------

  /** The engine after `order` is matched. */
  function AfterMatch(e: Engine, order: Incoming, m: Matched): Engine
    requires order.instrumentId in e.books
  {
    e.(books := e.books[order.instrumentId := e.books[order.instrumentId].With(Opposite(order.side), m.contra)],
       directory := m.directory,
       nextEventSequence := e.nextEventSequence + |m.events|)
  }

  /** A good-till-cancelled remainder rests; any other is discarded. */
  function Rest(e: Engine, order: Incoming): Out
    requires order.instrumentId in e.books
  {
    if order.timeInForce != GTC || order.remaining == 0 then Out(e, [])
    else
      var book := e.books[order.instrumentId];
      var queue := Insert(order.side, book.On(order.side), AsBookOrder(order));
      Out(e.(books := e.books[order.instrumentId := book.With(order.side, queue)],
             directory := e.directory[LiveKey(order.accountId, order.clientOrderId) :=
                                        OrderRef(order.exchangeOrderId, order.originalQuantity, order.orderSequence,
                                                 order.instrumentId)],
             nextEventSequence := e.nextEventSequence + 1),
          [BookOrderAdded(e.nextEventSequence, order.instrumentId, order.exchangeOrderId, order.side, order.price,
                          order.remaining)])
  }

  /** Match, then rest. */
  function Enter(e: Engine, order: Incoming, commandSequence: nat): Out
    requires order.instrumentId in e.books
  {
    var contra := e.books[order.instrumentId].On(Opposite(order.side));
    var m := Match(contra, order, e.directory, e.nextEventSequence, commandSequence);
    var out := Rest(AfterMatch(e, order, m), m.incoming);
    out.(events := m.events + out.events)
  }

  // ---------- the three commands ----------

  /** What a fill-or-kill order can reach at once. */
  function Reachable(e: Engine, c: Command): Quantity
    requires c.NewOrder? && c.instrumentId in e.books
  {
    CrossableFrom(Opposite(c.side), e.books[c.instrumentId].On(Opposite(c.side)), c.price, c.quantity, 0)
  }

  function NewRejection(e: Engine, c: Command): RejectReason
    requires c.NewOrder?
  {
    if c.instrumentId !in e.books then InvalidInstrument
    else if c.price <= 0 then InvalidPrice
    else if c.quantity == 0 then InvalidQuantity
    else if LiveKey(c.accountId, c.clientOrderId) in e.directory then DuplicateOrderId
    else if c.timeInForce == FOK && Reachable(e, c) < c.quantity then InsufficientLiquidity
    else NoReason
  }

  /** Takes the next exchange order id and the next place in the acceptance order. */
  function Stamped(e: Engine): Engine {
    e.(nextExchangeOrderId := e.nextExchangeOrderId + 1, nextPriority := e.nextPriority + 1,
       nextEventSequence := e.nextEventSequence + 1)
  }

  function NewIncoming(e: Engine, c: Command): Incoming
    requires c.NewOrder?
  {
    Incoming(e.nextExchangeOrderId, c.clientOrderId, c.accountId, c.price, c.quantity, c.quantity, e.nextPriority,
             c.instrumentId, c.side, c.timeInForce)
  }

  function ProcessNew(e: Engine, c: Command): Out
    requires c.NewOrder?
  {
    var reason := NewRejection(e, c);
    if reason != NoReason then Rejected(e, c, c.clientOrderId, reason)
    else
      var order := NewIncoming(e, c);
      var accepted := OrderAccepted(e.nextEventSequence, c.commandSequence, c.accountId, c.clientOrderId,
                                    order.exchangeOrderId, c.instrumentId, c.side, c.price, c.quantity, c.timeInForce);
      var out := Enter(Stamped(e), order, c.commandSequence);
      out.(events := [accepted] + out.events)
  }

  /** The position of an order id in a queue, or the length when it is not there. */
  function Find(queue: seq<BookOrder>, id: ExchangeOrderId): (k: nat)
    ensures k <= |queue|
    ensures k < |queue| ==> queue[k].exchangeOrderId == id
    ensures forall i | 0 <= i < k :: queue[i].exchangeOrderId != id
  {
    if queue == [] || queue[0].exchangeOrderId == id then 0 else 1 + Find(queue[1..], id)
  }

  /** The side an order id rests on. */
  function SideOf(book: Book, id: ExchangeOrderId): Side {
    if Find(book.bids, id) < |book.bids| then Buy else Sell
  }

  predicate RestsIn(book: Book, id: ExchangeOrderId) {
    Find(book.bids, id) < |book.bids| || Find(book.asks, id) < |book.asks|
  }

  function OrderIn(book: Book, id: ExchangeOrderId): (o: BookOrder)
    requires RestsIn(book, id)
    ensures o.exchangeOrderId == id
  {
    var queue := book.On(SideOf(book, id));
    queue[Find(queue, id)]
  }

  function Remove(book: Book, id: ExchangeOrderId): Book
    requires RestsIn(book, id)
  {
    var side := SideOf(book, id);
    book.With(side, Without(book.On(side), Find(book.On(side), id)))
  }

  function Amend(book: Book, id: ExchangeOrderId, order: BookOrder): Book
    requires RestsIn(book, id)
  {
    var side := SideOf(book, id);
    book.With(side, book.On(side)[Find(book.On(side), id) := order])
  }

  /** The key names an order of this instrument. */
  predicate Known(e: Engine, key: LiveKey, instrumentId: InstrumentId) {
    && instrumentId in e.books
    && key in e.directory
    && e.directory[key].instrumentId == instrumentId
    && RestsIn(e.books[instrumentId], e.directory[key].exchangeOrderId)
  }

  function Named(e: Engine, key: LiveKey, instrumentId: InstrumentId): BookOrder
    requires Known(e, key, instrumentId)
  {
    OrderIn(e.books[instrumentId], e.directory[key].exchangeOrderId)
  }

  function ProcessCancel(e: Engine, c: Command): Out
    requires c.CancelOrder?
  {
    var key := LiveKey(c.accountId, c.clientOrderId);
    if c.instrumentId !in e.books then Rejected(e, c, c.clientOrderId, InvalidInstrument)
    else if !Known(e, key, c.instrumentId) then Rejected(e, c, c.clientOrderId, UnknownOrderId)
    else
      var book := e.books[c.instrumentId];
      var removed := Named(e, key, c.instrumentId);
      Out(e.(books := e.books[c.instrumentId := Remove(book, removed.exchangeOrderId)],
             directory := e.directory - {key},
             nextEventSequence := e.nextEventSequence + 2),
          [OrderCancelled(e.nextEventSequence, c.commandSequence, c.accountId, c.clientOrderId,
                          removed.exchangeOrderId, c.instrumentId),
           BookOrderRemoved(e.nextEventSequence + 1, c.instrumentId, removed.exchangeOrderId, removed.side,
                            removed.price)])
  }

  predicate KeepsPriority(c: Command, resting: BookOrder)
    requires c.ReplaceOrder?
  {
    c.newPrice == resting.price && c.newQuantity <= resting.remaining
  }

  /** Same order, same place in the queue, answering to its new client id. */
  function ReplaceInPlace(e: Engine, c: Command): Out
    requires c.ReplaceOrder? && Known(e, LiveKey(c.accountId, c.originalClientOrderId), c.instrumentId)
  {
    var key := LiveKey(c.accountId, c.originalClientOrderId);
    var resting := Named(e, key, c.instrumentId);
    var order := resting.(remaining := c.newQuantity, clientOrderId := c.newClientOrderId);
    var book := e.books[c.instrumentId];
    Out(e.(books := e.books[c.instrumentId := Amend(book, resting.exchangeOrderId, order)],
           directory := (e.directory - {key})[LiveKey(c.accountId, c.newClientOrderId) := e.directory[key]],
           nextEventSequence := e.nextEventSequence + 2),
        [OrderReplaced(e.nextEventSequence, c.commandSequence, c.accountId, c.originalClientOrderId,
                       c.newClientOrderId, resting.exchangeOrderId, c.instrumentId, c.newPrice, c.newQuantity),
         BookOrderReduced(e.nextEventSequence + 1, c.instrumentId, resting.exchangeOrderId, resting.side,
                          resting.price, c.newQuantity)])
  }

  /** The engine once the old order of a replace is gone and the new one has its id. */
  function Withdrawn(e: Engine, c: Command): Engine
    requires c.ReplaceOrder? && Known(e, LiveKey(c.accountId, c.originalClientOrderId), c.instrumentId)
  {
    var key := LiveKey(c.accountId, c.originalClientOrderId);
    Stamped(e).(books := e.books[c.instrumentId := Remove(e.books[c.instrumentId], e.directory[key].exchangeOrderId)],
                directory := e.directory - {key},
                nextEventSequence := e.nextEventSequence + 2)
  }

  function ReplacementIncoming(e: Engine, c: Command): Incoming
    requires c.ReplaceOrder? && Known(e, LiveKey(c.accountId, c.originalClientOrderId), c.instrumentId)
  {
    var resting := Named(e, LiveKey(c.accountId, c.originalClientOrderId), c.instrumentId);
    Incoming(e.nextExchangeOrderId, c.newClientOrderId, c.accountId, c.newPrice, c.newQuantity, c.newQuantity,
             e.nextPriority, c.instrumentId, resting.side, resting.timeInForce)
  }

  /** Cancel plus new: the fresh order enters the ordinary matching path. */
  function ReplaceAnew(e: Engine, c: Command): Out
    requires c.ReplaceOrder? && Known(e, LiveKey(c.accountId, c.originalClientOrderId), c.instrumentId)
  {
    var resting := Named(e, LiveKey(c.accountId, c.originalClientOrderId), c.instrumentId);
    var out := Enter(Withdrawn(e, c), ReplacementIncoming(e, c), c.commandSequence);
    out.(events :=
           [OrderReplaced(e.nextEventSequence, c.commandSequence, c.accountId, c.originalClientOrderId,
                          c.newClientOrderId, e.nextExchangeOrderId, c.instrumentId, c.newPrice, c.newQuantity),
            BookOrderRemoved(e.nextEventSequence + 1, c.instrumentId, resting.exchangeOrderId, resting.side,
                             resting.price)]
           + out.events)
  }

  function ReplaceRejection(e: Engine, c: Command): RejectReason
    requires c.ReplaceOrder?
  {
    if c.instrumentId !in e.books then InvalidInstrument
    else if c.newPrice <= 0 || c.newQuantity == 0 then InvalidReplacement
    else if !Known(e, LiveKey(c.accountId, c.originalClientOrderId), c.instrumentId) then UnknownOrderId
    else NoReason
  }

  function ProcessReplace(e: Engine, c: Command): Out
    requires c.ReplaceOrder?
  {
    var reason := ReplaceRejection(e, c);
    if reason != NoReason then Rejected(e, c, c.originalClientOrderId, reason)
    else if KeepsPriority(c, Named(e, LiveKey(c.accountId, c.originalClientOrderId), c.instrumentId))
    then ReplaceInPlace(e, c)
    else ReplaceAnew(e, c)
  }

  function Process(e: Engine, c: Command): Out {
    match c
    case NewOrder(_, _, _, _, _, _, _, _) => ProcessNew(e, c)
    case CancelOrder(_, _, _, _) => ProcessCancel(e, c)
    case ReplaceOrder(_, _, _, _, _, _, _) => ProcessReplace(e, c)
  }
}
