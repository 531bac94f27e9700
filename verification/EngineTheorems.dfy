/** What a command does, in closed form: the trades it makes, the books it leaves, and when the
    directory stays complete. */
module EngineTheorems {
  import opened Domain
  import opened PriceTime
  import opened Exchange
  import opened Matching
  import opened EngineSpec
  import opened EngineLaws

  // ---------- entering the book ----------

  /** What an order that enters takes from the contra side. */
  function TakenBy(book: Book, order: Incoming): Quantity {
    Min(order.remaining, CrossableTotal(order.side, order.price, book.On(Opposite(order.side))))
  }

  /** Something of the order is left, and it may rest. */
  predicate Stays(book: Book, order: Incoming) {
    order.timeInForce == GTC && TakenBy(book, order) < order.remaining
  }

  /** The book it leaves: the contra side consumed from the front, the own side joined by the remainder
      only when it may rest. */
  function BookAfter(book: Book, order: Incoming): Book {
    var taken := TakenBy(book, order);
    var own, contra := book.On(order.side), Consume(book.On(Opposite(order.side)), taken);
    var own' := if !Stays(book, order) then own
                else Insert(order.side, own,
                            BookOrder(order.exchangeOrderId, order.clientOrderId, order.accountId, order.price,
                                      order.remaining - taken, order.side, GTC));
    if order.side == Buy then Book(own', contra) else Book(contra, own')
  }

  /** The directory it leaves: without the orders it filled whole, and with itself when it rests. */
  function DirectoryAfter(directory: Directory, book: Book, order: Incoming): Directory {
    var struck := Struck(directory, book.On(Opposite(order.side)), TakenBy(book, order));
    if !Stays(book, order) then struck
    else struck[LiveKey(order.accountId, order.clientOrderId) :=
                OrderRef(order.exchangeOrderId, order.originalQuantity, order.orderSequence, order.instrumentId)]
  }

  /** The trades of an order that enters are these fills, for what it takes, at prices it accepts, and it
      is the aggressor in each. */
  ghost predicate Trades(events: seq<Event>, book: Book, order: Incoming) {
    var party := Counterparty(order.accountId, order.clientOrderId, order.exchangeOrderId, order.remaining);
    var fills := Fills(book.On(Opposite(order.side)), TakenBy(book, order), party);
    && TradeFills(events) == fills
    && FilledQuantity(fills) == TakenBy(book, order)
    && (forall i | 0 <= i < |fills| :: Crosses(order.side, order.price, fills[i].price))
    && (forall i | 0 <= i < |events| && events[i].TradeExecuted? :: events[i].aggressorSide == order.side)
  }

  /** All that an order does to the engine when it enters: no other book changes, and no counter but the
      events'. */
  ghost predicate Entered(e: Engine, order: Incoming, events: seq<Event>, after: Engine)
    requires order.instrumentId in e.books
  {
    var book := e.books[order.instrumentId];
    && Trades(events, book, order)
    && after == e.(books := e.books[order.instrumentId := BookAfter(book, order)],
                   directory := DirectoryAfter(e.directory, book, order),
                   nextEventSequence := after.nextEventSequence)
  }

  lemma SettledShape(book: Book, order: Incoming, m: Matched)
    requires m.contra == Consume(book.On(Opposite(order.side)), TakenBy(book, order))
    requires m.incoming == order.(remaining := order.remaining - TakenBy(book, order))
    ensures Settled(book.On(order.side), m) == BookAfter(book, order)
    ensures MayRest(m.incoming) <==> Stays(book, order)
  {
    hide Insert, Consume, CrossableTotal;
  }

  lemma RestEventsHaveNoFills(e: Engine, order: Incoming)
    requires order.instrumentId in e.books
    ensures TradeFills(Rest(e, order).events) == []
    ensures forall i | 0 <= i < |Rest(e, order).events| :: !Rest(e, order).events[i].TradeExecuted?
  {
    var events := Rest(e, order).events;
    if events != [] {
      assert events[1..] == [];
    }
  }

  /** An event of a matching that `incoming` sets off: it is the aggressor in every trade. */
  ghost predicate SetOff(x: Event, incoming: Incoming, commandSequence: nat) {
    && x.instrumentId == incoming.instrumentId
    && if x.TradeExecuted? then x.commandSequence == commandSequence && x.aggressorSide == incoming.side
       else x.BookOrderReduced? || x.BookOrderRemoved?
  }

  ghost predicate AllSetOff(events: seq<Event>, incoming: Incoming, commandSequence: nat) {
    forall i | 0 <= i < |events| :: SetOff(events[i], incoming, commandSequence)
  }

  lemma {:induction false} MatchAggressor(contra: seq<BookOrder>, incoming: Incoming, directory: Directory,
                                          sequence: nat, commandSequence: nat)
    ensures AllSetOff(Match(contra, incoming, directory, sequence, commandSequence).events, incoming, commandSequence)
    decreases |contra|, incoming.remaining
  {
    if !Stops(contra, incoming) {
      var step := MatchStep(contra, incoming, directory, sequence, commandSequence);
      MatchAggressor(step.contra, step.incoming, step.directory, sequence + 2, commandSequence);
      assert AllSetOff(step.events, incoming, commandSequence);
    }
  }

  lemma EnterFills(e: Engine, order: Incoming, commandSequence: nat)
    requires order.instrumentId in e.books
    ensures var events := Enter(e, order, commandSequence).events;
            && TradeFills(events) == TradeFills(EnterMatch(e, order, commandSequence).events)
            && forall i | 0 <= i < |events| && events[i].TradeExecuted? :: events[i].aggressorSide == order.side
  {
    var m := EnterMatch(e, order, commandSequence);
    var rest := Rest(AfterMatch(e, order, m), m.incoming);
    RestEventsHaveNoFills(AfterMatch(e, order, m), m.incoming);
    MatchAggressor(e.books[order.instrumentId].On(Opposite(order.side)), order, e.directory, e.nextEventSequence,
                   commandSequence);
    hide Match, Rest, TradeFills;
    TradeFillsConcat(m.events, rest.events);
    var events := Enter(e, order, commandSequence).events;
    forall i | 0 <= i < |events| && events[i].TradeExecuted? ensures events[i].aggressorSide == order.side {
      assert i < |m.events| ==> SetOff(m.events[i], order, commandSequence);
    }
  }

  lemma EnterEffect(e: Engine, order: Incoming, commandSequence: nat)
    requires order.instrumentId in e.books
    requires Positive(e.books[order.instrumentId].On(Opposite(order.side)))
    requires Sorted(Opposite(order.side), e.books[order.instrumentId].On(Opposite(order.side)))
    ensures var out := Enter(e, order, commandSequence);
            Entered(e, order, out.events, out.engine)
  {
    var book := e.books[order.instrumentId];
    var contra := book.On(Opposite(order.side));
    var m := EnterMatch(e, order, commandSequence);
    MatchConsumes(contra, order, e.directory, e.nextEventSequence, commandSequence);
    EnterFills(e, order, commandSequence);
    EnterShape(e, order, commandSequence);
    SettledShape(book, order, m);
    FillsAddUp(order.side, order.price, contra, TakenBy(book, order), AggressorParty(order));
    hide Sound, TradeFills, Fills, FilledQuantity, Consume, CrossableTotal, Insert, Enter, Match, Crosses, Struck,
      BookAfter, Stays;
  }

  lemma {:induction false} QuietFills(events: seq<Event>)
    requires forall i | 0 <= i < |events| :: !events[i].TradeExecuted?
    ensures TradeFills(events) == []
  {
    if events != [] {
      QuietFills(events[1..]);
    }
  }

  /** Announcements in front of the trades change nothing about them. */
  lemma SameTrades(announced: seq<Event>, events: seq<Event>, book: Book, order: Incoming)
    requires forall i | 0 <= i < |announced| :: !announced[i].TradeExecuted?
    requires Trades(events, book, order)
    ensures Trades(announced + events, book, order)
  {
    QuietFills(announced);
    TradeFillsConcat(announced, events);
    hide TradeFills, Fills, FilledQuantity, TakenBy, Crosses;
  }

  // ---------- the three commands ----------

  /** One rejection, under this id and for this reason, and nothing else. */
  ghost predicate Refuses(e: Engine, c: Command, id: ClientOrderId, reason: RejectReason, out: Out) {
    && out.engine == e.(nextEventSequence := e.nextEventSequence + 1)
    && out.events == [OrderRejected(e.nextEventSequence, c.commandSequence, c.accountId, id, c.instrumentId, reason)]
  }

  /** A new order is refused for the first of five faults it has; otherwise it takes min(quantity, what
      crosses) from the contra side in price-time order, at the resting prices and never worse than its
      limit, and what is left of a GTC order, and of no other, joins the back of its price level. */
  lemma NewOrderEffect(e: Engine, c: Command)
    requires Sound(e) && c.NewOrder?
    ensures var out, id := Process(e, c), c.clientOrderId;
            if c.instrumentId !in e.books then Refuses(e, c, id, InvalidInstrument, out)
            else if c.price <= 0 then Refuses(e, c, id, InvalidPrice, out)
            else if c.quantity == 0 then Refuses(e, c, id, InvalidQuantity, out)
            else if LiveKey(c.accountId, id) in e.directory then Refuses(e, c, id, DuplicateOrderId, out)
            else
              var contra := e.books[c.instrumentId].On(Opposite(c.side));
              if c.timeInForce == FOK && CrossableTotal(c.side, c.price, contra) < c.quantity
              then Refuses(e, c, id, InsufficientLiquidity, out)
              else
                && out.events != []
                && out.events[0] == OrderAccepted(e.nextEventSequence, c.commandSequence, c.accountId, id,
                                                  e.nextExchangeOrderId, c.instrumentId, c.side, c.price, c.quantity,
                                                  c.timeInForce)
                && Entered(e.(nextExchangeOrderId := e.nextExchangeOrderId + 1, nextPriority := e.nextPriority + 1),
                           Incoming(e.nextExchangeOrderId, id, c.accountId, c.price, c.quantity, c.quantity,
                                    e.nextPriority, c.instrumentId, c.side, c.timeInForce),
                           out.events, out.engine)
  {
    hide BookSound, Uncrossed, StandsIn, Enter, BookAfter, DirectoryAfter, CrossableFrom, CrossableTotal, Trades;
    if c.instrumentId in e.books {
      SoundSides(e, c.instrumentId);
      CrossableCovers(c.side, c.price, e.books[c.instrumentId].On(Opposite(c.side)), c.quantity, 0);
      if NewRejection(e, c) == NoReason {
        NewEntered(e, c);
      }
    }
  }

  lemma NewEntered(e: Engine, c: Command)
    requires Sound(e) && c.NewOrder? && NewRejection(e, c) == NoReason
    ensures var out := Process(e, c);
            Entered(e.(nextExchangeOrderId := e.nextExchangeOrderId + 1, nextPriority := e.nextPriority + 1),
                    NewIncoming(e, c), out.events, out.engine)
  {
    hide Sound, Enter, BookAfter, DirectoryAfter, CrossableFrom, Trades;
    var order, book := NewIncoming(e, c), e.books[c.instrumentId];
    SoundSides(e, c.instrumentId);
    EnterEffect(Stamped(e), order, c.commandSequence);
    SameTrades([Process(e, c).events[0]], Enter(Stamped(e), order, c.commandSequence).events, book, order);
  }

  /** A cancel of a live order takes out the order of that key, wherever it stands, and nothing else;
      any other cancel is refused. */
  lemma CancelEffect(e: Engine, c: Command) returns (o: BookOrder, k: nat)
    requires Sound(e) && c.CancelOrder?
    ensures var key, out := LiveKey(c.accountId, c.clientOrderId), Process(e, c);
            if c.instrumentId !in e.books then Refuses(e, c, c.clientOrderId, InvalidInstrument, out)
            else if key !in e.directory || e.directory[key].instrumentId != c.instrumentId
            then Refuses(e, c, c.clientOrderId, UnknownOrderId, out)
            else
              var book := e.books[c.instrumentId];
              && k < |book.On(o.side)| && book.On(o.side)[k] == o && KeyOf(o) == key
              && out.engine == e.(books := e.books[c.instrumentId :=
                                             book.With(o.side, Without(book.On(o.side), k))],
                                  directory := e.directory - {key}, nextEventSequence := e.nextEventSequence + 2)
              && out.events == [OrderCancelled(e.nextEventSequence, c.commandSequence, c.accountId, c.clientOrderId,
                                               o.exchangeOrderId, c.instrumentId),
                                BookOrderRemoved(e.nextEventSequence + 1, c.instrumentId, o.exchangeOrderId, o.side,
                                                 o.price)]
  {
    hide BookSound, Uncrossed, StandsIn, Without, Remove, Amend, OrderIn, RestsIn, Names;
    var key := LiveKey(c.accountId, c.clientOrderId);
    o, k := BookOrder(0, 0, 0, 0, 0, Buy, GTC), 0;
    if key in e.directory && e.directory[key].instrumentId == c.instrumentId {
      o, k := NamedStands(e, key);
    }
  }

  /** Where the order of a live key stands. */
  lemma NamedStands(e: Engine, key: LiveKey) returns (o: BookOrder, k: nat)
    requires Sound(e) && key in e.directory
    ensures var i := e.directory[key].instrumentId;
            && Known(e, key, i) && o == Named(e, key, i) && KeyOf(o) == key
            && o.remaining > 0 && o.timeInForce == GTC
            && var book, id := e.books[i], e.directory[key].exchangeOrderId;
               && o.exchangeOrderId == id
               && k < |book.On(o.side)| && book.On(o.side)[k] == o
               && Remove(book, id) == book.With(o.side, Without(book.On(o.side), k))
               && forall order: BookOrder :: Amend(book, id, order) == book.With(o.side, book.On(o.side)[k := order])
  {
    NamedIsKeyed(e, key);
    var i, id := e.directory[key].instrumentId, e.directory[key].exchangeOrderId;
    var book := e.books[i];
    Located(book, e.nextExchangeOrderId, id);
    o, k := OrderIn(book, id), Find(book.On(SideOf(book, id)), id);
  }

  /** A replace is refused for the first of three faults it has; otherwise it edits the order where it
      stands, with no trade, exactly when the price is the same and the quantity no larger, or takes it
      out of its queue and lets a fresh one, with a new exchange id, enter as a new order would. */
  lemma ReplaceEffect(e: Engine, c: Command) returns (o: BookOrder, k: nat)
    requires Sound(e) && c.ReplaceOrder?
    ensures var key, out, id := LiveKey(c.accountId, c.originalClientOrderId), Process(e, c), c.originalClientOrderId;
            if c.instrumentId !in e.books then Refuses(e, c, id, InvalidInstrument, out)
            else if c.newPrice <= 0 || c.newQuantity == 0 then Refuses(e, c, id, InvalidReplacement, out)
            else if key !in e.directory || e.directory[key].instrumentId != c.instrumentId
            then Refuses(e, c, id, UnknownOrderId, out)
            else
              var book := e.books[c.instrumentId];
              && k < |book.On(o.side)| && book.On(o.side)[k] == o && KeyOf(o) == key
              && if c.newPrice == o.price && c.newQuantity <= o.remaining
                 then EditedInPlace(e, c, o, k, out)
                 else EnteredAnew(e, c, o, k, out)
  {
    hide BookSound, Uncrossed, StandsIn, Without, Remove, Amend, OrderIn, RestsIn, Names, Entered, ReplaceAnew;
    var key := LiveKey(c.accountId, c.originalClientOrderId);
    o, k := BookOrder(0, 0, 0, 0, 0, Buy, GTC), 0;
    if key in e.directory && e.directory[key].instrumentId == c.instrumentId {
      o, k := NamedStands(e, key);
      if ReplaceRejection(e, c) == NoReason && !KeepsPriority(c, o) {
        ReplacedAnew(e, c, o, k);
      }
    }
  }

  /** The order keeps its exchange id and its place, answering to its new client id. */
  ghost predicate EditedInPlace(e: Engine, c: Command, o: BookOrder, k: nat, out: Out)
    requires c.ReplaceOrder? && LiveKey(c.accountId, c.originalClientOrderId) in e.directory
    requires c.instrumentId in e.books && k < |e.books[c.instrumentId].On(o.side)|
  {
    var key, book := LiveKey(c.accountId, c.originalClientOrderId), e.books[c.instrumentId];
    var edited := book.On(o.side)[k := o.(remaining := c.newQuantity, clientOrderId := c.newClientOrderId)];
    && out.engine == e.(books := e.books[c.instrumentId := book.With(o.side, edited)],
                        directory := (e.directory - {key})[LiveKey(c.accountId, c.newClientOrderId) :=
                                                             e.directory[key]],
                        nextEventSequence := e.nextEventSequence + 2)
    && out.events == [OrderReplaced(e.nextEventSequence, c.commandSequence, c.accountId, c.originalClientOrderId,
                                    c.newClientOrderId, o.exchangeOrderId, c.instrumentId, c.newPrice, c.newQuantity),
                      BookOrderReduced(e.nextEventSequence + 1, c.instrumentId, o.exchangeOrderId, o.side, o.price,
                                       c.newQuantity)]
  }

  /** The order is out, and another with the new price, quantity and ids enters on its side. */
  ghost predicate EnteredAnew(e: Engine, c: Command, o: BookOrder, k: nat, out: Out)
    requires c.ReplaceOrder? && c.instrumentId in e.books
    requires k < |e.books[c.instrumentId].On(o.side)|
  {
    var key, book := LiveKey(c.accountId, c.originalClientOrderId), e.books[c.instrumentId];
    var left := book.With(o.side, Without(book.On(o.side), k));
    && |out.events| >= 2
    && out.events[0] == OrderReplaced(e.nextEventSequence, c.commandSequence, c.accountId, c.originalClientOrderId,
                                      c.newClientOrderId, e.nextExchangeOrderId, c.instrumentId, c.newPrice,
                                      c.newQuantity)
    && out.events[1] == BookOrderRemoved(e.nextEventSequence + 1, c.instrumentId, o.exchangeOrderId, o.side, o.price)
    && Entered(e.(books := e.books[c.instrumentId := left], directory := e.directory - {key},
                  nextExchangeOrderId := e.nextExchangeOrderId + 1, nextPriority := e.nextPriority + 1),
               Incoming(e.nextExchangeOrderId, c.newClientOrderId, c.accountId, c.newPrice, c.newQuantity,
                        c.newQuantity, e.nextPriority, c.instrumentId, o.side, GTC),
               out.events, out.engine)
  }

  lemma ReplacedAnew(e: Engine, c: Command, o: BookOrder, k: nat)
    requires Sound(e) && c.ReplaceOrder? && ReplaceRejection(e, c) == NoReason
    requires o == Named(e, LiveKey(c.accountId, c.originalClientOrderId), c.instrumentId) && !KeepsPriority(c, o)
    requires o.timeInForce == GTC && k < |e.books[c.instrumentId].On(o.side)|
    requires Remove(e.books[c.instrumentId], e.directory[LiveKey(c.accountId, c.originalClientOrderId)].exchangeOrderId)
          == e.books[c.instrumentId].With(o.side, Without(e.books[c.instrumentId].On(o.side), k))
    ensures EnteredAnew(e, c, o, k, Process(e, c))
  {
    hide Sound, Enter, BookAfter, DirectoryAfter, CrossableFrom, Trades, Remove, Without, OrderIn, RestsIn;
    var book := e.books[c.instrumentId];
    var left := book.With(o.side, Without(book.On(o.side), k));
    var w, order := Withdrawn(e, c), ReplacementIncoming(e, c);
    SoundSides(e, c.instrumentId);
    assert left.On(Opposite(o.side)) == book.On(Opposite(o.side)) && w.books[c.instrumentId] == left;
    EnterEffect(w, order, c.commandSequence);
    var out := Enter(w, order, c.commandSequence);
    var events := Process(e, c).events;
    assert events[..2] + out.events == events;
    SameTrades(events[..2], out.events, left, order);
  }

  lemma SoundSides(e: Engine, i: InstrumentId)
    requires Sound(e) && i in e.books
    ensures Positive(e.books[i].bids) && Sorted(Buy, e.books[i].bids)
    ensures Positive(e.books[i].asks) && Sorted(Sell, e.books[i].asks)
  {
    SoundQueue(Buy, e.books[i].bids, e.nextExchangeOrderId);
    SoundQueue(Sell, e.books[i].asks, e.nextExchangeOrderId);
  }

  /** A well-formed FOK order trades all of its quantity, or, when not all of it crosses, nothing. */
  lemma FillOrKill(e: Engine, c: Command)
    requires Sound(e) && c.NewOrder? && c.timeInForce == FOK
    requires c.instrumentId in e.books && c.price > 0 && c.quantity > 0
    requires LiveKey(c.accountId, c.clientOrderId) !in e.directory
    ensures var contra := e.books[c.instrumentId].On(Opposite(c.side));
            var out := Process(e, c);
            if CrossableTotal(c.side, c.price, contra) >= c.quantity
            then FilledQuantity(TradeFills(out.events)) == c.quantity
                 && out.engine.books[c.instrumentId].On(c.side) == e.books[c.instrumentId].On(c.side)
                 && out.engine.books[c.instrumentId].On(Opposite(c.side)) == Consume(contra, c.quantity)
            else |out.events| == 1 && out.events[0].OrderRejected? && out.events[0].reason == InsufficientLiquidity
                 && out.engine.books == e.books && out.engine.directory == e.directory
  {
    hide Sound, Process, Consume, Fills, TradeFills, CrossableTotal, DirectoryAfter;
    NewOrderEffect(e, c);
  }

  /** Everything a command announces is about its instrument and, the book's own announcements apart,
      carries its sequence number; what concerns the sender names its account. */
  ghost predicate Marked(x: Event, c: Command) {
    && x.instrumentId == c.instrumentId
    && (x.BookOrderAdded? || x.BookOrderReduced? || x.BookOrderRemoved? || x.commandSequence == c.commandSequence)
    && (x.OrderAccepted? || x.OrderRejected? || x.OrderCancelled? || x.OrderReplaced? ==> x.accountId == c.accountId)
  }

  lemma EnterMarked(e: Engine, order: Incoming, c: Command)
    requires order.instrumentId in e.books && order.instrumentId == c.instrumentId
    ensures var events := Enter(e, order, c.commandSequence).events;
            forall i | 0 <= i < |events| :: Marked(events[i], c)
  {
    var m := EnterMatch(e, order, c.commandSequence);
    MatchAggressor(e.books[order.instrumentId].On(Opposite(order.side)), order, e.directory, e.nextEventSequence,
                   c.commandSequence);
    hide Match, Insert;
    var events := Enter(e, order, c.commandSequence).events;
    forall i | 0 <= i < |events| ensures Marked(events[i], c) {
      assert i < |m.events| ==> SetOff(m.events[i], order, c.commandSequence);
    }
  }

  lemma ProcessMarked(e: Engine, c: Command)
    ensures var events := Process(e, c).events;
            forall i | 0 <= i < |events| :: Marked(events[i], c)
  {
    hide Enter, Remove, Amend, OrderIn, CrossableFrom;
    if c.NewOrder? && NewRejection(e, c) == NoReason {
      EnterMarked(Stamped(e), NewIncoming(e, c), c);
    }
    if c.ReplaceOrder? && ReplaceRejection(e, c) == NoReason {
      EnterMarked(Withdrawn(e, c), ReplacementIncoming(e, c), c);
    }
  }

  // ---------- event sequence numbers ----------

  ghost predicate Numbered(events: seq<Event>, first: nat) {
    forall i | 0 <= i < |events| :: events[i].eventSequence == first + i
  }

  lemma {:induction false} MatchNumbered(contra: seq<BookOrder>, incoming: Incoming, directory: Directory,
                                         sequence: nat, commandSequence: nat)
    ensures Numbered(Match(contra, incoming, directory, sequence, commandSequence).events, sequence)
    decreases |contra|, incoming.remaining
  {
    if !Stops(contra, incoming) {
      var step := MatchStep(contra, incoming, directory, sequence, commandSequence);
      MatchNumbered(step.contra, step.incoming, step.directory, sequence + 2, commandSequence);
    }
  }

  /** Event sequence numbers are gapless across everything a command announces. */
  lemma ProcessNumbered(e: Engine, c: Command)
    ensures var out := Process(e, c);
            Numbered(out.events, e.nextEventSequence)
            && out.engine.nextEventSequence == e.nextEventSequence + |out.events|
  {
    hide Match, Insert, Remove, Amend, OrderIn, CrossableFrom;
    if c.NewOrder? && NewRejection(e, c) == NoReason {
      var s, order := Stamped(e), NewIncoming(e, c);
      MatchNumbered(s.books[order.instrumentId].On(Opposite(order.side)), order, s.directory, s.nextEventSequence,
                    c.commandSequence);
    }
    if c.ReplaceOrder? && ReplaceRejection(e, c) == NoReason {
      var w, order := Withdrawn(e, c), ReplacementIncoming(e, c);
      MatchNumbered(w.books[order.instrumentId].On(Opposite(order.side)), order, w.directory, w.nextEventSequence,
                    c.commandSequence);
    }
  }

  lemma NumberedConcat(a: seq<Event>, b: seq<Event>, first: nat)
    requires Numbered(a, first) && Numbered(b, first + |a|)
    ensures Numbered(a + b, first)
  {
  }
}
