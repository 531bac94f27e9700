/** The risk gate in front of the engine, with the ledger fed by the engine's events
    (risk_engine.cpp, risk_gated_engine.cpp): what every command keeps across the three. */
module Gated {
  import opened Domain
  import opened PriceTime
  import opened Exchange
  import opened Matching
  import opened EngineSpec
  import opened EngineLaws
  import opened Completeness
  import opened LedgerSpec
  import opened Reservations

  datatype Venue = Venue(engine: Engine, ledger: Ledger)

  function CheckNew(l: Ledger, c: Command, maxQuantity: Quantity): RejectReason
    requires c.NewOrder?
  {
    if c.quantity > maxQuantity then OrderTooLarge
    else if c.side == Buy then
      if AvailableCash(l, c.accountId) < c.quantity * c.price then InsufficientFunds else NoReason
    else
      if AvailablePosition(l, c.accountId, c.instrumentId) < c.quantity then InsufficientPosition else NoReason
  }

  /** A replace is credited with the hold it replaces: only the extra exposure has to fit. */
  function CheckReplace(l: Ledger, c: Command, maxQuantity: Quantity): RejectReason
    requires c.ReplaceOrder?
  {
    var key := LiveKey(c.accountId, c.originalClientOrderId);
    if c.newQuantity > maxQuantity then OrderTooLarge
    else if key !in l.holds || l.holds[key].instrumentId != c.instrumentId then NoReason
    else if l.holds[key].side == Buy then
      var extra := c.newQuantity * c.newPrice - l.holds[key].remaining * l.holds[key].limitPrice;
      if AvailableCash(l, c.accountId) < (if extra > 0 then extra else 0) then InsufficientFunds else NoReason
    else
      var extra := if c.newQuantity > l.holds[key].remaining then c.newQuantity - l.holds[key].remaining else 0;
      if AvailablePosition(l, c.accountId, c.instrumentId) < extra then InsufficientPosition else NoReason
  }

  function Gate(v: Venue, c: Command, maxQuantity: Quantity): RejectReason {
    match c
    case NewOrder(_, _, _, _, _, _, _, _) =>
      if c.instrumentId !in v.engine.books then InvalidInstrument else CheckNew(v.ledger, c, maxQuantity)
    case ReplaceOrder(_, _, _, _, _, _, _) =>
      if c.instrumentId !in v.engine.books then InvalidInstrument else CheckReplace(v.ledger, c, maxQuantity)
    case CancelOrder(_, _, _, _) => NoReason
  }

  /** Check, then match, then settle: one command at a time. */
  function GatedOut(v: Venue, c: Command, maxQuantity: Quantity): Out {
    var reason := Gate(v, c, maxQuantity);
    if reason != NoReason then Rejected(v.engine, c, ReportId(c), reason) else Process(v.engine, c)
  }

  function GatedProcess(v: Venue, c: Command, maxQuantity: Quantity): Venue {
    var out := GatedOut(v, c, maxQuantity);
    Venue(out.engine, ApplyAll(v.ledger, out.events))
  }

  // ---------- the invariant across engine and ledger ----------

  ghost predicate BackedOrder(holds: map<LiveKey, Hold>, i: InstrumentId, o: BookOrder) {
    KeyOf(o) in holds && holds[KeyOf(o)] == Hold(i, o.side, o.price, o.remaining)
  }

  ghost predicate BackedQueue(holds: map<LiveKey, Hold>, i: InstrumentId, queue: seq<BookOrder>) {
    forall k | 0 <= k < |queue| :: BackedOrder(holds, i, queue[k])
  }

  /** Behind every resting order is a hold with its key, side, price and remaining quantity. */
  ghost predicate Backed(e: Engine, holds: map<LiveKey, Hold>) {
    forall i, side: Side | i in e.books :: BackedQueue(holds, i, e.books[i].On(side))
  }

  /** Holds and resting orders match one to one, reservations are exact, nobody is overspent. */
  ghost predicate Good(v: Venue) {
    && Sound(v.engine)
    && Complete(v.engine)
    && Backed(v.engine, v.ledger.holds)
    && v.ledger.holds.Keys == v.engine.directory.Keys
    && Exact(v.ledger)
    && Solvent(v.ledger)
  }

  /** An order that takes no reservation is covered by what is available. */
  ghost predicate Funded(l: Ledger, order: Incoming) {
    if order.side == Buy then order.remaining * order.price <= Available(l, CashOf(order.accountId))
    else order.remaining <= Available(l, UnitsOf(order.accountId, order.instrumentId))
  }

  function HoldOf(order: Incoming): Hold {
    Hold(order.instrumentId, order.side, order.price, order.remaining)
  }

  /** In the middle of a command: `order` is out of the book, with its hold if it is to rest. */
  ghost predicate Mid(e: Engine, l: Ledger, order: Incoming) {
    && Complete(e)
    && Backed(e, l.holds)
    && IncomingKey(order) !in e.directory
    && l.holds.Keys == e.directory.Keys + (if MayRest(order) then {IncomingKey(order)} else {})
    && (MayRest(order) ==> l.holds[IncomingKey(order)] == HoldOf(order))
    && Exact(l)
    && Solvent(l)
    && (order.timeInForce != GTC ==> Funded(l, order))
  }

  // ---------- one trade ----------

  /** The trade of one trip, seen by the ledger. */
  function TripTrade(e: Engine, order: Incoming, commandSequence: nat): Event
    requires order.instrumentId in e.books
    requires !Stops(e.books[order.instrumentId].On(Opposite(order.side)), order)
  {
    Tripped(e, order, commandSequence).2[0]
  }

  /** Of a trip's two events the ledger heeds the trade. */
  lemma TripLedger(e: Engine, order: Incoming, commandSequence: nat, l: Ledger)
    requires order.instrumentId in e.books
    requires !Stops(e.books[order.instrumentId].On(Opposite(order.side)), order)
    ensures ApplyAll(l, Tripped(e, order, commandSequence).2) == Apply(l, TripTrade(e, order, commandSequence))
  {
    var events := Tripped(e, order, commandSequence).2;
    assert |events| == 2 && events[1..][1..] == [];
    assert ApplyAll(l, events) == ApplyAll(Apply(l, events[0]), events[1..]);
    assert ApplyAll(Apply(l, events[0]), events[1..]) == ApplyAll(Apply(Apply(l, events[0]), events[1]), []);
  }

  /** The order in the middle of a command is behind its own leg of a trade. */
  ghost predicate Carried(l: Ledger, order: Incoming) {
    && order.remaining > 0
    && (IncomingKey(order) in l.holds <==> MayRest(order))
    && (MayRest(order) ==> l.holds[IncomingKey(order)] == HoldOf(order))
    && (order.timeInForce != GTC ==> Funded(l, order))
  }

  /** Settling a trade between an incoming and a resting order, both backed, keeps the ledger exact
      and solvent, and the incoming order funded. */
  lemma TradeSettles(l: Ledger, order: Incoming, front: BookOrder, quantity: Quantity, sequence: nat,
                     commandSequence: nat)
    requires Exact(l) && Solvent(l) && Carried(l, order)
    requires front.side == Opposite(order.side) && Crosses(order.side, order.price, front.price) && front.price > 0
    requires quantity <= order.remaining && quantity <= front.remaining
    requires IncomingKey(order) != KeyOf(front)
    requires BackedOrder(l.holds, order.instrumentId, front)
    ensures var order1 := order.(remaining := order.remaining - quantity);
            var front1 := front.(remaining := front.remaining - quantity);
            var l1 := Apply(l, Trade(sequence, commandSequence, order1, front1, quantity));
            && Exact(l1) && Solvent(l1)
            && l1.holds == HoldsAfterTrade(l.holds, order1, front1)
            && (order.timeInForce != GTC ==> Funded(l1, order1))
  {
    var i := order.instrumentId;
    var order1 := order.(remaining := order.remaining - quantity);
    var front1 := front.(remaining := front.remaining - quantity);
    var mine, theirs := AggressorParty(order1), RestingParty(front1);
    var l1 := Apply(l, Trade(sequence, commandSequence, order1, front1, quantity));
    assert (order.remaining - quantity) * order.price == order.remaining * order.price - quantity * order.price;
    if order.side == Buy {
      Reservations.Monotone(quantity, front.price, order.price);
      Reservations.Monotone(order.price, quantity, order.remaining);
      assert order.price * quantity == quantity * order.price;
      assert order.price * order.remaining == order.remaining * order.price;
      TwoLegs(l, mine, order.price, theirs, front.price, i, front.price, quantity);
    } else {
      TwoLegs(l, theirs, front.price, mine, order.price, i, front.price, quantity);
      HoldsCommute(l.holds, theirs, mine);
    }
  }

  /** The holds after a trade: the incoming order's leg, then the resting order's. */
  function HoldsAfterTrade(holds: map<LiveKey, Hold>, order1: Incoming, front1: BookOrder): map<LiveKey, Hold> {
    HoldsAfterLeg(HoldsAfterLeg(holds, AggressorParty(order1)), RestingParty(front1))
  }

  lemma HoldsCommute(holds: map<LiveKey, Hold>, a: Counterparty, b: Counterparty)
    requires LegKey(a) != LegKey(b)
    ensures HoldsAfterLeg(HoldsAfterLeg(holds, a), b) == HoldsAfterLeg(HoldsAfterLeg(holds, b), a)
  {
  }

  // ---------- the matching loop ----------

  lemma BackedTail(holds: map<LiveKey, Hold>, i: InstrumentId, queue: seq<BookOrder>)
    requires BackedQueue(holds, i, queue) && queue != []
    ensures BackedQueue(holds, i, queue[1..]) && BackedOrder(holds, i, queue[0])
  {
    assert forall k | 0 <= k < |queue| - 1 :: queue[1..][k] == queue[k + 1];
  }

  /** Changing the hold of an order that is listed, and not in this queue, leaves the queue backed. */
  lemma BackedApart(directory: Directory, holds: map<LiveKey, Hold>, holds': map<LiveKey, Hold>, i: InstrumentId,
                    gone: BookOrder, j: InstrumentId, queue: seq<BookOrder>)
    requires ListsOrder(directory, i, gone) && Lists(directory, j, queue) && BackedQueue(holds, j, queue)
    requires j != i || gone.exchangeOrderId !in Ids(queue)
    requires forall key | key in directory && key != KeyOf(gone) && key in holds ::
               key in holds' && holds'[key] == holds[key]
    ensures BackedQueue(holds', j, queue)
  {
    forall k: nat | k < |queue| ensures BackedOrder(holds', j, queue[k]) {
      assert ListsOrder(directory, j, queue[k]) && BackedOrder(holds, j, queue[k]);
      InIds(queue, k);
    }
  }

  /** One trip keeps every resting order backed. */
  lemma TripBacked(e: Engine, holds: map<LiveKey, Hold>, order: Incoming, commandSequence: nat)
    requires Complete(e) && Backed(e, holds) && order.instrumentId in e.books
    requires BookSound(e.books[order.instrumentId], e.nextExchangeOrderId)
    requires !Stops(e.books[order.instrumentId].On(Opposite(order.side)), order)
    requires IncomingKey(order) !in e.directory
    ensures var (e1, order1, events1) := Tripped(e, order, commandSequence);
            var front := e.books[order.instrumentId].On(Opposite(order.side))[0];
            var front1 := front.(remaining := front.remaining - Min(order.remaining, front.remaining));
            Backed(e1, HoldsAfterTrade(holds, order1, front1))
  {
    var (e1, order1, events1) := Tripped(e, order, commandSequence);
    var i, passive := order.instrumentId, Opposite(order.side);
    var own, contra := e.books[i].On(order.side), e.books[i].On(passive);
    var front := contra[0];
    var front1 := front.(remaining := front.remaining - Min(order.remaining, front.remaining));
    var holds' := HoldsAfterTrade(holds, order1, front1);
    assert Lists(e.directory, i, own) && Lists(e.directory, i, contra);
    assert BackedQueue(holds, i, own) && BackedQueue(holds, i, contra);
    ListsTail(e.directory, i, contra);
    BackedTail(holds, i, contra);
    InIds(contra, 0);
    TailSound(passive, contra, e.nextExchangeOrderId);
    assert forall key | key in e.directory && key != KeyOf(front) && key in holds ::
        key in holds' && holds'[key] == holds[key];
    assert front1.remaining > 0 ==> BackedOrder(holds', i, front1);
    hide Lists, Ids, QueueSound, ListsOrder, BackedQueue, BackedOrder, HoldsAfterTrade, Complete;
    BackedApart(e.directory, holds, holds', i, front, i, contra[1..]);
    forall j, side: Side | j in e1.books ensures BackedQueue(holds', j, e1.books[j].On(side)) {
      if j == i && side == passive {
        BackedFront(holds', i, contra, front1);
      } else {
        assert e1.books[j].On(side) == e.books[j].On(side);
        QueueBacked(e, holds, j, side);
        BackedApart(e.directory, holds, holds', i, front, j, e.books[j].On(side));
      }
    }
  }

  lemma BackedFront(holds: map<LiveKey, Hold>, i: InstrumentId, contra: seq<BookOrder>, front1: BookOrder)
    requires contra != [] && BackedQueue(holds, i, contra[1..])
    requires front1.remaining > 0 ==> BackedOrder(holds, i, front1)
    ensures BackedQueue(holds, i, contra[1..])
    ensures front1.remaining > 0 ==> BackedQueue(holds, i, contra[0 := front1])
  {
    var after := contra[0 := front1];
    assert forall k | 1 <= k < |contra| :: after[k] == contra[1..][k - 1];
  }

  lemma QueueBacked(e: Engine, holds: map<LiveKey, Hold>, i: InstrumentId, side: Side)
    requires Complete(e) && Backed(e, holds) && i in e.books
    ensures Lists(e.directory, i, e.books[i].On(side)) && BackedQueue(holds, i, e.books[i].On(side))
  {
  }

  /** The holds after a trade: only the two orders' own. */
  lemma HoldKeys(holds: map<LiveKey, Hold>, order1: Incoming, front1: BookOrder)
    requires IncomingKey(order1) != KeyOf(front1) && KeyOf(front1) in holds
    requires IncomingKey(order1) in holds <==> order1.timeInForce == GTC
    ensures var holds' := HoldsAfterTrade(holds, order1, front1);
            && holds'.Keys == holds.Keys - (if order1.remaining == 0 then {IncomingKey(order1)} else {})
                              - (if front1.remaining == 0 then {KeyOf(front1)} else {})
            && (MayRest(order1) ==>
                holds'[IncomingKey(order1)] == holds[IncomingKey(order1)].(remaining := order1.remaining))
  {
  }

  /** What one trip leaves of the order, the directory and the ledger's share of the events. */
  lemma TripShape(e: Engine, order: Incoming, commandSequence: nat, l: Ledger)
    requires order.instrumentId in e.books
    requires !Stops(e.books[order.instrumentId].On(Opposite(order.side)), order)
    ensures var (e1, order1, events1) := Tripped(e, order, commandSequence);
            var front := e.books[order.instrumentId].On(Opposite(order.side))[0];
            var q := Min(order.remaining, front.remaining);
            var front1 := front.(remaining := front.remaining - q);
            && order1 == order.(remaining := order.remaining - q)
            && e1.directory == (if front1.remaining == 0 then e.directory - {KeyOf(front)} else e.directory)
            && |events1| == 2 && ApplyAll(l, events1) == Apply(l, events1[0]) == Apply(Apply(l, events1[0]), events1[1])
            && events1[0] == Trade(e.nextEventSequence, commandSequence, order1, front1, q)
  {
    TripLedger(e, order, commandSequence, l);
  }

  /** The front order of a contra queue that is backed and listed. */
  lemma FrontBacked(e: Engine, l: Ledger, order: Incoming)
    requires Complete(e) && Backed(e, l.holds) && order.instrumentId in e.books
    requires BookSound(e.books[order.instrumentId], e.nextExchangeOrderId)
    requires e.books[order.instrumentId].On(Opposite(order.side)) != []
    ensures var front := e.books[order.instrumentId].On(Opposite(order.side))[0];
            && OrderSound(Opposite(order.side), front, e.nextExchangeOrderId)
            && BackedOrder(l.holds, order.instrumentId, front)
            && KeyOf(front) in e.directory
  {
    QueueBacked(e, l.holds, order.instrumentId, Opposite(order.side));
    var contra := e.books[order.instrumentId].On(Opposite(order.side));
    ListsTail(e.directory, order.instrumentId, contra);
    BackedTail(l.holds, order.instrumentId, contra);
  }

  /** One trip, with the ledger following. */
  lemma TripMid(e: Engine, l: Ledger, order: Incoming, commandSequence: nat)
    requires Mid(e, l, order) && order.instrumentId in e.books
    requires BookSound(e.books[order.instrumentId], e.nextExchangeOrderId)
    requires !Stops(e.books[order.instrumentId].On(Opposite(order.side)), order)
    ensures var (e1, order1, events1) := Tripped(e, order, commandSequence);
            Mid(e1, ApplyAll(l, events1), order1) && Steady(l, events1)
  {
    hide Tripped, Complete, Backed, Exact, Solvent, HoldsAfterTrade, QueueSound, Ids, Apply, ApplyAll, Funded, Steady;
    var (e1, order1, events1) := Tripped(e, order, commandSequence);
    var front := e.books[order.instrumentId].On(Opposite(order.side))[0];
    var q := Min(order.remaining, front.remaining);
    var front1 := front.(remaining := front.remaining - q);
    FrontBacked(e, l, order);
    TripShape(e, order, commandSequence, l);
    TripComplete(e, order, commandSequence);
    TripBacked(e, l.holds, order, commandSequence);
    TradeSettles(l, order, front, q, e.nextEventSequence, commandSequence);
    HoldKeys(l.holds, order1, front1);
    SteadyPair(l, events1);
  }

  lemma {:induction false} MatchMid(e: Engine, l: Ledger, order: Incoming, commandSequence: nat)
    requires Mid(e, l, order) && order.instrumentId in e.books
    requires MidSound(e.books[order.instrumentId].On(order.side), e.books[order.instrumentId].On(Opposite(order.side)),
                      order, e.directory, e.nextExchangeOrderId)
    ensures var m := EnterMatch(e, order, commandSequence);
            Mid(AfterMatch(e, order, m), ApplyAll(l, m.events), m.incoming) && Steady(l, m.events)
    decreases Trips(e, order)
  {
    var book := e.books[order.instrumentId];
    var own, contra := book.On(order.side), book.On(Opposite(order.side));
    MatchUnrolls(e, order, commandSequence);
    assert Between(own, contra, order.side) == book;
    if !Stops(contra, order) {
      var (e1, order1, events1) := Tripped(e, order, commandSequence);
      TripMid(e, l, order, commandSequence);
      TripsFall(e, order, commandSequence);
      StepSound(own, contra, order, e.directory, e.nextExchangeOrderId, e.nextEventSequence, commandSequence);
      hide EnterMatch, Mid;
      MatchMid(e1, ApplyAll(l, events1), order1, commandSequence);
      ApplyConcat(l, events1, EnterMatch(e1, order1, commandSequence).events);
      SteadyConcat(l, events1, EnterMatch(e1, order1, commandSequence).events);
    }
  }

  // ---------- entering ----------

  lemma BackedInserted(holds: map<LiveKey, Hold>, i: InstrumentId, side: Side, queue: seq<BookOrder>, order: BookOrder)
    requires BackedQueue(holds, i, queue) && BackedOrder(holds, i, order)
    ensures BackedQueue(holds, i, Insert(side, queue, order))
  {
    var k := BackOf(side, queue, order.price);
    var after := Insert(side, queue, order);
    forall j: nat | j < |after| ensures BackedOrder(holds, i, after[j]) {
      assert after[j] == if j < k then queue[j] else if j == k then order else queue[j - 1];
    }
  }

  /** The book's own announcement of a resting order means nothing to the ledger. */
  lemma RestLedger(e: Engine, order: Incoming, l: Ledger)
    requires order.instrumentId in e.books
    ensures ApplyAll(l, Rest(e, order).events) == l
    ensures Exact(l) && Solvent(l) ==> Steady(l, Rest(e, order).events)
  {
    hide Exact, Solvent, Insert;
    var events := Rest(e, order).events;
    if events != [] {
      assert events[1..] == [];
      assert ApplyAll(l, events) == ApplyAll(Apply(l, events[0]), []);
    }
  }

  /** Resting puts the order where its hold already says it is. */
  lemma RestBacked(e: Engine, order: Incoming, holds: map<LiveKey, Hold>)
    requires order.instrumentId in e.books && Backed(e, holds)
    requires MayRest(order) ==> BackedOrder(holds, order.instrumentId, AsBookOrder(order))
    ensures Backed(Rest(e, order).engine, holds)
    ensures Rest(e, order).engine.directory.Keys ==
            e.directory.Keys + (if MayRest(order) then {IncomingKey(order)} else {})
  {
    hide BackedQueue, BackedOrder, Insert;
    var after := Rest(e, order).engine;
    forall j, side: Side | j in after.books ensures BackedQueue(holds, j, after.books[j].On(side)) {
      assert BackedQueue(holds, j, e.books[j].On(side));
      if MayRest(order) && j == order.instrumentId && side == order.side {
        BackedInserted(holds, j, side, e.books[j].On(side), AsBookOrder(order));
      }
    }
  }

  /** Entering is matching and resting, and the ledger follows the matching. */
  lemma EnterLedger(e: Engine, order: Incoming, commandSequence: nat, l: Ledger)
    requires order.instrumentId in e.books
    ensures var m, out := EnterMatch(e, order, commandSequence), Enter(e, order, commandSequence);
            && out.engine == Rest(AfterMatch(e, order, m), m.incoming).engine
            && ApplyAll(l, out.events) == ApplyAll(l, m.events)
            && (Steady(l, m.events) && Exact(ApplyAll(l, m.events)) && Solvent(ApplyAll(l, m.events)) ==>
                Steady(l, out.events))
  {
    var m := EnterMatch(e, order, commandSequence);
    var mid := AfterMatch(e, order, m);
    hide Match, Rest, ApplyAll, Steady, Exact, Solvent;
    RestLedger(mid, m.incoming, ApplyAll(l, m.events));
    ApplyConcat(l, m.events, Rest(mid, m.incoming).events);
    if Steady(l, m.events) && Exact(ApplyAll(l, m.events)) && Solvent(ApplyAll(l, m.events)) {
      SteadyConcat(l, m.events, Rest(mid, m.incoming).events);
    }
  }

  /** An order in the middle of a command enters, and everything matches again. */
  lemma EnterGood(e: Engine, l: Ledger, order: Incoming, commandSequence: nat)
    requires Mid(e, l, order) && order.instrumentId in e.books && order.price > 0
    requires Sound(e.(nextExchangeOrderId := order.exchangeOrderId))
             && e.nextExchangeOrderId == order.exchangeOrderId + 1
    ensures var out := Enter(e, order, commandSequence);
            Good(Venue(out.engine, ApplyAll(l, out.events))) && Steady(l, out.events)
  {
    hide Enter, EnterMatch, Backed, Complete, Exact, Solvent, ApplyAll, Rest, QueueSound, Ids, Uncrossed, StandsIn,
      Steady;
    var book, m := e.books[order.instrumentId], EnterMatch(e, order, commandSequence);
    assert Between(book.On(order.side), book.On(Opposite(order.side)), order.side) == book;
    QueueSoundLater(Buy, book.bids, order.exchangeOrderId, e.nextExchangeOrderId);
    QueueSoundLater(Sell, book.asks, order.exchangeOrderId, e.nextExchangeOrderId);
    EnterSound(e, order, commandSequence);
    EnterComplete(e, order, commandSequence);
    MatchMid(e, l, order, commandSequence);
    EnterLedger(e, order, commandSequence, l);
    hide Sound;
    RestBacked(AfterMatch(e, order, m), m.incoming, ApplyAll(l, m.events).holds);
  }
}
