/** The matching walk (matching_engine.cpp, match_and_rest) on one contra side held as a
    price-time list, and what it computes in closed form. */
module Matching {
  import opened Domain
  import opened PriceTime
  import opened Exchange

  datatype Matched = Matched(contra: seq<BookOrder>, incoming: Incoming, directory: Directory, events: seq<Event>)

  function Min(a: nat, b: nat): nat {
    if a <= b then a else b
  }

  function AggressorParty(order: Incoming): Counterparty {
    Counterparty(order.accountId, order.clientOrderId, order.exchangeOrderId, order.remaining)
  }

  function RestingParty(order: BookOrder): Counterparty {
    Counterparty(order.accountId, order.clientOrderId, order.exchangeOrderId, order.remaining)
  }

  /** A trade executes at the resting order's price; both orders are shown as it leaves them. */
  function Trade(sequence: nat, commandSequence: nat, incoming: Incoming, resting: BookOrder,
                 quantity: Quantity): Event {
    TradeExecuted(sequence, commandSequence, incoming.instrumentId, resting.price, quantity, incoming.side,
                  if incoming.side == Buy then AggressorParty(incoming) else RestingParty(resting),
                  if incoming.side == Buy then RestingParty(resting) else AggressorParty(incoming))
  }

  predicate Stops(contra: seq<BookOrder>, incoming: Incoming) {
    incoming.remaining == 0 || contra == [] || !Crosses(incoming.side, incoming.price, contra[0].price)
  }

  /** One trip round the loop. */
  function MatchStep(contra: seq<BookOrder>, incoming: Incoming, directory: Directory,
                     sequence: nat, commandSequence: nat): Matched
    requires !Stops(contra, incoming)
  {
    var front := contra[0];
    var quantity := Min(incoming.remaining, front.remaining);
    var incoming' := incoming.(remaining := incoming.remaining - quantity);
    var front' := front.(remaining := front.remaining - quantity);
    var trade := Trade(sequence, commandSequence, incoming', front', quantity);
    if front'.remaining == 0 then
      Matched(contra[1..], incoming', directory - {KeyOf(front)},
              [trade, BookOrderRemoved(sequence + 1, incoming.instrumentId, front.exchangeOrderId, front.side,
                                       front.price)])
    else
      Matched(contra[0 := front'], incoming', directory,
              [trade, BookOrderReduced(sequence + 1, incoming.instrumentId, front.exchangeOrderId, front.side,
                                       front.price,
                                       front'.remaining)])
  }

  function Match(contra: seq<BookOrder>, incoming: Incoming, directory: Directory,
                 sequence: nat, commandSequence: nat): (m: Matched)
    ensures m.incoming.remaining <= incoming.remaining
    ensures m.incoming == incoming.(remaining := m.incoming.remaining)
    decreases |contra|, incoming.remaining
  {
    if Stops(contra, incoming) then Matched(contra, incoming, directory, [])
    else
      var step := MatchStep(contra, incoming, directory, sequence, commandSequence);
      var rest := Match(step.contra, step.incoming, step.directory, sequence + 2, commandSequence);
      rest.(events := step.events + rest.events)
  }

  // ---------- the closed form ----------

  /** The quantity resting at prices that cross. */
  function CrossableTotal(side: Side, limit: Price, contra: seq<BookOrder>): Quantity {
    if contra == [] then 0
    else (if Crosses(side, limit, contra[0].price) then contra[0].remaining else 0)
         + CrossableTotal(side, limit, contra[1..])
  }

  /** What is left after `quantity` is taken from the front of a queue. */
  function Consume(queue: seq<BookOrder>, quantity: Quantity): seq<BookOrder> {
    if quantity == 0 || queue == [] then queue
    else if queue[0].remaining <= quantity then Consume(queue[1..], quantity - queue[0].remaining)
    else queue[0 := queue[0].(remaining := queue[0].remaining - quantity)]
  }

  /** A trade, seen from its two sides: each with what is left on its order. */
  datatype Fill = Fill(passive: Counterparty, active: Counterparty, price: Price, quantity: Quantity)

  function Less(party: Counterparty, quantity: Quantity): Counterparty {
    party.(remaining := if quantity <= party.remaining then party.remaining - quantity else 0)
  }

  /** Who gives how much, and at what price, when an order takes `quantity` from the front of a queue. */
  function Fills(queue: seq<BookOrder>, quantity: Quantity, active: Counterparty): seq<Fill> {
    if quantity == 0 || queue == [] then []
    else
      var q := Min(quantity, queue[0].remaining);
      [FrontFill(queue[0], active, q)] + Fills(queue[1..], quantity - q, Less(active, q))
  }

  /** The fill when `q` is taken from one order. */
  function FrontFill(o: BookOrder, active: Counterparty, q: Quantity): Fill
    requires q <= o.remaining
  {
    Fill(Counterparty(o.accountId, o.clientOrderId, o.exchangeOrderId, o.remaining - q), Less(active, q), o.price, q)
  }

  /** The directory without the orders that taking `quantity` from the front of a queue fills whole. */
  function Struck(directory: Directory, queue: seq<BookOrder>, quantity: Quantity): Directory
    decreases |queue|
  {
    if quantity == 0 || queue == [] || queue[0].remaining > quantity then directory
    else
      Struck(directory - {LiveKey(queue[0].accountId, queue[0].clientOrderId)}, queue[1..],
             quantity - queue[0].remaining)
  }

  /** A trade, as its passive and its active side. */
  function FillOf(e: Event): seq<Fill> {
    if !e.TradeExecuted? then []
    else if e.aggressorSide == Buy then [Fill(e.seller, e.buyer, e.price, e.quantity)]
    else [Fill(e.buyer, e.seller, e.price, e.quantity)]
  }

  function TradeFills(events: seq<Event>): seq<Fill> {
    if events == [] then [] else FillOf(events[0]) + TradeFills(events[1..])
  }

  ghost predicate Positive(queue: seq<BookOrder>) {
    forall i | 0 <= i < |queue| :: queue[i].remaining > 0
  }

  lemma {:induction false} TradeFillsConcat(a: seq<Event>, b: seq<Event>)
    ensures TradeFills(a + b) == TradeFills(a) + TradeFills(b)
  {
    hide FillOf;
    if a == [] {
      assert a + b == b;
    } else {
      assert (a + b)[0] == a[0] && (a + b)[1..] == a[1..] + b;
      TradeFillsConcat(a[1..], b);
    }
  }

  /** Behind an order that does not cross, none does. */
  lemma NothingCrossesBehind(side: Side, limit: Price, contra: seq<BookOrder>)
    requires Sorted(Opposite(side), contra)
    requires contra != [] ==> !Crosses(side, limit, contra[0].price)
    ensures CrossableTotal(side, limit, contra) == 0
  {
    if |contra| > 1 {
      assert !Better(Opposite(side), contra[1].price, contra[0].price);
      NothingCrossesBehind(side, limit, contra[1..]);
    }
  }

  /** One trip takes the front order, or as much of it as is wanted. */
  lemma StepConsumes(contra: seq<BookOrder>, incoming: Incoming, directory: Directory,
                     sequence: nat, commandSequence: nat)
    requires Sorted(Opposite(incoming.side), contra) && Positive(contra) && !Stops(contra, incoming)
    ensures var step := MatchStep(contra, incoming, directory, sequence, commandSequence);
            var q := Min(incoming.remaining, contra[0].remaining);
            && q > 0 && step.incoming == incoming.(remaining := incoming.remaining - q)
            && TradeFills(step.events) == [FrontFill(contra[0], AggressorParty(incoming), q)]
            && Sorted(Opposite(incoming.side), step.contra) && Positive(step.contra)
            && (if contra[0].remaining <= incoming.remaining then
                  step.contra == contra[1..] && step.directory == directory - {KeyOf(contra[0])}
                else step.directory == directory && step.incoming.remaining == 0
                     && step.contra == contra[0 := contra[0].(remaining := contra[0].remaining - q)])
  {
    var step := MatchStep(contra, incoming, directory, sequence, commandSequence);
    assert step.events[1..] == [step.events[1]];
    assert [step.events[1]][1..] == [];
    assert TradeFills([step.events[1]]) == FillOf(step.events[1]);
    assert FillOf(step.events[1]) == [];
  }

  /** The closed form, when the front order is taken whole. */
  lemma TakeWhole(side: Side, limit: Price, contra: seq<BookOrder>, wanted: Quantity, active: Counterparty,
                  directory: Directory)
    requires contra != [] && Crosses(side, limit, contra[0].price) && 0 < contra[0].remaining <= wanted
    ensures var q := contra[0].remaining;
            var taken := Min(wanted, CrossableTotal(side, limit, contra));
            var taken' := Min(wanted - q, CrossableTotal(side, limit, contra[1..]));
            && taken == q + taken'
            && Consume(contra, taken) == Consume(contra[1..], taken')
            && Fills(contra, taken, active) ==
               [FrontFill(contra[0], active, q)] + Fills(contra[1..], taken', Less(active, q))
            && Struck(directory, contra, taken) == Struck(directory - {KeyOf(contra[0])}, contra[1..], taken')
  {
  }

  /** The closed form, when only part of the front order is wanted. */
  lemma TakePart(side: Side, limit: Price, contra: seq<BookOrder>, wanted: Quantity, active: Counterparty,
                 directory: Directory)
    requires contra != [] && Crosses(side, limit, contra[0].price) && 0 < wanted < contra[0].remaining
    ensures Min(wanted, CrossableTotal(side, limit, contra)) == wanted
    ensures Consume(contra, wanted) == contra[0 := contra[0].(remaining := contra[0].remaining - wanted)]
    ensures Fills(contra, wanted, active) == [FrontFill(contra[0], active, wanted)]
    ensures Struck(directory, contra, wanted) == directory
  {
    assert Fills(contra[1..], 0, Less(active, wanted)) == [];
  }

  /** What the loop computes: it takes `taken` from the front of `contra`. */
  ghost predicate Took(contra: seq<BookOrder>, incoming: Incoming, directory: Directory, m: Matched, taken: Quantity) {
    && taken <= incoming.remaining
    && m.incoming == incoming.(remaining := incoming.remaining - taken)
    && m.contra == Consume(contra, taken)
    && m.directory == Struck(directory, contra, taken)
    && TradeFills(m.events) == Fills(contra, taken, AggressorParty(incoming))
    && Stops(m.contra, m.incoming)
  }

  lemma TookWhole(contra: seq<BookOrder>, incoming: Incoming, directory: Directory, step: Matched, rest: Matched)
    requires contra != [] && Crosses(incoming.side, incoming.price, contra[0].price)
    requires 0 < contra[0].remaining <= incoming.remaining && step.contra == contra[1..]
    requires step.incoming == incoming.(remaining := incoming.remaining - contra[0].remaining)
    requires step.directory == directory - {KeyOf(contra[0])}
    requires TradeFills(step.events) == [FrontFill(contra[0], AggressorParty(incoming), contra[0].remaining)]
    requires Took(step.contra, step.incoming, step.directory, rest,
                  Min(step.incoming.remaining, CrossableTotal(incoming.side, incoming.price, step.contra)))
    ensures Took(contra, incoming, directory, rest.(events := step.events + rest.events),
                 Min(incoming.remaining, CrossableTotal(incoming.side, incoming.price, contra)))
  {
    TakeWhole(incoming.side, incoming.price, contra, incoming.remaining, AggressorParty(incoming), directory);
    TradeFillsConcat(step.events, rest.events);
    assert Less(AggressorParty(incoming), contra[0].remaining) == AggressorParty(step.incoming);
    hide Consume, Fills, Struck, CrossableTotal, TradeFills, Crosses;
  }

  /** The loop takes min(quantity, what crosses) from the front of the contra side, filling orders
      in price-then-arrival order at their own prices, and stops for lack of one or the other. */
  lemma {:induction false} MatchConsumes(contra: seq<BookOrder>, incoming: Incoming, directory: Directory,
                                         sequence: nat, commandSequence: nat)
    requires Sorted(Opposite(incoming.side), contra) && Positive(contra)
    ensures Took(contra, incoming, directory, Match(contra, incoming, directory, sequence, commandSequence),
                 Min(incoming.remaining, CrossableTotal(incoming.side, incoming.price, contra)))
    decreases |contra|, incoming.remaining
  {
    if Stops(contra, incoming) {
      if incoming.remaining > 0 {
        NothingCrossesBehind(incoming.side, incoming.price, contra);
      }
    } else {
      var step := MatchStep(contra, incoming, directory, sequence, commandSequence);
      var rest := Match(step.contra, step.incoming, step.directory, sequence + 2, commandSequence);
      assert Match(contra, incoming, directory, sequence, commandSequence) ==
             rest.(events := step.events + rest.events);
      StepConsumes(contra, incoming, directory, sequence, commandSequence);
      hide MatchStep, FillOf, TradeFills, Consume, Fills, Struck, CrossableTotal;
      if contra[0].remaining <= incoming.remaining {
        MatchConsumes(step.contra, step.incoming, step.directory, sequence + 2, commandSequence);
        TookWhole(contra, incoming, directory, step, rest);
      } else {
        TakePart(incoming.side, incoming.price, contra, incoming.remaining, AggressorParty(incoming), directory);
        assert step.events + rest.events == step.events;
      }
    }
  }

  /** FOK's early-stopping walk covers the quantity exactly when what crosses does. */
  lemma {:induction false} CrossableCovers(side: Side, limit: Price, contra: seq<BookOrder>, quantity: Quantity,
                                           total: Quantity)
    requires Sorted(Opposite(side), contra)
    ensures CrossableFrom(Opposite(side), contra, limit, quantity, total) >= quantity
            <==> total + CrossableTotal(side, limit, contra) >= quantity
  {
    if contra != [] && Crosses(side, limit, contra[0].price) {
      CrossableCovers(side, limit, contra[1..], quantity, total + contra[0].remaining);
    } else {
      NothingCrossesBehind(side, limit, contra);
    }
  }

  /** The quantity on a queue. */
  function Total(queue: seq<BookOrder>): Quantity {
    if queue == [] then 0 else queue[0].remaining + Total(queue[1..])
  }

  function FilledQuantity(fills: seq<Fill>): Quantity {
    if fills == [] then 0 else fills[0].quantity + FilledQuantity(fills[1..])
  }

  /** The fills add up to what was taken, and each is at a price that crosses. */
  lemma {:induction false} FillsAddUp(side: Side, limit: Price, contra: seq<BookOrder>, quantity: Quantity,
                                      active: Counterparty)
    requires Sorted(Opposite(side), contra) && quantity <= CrossableTotal(side, limit, contra)
    ensures var fills := Fills(contra, quantity, active);
            && FilledQuantity(fills) == quantity
            && forall i | 0 <= i < |fills| :: Crosses(side, limit, fills[i].price)
  {
    if quantity > 0 && contra != [] {
      if !Crosses(side, limit, contra[0].price) {
        NothingCrossesBehind(side, limit, contra);
      }
      var q := Min(quantity, contra[0].remaining);
      FillsAddUp(side, limit, contra[1..], quantity - q, Less(active, q));
      assert Fills(contra, quantity, active)[1..] == Fills(contra[1..], quantity - q, Less(active, q));
    }
  }

  /** What is taken from a queue is what its total loses. */
  lemma {:induction false} ConsumeTotal(queue: seq<BookOrder>, quantity: Quantity)
    requires quantity <= Total(queue)
    ensures Total(Consume(queue, quantity)) == Total(queue) - quantity
  {
    if quantity > 0 && queue != [] {
      if queue[0].remaining <= quantity {
        ConsumeTotal(queue[1..], quantity - queue[0].remaining);
      } else {
        assert Consume(queue, quantity)[1..] == queue[1..];
      }
    }
  }
}
