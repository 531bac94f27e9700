/** From engine events to the public feed (market_data_publisher.cpp): the anonymous events, under the
    feed's own sequence numbers. */
module MarketData {
  import opened Domain
  import opened PriceTime
  import opened Exchange
  import P = Protocol

  /** The readings of the injected clock: one for each message, by its number. */
  type Clock = nat -> nat

  /** The message an event becomes, if it is public. */
  function Message(e: Event, number: nat, now: nat): Option<P.Event> {
    match e
    case BookOrderAdded(_, i, id, side, price, quantity) => Some(P.AddOrder(number, now, id, i, price, quantity, side))
    case BookOrderReduced(_, i, id, _, price, remaining) => Some(P.ModifyOrder(number, now, id, i, price, remaining))
    case BookOrderRemoved(_, i, id, _, _) => Some(P.CancelOrder(number, now, id, i))
    case TradeExecuted(_, _, i, price, quantity, side, _, _) => Some(P.Trade(number, now, i, price, quantity, side))
    case _ => None
  }

  /** A number for each message sent, none for an event that sends nothing. */
  function Published(events: seq<Event>, next: nat, clock: Clock): seq<P.Event>
    decreases |events|
  {
    if events == [] then []
    else
      match Message(events[0], next, clock(next))
      case None => Published(events[1..], next, clock)
      case Some(m) => [m] + Published(events[1..], next + 1, clock)
  }

  /** The feed is numbered without a gap, and each message carries the reading taken for its number. */
  lemma {:induction false} PublishedNumbered(events: seq<Event>, next: nat, clock: Clock)
    ensures forall i | 0 <= i < |Published(events, next, clock)| ::
              Published(events, next, clock)[i].sequenceNumber == next + i
    ensures forall i | 0 <= i < |Published(events, next, clock)| ::
              Published(events, next, clock)[i].timestampNs == clock(next + i)
    decreases |events|
  {
    if events != [] {
      PublishedNumbered(events[1..], next, clock);
      PublishedNumbered(events[1..], next + 1, clock);
    }
  }

  /** A trade as everybody sees it. */
  datatype Print = Print(instrumentId: InstrumentId, price: Price, quantity: Quantity, aggressorSide: Side)

  /** The trades that were executed. */
  function Executions(events: seq<Event>): seq<Print> {
    if events == [] then []
    else
      var e := events[0];
      (if e.TradeExecuted? then [Print(e.instrumentId, e.price, e.quantity, e.aggressorSide)] else [])
      + Executions(events[1..])
  }

  /** The trades that a feed shows. */
  function Prints(feed: seq<P.Event>): seq<Print> {
    if feed == [] then []
    else
      var m := feed[0];
      (if m.Trade? then [Print(m.instrumentId, m.price, m.quantity, m.aggressorSide)] else []) + Prints(feed[1..])
  }

  /** The feed's trades are the executed ones: all of them, in order, with instrument, price, quantity and
      the side that was the aggressor. */
  lemma {:induction false} TapeIsExecutions(events: seq<Event>, next: nat, clock: Clock)
    ensures Prints(Published(events, next, clock)) == Executions(events)
    decreases |events|
  {
    if events != [] {
      match Message(events[0], next, clock(next)) {
        case None => TapeIsExecutions(events[1..], next, clock);
        case Some(m) =>
          TapeIsExecutions(events[1..], next + 1, clock);
          assert ([m] + Published(events[1..], next + 1, clock))[1..] == Published(events[1..], next + 1, clock);
      }
    }
  }

  /** What there is to know of an event without knowing whose orders it is about. */
  function Masked(e: Event): Event {
    match e
    case TradeExecuted(sequence, _, i, price, quantity, side, _, _) =>
      TradeExecuted(sequence, 0, i, price, quantity, side, Counterparty(0, 0, 0, 0), Counterparty(0, 0, 0, 0))
    case BookOrderAdded(_, _, _, _, _, _) => e
    case BookOrderReduced(_, _, _, _, _, _) => e
    case BookOrderRemoved(_, _, _, _, _) => e
    case _ => OrderCancelled(e.eventSequence, 0, 0, 0, 0, 0)
  }

  /** The feed is anonymous: exchanges that differ only in whose orders they are publish the same feed. */
  lemma {:induction false} FeedIsAnonymous(a: seq<Event>, b: seq<Event>, next: nat, clock: Clock)
    requires |a| == |b| && forall i | 0 <= i < |a| :: Masked(a[i]) == Masked(b[i])
    ensures Published(a, next, clock) == Published(b, next, clock)
    decreases |a|
  {
    if a != [] {
      assert Masked(a[0]) == Masked(b[0]);
      assert Message(a[0], next, clock(next)) == Message(b[0], next, clock(next));
      FeedIsAnonymous(a[1..], b[1..], next, clock);
      FeedIsAnonymous(a[1..], b[1..], next + 1, clock);
    }
  }

  /** The counter that numbers the feed. */
  class MarketDataPublisher {
    var nextSequence: nat

    constructor ()
      ensures nextSequence == 1
    {
      nextSequence := 1;
    }

    method Publish(e: Event, now: nat) returns (message: Option<P.Event>)
      modifies this
      ensures message == Message(e, old(nextSequence), now)
      ensures nextSequence == old(nextSequence) + (if message.Some? then 1 else 0)
    {
      message := None;
      match e {
        case BookOrderAdded(_, i, id, side, price, quantity) =>
          message := Some(P.AddOrder(nextSequence, now, id, i, price, quantity, side));
        case BookOrderReduced(_, i, id, _, price, remaining) =>
          message := Some(P.ModifyOrder(nextSequence, now, id, i, price, remaining));
        case BookOrderRemoved(_, i, id, _, _) =>
          message := Some(P.CancelOrder(nextSequence, now, id, i));
        case TradeExecuted(_, _, i, price, quantity, side, _, _) =>
          message := Some(P.Trade(nextSequence, now, i, price, quantity, side));
        case _ =>
      }
      if message.Some? {
        nextSequence := nextSequence + 1;
      }
    }
  }
}
