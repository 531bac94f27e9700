/** The feed generator (apps/feed_generator/main.cpp): whatever the random draws, and wherever it is cut
    off, the feed it writes replays without a fault. */
module FeedGenerator {
  import opened Domain
  import opened PriceTime
  import opened TraderSpec
  import opened TraderBooks
  import opened BookManagers
  import opened ByteIo
  import opened Codec
  import opened Framing
  import opened Replay
  import P = Protocol

  datatype OpenOrder = OpenOrder(instrumentId: InstrumentId, orderId: OrderId)

  datatype EventKind = Add | Cancel | Modify | Trade | Clear

  /** The draws of one round; a round uses those its kind asks for. */
  datatype Draw = Draw(step: nat, roll: nat, instrument: InstrumentId, side: Side, jitter: int, quantity: Quantity,
                       index: nat)

  datatype Generator = Generator(open: seq<OpenOrder>, mids: seq<int>, nextSequence: nat, nextOrderId: nat,
                                 timestamp: nat, adds: nat)

  /** More rounds than this and the timestamp could leave its 64 bits. */
  const LONGEST: nat := 18_446_744_072_709_551

  /** One more than the most instruments there can be: the table of mid prices has one entry more than
      there are instruments, and its size is a 32-bit sum. */
  const MOST_INSTRUMENTS: nat := 0xFFFF_FFFF

  function Opening(instruments: nat): (g: Generator)
    requires 0 < instruments < MOST_INSTRUMENTS
    ensures Ranged(g)
  {
    Generator([], seq(instruments + 1, i => if i == 0 then 0 else 100_000 + i * 1000), 1, 1, 1_000_000_000, 0)
  }

  /** Every number fits the field it is written to. */
  ghost predicate Ranged(g: Generator) {
    && 0 < g.nextOrderId <= g.nextSequence && g.timestamp <= 1_000_000_000 + 1000 * (g.nextSequence - 1)
    && 1 < |g.mids| <= MOST_INSTRUMENTS
    && (forall i | 0 < i < |g.mids| :: 100 <= g.mids[i] <= 100_000 + i * 1000 + 50 * (g.nextSequence - 1))
    && (forall k | 0 <= k < |g.open| :: 0 < g.open[k].instrumentId < |g.mids| && g.open[k].orderId < g.nextOrderId)
  }

  /** Draws the distributions can give in this round. */
  ghost predicate Possible(g: Generator, d: Draw) {
    && 1 <= d.step <= 1000 && d.roll < 100 && 0 < d.instrument < |g.mids| && -50 <= d.jitter <= 50
    && 1 <= d.quantity <= 100 && (g.open != [] ==> d.index < |g.open|)
  }

  function PickKind(open: seq<OpenOrder>, roll: nat): EventKind {
    if open == [] || roll < 70 then Add
    else if roll < 85 then Cancel
    else if roll < 95 then Modify
    else if roll < 99 then Trade
    else Clear
  }

  function Floored(price: int): int {
    if price < 100 then 100 else price
  }

  /** The last one takes the place of the one chosen. */
  function SwapRemove(open: seq<OpenOrder>, k: nat): seq<OpenOrder>
    requires k < |open|
  {
    open[k := open[|open| - 1]][..|open| - 1]
  }

  /** All but one instrument's. */
  function Others(open: seq<OpenOrder>, i: InstrumentId): seq<OpenOrder> {
    if open == [] then []
    else
      var last := open[|open| - 1];
      Others(open[..|open| - 1], i) + (if last.instrumentId == i then [] else [last])
  }

  datatype Round = Round(generator: Generator, event: P.Event)

  /** One round: the next state, and the event written. */
  function Turn(g: Generator, d: Draw): Round
    requires Ranged(g) && Possible(g, d) && g.nextSequence <= LONGEST
  {
    var now := g.timestamp + d.step;
    var later := g.(timestamp := now, nextSequence := g.nextSequence + 1);
    match PickKind(g.open, d.roll)
    case Add =>
      var price := Floored(g.mids[d.instrument] + d.jitter);
      Round(later.(mids := g.mids[d.instrument := price], nextOrderId := g.nextOrderId + 1, adds := g.adds + 1,
                   open := g.open + [OpenOrder(d.instrument, g.nextOrderId)]),
            P.AddOrder(g.nextSequence, now, g.nextOrderId, d.instrument, price, d.quantity, d.side))
    case Cancel =>
      var chosen := g.open[d.index];
      Round(later.(open := SwapRemove(g.open, d.index)),
            P.CancelOrder(g.nextSequence, now, chosen.orderId, chosen.instrumentId))
    case Modify =>
      var chosen := g.open[d.index];
      Round(later, P.ModifyOrder(g.nextSequence, now, chosen.orderId, chosen.instrumentId,
                                 Floored(g.mids[chosen.instrumentId] + d.jitter), d.quantity))
    case Trade => Round(later, P.Trade(g.nextSequence, now, d.instrument, g.mids[d.instrument], d.quantity, d.side))
    case Clear => Round(later.(open := Others(g.open, d.instrument)), P.ClearBook(g.nextSequence, now, d.instrument))
  }

  ghost predicate Distinct(open: seq<OpenOrder>) {
    forall j, k | 0 <= j < k < |open| :: open[j].orderId != open[k].orderId
  }

  /** The open orders are exactly those live in the books, each listed once. */
  ghost predicate OpenIsLive(open: seq<OpenOrder>, b: Books) {
    && AllProper(b) && Distinct(open)
    && (forall i: InstrumentId, id: OrderId :: Has(ListOf(b, i), id) <==> OpenOrder(i, id) in open)
  }

  lemma TurnRanged(g: Generator, d: Draw)
    requires Ranged(g) && Possible(g, d) && g.nextSequence <= LONGEST
    ensures Ranged(Turn(g, d).generator)
    ensures Turn(g, d).generator.nextSequence == g.nextSequence + 1
    ensures Fits(Turn(g, d).event) && Turn(g, d).event.sequenceNumber == g.nextSequence
  {
    forall k | 0 <= k < |Others(g.open, d.instrument)| ensures Others(g.open, d.instrument)[k] in g.open {
      OthersAre(g.open, d.instrument, Others(g.open, d.instrument)[k]);
    }
  }

  lemma {:induction false} OthersAre(open: seq<OpenOrder>, i: InstrumentId, o: OpenOrder)
    ensures o in Others(open, i) <==> o in open && o.instrumentId != i
  {
    if open != [] {
      assert open == open[..|open| - 1] + [open[|open| - 1]];
      OthersAre(open[..|open| - 1], i, o);
    }
  }

  lemma {:induction false} OthersDistinct(open: seq<OpenOrder>, i: InstrumentId)
    requires Distinct(open)
    ensures Distinct(Others(open, i))
  {
    if open != [] {
      var front, last := open[..|open| - 1], open[|open| - 1];
      OthersDistinct(front, i);
      forall k | 0 <= k < |Others(front, i)| ensures Others(front, i)[k].orderId != last.orderId {
        OthersAre(front, i, Others(front, i)[k]);
      }
    }
  }

  lemma SwapRemoveAre(open: seq<OpenOrder>, k: nat, o: OpenOrder)
    requires Distinct(open) && k < |open|
    ensures Distinct(SwapRemove(open, k))
    ensures o in SwapRemove(open, k) <==> o in open && o != open[k]
  {
    var after := SwapRemove(open, k);
    assert forall j | 0 <= j < |after| :: after[j] == if j == k then open[|open| - 1] else open[j];
    if o in open && o != open[k] {
      var j :| 0 <= j < |open| && open[j] == o;
      assert after[if j == |open| - 1 then k else j] == o;
    }
  }

  /** What each operation does to the ids of a list. */
  lemma OperationsHave(list: seq<Arrival>, id: OrderId, price: Price, quantity: Quantity, side: Side, other: OrderId)
    requires Proper(list) && price > 0 && quantity > 0
    ensures !Has(list, id) ==> var after := AddOrder(list, id, price, quantity, side);
              after.error == None && (Has(after.list, other) <==> Has(list, other) || other == id)
    ensures Has(list, id) ==> var after := CancelOrder(list, id);
              after.error == None && (Has(after.list, other) <==> Has(list, other) && other != id)
    ensures Has(list, id) ==> var after := ModifyOrder(list, id, price, quantity);
              after.error == None && (Has(after.list, other) <==> Has(list, other))
  {
    hide Proper, Place, Without;
    PlaceAppended(list, Arrival(id, side, price, quantity), other);
    if Has(list, id) {
      var k := Place(list, id);
      PlaceWithout(list, k, other);
      PlaceAppended(Without(list, k), Arrival(id, list[k].side, price, quantity), other);
    }
  }

  /** What the event of one round does to the books is what the round does to the open orders. */
  lemma TurnLive(g: Generator, d: Draw, b: Books)
    requires Ranged(g) && Possible(g, d) && g.nextSequence <= LONGEST && OpenIsLive(g.open, b)
    ensures var round := Turn(g, d);
            var applied := ApplyEvent(b, round.event);
            applied.errors == 0 && OpenIsLive(round.generator.open, applied.books)
  {
    ApplyKeepsProper(b, Turn(g, d).event);
    match PickKind(g.open, d.roll)
    case Add => AddLive(g, d, b);
    case Cancel => CancelLive(g, d, b);
    case Modify => ModifyLive(g, d, b);
    case Trade => TradeLive(g, d, b);
    case Clear => ClearLive(g, d, b);
  }

  lemma AddLive(g: Generator, d: Draw, b: Books)
    requires Ranged(g) && Possible(g, d) && g.nextSequence <= LONGEST && OpenIsLive(g.open, b)
    requires PickKind(g.open, d.roll) == Add && AllProper(ApplyEvent(b, Turn(g, d).event).books)
    ensures var round := Turn(g, d);
            var applied := ApplyEvent(b, round.event);
            applied.errors == 0 && OpenIsLive(round.generator.open, applied.books)
  {
    var e := Turn(g, d).event;
    var after, list := ApplyEvent(b, e).books, ListOf(b, d.instrument);
    hide Has, Proper, TraderSpec.AddOrder;
    assert Proper(list) by { EmptyProper(); }
    assert !Has(list, g.nextOrderId);
    OperationsHave(list, g.nextOrderId, e.price, e.quantity, e.side, 0);
    forall i: InstrumentId, id: OrderId
      ensures Has(ListOf(after, i), id) <==>
              Has(ListOf(b, i), id) || OpenOrder(i, id) == OpenOrder(d.instrument, g.nextOrderId)
    {
      OperationsHave(list, g.nextOrderId, e.price, e.quantity, e.side, id);
    }
  }

  lemma CancelLive(g: Generator, d: Draw, b: Books)
    requires Ranged(g) && Possible(g, d) && g.nextSequence <= LONGEST && OpenIsLive(g.open, b)
    requires PickKind(g.open, d.roll) == Cancel && AllProper(ApplyEvent(b, Turn(g, d).event).books)
    ensures var round := Turn(g, d);
            var applied := ApplyEvent(b, round.event);
            applied.errors == 0 && OpenIsLive(round.generator.open, applied.books)
  {
    var e, chosen := Turn(g, d).event, g.open[d.index];
    var after, list := ApplyEvent(b, e).books, ListOf(b, chosen.instrumentId);
    hide Has, Proper, TraderSpec.CancelOrder, SwapRemove, Distinct;
    assert Proper(list) by { EmptyProper(); }
    assert Has(list, chosen.orderId);
    OperationsHave(list, chosen.orderId, 1, 1, Buy, 0);
    forall i: InstrumentId, id: OrderId
      ensures Has(ListOf(after, i), id) <==> OpenOrder(i, id) in SwapRemove(g.open, d.index)
    {
      OperationsHave(list, chosen.orderId, 1, 1, Buy, id);
      SwapRemoveAre(g.open, d.index, OpenOrder(i, id));
    }
    SwapRemoveAre(g.open, d.index, chosen);
  }

  lemma ModifyLive(g: Generator, d: Draw, b: Books)
    requires Ranged(g) && Possible(g, d) && g.nextSequence <= LONGEST && OpenIsLive(g.open, b)
    requires PickKind(g.open, d.roll) == Modify && AllProper(ApplyEvent(b, Turn(g, d).event).books)
    ensures var round := Turn(g, d);
            var applied := ApplyEvent(b, round.event);
            applied.errors == 0 && OpenIsLive(round.generator.open, applied.books)
  {
    var e, chosen := Turn(g, d).event, g.open[d.index];
    var after, list := ApplyEvent(b, e).books, ListOf(b, chosen.instrumentId);
    hide Has, Proper, TraderSpec.ModifyOrder, Distinct;
    assert Proper(list) by { EmptyProper(); }
    assert Has(list, chosen.orderId);
    OperationsHave(list, chosen.orderId, e.newPrice, e.newQuantity, Buy, 0);
    forall i: InstrumentId, id: OrderId ensures Has(ListOf(after, i), id) <==> Has(ListOf(b, i), id) {
      OperationsHave(list, chosen.orderId, e.newPrice, e.newQuantity, Buy, id);
    }
  }

  lemma TradeLive(g: Generator, d: Draw, b: Books)
    requires Ranged(g) && Possible(g, d) && g.nextSequence <= LONGEST && OpenIsLive(g.open, b)
    requires PickKind(g.open, d.roll) == Trade && AllProper(ApplyEvent(b, Turn(g, d).event).books)
    ensures var round := Turn(g, d);
            var applied := ApplyEvent(b, round.event);
            applied.errors == 0 && OpenIsLive(round.generator.open, applied.books)
  {
    hide Has, Proper, Distinct;
    var after := ApplyEvent(b, Turn(g, d).event).books;
    assert forall i: InstrumentId :: ListOf(after, i) == ListOf(b, i);
  }

  lemma ClearLive(g: Generator, d: Draw, b: Books)
    requires Ranged(g) && Possible(g, d) && g.nextSequence <= LONGEST && OpenIsLive(g.open, b)
    requires PickKind(g.open, d.roll) == Clear && AllProper(ApplyEvent(b, Turn(g, d).event).books)
    ensures var round := Turn(g, d);
            var applied := ApplyEvent(b, round.event);
            applied.errors == 0 && OpenIsLive(round.generator.open, applied.books)
  {
    hide Proper, Distinct, Others;
    var after := ApplyEvent(b, Turn(g, d).event).books;
    forall i: InstrumentId, id: OrderId
      ensures Has(ListOf(after, i), id) <==> OpenOrder(i, id) in Others(g.open, d.instrument) {
      OthersAre(g.open, d.instrument, OpenOrder(i, id));
      assert i != d.instrument ==> ListOf(after, i) == ListOf(b, i);
    }
    OthersDistinct(g.open, d.instrument);
  }

  // ---------- the whole feed ----------

  datatype Feed = Feed(generator: Generator, events: seq<P.Event>)

  /** Each round's draws are possible when its turn comes. */
  ghost predicate AllPossible(g: Generator, orders: nat, draws: seq<Draw>)
    requires Ranged(g) && g.nextSequence + |draws| <= LONGEST + 1
    decreases |draws|
  {
    draws != [] && g.adds < orders ==>
      Possible(g, draws[0]) && (TurnRanged(g, draws[0]); AllPossible(Turn(g, draws[0]).generator, orders, draws[1..]))
  }

  /** The feed: rounds until enough orders were added, or as far as the draws go. */
  ghost function Generated(g: Generator, orders: nat, draws: seq<Draw>): Feed
    requires Ranged(g) && g.nextSequence + |draws| <= LONGEST + 1 && AllPossible(g, orders, draws)
    decreases |draws|
  {
    if draws == [] || g.adds >= orders then Feed(g, [])
    else
      TurnRanged(g, draws[0]);
      var round := Turn(g, draws[0]);
      var rest := Generated(round.generator, orders, draws[1..]);
      Feed(rest.generator, [round.event] + rest.events)
  }

  lemma {:induction false} FeedIsClean(g: Generator, orders: nat, draws: seq<Draw>, b: Books)
    requires Ranged(g) && g.nextSequence + |draws| <= LONGEST + 1 && AllPossible(g, orders, draws)
             && OpenIsLive(g.open, b)
    ensures var feed := Generated(g, orders, draws);
            var applied := ApplyEvents(b, feed.events);
            && applied.errors == 0 && OpenIsLive(feed.generator.open, applied.books)
            && AllFit(feed.events)
            && forall k | 0 <= k < |feed.events| :: feed.events[k].sequenceNumber == g.nextSequence + k
    decreases |draws|
  {
    hide Ranged, Possible, OpenIsLive, Fits, Turn, ApplyEvent;
    if draws != [] && g.adds < orders {
      TurnRanged(g, draws[0]);
      TurnLive(g, draws[0], b);
      var round := Turn(g, draws[0]);
      FeedIsClean(round.generator, orders, draws[1..], ApplyEvent(b, round.event).books);
      var rest := Generated(round.generator, orders, draws[1..]).events;
      assert ([round.event] + rest)[1..] == rest;
    }
  }

  /** What an event may ask for: a price of at least 100 ticks, and 1 to 100 units. */
  ghost predicate Sensible(e: P.Event) {
    match e
    case AddOrder(_, _, _, _, price, quantity, _) => price >= 100 && 1 <= quantity <= 100
    case ModifyOrder(_, _, _, _, price, quantity) => price >= 100 && 1 <= quantity <= 100
    case Trade(_, _, _, price, quantity, _) => price >= 100 && 1 <= quantity <= 100
    case _ => true
  }

  /** Each event is sensible and comes 1 to 1000 nanoseconds after the one before. */
  ghost predicate Paced(events: seq<P.Event>, since: nat)
    decreases |events|
  {
    events != [] ==> && Sensible(events[0]) && 1 <= events[0].timestampNs - since <= 1000
                     && Paced(events[1..], events[0].timestampNs)
  }

  /** Whatever the draws, the feed's prices and quantities are sensible and its time only goes forward. */
  lemma {:induction false} FeedIsPaced(g: Generator, orders: nat, draws: seq<Draw>)
    requires Ranged(g) && g.nextSequence + |draws| <= LONGEST + 1 && AllPossible(g, orders, draws)
    ensures Paced(Generated(g, orders, draws).events, g.timestamp)
    decreases |draws|
  {
    hide AllPossible, Sensible;
    if draws == [] || g.adds >= orders {
      GeneratedStops(g, orders, draws);
    } else {
      GeneratedNext(g, orders, draws);
      TurnPaced(g, draws[0]);
      var round := Turn(g, draws[0]);
      hide Ranged, Possible, Turn, Generated;
      FeedIsPaced(round.generator, orders, draws[1..]);
      var rest := Generated(round.generator, orders, draws[1..]).events;
      assert ([round.event] + rest)[1..] == rest;
    }
  }

  lemma TurnPaced(g: Generator, d: Draw)
    requires Ranged(g) && Possible(g, d) && g.nextSequence <= LONGEST
    ensures var round := Turn(g, d);
            && Sensible(round.event) && 1 <= round.event.timestampNs - g.timestamp <= 1000
            && round.generator.timestamp == round.event.timestampNs
  {
  }

  lemma NothingOpen()
    ensures OpenIsLive([], NoBooks)
  {
  }

  /** Whatever the draws, and wherever the feed is cut off, its file replays with no decode failure, no
      sequence failure and no book error, every message is processed, and the orders the generator
      holds open are exactly those live in the books. */
  lemma GeneratedFeedReplays(instruments: nat, orders: nat, draws: seq<Draw>, options: Options)
    requires 0 < instruments < MOST_INSTRUMENTS && |draws| <= LONGEST
             && AllPossible(Opening(instruments), orders, draws)
    ensures var feed := Generated(Opening(instruments), orders, draws);
            AllFit(feed.events) &&
            var after := ReplayFrames(Fresh, options, ReadAll(Frames(feed.events)));
            && after.stats.decodeFailures == 0 && after.stats.sequenceFailures == 0 && after.stats.bookErrors == 0
            && after.stats.messagesProcessed == |feed.events| && after.stop == NotStopped
            && OpenIsLive(feed.generator.open, after.books)
  {
    NothingOpen();
    hide Ranged, OpenIsLive, AllPossible, Generated, ReplayFrames, ReadAll, Frames, Fits;
    FeedIsClean(Opening(instruments), orders, draws, NoBooks);
    LosslessReplay(Generated(Opening(instruments), orders, draws).events, options);
  }

  // ---------- the loop ----------

  method EraseInstrument(open: seq<OpenOrder>, i: InstrumentId) returns (kept: seq<OpenOrder>)
    ensures kept == Others(open, i)
  {
    kept := [];
    for n := 0 to |open|
      invariant kept == Others(open[..n], i)
    {
      assert open[..n + 1][..n] == open[..n];
      if open[n].instrumentId != i {
        kept := kept + [open[n]];
      }
    }
    assert open[..|open|] == open;
  }

  lemma GeneratedNext(g: Generator, orders: nat, draws: seq<Draw>)
    requires Ranged(g) && g.nextSequence + |draws| <= LONGEST + 1 && AllPossible(g, orders, draws)
    requires draws != [] && g.adds < orders
    ensures Possible(g, draws[0])
    ensures var round := Turn(g, draws[0]);
            && Ranged(round.generator) && round.generator.nextSequence == g.nextSequence + 1
            && AllPossible(round.generator, orders, draws[1..])
            && var rest := Generated(round.generator, orders, draws[1..]);
               Generated(g, orders, draws) == Feed(rest.generator, [round.event] + rest.events)
  {
    TurnRanged(g, draws[0]);
    hide Ranged, Turn;
  }

  lemma GeneratedStops(g: Generator, orders: nat, draws: seq<Draw>)
    requires Ranged(g) && g.nextSequence + |draws| <= LONGEST + 1 && AllPossible(g, orders, draws)
    requires draws == [] || g.adds >= orders
    ensures Generated(g, orders, draws) == Feed(g, [])
  {
  }

  /** Writes the feed. */
  method Generate(instruments: nat, orders: nat, draws: seq<Draw>) returns (events: seq<P.Event>, open: seq<OpenOrder>)
    requires 0 < instruments < MOST_INSTRUMENTS && |draws| <= LONGEST
             && AllPossible(Opening(instruments), orders, draws)
    ensures var feed := Generated(Opening(instruments), orders, draws);
            events == feed.events && open == feed.generator.open
  {
    hide Others, Generated, AllPossible, SwapRemove, Floored;
    var start := Opening(instruments);
    var mids, nextSequence: nat, nextOrderId: nat, timestamp: nat, adds: nat := start.mids, 1, 1, 1_000_000_000, 0;
    events, open := [], [];
    var n := 0;
    ghost var g := start;
    while adds < orders && n < |draws|
      invariant n <= |draws| && g == Generator(open, mids, nextSequence, nextOrderId, timestamp, adds)
      invariant Ranged(g) && g.nextSequence == n + 1 && AllPossible(g, orders, draws[n..])
      invariant var rest := Generated(g, orders, draws[n..]);
                Generated(start, orders, draws) == Feed(rest.generator, events + rest.events)
    {
      var d := draws[n];
      assert draws[n..][0] == d && draws[n..][1..] == draws[n + 1..];
      GeneratedNext(g, orders, draws[n..]);
      ghost var round := Turn(g, d);
      timestamp := timestamp + d.step;
      var number := nextSequence;
      nextSequence := nextSequence + 1;
      var event;
      match PickKind(open, d.roll) {
        case Add =>
          var price := Floored(mids[d.instrument] + d.jitter);
          mids := mids[d.instrument := price];
          event := P.AddOrder(number, timestamp, nextOrderId, d.instrument, price, d.quantity, d.side);
          open := open + [OpenOrder(d.instrument, nextOrderId)];
          nextOrderId := nextOrderId + 1;
          adds := adds + 1;
        case Cancel =>
          var chosen := open[d.index];
          open := SwapRemove(open, d.index);
          event := P.CancelOrder(number, timestamp, chosen.orderId, chosen.instrumentId);
        case Modify =>
          var chosen := open[d.index];
          event := P.ModifyOrder(number, timestamp, chosen.orderId, chosen.instrumentId,
                                 Floored(mids[chosen.instrumentId] + d.jitter), d.quantity);
        case Trade =>
          event := P.Trade(number, timestamp, d.instrument, mids[d.instrument], d.quantity, d.side);
        case Clear =>
          event := P.ClearBook(number, timestamp, d.instrument);
          open := EraseInstrument(open, d.instrument);
      }
      events := events + [event];
      g := round.generator;
      n := n + 1;
    }
    GeneratedStops(g, orders, draws[n..]);
  }
}
