/** When the directory is complete: every resting order can be reached by its key, so keys are
    unique among resting orders. Only a replace that takes over a live id can break this, and one that is
    done in place always does. */
module Completeness {
  import opened Domain
  import opened PriceTime
  import opened Exchange
  import opened Matching
  import opened EngineSpec
  import opened EngineLaws

  /** The directory leads from every order of the queue's key back to that order. */
  ghost predicate Lists(directory: Directory, instrumentId: InstrumentId, queue: seq<BookOrder>) {
    forall i | 0 <= i < |queue| :: ListsOrder(directory, instrumentId, queue[i])
  }

  ghost predicate ListsOrder(directory: Directory, instrumentId: InstrumentId, order: BookOrder) {
    && KeyOf(order) in directory
    && directory[KeyOf(order)].exchangeOrderId == order.exchangeOrderId
    && directory[KeyOf(order)].instrumentId == instrumentId
  }

  ghost predicate Complete(e: Engine) {
    forall i, side: Side | i in e.books :: Lists(e.directory, i, e.books[i].On(side))
  }

  /** A replace that would put its order under a key another live order already has. */
  predicate ReusesLiveId(e: Engine, c: Command) {
    && c.ReplaceOrder?
    && ReplaceRejection(e, c) == NoReason
    && c.newClientOrderId != c.originalClientOrderId
    && LiveKey(c.accountId, c.newClientOrderId) in e.directory
  }

  /** The engine after one trip round the matching loop. */
  function Tripped(e: Engine, order: Incoming, commandSequence: nat): (Engine, Incoming, seq<Event>)
    requires order.instrumentId in e.books
    requires !Stops(e.books[order.instrumentId].On(Opposite(order.side)), order)
  {
    var step := MatchStep(e.books[order.instrumentId].On(Opposite(order.side)), order, e.directory,
                          e.nextEventSequence, commandSequence);
    (AfterMatch(e, order, step), step.incoming, step.events)
  }

  /** The loop is one trip and then the loop. */
  lemma MatchUnrolls(e: Engine, order: Incoming, commandSequence: nat)
    requires order.instrumentId in e.books
    ensures var contra := e.books[order.instrumentId].On(Opposite(order.side));
            var m := EnterMatch(e, order, commandSequence);
            if Stops(contra, order) then AfterMatch(e, order, m) == e && m.incoming == order && m.events == []
            else
              var (e1, order1, events1) := Tripped(e, order, commandSequence);
              var m1 := EnterMatch(e1, order1, commandSequence);
              && AfterMatch(e, order, m) == AfterMatch(e1, order1, m1)
              && m.incoming == m1.incoming && m.events == events1 + m1.events
              && e1.books[order.instrumentId].On(order.side) == e.books[order.instrumentId].On(order.side)
              && order1 == order.(remaining := order1.remaining) && order1.remaining <= order.remaining
  {
    var book := e.books[order.instrumentId];
    var contra := book.On(Opposite(order.side));
    if Stops(contra, order) {
      assert book.With(Opposite(order.side), contra) == book;
      assert e.books[order.instrumentId := book] == e.books;
    } else {
      var (e1, order1, events1) := Tripped(e, order, commandSequence);
      var m := EnterMatch(e, order, commandSequence);
      var m1 := EnterMatch(e1, order1, commandSequence);
      assert e1.books[order.instrumentId].On(Opposite(order.side)) ==
             MatchStep(contra, order, e.directory, e.nextEventSequence, commandSequence).contra;
      assert |events1| == 2;
      assert AfterMatch(e, order, m).books == AfterMatch(e1, order1, m1).books;
    }
  }

  /** The trips of a matching, one after the other, end. */
  function Trips(e: Engine, order: Incoming): nat
    requires order.instrumentId in e.books
  {
    |e.books[order.instrumentId].On(Opposite(order.side))| + order.remaining
  }

  lemma TripsFall(e: Engine, order: Incoming, commandSequence: nat)
    requires order.instrumentId in e.books
    requires !Stops(e.books[order.instrumentId].On(Opposite(order.side)), order)
    ensures var (e1, order1, _) := Tripped(e, order, commandSequence);
            order1.instrumentId in e1.books && Trips(e1, order1) < Trips(e, order)
  {
  }

  /** Dropping the entry of one order leaves the orders with other ids, or of other instruments, listed. */
  lemma ListsAfterDrop(directory: Directory, i: InstrumentId, gone: BookOrder, j: InstrumentId, queue: seq<BookOrder>)
    requires ListsOrder(directory, i, gone) && Lists(directory, j, queue)
    requires j != i || gone.exchangeOrderId !in Ids(queue)
    ensures Lists(directory - {KeyOf(gone)}, j, queue)
  {
    forall k: nat | k < |queue| ensures ListsOrder(directory - {KeyOf(gone)}, j, queue[k]) {
      assert ListsOrder(directory, j, queue[k]);
      InIds(queue, k);
    }
  }

  lemma ListsTail(directory: Directory, i: InstrumentId, queue: seq<BookOrder>)
    requires Lists(directory, i, queue) && queue != []
    ensures Lists(directory, i, queue[1..]) && ListsOrder(directory, i, queue[0])
  {
    assert forall k | 0 <= k < |queue| - 1 :: queue[1..][k] == queue[k + 1];
  }

  /** A filled order leaves with its own entry and nobody else's. */
  lemma TripComplete(e: Engine, order: Incoming, commandSequence: nat)
    requires Complete(e) && order.instrumentId in e.books
             && BookSound(e.books[order.instrumentId], e.nextExchangeOrderId)
    requires !Stops(e.books[order.instrumentId].On(Opposite(order.side)), order)
    ensures Complete(Tripped(e, order, commandSequence).0)
  {
    var e1 := Tripped(e, order, commandSequence).0;
    var i, passive := order.instrumentId, Opposite(order.side);
    var own, contra := e.books[i].On(order.side), e.books[i].On(passive);
    var front := contra[0];
    assert Lists(e.directory, i, own) && Lists(e.directory, i, contra);
    ListsTail(e.directory, i, contra);
    InIds(contra, 0);
    TailSound(passive, contra, e.nextExchangeOrderId);
    hide Lists, Ids, QueueSound, ListsOrder;
    forall j, side: Side | j in e1.books ensures Lists(e1.directory, j, e1.books[j].On(side)) {
      assert Lists(e.directory, j, e.books[j].On(side));
      if e1.directory == e.directory - {KeyOf(front)} {
        if j == i && side == passive {
          ListsAfterDrop(e.directory, i, front, j, contra[1..]);
        } else {
          ListsAfterDrop(e.directory, i, front, j, e.books[j].On(side));
        }
      }
    }
  }

  lemma {:induction false} MatchComplete(e: Engine, order: Incoming, commandSequence: nat)
    requires Complete(e) && order.instrumentId in e.books
    requires MidSound(e.books[order.instrumentId].On(order.side), e.books[order.instrumentId].On(Opposite(order.side)),
                      order, e.directory, e.nextExchangeOrderId)
    ensures Complete(AfterMatch(e, order, EnterMatch(e, order, commandSequence)))
    decreases Trips(e, order)
  {
    var book := e.books[order.instrumentId];
    var own, contra := book.On(order.side), book.On(Opposite(order.side));
    MatchUnrolls(e, order, commandSequence);
    assert Between(own, contra, order.side) == book;
    hide EnterMatch, Complete;
    if !Stops(contra, order) {
      var (e1, order1, _) := Tripped(e, order, commandSequence);
      TripComplete(e, order, commandSequence);
      TripsFall(e, order, commandSequence);
      StepSound(own, contra, order, e.directory, e.nextExchangeOrderId, e.nextEventSequence, commandSequence);
      MatchComplete(e1, order1, commandSequence);
    }
  }

  /** Adding an entry under a key nobody has leaves everybody listed. */
  lemma ListsAfterAdd(directory: Directory, key: LiveKey, ref: OrderRef, j: InstrumentId, queue: seq<BookOrder>)
    requires Lists(directory, j, queue) && key !in directory
    ensures Lists(directory[key := ref], j, queue)
  {
    forall k: nat | k < |queue| ensures ListsOrder(directory[key := ref], j, queue[k]) {
      assert ListsOrder(directory, j, queue[k]);
    }
  }

  lemma ListsInserted(directory: Directory, i: InstrumentId, side: Side, queue: seq<BookOrder>, order: BookOrder)
    requires Lists(directory, i, queue) && ListsOrder(directory, i, order)
    ensures Lists(directory, i, Insert(side, queue, order))
  {
    var k := BackOf(side, queue, order.price);
    var after := Insert(side, queue, order);
    forall j: nat | j < |after| ensures ListsOrder(directory, i, after[j]) {
      assert after[j] == if j < k then queue[j] else if j == k then order else queue[j - 1];
    }
  }

  /** A fresh order under a free key keeps the directory complete. */
  lemma EnterComplete(e: Engine, order: Incoming, commandSequence: nat)
    requires Complete(e) && Sound(e.(nextExchangeOrderId := order.exchangeOrderId))
    requires order.instrumentId in e.books && e.nextExchangeOrderId == order.exchangeOrderId + 1
    requires IncomingKey(order) !in e.directory
    ensures Complete(Enter(e, order, commandSequence).engine)
  {
    var i := order.instrumentId;
    var book := e.books[i];
    var own, contra := book.On(order.side), book.On(Opposite(order.side));
    assert Between(own, contra, order.side) == book;
    QueueSoundLater(Buy, book.bids, order.exchangeOrderId, e.nextExchangeOrderId);
    QueueSoundLater(Sell, book.asks, order.exchangeOrderId, e.nextExchangeOrderId);
    MatchComplete(e, order, commandSequence);
    MatchSound(own, contra, order, e.directory, e.nextExchangeOrderId, e.nextEventSequence, commandSequence);
    EnterShape(e, order, commandSequence);
    var m := EnterMatch(e, order, commandSequence);
    var mid := AfterMatch(e, order, m);
    var after := Enter(e, order, commandSequence).engine;
    hide Enter, EnterMatch, Insert, QueueSound, Ids, Uncrossed, Names, Lists, StandsIn, Match;
    if MayRest(m.incoming) {
      forall j, side: Side | j in after.books ensures Lists(after.directory, j, after.books[j].On(side)) {
        assert Lists(mid.directory, j, mid.books[j].On(side));
        ListsAfterAdd(mid.directory, IncomingKey(order), RefOf(order), j, mid.books[j].On(side));
        if j == i && side == order.side {
          ListsInserted(after.directory, i, side, own, AsBookOrder(m.incoming));
        }
      }
    } else {
      forall j, side: Side | j in after.books ensures Lists(after.directory, j, after.books[j].On(side)) {
        assert Lists(mid.directory, j, mid.books[j].On(side));
      }
    }
  }

  lemma ListsWithout(directory: Directory, i: InstrumentId, queue: seq<BookOrder>, k: nat)
    requires Lists(directory, i, queue) && k < |queue|
    ensures Lists(directory, i, Without(queue, k)) && ListsOrder(directory, i, queue[k])
  {
    forall j: nat | j < |queue| - 1 ensures ListsOrder(directory, i, Without(queue, k)[j]) {
      WithoutAt(queue, k, j);
    }
  }

  /** Taking an order out, with the entry that names it, keeps the directory complete. */
  lemma RemovalComplete(e: Engine, key: LiveKey)
    requires Sound(e) && Complete(e) && key in e.directory
    ensures Known(e, key, e.directory[key].instrumentId)
    ensures var i := e.directory[key].instrumentId;
            Complete(e.(books := e.books[i := Remove(e.books[i], e.directory[key].exchangeOrderId)],
                        directory := e.directory - {key}))
  {
    NamedIsKeyed(e, key);
    var i, id := e.directory[key].instrumentId, e.directory[key].exchangeOrderId;
    var book := e.books[i];
    Located(book, e.nextExchangeOrderId, id);
    var side := SideOf(book, id);
    var queue, k := book.On(side), Find(book.On(side), id);
    assert Lists(e.directory, i, queue);
    ListsWithout(e.directory, i, queue, k);
    WithoutSound(side, queue, k, e.nextExchangeOrderId);
    var books := e.books[i := Remove(book, id)];
    hide QueueSound, Ids, Uncrossed, Names, Lists, StandsIn, Without;
    forall j, s: Side | j in books ensures Lists(e.directory - {key}, j, books[j].On(s)) {
      assert Lists(e.directory, j, e.books[j].On(s));
      ListsAfterDrop(e.directory, i, queue[k], j, books[j].On(s));
    }
  }

  /** Renaming one order to a key that is free, or its own, keeps one queue listed. */
  lemma RenamedLists(e: Engine, key: LiveKey, newKey: LiveKey, i: InstrumentId, order: BookOrder, j: InstrumentId,
                     s: Side)
    requires Sound(e) && Complete(e) && Known(e, key, i) && (newKey == key || newKey !in e.directory) && j in e.books
    requires order.exchangeOrderId == e.directory[key].exchangeOrderId && KeyOf(order) == newKey
    ensures var after := Amend(e.books[i], order.exchangeOrderId, order);
            Lists((e.directory - {key})[newKey := e.directory[key]], j, (if j == i then after else e.books[j]).On(s))
  {
    hide Uncrossed, Names, StandsIn;
    NamedIsKeyed(e, key);
    var book, id := e.books[i], order.exchangeOrderId;
    Located(book, e.nextExchangeOrderId, id);
    var side := SideOf(book, id);
    var queue, k := book.On(side), Find(book.On(side), id);
    var directory' := (e.directory - {key})[newKey := e.directory[key]];
    assert Lists(e.directory, i, queue) && Lists(e.directory, j, e.books[j].On(s));
    hide Complete, Sound, Lists;
    if j == i && s == side {
      RenamedQueue(e, key, newKey, i, order, queue, k);
    } else {
      ListsAfterDrop(e.directory, i, queue[k], j, e.books[j].On(s));
      ListsAfterAdd(e.directory - {key}, newKey, e.directory[key], j, e.books[j].On(s));
    }
  }

  lemma RenamedQueue(e: Engine, key: LiveKey, newKey: LiveKey, i: InstrumentId, order: BookOrder, queue: seq<BookOrder>,
                     k: nat)
    requires Lists(e.directory, i, queue) && k < |queue| && key == KeyOf(queue[k]) && key in e.directory
    requires newKey == key || newKey !in e.directory
    requires order.exchangeOrderId == e.directory[key].exchangeOrderId == queue[k].exchangeOrderId
             && KeyOf(order) == newKey
    requires e.directory[key].instrumentId == i
    requires forall n | 0 <= n < |queue| && n != k :: queue[n].exchangeOrderId != queue[k].exchangeOrderId
    ensures Lists((e.directory - {key})[newKey := e.directory[key]], i, queue[k := order])
  {
    var directory' := (e.directory - {key})[newKey := e.directory[key]];
    var after := queue[k := order];
    forall n: nat | n < |queue| ensures ListsOrder(directory', i, after[n]) {
      assert ListsOrder(e.directory, i, queue[n]);
    }
  }

  /** Renaming an order in place keeps the directory complete exactly when its new key is free, or its
      own. */
  lemma InPlaceComplete(e: Engine, c: Command)
    requires Sound(e) && Complete(e) && c.ReplaceOrder? && ReplaceRejection(e, c) == NoReason
    ensures Complete(ReplaceInPlace(e, c).engine) <==> !ReusesLiveId(e, c)
  {
    hide Sound, Lists, Complete, ReplaceInPlace, ReplaceRejection;
    if ReusesLiveId(e, c) {
      TakeoverIncomplete(e, c);
    } else {
      RenamedComplete(e, c);
    }
  }

  lemma RenamedComplete(e: Engine, c: Command)
    requires Sound(e) && Complete(e) && c.ReplaceOrder? && ReplaceRejection(e, c) == NoReason && !ReusesLiveId(e, c)
    ensures Complete(ReplaceInPlace(e, c).engine)
  {
    hide Sound, Lists, Amend, Find, SideOf;
    var key, newKey := LiveKey(c.accountId, c.originalClientOrderId), LiveKey(c.accountId, c.newClientOrderId);
    NamedIsKeyed(e, key);
    var order := Named(e, key, c.instrumentId).(remaining := c.newQuantity, clientOrderId := c.newClientOrderId);
    var after := ReplaceInPlace(e, c).engine;
    forall j, s: Side | j in after.books ensures Lists(after.directory, j, after.books[j].On(s)) {
      RenamedLists(e, key, newKey, c.instrumentId, order, j, s);
    }
  }

  /** The order that had the key still rests, and the directory no longer leads to it. */
  lemma TakeoverIncomplete(e: Engine, c: Command)
    requires Sound(e) && c.ReplaceOrder? && ReplaceRejection(e, c) == NoReason && ReusesLiveId(e, c)
    ensures !Complete(ReplaceInPlace(e, c).engine)
  {
    var key, newKey := LiveKey(c.accountId, c.originalClientOrderId), LiveKey(c.accountId, c.newClientOrderId);
    var i, j := c.instrumentId, e.directory[newKey].instrumentId;
    var id, other := e.directory[key].exchangeOrderId, e.directory[newKey].exchangeOrderId;
    NamedIsKeyed(e, key);
    NamedIsKeyed(e, newKey);
    Located(e.books[i], e.nextExchangeOrderId, id);
    Located(e.books[j], e.nextExchangeOrderId, other);
    var side, k := SideOf(e.books[j], other), Find(e.books[j].On(SideOf(e.books[j], other)), other);
    var after := ReplaceInPlace(e, c).engine;
    assert after.books[j].On(side)[k] == e.books[j].On(side)[k];
    hide Sound, BookSound, Find, SideOf, RestsIn;
    assert !ListsOrder(after.directory, j, after.books[j].On(side)[k]);
    assert !Lists(after.directory, j, after.books[j].On(side));
  }

  /** Every command that does not take over a live id keeps the directory complete. */
  lemma ProcessComplete(e: Engine, c: Command)
    requires Sound(e) && Complete(e) && !ReusesLiveId(e, c)
    ensures Complete(Process(e, c).engine)
  {
    hide Enter, BookSound, StandsIn, Uncrossed, Amend, Remove, OrderIn, Find, SideOf, Lists;
    match c
    case NewOrder(_, _, _, _, _, _, _, _) =>
      if NewRejection(e, c) == NoReason {
        EnterComplete(Stamped(e), NewIncoming(e, c), c.commandSequence);
      }
    case CancelOrder(_, _, _, _) =>
      var key := LiveKey(c.accountId, c.clientOrderId);
      if c.instrumentId in e.books && Known(e, key, c.instrumentId) {
        RemovalComplete(e, key);
      }
    case ReplaceOrder(_, _, _, _, _, _, _) =>
      var key := LiveKey(c.accountId, c.originalClientOrderId);
      if ReplaceRejection(e, c) == NoReason {
        if KeepsPriority(c, Named(e, key, c.instrumentId)) {
          InPlaceComplete(e, c);
        } else {
          RemovalComplete(e, key);
          RemovalSound(e, key);
          EnterComplete(Withdrawn(e, c), ReplacementIncoming(e, c), c.commandSequence);
        }
      }
  }
}
