/** What every command keeps: sound, uncrossed books and a directory that names live orders. */
module EngineLaws {
  import opened Domain
  import opened PriceTime
  import opened Exchange
  import opened Matching
  import opened EngineSpec

  // ---------- one queue ----------

  ghost predicate OrderSound(side: Side, order: BookOrder, next: ExchangeOrderId) {
    order.side == side && order.remaining > 0 && order.price > 0 && order.timeInForce == GTC
    && order.exchangeOrderId < next
  }

  ghost predicate QueueSound(side: Side, queue: seq<BookOrder>, next: ExchangeOrderId) {
    && Sorted(side, queue)
    && (forall i | 0 <= i < |queue| :: OrderSound(side, queue[i], next))
    && (forall i, j | 0 <= i < j < |queue| :: queue[i].exchangeOrderId != queue[j].exchangeOrderId)
  }

  ghost function Ids(queue: seq<BookOrder>): set<ExchangeOrderId> {
    set i | 0 <= i < |queue| :: queue[i].exchangeOrderId
  }

  /** An order with this id and this key stands in the queue. */
  ghost predicate Stands(queue: seq<BookOrder>, id: ExchangeOrderId, key: LiveKey) {
    exists i :: 0 <= i < |queue| && queue[i].exchangeOrderId == id && KeyOf(queue[i]) == key
  }

  lemma InsertSound(side: Side, queue: seq<BookOrder>, order: BookOrder, next: ExchangeOrderId)
    requires QueueSound(side, queue, order.exchangeOrderId) && OrderSound(side, order, next)
    ensures QueueSound(side, Insert(side, queue, order), next)
    ensures Ids(Insert(side, queue, order)) == Ids(queue) + {order.exchangeOrderId}
  {
    InsertSorted(side, queue, order);
    InsertIds(side, queue, order);
    InsertAt(side, queue, order);
    hide Insert, Sorted, Ids, IsBackOf, BackOf;
  }

  lemma InsertAt(side: Side, queue: seq<BookOrder>, order: BookOrder)
    ensures var k, after := BackOf(side, queue, order.price), Insert(side, queue, order);
            && |after| == |queue| + 1 && 0 <= k <= |queue|
            && forall i | 0 <= i < |after| ::
                 after[i] == if i < k then queue[i] else if i == k then order else queue[i - 1]
  {
  }

  lemma InsertIds(side: Side, queue: seq<BookOrder>, order: BookOrder)
    ensures Ids(Insert(side, queue, order)) == Ids(queue) + {order.exchangeOrderId}
  {
    var k := BackOf(side, queue, order.price);
    var after := Insert(side, queue, order);
    assert after[k] == order;
    forall id | id in Ids(queue) ensures id in Ids(after) {
      var i :| 0 <= i < |queue| && queue[i].exchangeOrderId == id;
      assert after[if i < k then i else i + 1].exchangeOrderId == id;
    }
  }

  lemma InsertStands(side: Side, queue: seq<BookOrder>, order: BookOrder, id: ExchangeOrderId, key: LiveKey)
    ensures Stands(Insert(side, queue, order), id, key) <==>
            Stands(queue, id, key) || (order.exchangeOrderId == id && KeyOf(order) == key)
  {
    var k := BackOf(side, queue, order.price);
    var after := Insert(side, queue, order);
    assert after[k] == order;
    if i :| 0 <= i < |queue| && queue[i].exchangeOrderId == id && KeyOf(queue[i]) == key {
      assert after[if i < k then i else i + 1] == queue[i];
    }
    if i :| 0 <= i < |after| && after[i].exchangeOrderId == id && KeyOf(after[i]) == key {
      assert i != k ==> after[i] == queue[if i < k then i else i - 1];
    }
  }

  lemma WithoutAt(queue: seq<BookOrder>, k: nat, i: nat)
    requires k < |queue| && i < |queue| - 1
    ensures Without(queue, k)[i] == queue[if i < k then i else i + 1]
  {
  }

  lemma WithoutSound(side: Side, queue: seq<BookOrder>, k: nat, next: ExchangeOrderId)
    requires QueueSound(side, queue, next) && k < |queue|
    ensures QueueSound(side, Without(queue, k), next)
    ensures Ids(Without(queue, k)) == Ids(queue) - {queue[k].exchangeOrderId}
  {
    var after := Without(queue, k);
    forall id | id in Ids(queue) && id != queue[k].exchangeOrderId ensures id in Ids(after) {
      var i :| 0 <= i < |queue| && queue[i].exchangeOrderId == id;
      assert after[if i < k then i else i - 1].exchangeOrderId == id;
    }
  }

  lemma WithoutStands(queue: seq<BookOrder>, k: nat, id: ExchangeOrderId, key: LiveKey)
    requires k < |queue|
    requires forall i | 0 <= i < |queue| && i != k :: queue[i].exchangeOrderId != queue[k].exchangeOrderId
    ensures Stands(Without(queue, k), id, key) <==> Stands(queue, id, key) && id != queue[k].exchangeOrderId
  {
    var after := Without(queue, k);
    if i :| 0 <= i < |queue| && queue[i].exchangeOrderId == id && KeyOf(queue[i]) == key && i != k {
      WithoutAt(queue, k, if i < k then i else i - 1);
    }
    if i :| 0 <= i < |after| && after[i].exchangeOrderId == id && KeyOf(after[i]) == key {
      WithoutAt(queue, k, i);
    }
  }

  /** Editing quantity and client id in place. */
  lemma EditSound(side: Side, queue: seq<BookOrder>, k: nat, order: BookOrder, next: ExchangeOrderId)
    requires QueueSound(side, queue, next) && k < |queue| && order.remaining > 0
    requires order == queue[k].(remaining := order.remaining, clientOrderId := order.clientOrderId)
    ensures QueueSound(side, queue[k := order], next)
    ensures Ids(queue[k := order]) == Ids(queue)
  {
    var after := queue[k := order];
    forall id | id in Ids(queue) ensures id in Ids(after) {
      var i :| 0 <= i < |queue| && queue[i].exchangeOrderId == id;
      assert after[i].exchangeOrderId == id;
    }
    forall id | id in Ids(after) ensures id in Ids(queue) {
      var i :| 0 <= i < |queue| && after[i].exchangeOrderId == id;
      assert queue[i].exchangeOrderId == id;
    }
  }

  lemma TailSound(side: Side, queue: seq<BookOrder>, next: ExchangeOrderId)
    requires QueueSound(side, queue, next) && queue != []
    ensures QueueSound(side, queue[1..], next)
    ensures Ids(queue[1..]) == Ids(queue) - {queue[0].exchangeOrderId}
    ensures forall id, key :: Stands(queue[1..], id, key) <==> Stands(queue, id, key) && id != queue[0].exchangeOrderId
  {
    WithoutSound(side, queue, 0, next);
    assert Without(queue, 0) == queue[1..];
    forall id, key ensures Stands(queue[1..], id, key) <==> Stands(queue, id, key) && id != queue[0].exchangeOrderId {
      WithoutStands(queue, 0, id, key);
    }
  }

  lemma EditStands(queue: seq<BookOrder>, k: nat, order: BookOrder, id: ExchangeOrderId, key: LiveKey)
    requires k < |queue| && order.exchangeOrderId == queue[k].exchangeOrderId
    requires forall i | 0 <= i < |queue| && i != k :: queue[i].exchangeOrderId != queue[k].exchangeOrderId
    ensures Stands(queue[k := order], id, key) <==>
            if id == order.exchangeOrderId then key == KeyOf(order) else Stands(queue, id, key)
  {
    var after := queue[k := order];
    assert after[k] == order;
    if i :| 0 <= i < |queue| && queue[i].exchangeOrderId == id && KeyOf(queue[i]) == key && i != k {
      assert after[i] == queue[i];
    }
  }

  // ---------- one book ----------

  ghost predicate Uncrossed(book: Book) {
    book.bids == [] || book.asks == [] || book.bids[0].price < book.asks[0].price
  }

  ghost predicate BookSound(book: Book, next: ExchangeOrderId) {
    && QueueSound(Buy, book.bids, next)
    && QueueSound(Sell, book.asks, next)
    && Ids(book.bids) !! Ids(book.asks)
  }

  ghost predicate StandsIn(book: Book, id: ExchangeOrderId, key: LiveKey) {
    Stands(book.bids, id, key) || Stands(book.asks, id, key)
  }

  /** Every entry that names this instrument names an order standing in its book under that key. */
  ghost predicate Names(directory: Directory, instrumentId: InstrumentId, book: Book) {
    forall key | key in directory && directory[key].instrumentId == instrumentId ::
      StandsIn(book, directory[key].exchangeOrderId, key)
  }

  /** The state invariant of the engine, whatever the commands. */
  ghost predicate Sound(e: Engine) {
    && (forall i | i in e.books :: BookSound(e.books[i], e.nextExchangeOrderId) && Uncrossed(e.books[i]))
    && (forall i | i in e.books :: Names(e.directory, i, e.books[i]))
    && (forall key | key in e.directory :: e.directory[key].instrumentId in e.books)
  }

  // ---------- one trip round the loop ----------

  ghost predicate Submap(a: Directory, b: Directory) {
    forall key | key in a :: key in b && a[key] == b[key]
  }

  /** The book in the middle of matching: `order` is not in it. */
  ghost predicate MidSound(own: seq<BookOrder>, contra: seq<BookOrder>, order: Incoming, directory: Directory,
                           next: ExchangeOrderId) {
    var book := Between(own, contra, order.side);
    && BookSound(book, next)
    && Names(directory, order.instrumentId, book)
  }

  function Between(own: seq<BookOrder>, contra: seq<BookOrder>, side: Side): Book {
    if side == Buy then Book(own, contra) else Book(contra, own)
  }

  lemma StepSound(own: seq<BookOrder>, contra: seq<BookOrder>, order: Incoming, directory: Directory,
                  next: ExchangeOrderId, sequence: nat, commandSequence: nat)
    requires MidSound(own, contra, order, directory, next) && !Stops(contra, order)
    ensures var step := MatchStep(contra, order, directory, sequence, commandSequence);
            && MidSound(own, step.contra, step.incoming, step.directory, next)
            && Ids(step.contra) <= Ids(contra)
            && Submap(step.directory, directory)
  {
    var step := MatchStep(contra, order, directory, sequence, commandSequence);
    var front := contra[0];
    if step.contra == contra[1..] {
      TailSound(Opposite(order.side), contra, next);
    } else {
      EditSound(Opposite(order.side), contra, 0, step.contra[0], next);
      forall id, key ensures Stands(step.contra, id, key) <==> Stands(contra, id, key) {
        EditStands(contra, 0, step.contra[0], id, key);
      }
    }
  }

  lemma {:induction false} MatchSound(own: seq<BookOrder>, contra: seq<BookOrder>, order: Incoming,
                                      directory: Directory,
                                      next: ExchangeOrderId, sequence: nat, commandSequence: nat)
    requires MidSound(own, contra, order, directory, next)
    ensures var m := Match(contra, order, directory, sequence, commandSequence);
            && MidSound(own, m.contra, m.incoming, m.directory, next)
            && Ids(m.contra) <= Ids(contra)
            && Submap(m.directory, directory)
    decreases |contra|, order.remaining
  {
    hide MidSound, Ids;
    if !Stops(contra, order) {
      StepSound(own, contra, order, directory, next, sequence, commandSequence);
      var step := MatchStep(contra, order, directory, sequence, commandSequence);
      MatchSound(own, step.contra, step.incoming, step.directory, next, sequence + 2, commandSequence);
    }
  }

  // ---------- entering the book ----------

  lemma QueueSoundLater(side: Side, queue: seq<BookOrder>, next: ExchangeOrderId, later: ExchangeOrderId)
    requires QueueSound(side, queue, next) && next <= later
    ensures QueueSound(side, queue, later)
    ensures forall id | id in Ids(queue) :: id < next
  {
  }

  /** Consuming from the front never improves the front. */
  lemma {:induction false} ConsumedFront(side: Side, queue: seq<BookOrder>, quantity: Quantity)
    requires Sorted(side, queue)
    ensures var after := Consume(queue, quantity);
            after != [] ==> queue != [] && !Better(side, after[0].price, queue[0].price)
  {
    if quantity > 0 && queue != [] && queue[0].remaining <= quantity {
      ConsumedFront(side, queue[1..], quantity - queue[0].remaining);
      if |queue| > 1 {
        assert !Better(side, queue[1].price, queue[0].price);
      }
    }
  }

  /** The best price of a side after an insertion. */
  lemma InsertedFront(side: Side, queue: seq<BookOrder>, order: BookOrder)
    ensures Insert(side, queue, order) != []
    ensures var front := Insert(side, queue, order)[0].price;
            front == order.price || (queue != [] && front == queue[0].price)
  {
  }

  /** One instrument's book, once an order has matched and its remainder has or has not rested. */
  function Settled(own: seq<BookOrder>, m: Matched): Book {
    Between(if m.incoming.timeInForce != GTC || m.incoming.remaining == 0 then own
            else Insert(m.incoming.side, own, AsBookOrder(m.incoming)), m.contra, m.incoming.side)
  }

  lemma SettledUncrossed(own: seq<BookOrder>, contra: seq<BookOrder>, order: Incoming, directory: Directory,
                         sequence: nat, commandSequence: nat)
    requires Sorted(Opposite(order.side), contra) && Positive(contra)
    requires Uncrossed(Between(own, contra, order.side))
    ensures Uncrossed(Settled(own, Match(contra, order, directory, sequence, commandSequence)))
  {
    var m := Match(contra, order, directory, sequence, commandSequence);
    MatchConsumes(contra, order, directory, sequence, commandSequence);
    ConsumedFront(Opposite(order.side), contra, Min(order.remaining, CrossableTotal(order.side, order.price, contra)));
    InsertedFront(order.side, own, AsBookOrder(m.incoming));
    hide Match, Consume, Insert, CrossableTotal, Sorted, Positive;
  }

  lemma SettledSound(own: seq<BookOrder>, contra: seq<BookOrder>, order: Incoming, directory: Directory,
                     sequence: nat, commandSequence: nat)
    requires MidSound(own, contra, order, directory, order.exchangeOrderId)
    requires order.price > 0
    ensures BookSound(Settled(own, Match(contra, order, directory, sequence, commandSequence)),
                      order.exchangeOrderId + 1)
  {
    var m := Match(contra, order, directory, sequence, commandSequence);
    MatchSound(own, contra, order, directory, order.exchangeOrderId, sequence, commandSequence);
    hide Match, Ids;
    QueueSoundLater(order.side, own, order.exchangeOrderId, order.exchangeOrderId + 1);
    QueueSoundLater(Opposite(order.side), m.contra, order.exchangeOrderId, order.exchangeOrderId + 1);
    if m.incoming.timeInForce == GTC && m.incoming.remaining > 0 {
      InsertSound(order.side, own, AsBookOrder(m.incoming), order.exchangeOrderId + 1);
    }
  }

  lemma SettledNames(own: seq<BookOrder>, contra: seq<BookOrder>, order: Incoming, directory: Directory,
                     sequence: nat, commandSequence: nat, id: ExchangeOrderId, key: LiveKey)
    ensures var m := Match(contra, order, directory, sequence, commandSequence);
            StandsIn(Settled(own, m), id, key) <==>
            StandsIn(Between(own, m.contra, order.side), id, key)
            || (m.incoming.timeInForce == GTC && m.incoming.remaining > 0
                && id == order.exchangeOrderId && key == LiveKey(order.accountId, order.clientOrderId))
  {
    var m := Match(contra, order, directory, sequence, commandSequence);
    hide Match;
    InsertStands(order.side, own, AsBookOrder(m.incoming), id, key);
  }

  predicate MayRest(order: Incoming) {
    order.timeInForce == GTC && order.remaining > 0
  }

  function RefOf(order: Incoming): OrderRef {
    OrderRef(order.exchangeOrderId, order.originalQuantity, order.orderSequence, order.instrumentId)
  }

  function IncomingKey(order: Incoming): LiveKey {
    LiveKey(order.accountId, order.clientOrderId)
  }

  /** The matching that an entering order sets off. */
  function EnterMatch(e: Engine, order: Incoming, commandSequence: nat): (m: Matched)
    requires order.instrumentId in e.books
    ensures m.incoming == order.(remaining := m.incoming.remaining)
  {
    Match(e.books[order.instrumentId].On(Opposite(order.side)), order, e.directory, e.nextEventSequence,
          commandSequence)
  }

  /** Entering changes one book and the directory, and nothing else but the event counter. */
  lemma EnterShape(e: Engine, order: Incoming, commandSequence: nat)
    requires order.instrumentId in e.books
    ensures var m := EnterMatch(e, order, commandSequence);
            var after := Enter(e, order, commandSequence).engine;
            && after.books == e.books[order.instrumentId := Settled(e.books[order.instrumentId].On(order.side), m)]
            && after.directory ==
               (if MayRest(m.incoming) then m.directory[IncomingKey(order) := RefOf(order)] else m.directory)
            && after.nextExchangeOrderId == e.nextExchangeOrderId && after.nextPriority == e.nextPriority
  {
    hide Match, Insert;
  }

  lemma EnterNames(e: Engine, order: Incoming, commandSequence: nat)
    requires Sound(e.(nextExchangeOrderId := order.exchangeOrderId)) && order.instrumentId in e.books
    ensures var after := Enter(e, order, commandSequence).engine;
            forall i | i in after.books :: Names(after.directory, i, after.books[i])
  {
    var book := e.books[order.instrumentId];
    var own, contra := book.On(order.side), book.On(Opposite(order.side));
    var m := EnterMatch(e, order, commandSequence);
    var after := Enter(e, order, commandSequence).engine;
    EnterShape(e, order, commandSequence);
    assert Between(own, contra, order.side) == book;
    hide Match, Enter, BookSound, Uncrossed, Settled, StandsIn;
    MatchSound(own, contra, order, e.directory, order.exchangeOrderId, e.nextEventSequence, commandSequence);
    forall key | key in after.directory && after.directory[key].instrumentId == order.instrumentId
      ensures StandsIn(after.books[order.instrumentId], after.directory[key].exchangeOrderId, key)
    {
      SettledNames(own, contra, order, e.directory, e.nextEventSequence, commandSequence,
                   after.directory[key].exchangeOrderId, key);
    }
  }

  lemma EnterBooks(e: Engine, order: Incoming, commandSequence: nat)
    requires e.nextExchangeOrderId == order.exchangeOrderId + 1
    requires Sound(e.(nextExchangeOrderId := order.exchangeOrderId))
    requires order.instrumentId in e.books && order.price > 0
    ensures var after := Enter(e, order, commandSequence).engine;
            forall i | i in after.books :: BookSound(after.books[i], after.nextExchangeOrderId)
              && Uncrossed(after.books[i])
  {
    var book := e.books[order.instrumentId];
    var own, contra := book.On(order.side), book.On(Opposite(order.side));
    var after := Enter(e, order, commandSequence).engine;
    EnterShape(e, order, commandSequence);
    assert Between(own, contra, order.side) == book;
    hide Match, Enter, QueueSound, Ids, StandsIn, Uncrossed, Settled;
    SoundQueue(Opposite(order.side), contra, order.exchangeOrderId);
    SettledUncrossed(own, contra, order, e.directory, e.nextEventSequence, commandSequence);
    SettledSound(own, contra, order, e.directory, e.nextEventSequence, commandSequence);
    forall i | i in e.books && i != order.instrumentId ensures BookSound(e.books[i], order.exchangeOrderId + 1) {
      QueueSoundLater(Buy, e.books[i].bids, order.exchangeOrderId, order.exchangeOrderId + 1);
      QueueSoundLater(Sell, e.books[i].asks, order.exchangeOrderId, order.exchangeOrderId + 1);
    }
  }

  /** A fresh order entering keeps the engine sound and its book uncrossed. */
  lemma EnterSound(e: Engine, order: Incoming, commandSequence: nat)
    requires e.nextExchangeOrderId == order.exchangeOrderId + 1
    requires Sound(e.(nextExchangeOrderId := order.exchangeOrderId))
    requires order.instrumentId in e.books && order.price > 0
    ensures Sound(Enter(e, order, commandSequence).engine)
  {
    EnterShape(e, order, commandSequence);
    EnterNames(e, order, commandSequence);
    EnterBooks(e, order, commandSequence);
    var book := e.books[order.instrumentId];
    assert Between(book.On(order.side), book.On(Opposite(order.side)), order.side) == book;
    MatchSound(book.On(order.side), book.On(Opposite(order.side)), order, e.directory, order.exchangeOrderId,
               e.nextEventSequence, commandSequence);
    hide Match, Enter, BookSound, Uncrossed, Settled, Names;
  }

  lemma SoundQueue(side: Side, queue: seq<BookOrder>, next: ExchangeOrderId)
    requires QueueSound(side, queue, next)
    ensures Positive(queue) && Sorted(side, queue)
  {
  }

  // ---------- removing and editing ----------

  lemma InIds(queue: seq<BookOrder>, i: nat)
    requires i < |queue|
    ensures queue[i].exchangeOrderId in Ids(queue)
  {
  }

  lemma StandsId(queue: seq<BookOrder>, id: ExchangeOrderId, key: LiveKey)
    requires Stands(queue, id, key)
    ensures id in Ids(queue)
  {
  }

  lemma FoundOnce(side: Side, queue: seq<BookOrder>, next: ExchangeOrderId, id: ExchangeOrderId)
    requires QueueSound(side, queue, next)
    ensures Find(queue, id) < |queue| <==> id in Ids(queue)
    ensures forall i | 0 <= i < |queue| && queue[i].exchangeOrderId == id :: i == Find(queue, id)
  {
    var k := Find(queue, id);
    forall i | 0 <= i < |queue| && queue[i].exchangeOrderId == id ensures i == k {
    }
  }

  /** The order an id rests as: on its own side, at a known position, and nowhere else. */
  lemma Located(book: Book, next: ExchangeOrderId, id: ExchangeOrderId)
    requires BookSound(book, next)
    ensures RestsIn(book, id) <==> id in Ids(book.bids) || id in Ids(book.asks)
    ensures RestsIn(book, id) ==>
              var side := SideOf(book, id);
              var k := Find(book.On(side), id);
              && k < |book.On(side)| && OrderIn(book, id) == book.On(side)[k]
              && OrderIn(book, id).side == side && id !in Ids(book.On(Opposite(side)))
              && OrderIn(book, id).remaining > 0 && OrderIn(book, id).price > 0 && OrderIn(book, id).timeInForce == GTC
              && forall i | 0 <= i < |book.On(side)| && i != k :: book.On(side)[i].exchangeOrderId != id
  {
    FoundOnce(Buy, book.bids, next, id);
    FoundOnce(Sell, book.asks, next, id);
  }

  /** A key of a sound directory names an order that answers to it. */
  lemma NamedIsKeyed(e: Engine, key: LiveKey)
    requires Sound(e) && key in e.directory
    ensures Known(e, key, e.directory[key].instrumentId)
    ensures KeyOf(Named(e, key, e.directory[key].instrumentId)) == key
  {
    var instrumentId := e.directory[key].instrumentId;
    var book, id := e.books[instrumentId], e.directory[key].exchangeOrderId;
    assert StandsIn(book, id, key);
    var side := if Stands(book.bids, id, key) then Buy else Sell;
    StandsId(book.On(side), id, key);
    Located(book, e.nextExchangeOrderId, id);
    FoundOnce(side, book.On(side), e.nextExchangeOrderId, id);
  }

  lemma StandsUnique(book: Book, next: ExchangeOrderId, id: ExchangeOrderId, key: LiveKey)
    requires BookSound(book, next) && RestsIn(book, id)
    ensures StandsIn(book, id, key) <==> key == KeyOf(OrderIn(book, id))
  {
    Located(book, next, id);
    var side := SideOf(book, id);
    FoundOnce(side, book.On(side), next, id);
    if Stands(book.On(Opposite(side)), id, key) {
      StandsId(book.On(Opposite(side)), id, key);
    }
  }

  lemma RemoveSound(book: Book, next: ExchangeOrderId, id: ExchangeOrderId)
    requires BookSound(book, next) && RestsIn(book, id)
    ensures BookSound(Remove(book, id), next)
    ensures Uncrossed(book) ==> Uncrossed(Remove(book, id))
  {
    Located(book, next, id);
    var side := SideOf(book, id);
    var queue, k := book.On(side), Find(book.On(side), id);
    WithoutSound(side, queue, k, next);
    if k == 0 && |queue| > 1 {
      assert !Better(side, queue[1].price, queue[0].price);
    }
  }

  lemma RemoveStands(book: Book, next: ExchangeOrderId, id: ExchangeOrderId, other: ExchangeOrderId, key: LiveKey)
    requires BookSound(book, next) && RestsIn(book, id)
    ensures StandsIn(Remove(book, id), other, key) <==> StandsIn(book, other, key) && other != id
  {
    Located(book, next, id);
    var side := SideOf(book, id);
    WithoutStands(book.On(side), Find(book.On(side), id), other, key);
    if Stands(book.On(Opposite(side)), other, key) {
      StandsId(book.On(Opposite(side)), other, key);
    }
  }

  lemma EditBookSound(book: Book, next: ExchangeOrderId, id: ExchangeOrderId, order: BookOrder)
    requires BookSound(book, next) && RestsIn(book, id) && order.remaining > 0
    requires order == OrderIn(book, id).(remaining := order.remaining, clientOrderId := order.clientOrderId)
    ensures BookSound(Amend(book, id, order), next)
    ensures Uncrossed(book) ==> Uncrossed(Amend(book, id, order))
  {
    Located(book, next, id);
    var side := SideOf(book, id);
    EditSound(side, book.On(side), Find(book.On(side), id), order, next);
  }

  lemma EditBookStands(book: Book, next: ExchangeOrderId, id: ExchangeOrderId, order: BookOrder,
                       other: ExchangeOrderId, key: LiveKey)
    requires BookSound(book, next) && RestsIn(book, id) && order.exchangeOrderId == id
    ensures StandsIn(Amend(book, id, order), other, key) <==>
            if other == id then key == KeyOf(order) else StandsIn(book, other, key)
  {
    Located(book, next, id);
    var side := SideOf(book, id);
    EditStands(book.On(side), Find(book.On(side), id), order, other, key);
    if Stands(book.On(Opposite(side)), other, key) {
      StandsId(book.On(Opposite(side)), other, key);
    }
  }

  /** Taking an order out, with the entry that names it, keeps the engine sound. */
  lemma RemovalSound(e: Engine, key: LiveKey)
    requires Sound(e) && key in e.directory
    ensures Known(e, key, e.directory[key].instrumentId)
    ensures var i := e.directory[key].instrumentId;
            Sound(e.(books := e.books[i := Remove(e.books[i], e.directory[key].exchangeOrderId)],
                     directory := e.directory - {key}))
  {
    NamedIsKeyed(e, key);
    var i, id := e.directory[key].instrumentId, e.directory[key].exchangeOrderId;
    var book := e.books[i];
    RemoveSound(book, e.nextExchangeOrderId, id);
    hide QueueSound, Ids, Stands, Uncrossed, Remove, OrderIn, Find, SideOf;
    var directory := e.directory - {key};
    forall other | other in directory && directory[other].instrumentId == i
      ensures StandsIn(Remove(book, id), directory[other].exchangeOrderId, other)
    {
      StandsUnique(book, e.nextExchangeOrderId, id, other);
      RemoveStands(book, e.nextExchangeOrderId, id, directory[other].exchangeOrderId, other);
    }
  }

  /** A replace that keeps priority keeps the engine sound. */
  lemma InPlaceSound(e: Engine, c: Command)
    requires Sound(e) && c.ReplaceOrder? && ReplaceRejection(e, c) == NoReason
    ensures Sound(ReplaceInPlace(e, c).engine)
  {
    var key := LiveKey(c.accountId, c.originalClientOrderId);
    NamedIsKeyed(e, key);
    var book, resting := e.books[c.instrumentId], Named(e, key, c.instrumentId);
    var order := resting.(remaining := c.newQuantity, clientOrderId := c.newClientOrderId);
    var id := resting.exchangeOrderId;
    var after := ReplaceInPlace(e, c).engine;
    EditBookSound(book, e.nextExchangeOrderId, id, order);
    hide QueueSound, Ids, Stands, Uncrossed, Amend, OrderIn, Find, SideOf;
    forall other | other in after.directory && after.directory[other].instrumentId == c.instrumentId
      ensures StandsIn(after.books[c.instrumentId], after.directory[other].exchangeOrderId, other)
    {
      StandsUnique(book, e.nextExchangeOrderId, id, other);
      EditBookStands(book, e.nextExchangeOrderId, id, order, after.directory[other].exchangeOrderId, other);
    }
  }

  /** Every command, whatever it says, keeps every book sound and uncrossed and every directory entry
      naming an order that rests under that key. */
  lemma ProcessSound(e: Engine, c: Command)
    requires Sound(e)
    ensures Sound(Process(e, c).engine)
  {
    hide Enter, QueueSound, Ids, StandsIn, Uncrossed, Amend, Remove, OrderIn, Find, SideOf;
    match c
    case NewOrder(_, _, _, _, _, _, _, _) =>
      if NewRejection(e, c) == NoReason {
        EnterSound(Stamped(e), NewIncoming(e, c), c.commandSequence);
      }
    case CancelOrder(_, _, _, _) =>
      var key := LiveKey(c.accountId, c.clientOrderId);
      if c.instrumentId in e.books && Known(e, key, c.instrumentId) {
        RemovalSound(e, key);
      }
    case ReplaceOrder(_, _, _, _, _, _, _) =>
      var key := LiveKey(c.accountId, c.originalClientOrderId);
      if ReplaceRejection(e, c) == NoReason {
        if KeepsPriority(c, Named(e, key, c.instrumentId)) {
          InPlaceSound(e, c);
        } else {
          RemovalSound(e, key);
          EnterSound(Withdrawn(e, c), ReplacementIncoming(e, c), c.commandSequence);
        }
      }
  }

  /** The engine after a run of commands, with everything it announced. */
  function Run(e: Engine, commands: seq<Command>): Out
    decreases |commands|
  {
    if commands == [] then Out(e, [])
    else
      var first := Process(e, commands[0]);
      var rest := Run(first.engine, commands[1..]);
      rest.(events := first.events + rest.events)
  }

  lemma {:induction false} RunSound(e: Engine, commands: seq<Command>)
    requires Sound(e)
    ensures Sound(Run(e, commands).engine)
    decreases |commands|
  {
    if commands != [] {
      ProcessSound(e, commands[0]);
      RunSound(Process(e, commands[0]).engine, commands[1..]);
    }
  }

  lemma InitialSound(universe: set<InstrumentId>)
    ensures Sound(Initial(universe))
  {
  }
}
