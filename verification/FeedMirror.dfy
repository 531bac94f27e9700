/** The feed mirror: a trader who applies the public feed has, after every command, exactly the
    exchange's resting orders, with no error on the way. Order within a level is not mirrored, because
    a modify re-queues at the back on the trader's side. */
module FeedMirror {
  import opened Domain
  import opened PriceTime
  import opened Exchange
  import opened Matching
  import opened EngineSpec
  import opened EngineLaws
  import opened Completeness
  import T = TraderSpec
  import opened BookManagers
  import opened MarketData

  // ---------- folding events into books ----------

  /** One event, seen through the feed. */
  function Shown(b: Books, e: Event): Applied {
    match Message(e, 0, 0)
    case None => Applied(b, 0)
    case Some(m) => ApplyEvent(b, m)
  }

  function ShownAll(b: Books, events: seq<Event>): Applied
    decreases |events|
  {
    if events == [] then Applied(b, 0)
    else
      var first := Shown(b, events[0]);
      var rest := ShownAll(first.books, events[1..]);
      rest.(errors := first.errors + rest.errors)
  }

  /** What the feed does to the books is what the events do, whatever its numbers and its clock. */
  lemma {:induction false} FeedShows(b: Books, events: seq<Event>, next: nat, clock: Clock)
    ensures ApplyEvents(b, Published(events, next, clock)) == ShownAll(b, events)
    decreases |events|
  {
    if events != [] {
      var first := Shown(b, events[0]);
      var m := Message(events[0], next, clock(next));
      if m.Some? {
        FeedShows(first.books, events[1..], next + 1, clock);
        var messages := Published(events, next, clock);
        assert messages[0] == m.value && messages[1..] == Published(events[1..], next + 1, clock);
        assert ApplyEvent(b, m.value) == first;
      } else {
        FeedShows(b, events[1..], next, clock);
      }
    }
  }

  /** The events take the books from one state to another without an error. */
  ghost predicate Leads(b: Books, events: seq<Event>, b': Books) {
    ShownAll(b, events) == Applied(b', 0)
  }

  lemma {:induction false} LeadsConcat(b: Books, x: seq<Event>, y: seq<Event>, b1: Books, b2: Books)
    requires Leads(b, x, b1) && Leads(b1, y, b2)
    ensures Leads(b, x + y, b2)
    decreases |x|
  {
    hide Shown;
    if x == [] {
      assert x + y == y;
    } else {
      assert (x + y)[0] == x[0] && (x + y)[1..] == x[1..] + y;
      LeadsConcat(Shown(b, x[0]).books, x[1..], y, b1, b2);
    }
  }

  lemma LeadsOne(b: Books, e: Event, b': Books)
    requires Shown(b, e) == Applied(b', 0)
    ensures Leads(b, [e], b')
  {
    hide Shown;
    assert [e][1..] == [];
    assert ShownAll(b', []) == Applied(b', 0);
  }

  // ---------- one book and its mirror ----------

  function PublicOf(o: BookOrder): T.Arrival {
    T.Arrival(o.exchangeOrderId, o.side, o.price, o.remaining)
  }

  function Publics(queue: seq<BookOrder>): seq<T.Arrival> {
    seq(|queue|, i requires 0 <= i < |queue| => PublicOf(queue[i]))
  }

  /** What a book shows the public, as a bag of orders. */
  ghost function Shares(book: Book): multiset<T.Arrival> {
    multiset(Publics(book.bids)) + multiset(Publics(book.asks))
  }

  ghost predicate Mirrors(book: Book, list: seq<T.Arrival>) {
    T.Proper(list) && multiset(list) == Shares(book)
  }

  /** Every book of the exchange has its mirror, and there is nothing in any other. */
  ghost predicate AllMirror(books: map<InstrumentId, Book>, b: Books) {
    && (forall i | i in books :: Mirrors(books[i], ListOf(b, i)))
    && (forall i: InstrumentId | i !in books :: ListOf(b, i) == [])
  }

  lemma PublicsWithout(queue: seq<BookOrder>, k: nat)
    requires k < |queue|
    ensures multiset(Publics(Without(queue, k))) == multiset(Publics(queue)) - multiset{PublicOf(queue[k])}
    ensures PublicOf(queue[k]) in multiset(Publics(queue))
  {
    var p := Publics(queue);
    assert p == p[..k] + [p[k]] + p[k + 1..];
    assert Publics(Without(queue, k)) == p[..k] + p[k + 1..];
  }

  lemma PublicsEdit(queue: seq<BookOrder>, k: nat, o: BookOrder)
    requires k < |queue|
    ensures multiset(Publics(queue[k := o])) ==
            multiset(Publics(queue)) - multiset{PublicOf(queue[k])} + multiset{PublicOf(o)}
    ensures PublicOf(queue[k]) in multiset(Publics(queue))
  {
    var p := Publics(queue);
    assert p == p[..k] + [p[k]] + p[k + 1..];
    assert Publics(queue[k := o]) == p[..k] + [PublicOf(o)] + p[k + 1..];
  }

  lemma PublicsInsert(side: Side, queue: seq<BookOrder>, o: BookOrder)
    ensures multiset(Publics(Insert(side, queue, o))) == multiset(Publics(queue)) + multiset{PublicOf(o)}
  {
    var k := BackOf(side, queue, o.price);
    var p := Publics(queue);
    assert p == p[..k] + p[k..];
    assert Publics(Insert(side, queue, o)) == p[..k] + [PublicOf(o)] + p[k..];
  }

  /** An order that is there can be cancelled, and only it goes. */
  lemma CancelTakes(list: seq<T.Arrival>, o: T.Arrival)
    requires T.Proper(list) && o in multiset(list)
    ensures T.Has(list, o.id) && list[T.Place(list, o.id)] == o
    ensures T.CancelOrder(list, o.id) == T.Outcome(Without(list, T.Place(list, o.id)), None)
    ensures T.Proper(Without(list, T.Place(list, o.id))) && !T.Has(Without(list, T.Place(list, o.id)), o.id)
    ensures multiset(Without(list, T.Place(list, o.id))) == multiset(list) - multiset{o}
  {
    PlacedAt(list, o);
    hide T.Proper, T.Place, Without;
    var k := T.Place(list, o.id);
    T.WithoutProper(list, k);
    BagWithout(list, k);
  }

  lemma PlacedAt(list: seq<T.Arrival>, o: T.Arrival)
    requires T.Proper(list) && o in multiset(list)
    ensures T.Has(list, o.id) && list[T.Place(list, o.id)] == o
  {
    hide T.Place;
    var j :| 0 <= j < |list| && list[j] == o;
    assert j == T.Place(list, o.id);
  }

  lemma BagWithout(list: seq<T.Arrival>, k: nat)
    requires k < |list|
    ensures multiset(Without(list, k)) == multiset(list) - multiset{list[k]}
  {
    assert list == list[..k] + [list[k]] + list[k + 1..];
  }

  /** An order that is there can be modified, and only its quantity changes. */
  lemma ModifyTakes(list: seq<T.Arrival>, o: T.Arrival, quantity: Quantity)
    requires T.Proper(list) && o in multiset(list) && o.price > 0 && quantity > 0
    ensures var outcome := T.ModifyOrder(list, o.id, o.price, quantity);
            && outcome.error == None && T.Proper(outcome.list)
            && multiset(outcome.list) == multiset(list) - multiset{o} + multiset{o.(quantity := quantity)}
  {
    CancelTakes(list, o);
    T.AppendProper(Without(list, T.Place(list, o.id)), o.(quantity := quantity));
  }

  /** An order whose id is new can be added. */
  lemma AddTakes(list: seq<T.Arrival>, o: T.Arrival)
    requires T.Proper(list) && o.price > 0 && o.quantity > 0 && !T.Has(list, o.id)
    ensures var outcome := T.AddOrder(list, o.id, o.price, o.quantity, o.side);
            && outcome.error == None && T.Proper(outcome.list) && multiset(outcome.list) == multiset(list) + multiset{o}
  {
    T.AppendProper(list, o);
  }

  lemma PublicBelow(side: Side, queue: seq<BookOrder>, next: ExchangeOrderId, o: T.Arrival)
    requires QueueSound(side, queue, next) && o in multiset(Publics(queue))
    ensures o.id < next
  {
    var k :| 0 <= k < |Publics(queue)| && Publics(queue)[k] == o;
    assert OrderSound(side, queue[k], next);
  }

  /** Ids past every resting one are new to the mirror. */
  lemma FreshId(book: Book, list: seq<T.Arrival>, next: ExchangeOrderId)
    requires Mirrors(book, list) && QueueSound(Buy, book.bids, next) && QueueSound(Sell, book.asks, next)
    ensures !T.Has(list, next)
  {
    hide QueueSound;
    if T.Has(list, next) {
      var o := list[T.Place(list, next)];
      assert o in multiset(list);
      if o in multiset(Publics(book.bids)) {
        PublicBelow(Buy, book.bids, next, o);
      } else {
        PublicBelow(Sell, book.asks, next, o);
      }
    }
  }

  // ---------- one event ----------

  /** Only one instrument's book differs. */
  ghost predicate OnlyBook(b: Books, b': Books, i: InstrumentId) {
    forall j: InstrumentId | j != i :: ListOf(b', j) == ListOf(b, j)
  }

  /** An event about one book takes its mirror along. */
  ghost predicate Moves(b: Books, e: Event, i: InstrumentId, book': Book) {
    var shown := Shown(b, e);
    shown.errors == 0 && OnlyBook(b, shown.books, i) && Mirrors(book', ListOf(shown.books, i))
  }

  lemma RemovedMoves(b: Books, i: InstrumentId, book: Book, book': Book, o: BookOrder, sequence: nat)
    requires Mirrors(book, ListOf(b, i)) && PublicOf(o) in Shares(book)
    requires Shares(book') == Shares(book) - multiset{PublicOf(o)}
    ensures Moves(b, BookOrderRemoved(sequence, i, o.exchangeOrderId, o.side, o.price), i, book')
  {
    hide Shares, T.Proper, T.Place, Without;
    CancelTakes(ListOf(b, i), PublicOf(o));
  }

  lemma ReducedMoves(b: Books, i: InstrumentId, book: Book, book': Book, o: BookOrder, remaining: Quantity,
                     sequence: nat)
    requires Mirrors(book, ListOf(b, i)) && PublicOf(o) in Shares(book) && o.price > 0 && remaining > 0
    requires Shares(book') == Shares(book) - multiset{PublicOf(o)} + multiset{PublicOf(o.(remaining := remaining))}
    ensures Moves(b, BookOrderReduced(sequence, i, o.exchangeOrderId, o.side, o.price, remaining), i, book')
  {
    hide Shares, T.Proper, T.ModifyOrder;
    ModifyTakes(ListOf(b, i), PublicOf(o), remaining);
  }

  lemma AddedMoves(b: Books, i: InstrumentId, book: Book, book': Book, o: BookOrder, sequence: nat)
    requires Mirrors(book, ListOf(b, i)) && !T.Has(ListOf(b, i), o.exchangeOrderId) && o.price > 0 && o.remaining > 0
    requires Shares(book') == Shares(book) + multiset{PublicOf(o)}
    ensures Moves(b, BookOrderAdded(sequence, i, o.exchangeOrderId, o.side, o.price, o.remaining), i, book')
  {
    hide Shares, T.Proper, T.AddOrder;
    AddTakes(ListOf(b, i), PublicOf(o));
  }

  lemma MovedMirror(books: map<InstrumentId, Book>, b: Books, i: InstrumentId, book': Book, event: Event)
    requires AllMirror(books, b) && i in books && Moves(b, event, i, book')
    ensures AllMirror(books[i := book'], Shown(b, event).books)
  {
    hide Mirrors, Shown;
  }

  // ---------- the matching loop ----------

  /** The mirror follows these events to these books. */
  ghost predicate Follows(b: Books, events: seq<Event>, books': map<InstrumentId, Book>) {
    ShownAll(b, events).errors == 0 && AllMirror(books', ShownAll(b, events).books)
  }

  lemma FollowsConcat(b: Books, x: seq<Event>, y: seq<Event>, books': map<InstrumentId, Book>)
    requires ShownAll(b, x).errors == 0 && Follows(ShownAll(b, x).books, y, books')
    ensures Follows(b, x + y, books')
  {
    hide ShownAll, AllMirror;
    LeadsConcat(b, x, y, ShownAll(b, x).books, ShownAll(ShownAll(b, x).books, y).books);
  }

  lemma FollowsOne(b: Books, event: Event, books: map<InstrumentId, Book>, i: InstrumentId, book': Book)
    requires AllMirror(books, b) && i in books && Moves(b, event, i, book')
    ensures Follows(b, [event], books[i := book'])
  {
    hide AllMirror, Shown;
    MovedMirror(books, b, i, book', event);
    LeadsOne(b, event, Shown(b, event).books);
  }

  /** A private event, or a trade, changes no book. */
  predicate Unseen(event: Event) {
    !event.BookOrderAdded? && !event.BookOrderReduced? && !event.BookOrderRemoved?
  }

  lemma UnseenMoves(b: Books, event: Event)
    requires Unseen(event)
    ensures Shown(b, event).errors == 0 && Shown(b, event).books.books == b.books
  {
  }

  /** An unseen event, then the rest. */
  lemma FollowsUnseen(b: Books, events: seq<Event>, books': map<InstrumentId, Book>)
    requires events != [] && Unseen(events[0]) && Follows(Shown(b, events[0]).books, events[1..], books')
    ensures Follows(b, events, books')
  {
    UnseenMoves(b, events[0]);
    hide Shown, AllMirror;
  }

  /** After an unseen event the mirror is where it was. */
  lemma UnseenKeeps(b: Books, event: Event, books: map<InstrumentId, Book>, i: InstrumentId)
    requires Unseen(event) && AllMirror(books, b) && i in books
    ensures AllMirror(books, Shown(b, event).books) && Mirrors(books[i], ListOf(Shown(b, event).books, i))
  {
    UnseenMoves(b, event);
    hide Shown, Mirrors;
  }

  /** An unseen event, then one that moves a book. */
  lemma FollowsPair(b: Books, events: seq<Event>, books: map<InstrumentId, Book>, i: InstrumentId, book': Book)
    requires |events| == 2 && Unseen(events[0]) && AllMirror(books, b) && i in books
    requires Moves(Shown(b, events[0]).books, events[1], i, book')
    ensures Follows(b, events, books[i := book'])
  {
    hide Shown, Moves, AllMirror, Mirrors;
    UnseenKeeps(b, events[0], books, i);
    FollowsOne(Shown(b, events[0]).books, events[1], books, i, book');
    assert events[1..] == [events[1]];
    FollowsUnseen(b, events, books[i := book']);
  }

  lemma SharesWith(book: Book, side: Side, queue: seq<BookOrder>)
    ensures Shares(book.With(side, queue)) == multiset(Publics(book.On(Opposite(side)))) + multiset(Publics(queue))
    ensures Shares(book) == multiset(Publics(book.On(Opposite(side)))) + multiset(Publics(book.On(side)))
  {
    hide Publics;
  }

  /** One trip's effect on what the book shows. */
  lemma TripShares(book: Book, passive: Side, front1: BookOrder)
    requires book.On(passive) != []
    requires front1 == book.On(passive)[0].(remaining := front1.remaining)
    ensures var contra := book.On(passive);
            && PublicOf(contra[0]) in Shares(book)
            && Shares(book.With(passive, contra[1..])) == Shares(book) - multiset{PublicOf(contra[0])}
            && Shares(book.With(passive, contra[0 := front1])) ==
               Shares(book) - multiset{PublicOf(contra[0])} + multiset{PublicOf(front1)}
  {
    hide Shares, Publics;
    var contra := book.On(passive);
    PublicsWithout(contra, 0);
    PublicsEdit(contra, 0, front1);
    assert Without(contra, 0) == contra[1..];
    SharesWith(book, passive, contra[1..]);
    SharesWith(book, passive, contra[0 := front1]);
  }

  lemma TripFollows(e: Engine, order: Incoming, commandSequence: nat, b: Books)
    requires AllMirror(e.books, b) && order.instrumentId in e.books
    requires BookSound(e.books[order.instrumentId], e.nextExchangeOrderId)
    requires !Stops(e.books[order.instrumentId].On(Opposite(order.side)), order)
    ensures Follows(b, Tripped(e, order, commandSequence).2, Tripped(e, order, commandSequence).0.books)
  {
    hide Mirrors, Shares, AllMirror, Sorted, Shown, Moves, Follows;
    var (e1, order1, events1) := Tripped(e, order, commandSequence);
    var i, passive := order.instrumentId, Opposite(order.side);
    var book, contra := e.books[i], e.books[i].On(passive);
    var front := contra[0];
    var front1 := front.(remaining := front.remaining - Min(order.remaining, front.remaining));
    assert OrderSound(passive, front, e.nextExchangeOrderId);
    TripShares(book, passive, front1);
    var contra' := if front1.remaining == 0 then contra[1..] else contra[0 := front1];
    var book' := book.With(passive, contra');
    var b1 := Shown(b, events1[0]).books;
    UnseenKeeps(b, events1[0], e.books, i);
    if front1.remaining == 0 {
      RemovedMoves(b1, i, book, book', front, events1[1].eventSequence);
    } else {
      ReducedMoves(b1, i, book, book', front, front1.remaining, events1[1].eventSequence);
    }
    FollowsPair(b, events1, e.books, i, book');
  }

  lemma {:induction false} MatchFollows(e: Engine, order: Incoming, commandSequence: nat, b: Books)
    requires AllMirror(e.books, b) && order.instrumentId in e.books
    requires MidSound(e.books[order.instrumentId].On(order.side), e.books[order.instrumentId].On(Opposite(order.side)),
                      order, e.directory, e.nextExchangeOrderId)
    ensures var m := EnterMatch(e, order, commandSequence);
            Follows(b, m.events, AfterMatch(e, order, m).books)
    decreases Trips(e, order)
  {
    var book := e.books[order.instrumentId];
    var own, contra := book.On(order.side), book.On(Opposite(order.side));
    MatchUnrolls(e, order, commandSequence);
    assert Between(own, contra, order.side) == book;
    if !Stops(contra, order) {
      var (e1, order1, events1) := Tripped(e, order, commandSequence);
      TripFollows(e, order, commandSequence, b);
      TripsFall(e, order, commandSequence);
      StepSound(own, contra, order, e.directory, e.nextExchangeOrderId, e.nextEventSequence, commandSequence);
      var b1 := ShownAll(b, events1).books;
      hide EnterMatch, ShownAll, AllMirror;
      MatchFollows(e1, order1, commandSequence, b1);
      var rest := EnterMatch(e1, order1, commandSequence);
      FollowsConcat(b, events1, rest.events, AfterMatch(e1, order1, rest).books);
    }
  }

  // ---------- entering ----------

  /** A remainder that rests is announced under an id nobody has seen. */
  lemma RestFollows(e: Engine, order: Incoming, b: Books)
    requires AllMirror(e.books, b) && order.instrumentId in e.books && order.price > 0
    requires QueueSound(Buy, e.books[order.instrumentId].bids, order.exchangeOrderId)
    requires QueueSound(Sell, e.books[order.instrumentId].asks, order.exchangeOrderId)
    ensures Follows(b, Rest(e, order).events, Rest(e, order).engine.books)
  {
    hide Shares, Insert, Mirrors, Moves, Follows, QueueSound;
    if MayRest(order) {
      var i, side, o := order.instrumentId, order.side, AsBookOrder(order);
      var book := e.books[i];
      var queue := Insert(side, book.On(side), o);
      var book' := book.With(side, queue);
      FreshId(book, ListOf(b, i), order.exchangeOrderId);
      PublicsInsert(side, book.On(side), o);
      SharesWith(book, side, queue);
      AddedMoves(b, i, book, book', o, e.nextEventSequence);
      FollowsOne(b, Rest(e, order).events[0], e.books, i, book');
    } else {
      FollowsNothing(b, e.books);
    }
  }

  lemma FollowsNothing(b: Books, books: map<InstrumentId, Book>)
    requires AllMirror(books, b)
    ensures Follows(b, [], books)
  {
  }

  lemma EnterFollows(e: Engine, order: Incoming, commandSequence: nat, b: Books)
    requires AllMirror(e.books, b) && order.instrumentId in e.books && order.price > 0
    requires MidSound(e.books[order.instrumentId].On(order.side), e.books[order.instrumentId].On(Opposite(order.side)),
                      order, e.directory, order.exchangeOrderId)
    requires e.nextExchangeOrderId == order.exchangeOrderId + 1
    ensures var out := Enter(e, order, commandSequence);
            Follows(b, out.events, out.engine.books)
  {
    var i := order.instrumentId;
    var book := e.books[i];
    var own, contra := book.On(order.side), book.On(Opposite(order.side));
    var m := EnterMatch(e, order, commandSequence);
    var mid := AfterMatch(e, order, m);
    MatchSound(own, contra, order, e.directory, order.exchangeOrderId, e.nextEventSequence, commandSequence);
    assert Between(own, contra, order.side) == book;
    assert mid.books[i] == Between(own, m.contra, order.side);
    QueueSoundLater(Buy, book.bids, order.exchangeOrderId, e.nextExchangeOrderId);
    QueueSoundLater(Sell, book.asks, order.exchangeOrderId, e.nextExchangeOrderId);
    hide QueueSound, Ids, Names, Match, Rest, ShownAll, AllMirror;
    MatchFollows(e, order, commandSequence, b);
    RestFollows(mid, m.incoming, ShownAll(b, m.events).books);
    FollowsConcat(b, m.events, Rest(mid, m.incoming).events, Rest(mid, m.incoming).engine.books);
  }

  lemma SoundMid(e: Engine, order: Incoming)
    requires Sound(e) && order.instrumentId in e.books
    ensures MidSound(e.books[order.instrumentId].On(order.side), e.books[order.instrumentId].On(Opposite(order.side)),
                     order, e.directory, e.nextExchangeOrderId)
  {
    var book := e.books[order.instrumentId];
    assert Between(book.On(order.side), book.On(Opposite(order.side)), order.side) == book;
  }

  // ---------- the commands ----------

  lemma NewFollows(e: Engine, c: Command, b: Books)
    requires Sound(e) && AllMirror(e.books, b) && c.NewOrder? && NewRejection(e, c) == NoReason
    ensures Follows(b, Process(e, c).events, Process(e, c).engine.books)
  {
    hide BookSound, Names, Uncrossed, AllMirror, Enter, Shown, ShownAll;
    var s, order, events := Stamped(e), NewIncoming(e, c), Process(e, c).events;
    SoundMid(e, order);
    var b1 := Shown(b, events[0]).books;
    UnseenMoves(b, events[0]);
    SameBooks(e.books, b, b1);
    EnterFollows(s, order, c.commandSequence, b1);
    assert events[1..] == Enter(s, order, c.commandSequence).events;
    FollowsUnseen(b, events, Process(e, c).engine.books);
  }

  lemma SameBooks(books: map<InstrumentId, Book>, b: Books, b1: Books)
    requires AllMirror(books, b) && b1.books == b.books
    ensures AllMirror(books, b1)
  {
  }

  /** What a removal takes from what the book shows. */
  lemma RemoveShares(e: Engine, key: LiveKey, i: InstrumentId)
    requires Sound(e) && Known(e, key, i)
    ensures var o := Named(e, key, i);
            && PublicOf(o) in Shares(e.books[i]) && o.price > 0 && o.remaining > 0
            && Shares(Remove(e.books[i], o.exchangeOrderId)) == Shares(e.books[i]) - multiset{PublicOf(o)}
  {
    var id, book := e.directory[key].exchangeOrderId, e.books[i];
    Located(book, e.nextExchangeOrderId, id);
    var side := SideOf(book, id);
    PublicsWithout(book.On(side), Find(book.On(side), id));
    SharesWith(book, side, Without(book.On(side), Find(book.On(side), id)));
    hide Shares, Publics, Without;
  }

  lemma CancelFollows(e: Engine, c: Command, b: Books)
    requires Sound(e) && AllMirror(e.books, b) && c.CancelOrder?
    requires Known(e, LiveKey(c.accountId, c.clientOrderId), c.instrumentId)
    ensures Follows(b, Process(e, c).events, Process(e, c).engine.books)
  {
    hide Sound, Shares, OrderIn, Remove, Mirrors, AllMirror, Moves, Follows, Shown;
    var key, i, events := LiveKey(c.accountId, c.clientOrderId), c.instrumentId, Process(e, c).events;
    RemoveShares(e, key, i);
    UnseenKeeps(b, events[0], e.books, i);
    var o, book' := Named(e, key, i), Remove(e.books[i], Named(e, key, i).exchangeOrderId);
    RemovedMoves(Shown(b, events[0]).books, i, e.books[i], book', o, e.nextEventSequence + 1);
    FollowsPair(b, events, e.books, i, book');
  }

  lemma AmendShares(e: Engine, key: LiveKey, i: InstrumentId, o': BookOrder)
    requires Sound(e) && Known(e, key, i) && o'.exchangeOrderId == e.directory[key].exchangeOrderId
    ensures var o := Named(e, key, i);
            && PublicOf(o) in Shares(e.books[i]) && o.price > 0
            && Shares(Amend(e.books[i], o.exchangeOrderId, o')) ==
               Shares(e.books[i]) - multiset{PublicOf(o)} + multiset{PublicOf(o')}
  {
    var id, book := e.directory[key].exchangeOrderId, e.books[i];
    Located(book, e.nextExchangeOrderId, id);
    var side := SideOf(book, id);
    PublicsEdit(book.On(side), Find(book.On(side), id), o');
    SharesWith(book, side, book.On(side)[Find(book.On(side), id) := o']);
    hide Shares, Publics;
  }

  lemma InPlaceFollows(e: Engine, c: Command, b: Books)
    requires Sound(e) && AllMirror(e.books, b) && c.ReplaceOrder? && ReplaceRejection(e, c) == NoReason
    ensures Follows(b, ReplaceInPlace(e, c).events, ReplaceInPlace(e, c).engine.books)
  {
    hide Sound, Shares, OrderIn, Amend, Mirrors, AllMirror, Moves, Follows, Shown;
    var key, i, events := LiveKey(c.accountId, c.originalClientOrderId), c.instrumentId, ReplaceInPlace(e, c).events;
    var o := Named(e, key, i);
    var o' := o.(remaining := c.newQuantity, clientOrderId := c.newClientOrderId);
    AmendShares(e, key, i, o');
    assert PublicOf(o') == PublicOf(o.(remaining := c.newQuantity));
    UnseenKeeps(b, events[0], e.books, i);
    var book' := Amend(e.books[i], o.exchangeOrderId, o');
    ReducedMoves(Shown(b, events[0]).books, i, e.books[i], book', o, c.newQuantity, e.nextEventSequence + 1);
    FollowsPair(b, events, e.books, i, book');
  }

  /** The old order's removal, as announced by a replace. */
  lemma WithdrawalFollows(e: Engine, c: Command, b: Books)
    requires Sound(e) && AllMirror(e.books, b) && c.ReplaceOrder? && ReplaceRejection(e, c) == NoReason
    ensures Follows(b, ReplaceAnew(e, c).events[..2], Withdrawn(e, c).books)
  {
    hide Sound, Shares, OrderIn, Remove, Enter, Mirrors, AllMirror, Moves, Follows, Shown;
    var key, i, events := LiveKey(c.accountId, c.originalClientOrderId), c.instrumentId, ReplaceAnew(e, c).events[..2];
    RemoveShares(e, key, i);
    UnseenKeeps(b, events[0], e.books, i);
    var o, book' := Named(e, key, i), Remove(e.books[i], Named(e, key, i).exchangeOrderId);
    RemovedMoves(Shown(b, events[0]).books, i, e.books[i], book', o, e.nextEventSequence + 1);
    FollowsPair(b, events, e.books, i, book');
  }

  lemma AnewFollows(e: Engine, c: Command, b: Books)
    requires Sound(e) && AllMirror(e.books, b) && c.ReplaceOrder? && ReplaceRejection(e, c) == NoReason
    ensures Follows(b, ReplaceAnew(e, c).events, ReplaceAnew(e, c).engine.books)
  {
    hide BookSound, Names, Uncrossed, AllMirror, Enter, Shown, ShownAll, OrderIn, Remove;
    var w, order, events := Withdrawn(e, c), ReplacementIncoming(e, c), ReplaceAnew(e, c).events;
    RemovalSound(e, LiveKey(c.accountId, c.originalClientOrderId));
    SoundMid(w.(nextExchangeOrderId := e.nextExchangeOrderId), order);
    WithdrawalFollows(e, c, b);
    var b1 := ShownAll(b, events[..2]).books;
    EnterFollows(w, order, c.commandSequence, b1);
    assert events == events[..2] + Enter(w, order, c.commandSequence).events;
    FollowsConcat(b, events[..2], Enter(w, order, c.commandSequence).events, ReplaceAnew(e, c).engine.books);
  }

  lemma RejectedFollows(e: Engine, c: Command, id: ClientOrderId, reason: RejectReason, b: Books)
    requires AllMirror(e.books, b)
    ensures Follows(b, Rejected(e, c, id, reason).events, e.books)
  {
    var events := Rejected(e, c, id, reason).events;
    assert events[1..] == [];
    assert ShownAll(b, events[1..]) == Applied(b, 0);
    hide AllMirror;
    FollowsUnseen(b, events, e.books);
  }

  /** After every command, whatever it says, the feed of its events has taken the trader's books,
      without an error, to exactly the exchange's resting orders. */
  lemma CommandFollows(e: Engine, c: Command, b: Books, next: nat, clock: Clock)
    requires Sound(e) && AllMirror(e.books, b)
    ensures var out := Process(e, c);
            var applied := ApplyEvents(b, Published(out.events, next, clock));
            applied.errors == 0 && AllMirror(out.engine.books, applied.books)
  {
    hide Sound, AllMirror, Enter, Remove, Amend, OrderIn, Find, CrossableFrom, ShownAll, ApplyEvents, Published;
    FeedShows(b, Process(e, c).events, next, clock);
    match c
    case NewOrder(_, _, _, _, _, _, _, _) =>
      if NewRejection(e, c) == NoReason {
        NewFollows(e, c, b);
      } else {
        RejectedFollows(e, c, c.clientOrderId, NewRejection(e, c), b);
      }
    case CancelOrder(_, _, _, _) =>
      if c.instrumentId !in e.books {
        RejectedFollows(e, c, c.clientOrderId, InvalidInstrument, b);
      } else if !Known(e, LiveKey(c.accountId, c.clientOrderId), c.instrumentId) {
        RejectedFollows(e, c, c.clientOrderId, UnknownOrderId, b);
      } else {
        CancelFollows(e, c, b);
      }
    case ReplaceOrder(_, _, _, _, _, _, _) =>
      if ReplaceRejection(e, c) != NoReason {
        RejectedFollows(e, c, c.originalClientOrderId, ReplaceRejection(e, c), b);
      } else if KeepsPriority(c, Named(e, LiveKey(c.accountId, c.originalClientOrderId), c.instrumentId)) {
        InPlaceFollows(e, c, b);
      } else {
        AnewFollows(e, c, b);
      }
  }

  /** Over whole runs from an exchange that has just opened, with the feed numbered from one. */
  lemma {:induction false} RunFollows(e: Engine, commands: seq<Command>, b: Books)
    requires Sound(e) && AllMirror(e.books, b)
    ensures Follows(b, Run(e, commands).events, Run(e, commands).engine.books)
    decreases |commands|
  {
    hide Sound, AllMirror, ShownAll, Process;
    if commands == [] {
      FollowsNothing(b, e.books);
    } else {
      var out := Process(e, commands[0]);
      CommandShown(e, commands[0], b);
      ProcessSound(e, commands[0]);
      var b1 := ShownAll(b, out.events).books;
      RunFollows(out.engine, commands[1..], b1);
      FollowsConcat(b, out.events, Run(out.engine, commands[1..]).events, Run(e, commands).engine.books);
    }
  }

  lemma CommandShown(e: Engine, c: Command, b: Books)
    requires Sound(e) && AllMirror(e.books, b)
    ensures Follows(b, Process(e, c).events, Process(e, c).engine.books)
  {
    hide Sound, AllMirror, Process, ApplyEvents, Published, ShownAll;
    CommandFollows(e, c, b, 1, n => 0);
    FeedShows(b, Process(e, c).events, 1, n => 0);
  }

  lemma OpeningMirrored(universe: set<InstrumentId>)
    ensures Sound(Initial(universe)) && AllMirror(Initial(universe).books, NoBooks)
  {
    InitialSound(universe);
  }

  /** The feed of events that a trader's books follow, applied from nothing. */
  lemma FollowedFeed(events: seq<Event>, books: map<InstrumentId, Book>, clock: Clock)
    requires Follows(NoBooks, events, books)
    ensures var feed := Published(events, 1, clock);
            var applied := ApplyEvents(NoBooks, feed);
            && applied.errors == 0 && AllMirror(books, applied.books)
            && forall i | 0 <= i < |feed| :: feed[i].sequenceNumber == 1 + i
  {
    hide AllMirror;
    FeedShows(NoBooks, events, 1, clock);
    PublishedNumbered(events, 1, clock);
  }

  lemma FeedMirrorsExchange(universe: set<InstrumentId>, commands: seq<Command>, clock: Clock)
    ensures var out := Run(Initial(universe), commands);
            var feed := Published(out.events, 1, clock);
            var applied := ApplyEvents(NoBooks, feed);
            && applied.errors == 0 && AllMirror(out.engine.books, applied.books)
            && forall i | 0 <= i < |feed| :: feed[i].sequenceNumber == 1 + i
  {
    hide AllMirror, Run, Follows;
    var out := Run(Initial(universe), commands);
    OpeningMirrored(universe);
    RunFollows(Initial(universe), commands, NoBooks);
    FollowedFeed(out.events, out.engine.books, clock);
  }

  // ---------- the levels ----------

  /** How much stands at one level, and in how many orders. */
  datatype Tally = Tally(quantity: Quantity, count: nat) {
    function Plus(other: Tally): Tally {
      Tally(quantity + other.quantity, count + other.count)
    }
  }

  function Ticket(o: T.Arrival, side: Side, price: Price): Tally {
    if o.side == side && o.price == price then Tally(o.quantity, 1) else Tally(0, 0)
  }

  function TallyAt(list: seq<T.Arrival>, side: Side, price: Price): Tally {
    if list == [] then Tally(0, 0) else Ticket(list[0], side, price).Plus(TallyAt(list[1..], side, price))
  }

  lemma {:induction false} TallyConcat(a: seq<T.Arrival>, b: seq<T.Arrival>, side: Side, price: Price)
    ensures TallyAt(a + b, side, price) == TallyAt(a, side, price).Plus(TallyAt(b, side, price))
  {
    hide Ticket;
    if a == [] {
      assert a + b == b;
    } else {
      assert (a + b)[0] == a[0] && (a + b)[1..] == a[1..] + b;
      TallyConcat(a[1..], b, side, price);
    }
  }

  lemma TallyHead(o: T.Arrival, rest: seq<T.Arrival>, side: Side, price: Price)
    ensures TallyAt([o] + rest, side, price) == Ticket(o, side, price).Plus(TallyAt(rest, side, price))
  {
    assert ([o] + rest)[1..] == rest;
  }

  /** The tally of a list is that of its level. */
  lemma {:induction false} TallyIsLevel(list: seq<T.Arrival>, side: Side, price: Price)
    ensures TallyAt(list, side, price) == Tally(T.SumOf(T.LevelOf(list, side, price)), |T.LevelOf(list, side, price)|)
  {
    if list != [] {
      TallyIsLevel(list[1..], side, price);
      TallyOfLevel(list, side, price);
    }
  }

  lemma TallyOfLevel(list: seq<T.Arrival>, side: Side, price: Price)
    requires list != []
    ensures var level, rest := T.LevelOf(list, side, price), T.LevelOf(list[1..], side, price);
            Tally(T.SumOf(level), |level|) == Ticket(list[0], side, price).Plus(Tally(T.SumOf(rest), |rest|))
  {
    hide T.LevelOf, T.SumOf;
    var rest := T.LevelOf(list[1..], side, price);
    T.LevelTail(list, side, price);
    SumOfHead(list[0], rest);
    assert [] + rest == rest;
  }

  lemma SumOfHead(o: T.Arrival, rest: seq<T.Arrival>)
    ensures T.SumOf([o] + rest) == o.quantity + T.SumOf(rest)
  {
    T.SumOfSplice([], o, rest);
    assert [] + [o] + rest == [o] + rest;
  }

  lemma BagTail(o: T.Arrival, rest: seq<T.Arrival>, left: seq<T.Arrival>, right: seq<T.Arrival>)
    requires multiset([o] + rest) == multiset(left + ([o] + right))
    ensures multiset(rest) == multiset(left + right)
  {
    assert multiset(rest) == multiset([o] + rest) - multiset{o};
    assert multiset(left + right) == multiset(left + ([o] + right)) - multiset{o};
  }

  /** Two lists that are one bag have the same tally at every level. */
  lemma {:induction false} BagTally(a: seq<T.Arrival>, b: seq<T.Arrival>, side: Side, price: Price)
    requires multiset(a) == multiset(b)
    ensures TallyAt(a, side, price) == TallyAt(b, side, price)
    decreases |a|
  {
    hide Ticket, TallyAt;
    if a == [] {
      assert |multiset(b)| == 0;
    } else {
      var left, right := SplitAt(b, a);
      BagTail(a[0], a[1..], left, right);
      BagTally(a[1..], left + right, side, price);
      TallyConcat(left, right, side, price);
      TallyConcat(left, [a[0]] + right, side, price);
      TallyHead(a[0], right, side, price);
      TallyHead(a[0], a[1..], side, price);
    }
  }

  /** Where the first order of one list stands in another that is the same bag. */
  lemma SplitAt(b: seq<T.Arrival>, a: seq<T.Arrival>) returns (left: seq<T.Arrival>, right: seq<T.Arrival>)
    requires a != [] && multiset(a) == multiset(b)
    ensures b == left + ([a[0]] + right) && a == [a[0]] + a[1..]
  {
    assert a[0] in multiset(a);
    var k :| 0 <= k < |b| && b[k] == a[0];
    left, right := b[..k], b[k + 1..];
  }

  /** A queue's level, seen by the public. */
  lemma {:induction false} PublicTally(queue: seq<BookOrder>, own: Side, side: Side, price: Price)
    requires forall i | 0 <= i < |queue| :: queue[i].side == own
    ensures TallyAt(Publics(queue), side, price) ==
            if side == own then Tally(Total(Level(queue, price)), |Level(queue, price)|) else Tally(0, 0)
  {
    if queue != [] {
      PublicTally(queue[1..], own, side, price);
      PublicsHead(queue);
      TallyHead(PublicOf(queue[0]), Publics(queue[1..]), side, price);
      LevelTally(queue, price);
      hide Publics, TallyAt, Level, Total;
    }
  }

  lemma PublicsHead(queue: seq<BookOrder>)
    requires queue != []
    ensures Publics(queue) == [PublicOf(queue[0])] + Publics(queue[1..])
  {
  }

  lemma LevelTally(queue: seq<BookOrder>, price: Price)
    requires queue != []
    ensures Tally(Total(Level(queue, price)), |Level(queue, price)|) ==
            (if queue[0].price == price then Tally(queue[0].remaining, 1) else Tally(0, 0)).Plus(
              Tally(Total(Level(queue[1..], price)), |Level(queue[1..], price)|))
  {
    var rest := Level(queue[1..], price);
    assert ([queue[0]] + rest)[1..] == rest;
    assert [] + rest == rest;
  }

  /** The mirror shows the same quantity and the same number of orders at every level. */
  lemma MirrorLevels(book: Book, list: seq<T.Arrival>, next: ExchangeOrderId, side: Side, price: Price)
    requires Mirrors(book, list) && BookSound(book, next)
    ensures T.SumOf(T.LevelOf(list, side, price)) == Total(Level(book.On(side), price))
    ensures |T.LevelOf(list, side, price)| == |Level(book.On(side), price)|
  {
    hide QueueSound, T.LevelOf, T.SumOf, Level, Total, TallyAt, Publics;
    var bids, asks := Publics(book.bids), Publics(book.asks);
    assert multiset(bids + asks) == Shares(book);
    TallyIsLevel(list, side, price);
    BagTally(list, bids + asks, side, price);
    TallyConcat(bids, asks, side, price);
    QueueSides(Buy, book.bids, next);
    QueueSides(Sell, book.asks, next);
    PublicTally(book.bids, Buy, side, price);
    PublicTally(book.asks, Sell, side, price);
  }

  lemma QueueSides(side: Side, queue: seq<BookOrder>, next: ExchangeOrderId)
    requires QueueSound(side, queue, next)
    ensures forall i | 0 <= i < |queue| :: queue[i].side == side
  {
    forall i | 0 <= i < |queue| ensures queue[i].side == side {
      assert OrderSound(side, queue[i], next);
    }
  }

  // ---------- the trades ----------

  /** What the exchange executed in one instrument, on top of what the trader knew of it. */
  function Executed(events: seq<Event>, i: InstrumentId, known: InstrumentStats): InstrumentStats
    decreases |events|
  {
    if events == [] then known
    else
      var e := events[0];
      Executed(events[1..], i,
               if e.TradeExecuted? && e.instrumentId == i
               then InstrumentStats(known.tradeCount + 1, known.tradedQuantity + e.quantity, e.price) else known)
  }

  function StatsOf(b: Books, i: InstrumentId): InstrumentStats {
    if i in b.stats then b.stats[i] else InstrumentStats(0, 0, 0)
  }

  /** The trader's trade statistics are the exchange's: as many trades, the same quantity in all, and the
      same last price, for every instrument. */
  lemma TradesMirrored(b: Books, events: seq<Event>, next: nat, clock: Clock, i: InstrumentId)
    ensures StatsOf(ApplyEvents(b, Published(events, next, clock)).books, i) == Executed(events, i, StatsOf(b, i))
  {
    FeedShows(b, events, next, clock);
    TradesShown(b, events, i);
  }

  lemma {:induction false} TradesShown(b: Books, events: seq<Event>, i: InstrumentId)
    ensures StatsOf(ShownAll(b, events).books, i) == Executed(events, i, StatsOf(b, i))
    decreases |events|
  {
    if events != [] {
      StatsShown(b, events[0], i);
      hide Shown;
      TradesShown(Shown(b, events[0]).books, events[1..], i);
    }
  }

  lemma StatsShown(b: Books, e: Event, i: InstrumentId)
    ensures StatsOf(Shown(b, e).books, i) ==
            if e.TradeExecuted? && e.instrumentId == i
            then InstrumentStats(StatsOf(b, i).tradeCount + 1, StatsOf(b, i).tradedQuantity + e.quantity, e.price)
            else StatsOf(b, i)
  {
  }
}
