/** When two trader books are the same to a user: the same orders in the same order at every level.
    The order of arrival across levels, empty books and trade statistics do not count. Messages keep
    the sameness and fail alike. */
module BookEquivalence {
  import opened Domain
  import opened PriceTime
  import opened TraderSpec
  import opened BookManagers
  import P = Protocol

  ghost predicate SameBook(a: seq<Arrival>, b: seq<Arrival>) {
    forall side: Side, price: Price :: LevelOf(a, side, price) == LevelOf(b, side, price)
  }

  /** Two managers show the same books. */
  ghost predicate Same(x: Books, y: Books) {
    forall i: InstrumentId :: SameBook(ListOf(x, i), ListOf(y, i))
  }

  /** Same books show the same sides: sorted, grouped, totalled. */
  lemma SameSides(a: seq<Arrival>, b: seq<Arrival>, side: Side)
    requires SameBook(a, b)
    ensures Arranged(side, a) == Arranged(side, b)
  {
    ArrangedStable(side, a);
    ArrangedStable(side, b);
    hide LevelOf, Ranked, OneSided, Arranged;
    forall price ensures LevelOf(Arranged(side, a), side, price) == LevelOf(Arranged(side, b), side, price) {
      assert LevelOf(a, side, price) == LevelOf(b, side, price);
    }
    StableSortUnique(side, Arranged(side, a), Arranged(side, b));
  }

  /** And the other way round: same sorted sides make the same book. */
  lemma SidesSame(a: seq<Arrival>, b: seq<Arrival>)
    requires forall side: Side :: Arranged(side, a) == Arranged(side, b)
    ensures SameBook(a, b)
  {
    hide LevelOf, Ranked, OneSided, Arranged;
    forall side: Side, price: Price ensures LevelOf(a, side, price) == LevelOf(b, side, price) {
      assert Arranged(side, a) == Arranged(side, b);
      ArrangedStable(side, a);
      ArrangedStable(side, b);
    }
  }

  /** An order is in the list exactly when it is in its level. */
  lemma {:induction false} InLevel(list: seq<Arrival>, o: Arrival)
    ensures o in list <==> o in LevelOf(list, o.side, o.price)
  {
    if list != [] {
      var front := list[..|list| - 1];
      InLevel(front, o);
      assert list == front + [list[|list| - 1]];
    }
  }

  /** Same books have the same orders. */
  lemma SameOrders(a: seq<Arrival>, b: seq<Arrival>, id: OrderId)
    requires SameBook(a, b) && Proper(b)
    ensures Has(a, id) ==> Has(b, id) && b[Place(b, id)] == a[Place(a, id)]
  {
    if Has(a, id) {
      var o := a[Place(a, id)];
      assert o in a;
      InLevel(a, o);
      InLevel(b, o);
      assert LevelOf(a, o.side, o.price) == LevelOf(b, o.side, o.price);
      hide LevelOf;
      var k :| 0 <= k < |b| && b[k] == o;
      assert Place(b, id) == k;
    }
  }

  /** Two ways to cut a list at an order whose id is not further forward are one. */
  lemma CutUnique(left: seq<Arrival>, right: seq<Arrival>, left': seq<Arrival>, right': seq<Arrival>, o: Arrival)
    requires left + [o] + right == left' + [o] + right'
    requires forall i | 0 <= i < |left| :: left[i].id != o.id
    requires forall i | 0 <= i < |left'| :: left'[i].id != o.id
    ensures left == left' && right == right'
  {
    var whole := left + [o] + right;
    assert whole[|left|] == o && whole[|left'|] == o;
    assert forall i | 0 <= i < |left| :: whole[i] == left[i];
    assert forall i | 0 <= i < |left'| :: whole[i] == left'[i];
    assert |left| == |left'|;
    assert left == whole[..|left|] && left' == whole[..|left|];
    assert right == whole[|left| + 1..] && right' == whole[|left| + 1..];
  }

  /** Taking the same order out of the same books leaves the same books. */
  lemma SameWithout(a: seq<Arrival>, b: seq<Arrival>, j: nat, k: nat)
    requires SameBook(a, b) && Proper(a) && Proper(b) && j < |a| && k < |b| && a[j] == b[k]
    ensures SameBook(Without(a, j), Without(b, k))
  {
    var o := a[j];
    forall side: Side, price: Price ensures LevelOf(Without(a, j), side, price) == LevelOf(Without(b, k), side, price) {
      LevelWithout(a, j, side, price);
      LevelWithout(b, k, side, price);
      LevelAvoids(a[..j], side, price, o.id);
      LevelAvoids(b[..k], side, price, o.id);
      assert LevelOf(a, side, price) == LevelOf(b, side, price);
      hide LevelOf;
      if o.side == side && o.price == price {
        CutUnique(LevelOf(a[..j], side, price), LevelOf(a[j + 1..], side, price),
                  LevelOf(b[..k], side, price), LevelOf(b[k + 1..], side, price), o);
      }
    }
  }

  lemma SameAppended(a: seq<Arrival>, b: seq<Arrival>, o: Arrival)
    requires SameBook(a, b)
    ensures SameBook(a + [o], b + [o])
  {
    forall side: Side, price: Price ensures LevelOf(a + [o], side, price) == LevelOf(b + [o], side, price) {
      LevelAppended(a, o, side, price);
      LevelAppended(b, o, side, price);
      assert LevelOf(a, side, price) == LevelOf(b, side, price);
    }
  }

  /** Two outcomes are the same to a user. */
  ghost predicate SameOutcome(x: Outcome, y: Outcome) {
    SameBook(x.list, y.list) && x.error == y.error
  }

  lemma SameAdd(a: seq<Arrival>, b: seq<Arrival>, id: OrderId, price: Price, quantity: Quantity, side: Side)
    requires SameBook(a, b) && Proper(a) && Proper(b)
    ensures SameOutcome(AddOrder(a, id, price, quantity, side), AddOrder(b, id, price, quantity, side))
  {
    SameOrders(a, b, id);
    SameOrders(b, a, id);
    hide SameBook, Proper, Place;
    SameAppended(a, b, Arrival(id, side, price, quantity));
  }

  lemma SameCancel(a: seq<Arrival>, b: seq<Arrival>, id: OrderId)
    requires SameBook(a, b) && Proper(a) && Proper(b)
    ensures SameOutcome(CancelOrder(a, id), CancelOrder(b, id))
  {
    SameOrders(a, b, id);
    SameOrders(b, a, id);
    hide SameBook, Proper, Place, Without;
    if Has(a, id) {
      SameWithout(a, b, Place(a, id), Place(b, id));
    }
  }

  lemma SameModify(a: seq<Arrival>, b: seq<Arrival>, id: OrderId, price: Price, quantity: Quantity)
    requires SameBook(a, b) && Proper(a) && Proper(b)
    ensures SameOutcome(ModifyOrder(a, id, price, quantity), ModifyOrder(b, id, price, quantity))
  {
    SameOrders(a, b, id);
    SameOrders(b, a, id);
    hide SameBook, Proper, Place, Without;
    if Has(a, id) {
      SameWithout(a, b, Place(a, id), Place(b, id));
      SameAppended(Without(a, Place(a, id)), Without(b, Place(b, id)),
                   Arrival(id, a[Place(a, id)].side, price, quantity));
    }
  }

  /** A message takes same books to same books, and fails on both or on neither. */
  lemma ApplySame(x: Books, y: Books, e: P.Event)
    requires Same(x, y) && AllProper(x) && AllProper(y)
    ensures Same(ApplyEvent(x, e).books, ApplyEvent(y, e).books)
    ensures ApplyEvent(x, e).errors == ApplyEvent(y, e).errors
  {
    hide SameBook, Proper, TraderSpec.AddOrder, TraderSpec.CancelOrder, TraderSpec.ModifyOrder;
    var i := e.instrumentId;
    var a, b := ListOf(x, i), ListOf(y, i);
    EmptyProper();
    EmptySame();
    match e
    case AddOrder(_, _, id, _, price, quantity, side) =>
      SameAdd(a, b, id, price, quantity, side);
      StoreSame(x, y, i, TraderSpec.AddOrder(a, id, price, quantity, side),
                TraderSpec.AddOrder(b, id, price, quantity, side));
    case CancelOrder(_, _, id, _) =>
      SameCancel(a, b, id);
      StoreSame(x, y, i, TraderSpec.CancelOrder(a, id), TraderSpec.CancelOrder(b, id));
    case ModifyOrder(_, _, id, _, price, quantity) =>
      SameModify(a, b, id, price, quantity);
      StoreSame(x, y, i, TraderSpec.ModifyOrder(a, id, price, quantity),
                TraderSpec.ModifyOrder(b, id, price, quantity));
    case Trade(_, _, _, price, quantity, _) =>
      ListsSame(x, RecordTrade(x, i, price, quantity), y, RecordTrade(y, i, price, quantity));
    case ClearBook(_, _, _) =>
      StoreSame(x, y, i, Outcome([], None), Outcome([], None));
  }

  lemma ListsSame(x: Books, x': Books, y: Books, y': Books)
    requires Same(x, y) && x'.books == x.books && y'.books == y.books
    ensures Same(x', y')
  {
    hide SameBook;
    forall j: InstrumentId ensures SameBook(ListOf(x', j), ListOf(y', j)) {
      assert SameBook(ListOf(x, j), ListOf(y, j));
    }
  }

  lemma StoreSame(x: Books, y: Books, i: InstrumentId, o: Outcome, p: Outcome)
    requires Same(x, y) && SameOutcome(o, p)
    ensures Same(Store(x, i, o).books, Store(y, i, p).books) && Store(x, i, o).errors == Store(y, i, p).errors
  {
    hide SameBook;
    forall j: InstrumentId ensures SameBook(ListOf(Store(x, i, o).books, j), ListOf(Store(y, i, p).books, j)) {
      assert j != i ==> SameBook(ListOf(x, j), ListOf(y, j));
    }
  }

  lemma EmptySame()
    ensures SameBook([], [])
  {
  }

  lemma {:induction false} ApplyAllSame(x: Books, y: Books, events: seq<P.Event>)
    requires Same(x, y) && AllProper(x) && AllProper(y)
    ensures Same(ApplyEvents(x, events).books, ApplyEvents(y, events).books)
    ensures ApplyEvents(x, events).errors == ApplyEvents(y, events).errors
    decreases |events|
  {
    hide Same, AllProper, ApplyEvent;
    if events != [] {
      ApplySame(x, y, events[0]);
      ApplyKeepsProper(x, events[0]);
      ApplyKeepsProper(y, events[0]);
      ApplyAllSame(ApplyEvent(x, events[0]).books, ApplyEvent(y, events[0]).books, events[1..]);
    }
  }

  lemma {:induction false} ApplyAllKeepsProper(b: Books, events: seq<P.Event>)
    requires AllProper(b)
    ensures AllProper(ApplyEvents(b, events).books)
    decreases |events|
  {
    hide AllProper, ApplyEvent;
    if events != [] {
      ApplyKeepsProper(b, events[0]);
      ApplyAllKeepsProper(ApplyEvent(b, events[0]).books, events[1..]);
    }
  }

  /** A book taken down side by side and put up again is the same book. */
  lemma Restacked(list: seq<Arrival>)
    ensures SameBook(Arranged(Buy, list) + Arranged(Sell, list), list)
  {
    ArrangedStable(Buy, list);
    ArrangedStable(Sell, list);
    var bids, asks := Arranged(Buy, list), Arranged(Sell, list);
    forall side: Side, price: Price ensures LevelOf(bids + asks, side, price) == LevelOf(list, side, price) {
      LevelConcat(bids, asks, side, price);
      if side == Buy {
        OtherSide(asks, Sell, side, price);
      } else {
        OtherSide(bids, Buy, side, price);
      }
      hide LevelOf, Arranged;
      assert LevelOf(bids, side, price) + LevelOf(asks, side, price) == LevelOf(list, side, price);
    }
  }

  lemma OtherSide(list: seq<Arrival>, own: Side, side: Side, price: Price)
    requires OneSided(own, list) && side != own
    ensures LevelOf(list, side, price) == []
  {
    LevelOccupied(list, side, price);
  }
}
