/** The trader's book as the source keeps it (order_book.cpp, price_level.hpp): an ordered map of
    levels for each side and an index from order id to location, changed in place. */
module TraderBooks {
  import opened Domain
  import opened PriceTime
  import opened TraderSpec

  datatype RestingOrder = RestingOrder(id: OrderId, quantity: Quantity)

  datatype OrderLocation = OrderLocation(side: Side, price: Price)

  /** What a level keeps of its orders. */
  function Kept(level: seq<Arrival>): seq<RestingOrder> {
    seq(|level|, i requires 0 <= i < |level| => RestingOrder(level[i].id, level[i].quantity))
  }

  /** All orders at one price of one side, with their running total. */
  class PriceLevel {
    const price: Price
    var orders: seq<RestingOrder>
    var aggregate: Quantity

    constructor (price: Price)
      ensures this.price == price && orders == [] && aggregate == 0
    {
      this.price, orders, aggregate := price, [], 0;
    }

    /** The level is these orders of the arrival list, and its total is theirs. */
    ghost predicate Shows(level: seq<Arrival>)
      reads this
    {
      orders == Kept(level) && aggregate == SumOf(level)
    }

    method Add(id: OrderId, quantity: Quantity, ghost level: seq<Arrival>, ghost o: Arrival)
      requires Shows(level) && o.id == id && o.quantity == quantity
      modifies this
      ensures Shows(level + [o])
    {
      assert (level + [o])[..|level|] == level;
      orders := orders + [RestingOrder(id, quantity)];
      aggregate := aggregate + quantity;
    }

    /** Takes out the order the iterator points at, which its id tells apart. */
    method Remove(id: OrderId, ghost left: seq<Arrival>, ghost o: Arrival, ghost right: seq<Arrival>)
      requires Shows(left + [o] + right) && o.id == id
      requires forall i | 0 <= i < |left| :: left[i].id != id
      modifies this
      ensures Shows(left + right)
    {
      ghost var level := left + [o] + right;
      var k := 0;
      while orders[k].id != id
        invariant k <= |left|
        decreases |left| - k
      {
        assert level[k] == if k < |left| then left[k] else o;
        k := k + 1;
      }
      assert k == |left| && level[k] == o;
      SumOfSplice(left, o, right);
      SumOfConcat(left, right);
      KeptWithout(left, o, right);
      aggregate := aggregate - orders[k].quantity;
      orders := orders[..k] + orders[k + 1..];
    }
  }

  lemma KeptWithout(left: seq<Arrival>, o: Arrival, right: seq<Arrival>)
    ensures var kept := Kept(left + [o] + right);
            kept[..|left|] + kept[|left| + 1..] == Kept(left + right)
  {
    var kept := Kept(left + [o] + right);
    var after := kept[..|left|] + kept[|left| + 1..];
    forall i | 0 <= i < |after| ensures after[i] == Kept(left + right)[i] {
      if i >= |left| {
        assert (left + [o] + right)[i + 1] == right[i - |left|];
      }
    }
  }

  /** The index has exactly the ids that rest, each with its side and price. */
  ghost predicate Indexed(index: map<OrderId, OrderLocation>, list: seq<Arrival>) {
    && (forall id :: id in index <==> Has(list, id))
    && (forall id | id in index :: index[id] == OrderLocation(list[Place(list, id)].side, list[Place(list, id)].price))
  }

  lemma {:induction false} PlaceAppended(list: seq<Arrival>, o: Arrival, id: OrderId)
    ensures Place(list + [o], id) ==
            if Has(list, id) then Place(list, id) else if o.id == id then |list| else |list| + 1
  {
    if list != [] {
      assert (list + [o])[1..] == list[1..] + [o];
      PlaceAppended(list[1..], o, id);
    }
  }

  lemma IndexAdded(index: map<OrderId, OrderLocation>, list: seq<Arrival>, o: Arrival)
    requires Indexed(index, list) && !Has(list, o.id)
    ensures Indexed(index[o.id := OrderLocation(o.side, o.price)], list + [o])
  {
    forall id
      ensures Place(list + [o], id) ==
              if Has(list, id) then Place(list, id) else if o.id == id then |list| else |list| + 1
    {
      PlaceAppended(list, o, id);
    }
    hide Place;
    var index' := index[o.id := OrderLocation(o.side, o.price)];
    forall id ensures id in index' <==> Has(list + [o], id) {
    }
  }

  lemma Lookup(index: map<OrderId, OrderLocation>, list: seq<Arrival>, id: OrderId)
    requires Indexed(index, list)
    ensures id in index <==> Has(list, id)
    ensures id in index ==> index[id] == OrderLocation(list[Place(list, id)].side, list[Place(list, id)].price)
  {
  }

  lemma PlaceWithout(list: seq<Arrival>, k: nat, id: OrderId)
    requires Proper(list) && k < |list|
    ensures var after := Without(list, k);
            && (Has(after, id) <==> Has(list, id) && id != list[k].id)
            && (Has(after, id) ==> after[Place(after, id)] == list[Place(list, id)])
  {
    var after := Without(list, k);
    assert forall i | 0 <= i < |after| :: after[i] == list[if i < k then i else i + 1];
    var i := Place(list, id);
    if i < |list| && i != k {
      assert after[if i < k then i else i - 1] == list[i];
    }
  }

  lemma IndexRemoved(index: map<OrderId, OrderLocation>, list: seq<Arrival>, k: nat)
    requires Indexed(index, list) && Proper(list) && k < |list|
    ensures Indexed(index - {list[k].id}, Without(list, k))
  {
    hide Place, Without, Proper;
    forall id
      ensures var after := Without(list, k);
              && (Has(after, id) <==> Has(list, id) && id != list[k].id)
              && (Has(after, id) ==> after[Place(after, id)] == list[Place(list, id)])
    {
      PlaceWithout(list, k, id);
    }
  }

  /** No two levels share an object. */
  ghost predicate Separate(bids: map<Price, PriceLevel>, asks: map<Price, PriceLevel>) {
    && (forall p, p' | p in bids && p' in bids && bids[p] == bids[p'] :: p == p')
    && (forall p, p' | p in asks && p' in asks && asks[p] == asks[p'] :: p == p')
    && (forall p, p' | p in bids && p' in asks :: bids[p] != asks[p'])
  }

  class OrderBook {
    var bids: map<Price, PriceLevel>
    var asks: map<Price, PriceLevel>
    var orderIndex: map<OrderId, OrderLocation>
    /** The abstract value: what rests, oldest first. */
    ghost var arrivals: seq<Arrival>

    function Levels(side: Side): map<Price, PriceLevel>
      reads this
    {
      match side
      case Buy => bids
      case Sell => asks
    }

    ghost function Repr(): set<object>
      reads `bids, `asks
    {
      {this} + bids.Values + asks.Values
    }

    /** There is a level at this price exactly when an order is there, and it shows those orders in
        order of arrival. */
    ghost predicate LevelFine(side: Side, p: Price)
      reads this, bids.Values, asks.Values
    {
      && (p in Levels(side) <==> LevelOf(arrivals, side, p) != [])
      && (p in Levels(side) ==> Levels(side)[p].price == p && Levels(side)[p].Shows(LevelOf(arrivals, side, p)))
    }

    ghost predicate Valid()
      reads this, bids.Values, asks.Values
    {
      && Proper(arrivals)
      && Separate(bids, asks)
      && Indexed(orderIndex, arrivals)
      && forall side: Side, p: Price :: LevelFine(side, p)
    }

    constructor ()
      ensures Valid() && fresh(Repr()) && arrivals == []
    {
      bids, asks, orderIndex, arrivals := map[], map[], map[], [];
    }

    /** The level at a price, made if there is none. */
    method TryEmplace(side: Side, price: Price) returns (level: PriceLevel)
      requires Valid()
      modifies `bids, `asks
      ensures price in Levels(side) && Levels(side)[price] == level && level.price == price
      ensures level.Shows(LevelOf(arrivals, side, price))
      ensures Separate(bids, asks) && fresh(Repr() - old(Repr()))
      ensures forall s: Side, p: Price | s != side || p != price :: LevelFine(s, p)
    {
      hide LevelOf, Place, Proper;
      assert LevelFine(side, price);
      if price in Levels(side) {
        return Levels(side)[price];
      }
      level := new PriceLevel(price);
      if side == Buy {
        bids := bids[price := level];
      } else {
        asks := asks[price := level];
      }
      forall s: Side, p: Price | s != side || p != price ensures LevelFine(s, p) {
        assert old(LevelFine(s, p));
      }
    }

    method InsertAt(side: Side, id: OrderId, price: Price, quantity: Quantity)
      requires Valid() && !Has(arrivals, id) && price > 0 && quantity > 0
      modifies Repr()
      ensures Valid() && fresh(Repr() - old(Repr()))
      ensures arrivals == old(arrivals) + [Arrival(id, side, price, quantity)]
    {
      hide Indexed, Place, LevelOf, Proper;
      ghost var o := Arrival(id, side, price, quantity);
      var level := TryEmplace(side, price);
      label emplaced:
      level.Add(id, quantity, LevelOf(arrivals, side, price), o);
      orderIndex := orderIndex[id := OrderLocation(side, price)];
      AppendProper(arrivals, o);
      IndexAdded(old(orderIndex), arrivals, o);
      arrivals := arrivals + [o];
      forall s: Side, p: Price ensures LevelFine(s, p) {
        LevelAppended(old(arrivals), o, s, p);
        if s != side || p != price {
          assert old@emplaced(LevelFine(s, p));
          assert p in Levels(s) ==> Levels(s)[p] != level;
        } else {
          assert level.Shows(LevelOf(old(arrivals), side, price) + [o]);
        }
      }
    }

    /** Takes an order out of its level, and out of the index; a level left empty goes. */
    method EraseAt(id: OrderId)
      requires Valid() && Has(arrivals, id)
      modifies Repr()
      ensures Valid() && Repr() <= old(Repr())
      ensures arrivals == Without(old(arrivals), Place(old(arrivals), id))
    {
      hide Place, LevelOf, Proper, Without, Indexed;
      Lookup(orderIndex, arrivals, id);
      ghost var list, k := arrivals, Place(arrivals, id);
      ghost var o := list[k];
      var loc := orderIndex[id];
      var side, price := loc.side, loc.price;
      LevelWithout(list, k, side, price);
      LevelAvoids(list[..k], side, price, id);
      assert LevelFine(side, price);
      var level := Levels(side)[price];
      ghost var left, right := LevelOf(list[..k], side, price), LevelOf(list[k + 1..], side, price);
      level.Remove(id, left, o, right);
      label removed:
      var empty := level.orders == [];
      if empty {
        if side == Buy {
          bids := bids - {price};
        } else {
          asks := asks - {price};
        }
      }
      IndexRemoved(orderIndex, list, k);
      orderIndex := orderIndex - {id};
      WithoutProper(list, k);
      arrivals := Without(list, k);
      forall s: Side, p: Price ensures LevelFine(s, p) {
        LevelWithout(list, k, s, p);
        assert old(LevelFine(s, p));
        if s != side || p != price {
          assert p in Levels(s) ==> Levels(s)[p] != level;
        }
      }
    }

    /** Adds an order, or fails and changes nothing. */
    method AddOrder(id: OrderId, price: Price, quantity: Quantity, side: Side) returns (error: Option<BookError>)
      requires Valid()
      modifies Repr()
      ensures Valid() && fresh(Repr() - old(Repr()))
      ensures Outcome(arrivals, error) == TraderSpec.AddOrder(old(arrivals), id, price, quantity, side)
      ensures error.Some? ==> unchanged(this)
    {
      hide LevelFine, Proper, Place;
      if price <= 0 {
        return Some(InvalidPrice);
      }
      if quantity == 0 {
        return Some(InvalidQuantity);
      }
      if id in orderIndex {
        return Some(DuplicateOrderId);
      }
      InsertAt(side, id, price, quantity);
      return None;
    }

    method CancelOrder(id: OrderId) returns (error: Option<BookError>)
      requires Valid()
      modifies Repr()
      ensures Valid() && fresh(Repr() - old(Repr()))
      ensures Outcome(arrivals, error) == TraderSpec.CancelOrder(old(arrivals), id)
      ensures error.Some? ==> unchanged(this)
    {
      hide LevelFine, Proper, Place, Without;
      if id !in orderIndex {
        return Some(UnknownOrderId);
      }
      EraseAt(id);
      return None;
    }

    method ModifyOrder(id: OrderId, newPrice: Price, newQuantity: Quantity) returns (error: Option<BookError>)
      requires Valid()
      modifies Repr()
      ensures Valid() && fresh(Repr() - old(Repr()))
      ensures Outcome(arrivals, error) == TraderSpec.ModifyOrder(old(arrivals), id, newPrice, newQuantity)
      ensures error.Some? ==> unchanged(this)
    {
      hide LevelFine, Proper, Place, Without;
      if newPrice <= 0 {
        return Some(InvalidPrice);
      }
      if newQuantity == 0 {
        return Some(InvalidQuantity);
      }
      if id !in orderIndex {
        return Some(UnknownOrderId);
      }
      var side := orderIndex[id].side;
      WithoutProper(arrivals, Place(arrivals, id));
      EraseAt(id);
      InsertAt(side, id, newPrice, newQuantity);
      return None;
    }

    method Clear()
      requires Valid()
      modifies this
      ensures Valid() && arrivals == [] && Repr() == {this}
    {
      bids, asks, orderIndex, arrivals := map[], map[], map[], [];
    }

    /** The view of one level. */
    method ViewAt(side: Side, p: Price) returns (view: PriceLevelView)
      requires Valid() && p in Levels(side)
      ensures view == PriceLevelView(p, SumOf(LevelOf(arrivals, side, p)), |LevelOf(arrivals, side, p)|)
    {
      hide LevelOf, Proper, Indexed;
      assert LevelFine(side, p);
      var level := Levels(side)[p];
      view := PriceLevelView(p, level.aggregate, |level.orders|);
    }

    /** The prices still to visit are those of the rest of the sorted side. */
    ghost predicate Remaining(side: Side, keys: set<Price>, rest: seq<Arrival>)
      reads this
    {
      && Ranked(side, rest) && OneSided(side, rest)
      && keys <= Levels(side).Keys
      && (forall p: Price :: p in keys <==> LevelOf(rest, side, p) != [])
      && (forall p | p in keys :: LevelOf(rest, side, p) == LevelOf(arrivals, side, p))
    }

    lemma AllRemain(side: Side)
      requires Valid()
      ensures Remaining(side, Levels(side).Keys, Arranged(side, arrivals))
    {
      hide LevelOf, Proper, Indexed, Ranked, OneSided;
      ArrangedStable(side, arrivals);
      forall p: Price ensures p in Levels(side) <==> LevelOf(arrivals, side, p) != [] {
        assert LevelFine(side, p);
      }
    }

    /** The first key is the price at the front, and its level is the front run. */
    lemma NextRemains(side: Side, keys: set<Price>, rest: seq<Arrival>, p: Price)
      requires Remaining(side, keys, rest) && p in keys && forall k | k in keys :: !Better(side, k, p)
      ensures rest != [] && rest[0].price == p
      ensures var n := RunLength(rest, p);
              n > 0 && rest[..n] == LevelOf(arrivals, side, p) && Remaining(side, keys - {p}, rest[n..])
    {
      hide LevelOf, RunLength, Ranked, OneSided;
      LevelOccupied(rest, side, p);
      assert LevelOf(rest, side, p) != [];
      BestFront(side, rest, p);
      FrontRun(side, rest);
    }

    /** Of the prices of a sorted list, the first one is the best. */
    lemma BestFront(side: Side, rest: seq<Arrival>, p: Price)
      requires Ranked(side, rest) && OneSided(side, rest) && Occupied(rest, side, p)
      requires forall k: Price | LevelOf(rest, side, k) != [] :: !Better(side, k, p)
      ensures rest != [] && rest[0].price == p
    {
      hide LevelOf;
      LevelOccupied(rest, side, rest[0].price);
      assert LevelOf(rest, side, rest[0].price) != [];
    }

    method Best(side: Side) returns (view: Option<PriceLevelView>)
      requires Valid()
      ensures var groups := Groups(Arranged(side, arrivals));
              view == if groups == [] then None else Some(groups[0])
    {
      hide LevelFine, Proper, Indexed, Arranged, RunLength;
      AllRemain(side);
      if Levels(side) == map[] {
        NoneRemain(side, Arranged(side, arrivals));
        return None;
      }
      var p := FirstKey(side, Levels(side).Keys);
      NextRemains(side, Levels(side).Keys, Arranged(side, arrivals), p);
      var first := ViewAt(side, p);
      view := Some(first);
    }

    lemma NoneRemain(side: Side, rest: seq<Arrival>)
      requires Remaining(side, {}, rest)
      ensures rest == []
    {
      if rest != [] {
        LevelOccupied(rest, side, rest[0].price);
      }
    }

    /** The first `n` price groups of the sorted side, or all there are. */
    method Top(side: Side, n: nat) returns (views: seq<PriceLevelView>)
      requires Valid()
      ensures var groups := Groups(Arranged(side, arrivals));
              views == groups[..if n < |groups| then n else |groups|]
    {
      hide LevelFine, Proper, Indexed, Arranged, Remaining, LevelOf;
      views := [];
      var keys := Levels(side).Keys;
      ghost var rest := Arranged(side, arrivals);
      AllRemain(side);
      while keys != {} && |views| < n
        invariant Remaining(side, keys, rest) && keys <= Levels(side).Keys
        invariant Groups(Arranged(side, arrivals)) == views + Groups(rest) && |views| <= n
        decreases keys
      {
        var p := FirstKey(side, keys);
        NextRemains(side, keys, rest, p);
        var view := ViewAt(side, p);
        views := views + [view];
        rest := rest[RunLength(rest, p)..];
        keys := keys - {p};
      }
      if keys == {} {
        NoneRemain(side, rest);
      }
    }

    /** Every order of one side. */
    method All(side: Side) returns (views: seq<OrderView>)
      requires Valid()
      ensures views == Views(Arranged(side, arrivals))
    {
      hide LevelFine, Proper, Indexed, Arranged, Remaining, LevelOf;
      views := [];
      var keys := Levels(side).Keys;
      ghost var rest := Arranged(side, arrivals);
      AllRemain(side);
      while keys != {}
        invariant Remaining(side, keys, rest) && keys <= Levels(side).Keys
        invariant Views(Arranged(side, arrivals)) == views + Views(rest)
        decreases keys
      {
        var p := FirstKey(side, keys);
        NextRemains(side, keys, rest, p);
        var level := LevelViews(side, p);
        views := views + level;
        rest := rest[RunLength(rest, p)..];
        keys := keys - {p};
      }
      NoneRemain(side, rest);
    }

    method LevelViews(side: Side, p: Price) returns (views: seq<OrderView>)
      requires Valid() && p in Levels(side)
      ensures views == Views(LevelOf(arrivals, side, p))
    {
      hide LevelOf, Proper, Indexed;
      assert LevelFine(side, p);
      LevelTagged(arrivals, side, p);
      var orders := Levels(side)[p].orders;
      views := [];
      for i := 0 to |orders|
        invariant views == Views(LevelOf(arrivals, side, p))[..i]
      {
        views := views + [OrderView(orders[i].id, p, orders[i].quantity)];
      }
    }
  }
}
