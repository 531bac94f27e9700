/** The trader's book as a plain arrival list (order_book.cpp): every operation appends to the list or
    takes one order out of it, and every query is a sort of it. */
module TraderSpec {
  import opened Domain
  import opened PriceTime

  type OrderId = nat

  /** One resting order; a list of them is oldest first. */
  datatype Arrival = Arrival(id: OrderId, side: Side, price: Price, quantity: Quantity)

  datatype BookError = UnknownOrderId | DuplicateOrderId | InvalidPrice | InvalidQuantity

  /** The list after an operation, and the error if it failed. */
  datatype Outcome = Outcome(list: seq<Arrival>, error: Option<BookError>)

  /** Where an id stands, or the length of the list. */
  function Place(list: seq<Arrival>, id: OrderId): (k: nat)
    ensures k <= |list|
    ensures k < |list| ==> list[k].id == id
    ensures forall i | 0 <= i < k :: list[i].id != id
  {
    if list == [] || list[0].id == id then 0 else 1 + Place(list[1..], id)
  }

  predicate Has(list: seq<Arrival>, id: OrderId) {
    Place(list, id) < |list|
  }

  function AddOrder(list: seq<Arrival>, id: OrderId, price: Price, quantity: Quantity, side: Side): Outcome {
    if price <= 0 then Outcome(list, Some(InvalidPrice))
    else if quantity == 0 then Outcome(list, Some(InvalidQuantity))
    else if Has(list, id) then Outcome(list, Some(DuplicateOrderId))
    else Outcome(list + [Arrival(id, side, price, quantity)], None)
  }

  function CancelOrder(list: seq<Arrival>, id: OrderId): Outcome {
    if !Has(list, id) then Outcome(list, Some(UnknownOrderId))
    else Outcome(Without(list, Place(list, id)), None)
  }

  /** A modify always loses its place. */
  function ModifyOrder(list: seq<Arrival>, id: OrderId, price: Price, quantity: Quantity): Outcome {
    if price <= 0 then Outcome(list, Some(InvalidPrice))
    else if quantity == 0 then Outcome(list, Some(InvalidQuantity))
    else if !Has(list, id) then Outcome(list, Some(UnknownOrderId))
    else
      var k := Place(list, id);
      Outcome(Without(list, k) + [Arrival(id, list[k].side, price, quantity)], None)
  }

  /** Ids are unique and every order is for a positive quantity at a positive price. */
  ghost predicate Proper(list: seq<Arrival>) {
    && (forall i | 0 <= i < |list| :: list[i].price > 0 && list[i].quantity > 0)
    && (forall i, j | 0 <= i < j < |list| :: list[i].id != list[j].id)
  }

  lemma WithoutProper(list: seq<Arrival>, k: nat)
    requires Proper(list) && k < |list|
    ensures Proper(Without(list, k)) && !Has(Without(list, k), list[k].id)
  {
    var after := Without(list, k);
    assert forall i | 0 <= i < |after| :: after[i] == list[if i < k then i else i + 1];
  }

  lemma AppendProper(list: seq<Arrival>, o: Arrival)
    requires Proper(list) && !Has(list, o.id) && o.price > 0 && o.quantity > 0
    ensures Proper(list + [o])
  {
  }

  /** Every operation, failed or not, keeps the list proper. */
  lemma OperationsKeepProper(list: seq<Arrival>, id: OrderId, price: Price, quantity: Quantity, side: Side)
    requires Proper(list)
    ensures Proper(AddOrder(list, id, price, quantity, side).list)
    ensures Proper(CancelOrder(list, id).list)
    ensures Proper(ModifyOrder(list, id, price, quantity).list)
  {
    hide Proper, Without, Place;
    if price > 0 && quantity > 0 && !Has(list, id) {
      AppendProper(list, Arrival(id, side, price, quantity));
    }
    if Has(list, id) {
      var k := Place(list, id);
      WithoutProper(list, k);
      if price > 0 && quantity > 0 {
        AppendProper(Without(list, k), Arrival(id, list[k].side, price, quantity));
      }
    }
  }

  // ---------- the sort ----------

  /** The orders of one side and price, oldest first. */
  function LevelOf(list: seq<Arrival>, side: Side, price: Price): seq<Arrival> {
    if list == [] then []
    else
      var last := list[|list| - 1];
      LevelOf(list[..|list| - 1], side, price) + (if last.side == side && last.price == price then [last] else [])
  }

  ghost predicate Ranked(side: Side, list: seq<Arrival>) {
    forall i, j | 0 <= i < j < |list| :: !Better(side, list[j].price, list[i].price)
  }

  ghost predicate OneSided(side: Side, list: seq<Arrival>) {
    forall i | 0 <= i < |list| :: list[i].side == side
  }

  /** Behind every order at `price` or better. */
  function Behind(side: Side, list: seq<Arrival>, price: Price): (k: nat)
    ensures k <= |list|
    ensures forall i | 0 <= i < k :: !Better(side, price, list[i].price)
    ensures k < |list| ==> Better(side, price, list[k].price)
  {
    if list == [] || Better(side, price, list[0].price) then 0
    else
      var k := Behind(side, list[1..], price);
      assert forall i | 1 <= i < |list| :: list[i] == list[1..][i - 1];
      1 + k
  }

  /** One side in price order, orders of one price in order of arrival. */
  function Arranged(side: Side, list: seq<Arrival>): seq<Arrival> {
    if list == [] then []
    else
      var sorted, last := Arranged(side, list[..|list| - 1]), list[|list| - 1];
      if last.side != side then sorted
      else
        var k := Behind(side, sorted, last.price);
        sorted[..k] + [last] + sorted[k..]
  }

  lemma {:induction false} LevelConcat(a: seq<Arrival>, b: seq<Arrival>, side: Side, price: Price)
    ensures LevelOf(a + b, side, price) == LevelOf(a, side, price) + LevelOf(b, side, price)
  {
    if b == [] {
      assert a + b == a;
    } else {
      assert (a + b)[..|a + b| - 1] == a + b[..|b| - 1];
      LevelConcat(a, b[..|b| - 1], side, price);
    }
  }

  lemma LevelOfOne(o: Arrival, side: Side, price: Price)
    ensures LevelOf([o], side, price) == if o.side == side && o.price == price then [o] else []
  {
    assert [o][..0] == [];
  }

  lemma LevelAppended(list: seq<Arrival>, o: Arrival, side: Side, price: Price)
    ensures LevelOf(list + [o], side, price) ==
            if o.side == side && o.price == price then LevelOf(list, side, price) + [o] else LevelOf(list, side, price)
  {
    LevelConcat(list, [o], side, price);
    LevelOfOne(o, side, price);
  }

  /** Whether some order is on this side at this price. */
  ghost predicate Occupied(list: seq<Arrival>, side: Side, price: Price) {
    exists i :: 0 <= i < |list| && list[i].side == side && list[i].price == price
  }

  lemma {:induction false} LevelOccupied(list: seq<Arrival>, side: Side, price: Price)
    ensures LevelOf(list, side, price) != [] <==> Occupied(list, side, price)
  {
    if list != [] {
      var n := |list| - 1;
      LevelOccupied(list[..n], side, price);
      if i :| 0 <= i < |list| && list[i].side == side && list[i].price == price && i != n {
        assert list[..n][i] == list[i];
      }
    }
  }

  lemma LevelSplice(left: seq<Arrival>, o: Arrival, right: seq<Arrival>, side: Side, price: Price)
    ensures LevelOf(left + [o] + right, side, price) ==
            LevelOf(left, side, price) + LevelOf([o], side, price) + LevelOf(right, side, price)
  {
    LevelConcat(left + [o], right, side, price);
    LevelConcat(left, [o], side, price);
  }

  /** Joining the back of its price leaves every other level alone. */
  lemma InsertedLevel(side: Side, sorted: seq<Arrival>, o: Arrival, price: Price)
    requires Ranked(side, sorted) && o.side == side
    ensures var k := Behind(side, sorted, o.price);
            LevelOf(sorted[..k] + [o] + sorted[k..], side, price) ==
            LevelOf(sorted, side, price) + (if o.price == price then [o] else [])
  {
    hide LevelOf, Ranked, Behind;
    var k := Behind(side, sorted, o.price);
    var left, right := sorted[..k], sorted[k..];
    LevelSplice(left, o, right, side, price);
    LevelConcat(left, right, side, price);
    assert left + right == sorted;
    LevelOfOne(o, side, price);
    if o.price == price {
      NothingBehind(side, sorted, o.price, k);
    }
  }

  lemma NothingBehind(side: Side, sorted: seq<Arrival>, price: Price, k: nat)
    requires Ranked(side, sorted) && k == Behind(side, sorted, price)
    ensures LevelOf(sorted[k..], side, price) == []
  {
    forall i | 0 <= i < |sorted| - k ensures sorted[k..][i].price != price {
      assert sorted[k..][i] == sorted[k + i];
    }
    LevelOccupied(sorted[k..], side, price);
  }

  lemma InsertedRanked(side: Side, sorted: seq<Arrival>, o: Arrival)
    requires Ranked(side, sorted) && OneSided(side, sorted) && o.side == side
    ensures var k := Behind(side, sorted, o.price);
            Ranked(side, sorted[..k] + [o] + sorted[k..]) && OneSided(side, sorted[..k] + [o] + sorted[k..])
  {
  }

  /** The sort is in price order and keeps every level as it arrived. */
  lemma {:induction false} ArrangedStable(side: Side, list: seq<Arrival>)
    ensures Ranked(side, Arranged(side, list)) && OneSided(side, Arranged(side, list))
    ensures forall price :: LevelOf(Arranged(side, list), side, price) == LevelOf(list, side, price)
  {
    if list != [] {
      var front, last := list[..|list| - 1], list[|list| - 1];
      var sorted := Arranged(side, front);
      ArrangedStable(side, front);
      if last.side == side {
        InsertedRanked(side, sorted, last);
        hide Ranked, OneSided, Behind;
        forall price ensures LevelOf(Arranged(side, list), side, price) == LevelOf(list, side, price) {
          InsertedLevel(side, sorted, last, price);
        }
      }
    }
  }

  lemma SameFirst(side: Side, a: seq<Arrival>, b: seq<Arrival>)
    requires Ranked(side, a) && OneSided(side, a) && Ranked(side, b) && OneSided(side, b) && a != []
    requires forall price :: LevelOf(a, side, price) == LevelOf(b, side, price)
    ensures b != [] && a[0] == b[0]
  {
    FirstOfLevel(side, a);
    LevelOccupied(b, side, a[0].price);
    var i :| 0 <= i < |b| && b[i].price == a[0].price;
    FirstOfLevel(side, b);
    LevelOccupied(a, side, b[0].price);
    var j :| 0 <= j < |a| && a[j].price == b[0].price;
    hide LevelOf;
    assert !Better(side, a[j].price, a[0].price) && !Better(side, b[i].price, b[0].price);
  }

  lemma SameTails(whole: seq<Arrival>, a: seq<Arrival>, b: seq<Arrival>, head: seq<Arrival>)
    requires whole == head + a && whole == head + b
    ensures a == b
  {
    assert a == whole[|head|..] && b == whole[|head|..];
  }

  /** And it is the only list that does both. */
  lemma {:induction false} StableSortUnique(side: Side, a: seq<Arrival>, b: seq<Arrival>)
    requires Ranked(side, a) && OneSided(side, a) && Ranked(side, b) && OneSided(side, b)
    requires forall price :: LevelOf(a, side, price) == LevelOf(b, side, price)
    ensures a == b
  {
    if a == [] {
      if b != [] {
        SameFirst(side, b, a);
      }
    } else {
      SameFirst(side, a, b);
      hide LevelOf;
      forall price
        ensures LevelOf(a[1..], side, price) == LevelOf(b[1..], side, price) {
        LevelTail(a, side, price);
        LevelTail(b, side, price);
        SameTails(LevelOf(a, side, price), LevelOf(a[1..], side, price), LevelOf(b[1..], side, price),
                  if a[0].side == side && a[0].price == price then [a[0]] else []);
      }
      StableSortUnique(side, a[1..], b[1..]);
    }
  }

  lemma LevelTail(list: seq<Arrival>, side: Side, price: Price)
    requires list != []
    ensures LevelOf(list, side, price) ==
            (if list[0].side == side && list[0].price == price then [list[0]] else []) + LevelOf(list[1..], side, price)
  {
    assert list == [list[0]] + list[1..];
    LevelConcat([list[0]], list[1..], side, price);
    LevelOfOne(list[0], side, price);
  }

  lemma FirstOfLevel(side: Side, list: seq<Arrival>)
    requires list != [] && OneSided(side, list)
    ensures LevelOf(list, side, list[0].price) != [] && LevelOf(list, side, list[0].price)[0] == list[0]
  {
    LevelTail(list, side, list[0].price);
  }

  /** One order out of the list is one order out of its own level, and no other. */
  lemma LevelWithout(list: seq<Arrival>, k: nat, side: Side, price: Price)
    requires k < |list|
    ensures var left, right := LevelOf(list[..k], side, price), LevelOf(list[k + 1..], side, price);
            && LevelOf(Without(list, k), side, price) == left + right
            && LevelOf(list, side, price) ==
               if list[k].side == side && list[k].price == price then left + [list[k]] + right else left + right
  {
    assert list == list[..k] + [list[k]] + list[k + 1..];
    LevelSplice(list[..k], list[k], list[k + 1..], side, price);
    LevelConcat(list[..k], list[k + 1..], side, price);
    LevelOfOne(list[k], side, price);
    assert LevelOf(list[..k], side, price) + [] == LevelOf(list[..k], side, price);
  }

  lemma {:induction false} LevelTagged(list: seq<Arrival>, side: Side, price: Price)
    ensures forall i | 0 <= i < |LevelOf(list, side, price)| ::
              LevelOf(list, side, price)[i].side == side && LevelOf(list, side, price)[i].price == price
  {
    if list != [] {
      LevelTagged(list[..|list| - 1], side, price);
    }
  }

  lemma {:induction false} LevelAvoids(list: seq<Arrival>, side: Side, price: Price, id: OrderId)
    requires forall i | 0 <= i < |list| :: list[i].id != id
    ensures forall i | 0 <= i < |LevelOf(list, side, price)| :: LevelOf(list, side, price)[i].id != id
  {
    if list != [] {
      LevelAvoids(list[..|list| - 1], side, price, id);
    }
  }

  // ---------- what the operations do, level by level ----------

  /** All orders but one. */
  function Sparing(list: seq<Arrival>, id: OrderId): seq<Arrival> {
    if list == [] then []
    else
      var last := list[|list| - 1];
      Sparing(list[..|list| - 1], id) + (if last.id == id then [] else [last])
  }

  lemma {:induction false} SparingNone(list: seq<Arrival>, id: OrderId)
    requires forall i | 0 <= i < |list| :: list[i].id != id
    ensures Sparing(list, id) == list
  {
    if list != [] {
      SparingNone(list[..|list| - 1], id);
      assert list == list[..|list| - 1] + [list[|list| - 1]];
    }
  }

  lemma {:induction false} SparingConcat(a: seq<Arrival>, b: seq<Arrival>, id: OrderId)
    ensures Sparing(a + b, id) == Sparing(a, id) + Sparing(b, id)
  {
    if b == [] {
      assert a + b == a;
    } else {
      assert (a + b)[..|a + b| - 1] == a + b[..|b| - 1];
      SparingConcat(a, b[..|b| - 1], id);
    }
  }

  /** No order of this id is among them. */
  ghost predicate Lacks(list: seq<Arrival>, id: OrderId) {
    forall i | 0 <= i < |list| :: list[i].id != id
  }

  lemma SparesAround(left: seq<Arrival>, o: Arrival, right: seq<Arrival>)
    requires Lacks(left, o.id) && Lacks(right, o.id)
    ensures Sparing(left + right, o.id) == Sparing(left + [o] + right, o.id) == left + right
  {
    SparingNone(left, o.id);
    SparingNone(right, o.id);
    SparingConcat(left, right, o.id);
    SparingConcat(left + [o], right, o.id);
    SparingConcat(left, [o], o.id);
    assert [o][..0] == [];
    hide Sparing;
    assert left + [] == left;
  }

  lemma AroundLacks(list: seq<Arrival>, k: nat)
    requires Proper(list) && k < |list|
    ensures Lacks(list[..k], list[k].id) && Lacks(list[k + 1..], list[k].id)
  {
  }

  /** Taking an order out by its place is sparing all others, at every level. */
  lemma SparedLevel(list: seq<Arrival>, k: nat, side: Side, price: Price)
    requires Proper(list) && k < |list|
    ensures LevelOf(Without(list, k), side, price) == Sparing(LevelOf(list, side, price), list[k].id)
  {
    hide LevelOf, Without, Proper, Sparing;
    AroundLacks(list, k);
    LevelWithout(list, k, side, price);
    LevelAvoids(list[..k], side, price, list[k].id);
    LevelAvoids(list[k + 1..], side, price, list[k].id);
    SparesAround(LevelOf(list[..k], side, price), list[k], LevelOf(list[k + 1..], side, price));
  }

  /** An order of this id rests. */
  ghost predicate Rests(list: seq<Arrival>, id: OrderId) {
    exists i :: 0 <= i < |list| && list[i].id == id
  }

  /** An order is added behind everything at its level, and nothing else changes; or it is refused for the
      first of three faults. */
  lemma AddEffect(list: seq<Arrival>, id: OrderId, price: Price, quantity: Quantity, side: Side)
    ensures var r := AddOrder(list, id, price, quantity, side);
            if price <= 0 then r == Outcome(list, Some(InvalidPrice))
            else if quantity == 0 then r == Outcome(list, Some(InvalidQuantity))
            else if Rests(list, id) then r == Outcome(list, Some(DuplicateOrderId))
            else
              && r.error == None
              && forall s: Side, p :: LevelOf(r.list, s, p) == LevelOf(list, s, p)
                   + (if s == side && p == price then [Arrival(id, side, price, quantity)] else [])
  {
    hide LevelOf;
    assert Has(list, id) <==> Rests(list, id);
    forall s: Side, p
      ensures LevelOf(list + [Arrival(id, side, price, quantity)], s, p) == LevelOf(list, s, p)
              + (if s == side && p == price then [Arrival(id, side, price, quantity)] else [])
    {
      LevelAppended(list, Arrival(id, side, price, quantity), s, p);
    }
  }

  /** A cancelled order leaves its level, and every other order stays where it is. */
  lemma CancelEffect(list: seq<Arrival>, id: OrderId)
    requires Proper(list)
    ensures var r := CancelOrder(list, id);
            if !Rests(list, id) then r == Outcome(list, Some(UnknownOrderId))
            else r.error == None && forall s: Side, p :: LevelOf(r.list, s, p) == Sparing(LevelOf(list, s, p), id)
  {
    hide LevelOf, Without, Sparing;
    assert Has(list, id) <==> Rests(list, id);
    if Has(list, id) {
      forall s: Side, p
        ensures LevelOf(Without(list, Place(list, id)), s, p) == Sparing(LevelOf(list, s, p), id)
      {
        SparedLevel(list, Place(list, id), s, p);
      }
    }
  }

  /** A modified order keeps its side and goes behind everything at its new price, even when that is the old
      one; every other order stays where it is. */
  lemma ModifyEffect(list: seq<Arrival>, id: OrderId, price: Price, quantity: Quantity) returns (k: nat)
    requires Proper(list)
    ensures var r := ModifyOrder(list, id, price, quantity);
            if price <= 0 then r == Outcome(list, Some(InvalidPrice))
            else if quantity == 0 then r == Outcome(list, Some(InvalidQuantity))
            else if !Rests(list, id) then r == Outcome(list, Some(UnknownOrderId))
            else
              && r.error == None && k < |list| && list[k].id == id
              && forall s: Side, p :: LevelOf(r.list, s, p) == Sparing(LevelOf(list, s, p), id)
                   + (if s == list[k].side && p == price then [Arrival(id, s, price, quantity)] else [])
  {
    hide LevelOf, Without, Sparing;
    k := Place(list, id);
    assert Has(list, id) <==> Rests(list, id);
    if Has(list, id) {
      var o := Arrival(id, list[k].side, price, quantity);
      forall s: Side, p
        ensures LevelOf(Without(list, k) + [o], s, p) == Sparing(LevelOf(list, s, p), id)
                + (if s == list[k].side && p == price then [o] else [])
      {
        SparedLevel(list, k, s, p);
        LevelAppended(Without(list, k), o, s, p);
      }
    }
  }

  // ---------- what the queries show ----------

  datatype PriceLevelView = PriceLevelView(price: Price, aggregateQuantity: Quantity, orderCount: nat)

  datatype OrderView = OrderView(orderId: OrderId, price: Price, quantity: Quantity)

  function Views(list: seq<Arrival>): seq<OrderView> {
    seq(|list|, i requires 0 <= i < |list| => OrderView(list[i].id, list[i].price, list[i].quantity))
  }

  function SumOf(list: seq<Arrival>): Quantity {
    if list == [] then 0 else SumOf(list[..|list| - 1]) + list[|list| - 1].quantity
  }

  lemma {:induction false} SumOfConcat(a: seq<Arrival>, b: seq<Arrival>)
    ensures SumOf(a + b) == SumOf(a) + SumOf(b)
  {
    if b == [] {
      assert a + b == a;
    } else {
      assert (a + b)[..|a + b| - 1] == a + b[..|b| - 1];
      SumOfConcat(a, b[..|b| - 1]);
    }
  }

  lemma SumOfSplice(left: seq<Arrival>, o: Arrival, right: seq<Arrival>)
    ensures SumOf(left + [o] + right) == SumOf(left) + o.quantity + SumOf(right)
  {
    SumOfConcat(left + [o], right);
    SumOfConcat(left, [o]);
    assert [o][..0] == [];
  }

  /** How many orders at the front are at this price. */
  function RunLength(list: seq<Arrival>, price: Price): (n: nat)
    ensures n <= |list|
    ensures forall i | 0 <= i < n :: list[i].price == price
    ensures n < |list| ==> list[n].price != price
  {
    if list == [] || list[0].price != price then 0
    else
      var n := RunLength(list[1..], price);
      assert forall i | 1 <= i < |list| :: list[i] == list[1..][i - 1];
      1 + n
  }

  /** A sorted list, one entry for each run of equal prices. */
  function Groups(list: seq<Arrival>): seq<PriceLevelView>
    decreases |list|
  {
    if list == [] then []
    else
      var n := RunLength(list, list[0].price);
      [PriceLevelView(list[0].price, SumOf(list[..n]), n)] + Groups(list[n..])
  }

  /** The front run of a sorted side is its whole best level. */
  lemma FrontRun(side: Side, list: seq<Arrival>)
    requires list != [] && Ranked(side, list) && OneSided(side, list)
    ensures var p := list[0].price;
            var n := RunLength(list, p);
            && n > 0 && LevelOf(list, side, p) == list[..n]
            && Ranked(side, list[n..]) && OneSided(side, list[n..])
            && forall price :: LevelOf(list[n..], side, price) == if price == p then [] else LevelOf(list, side, price)
  {
    var p := list[0].price;
    var n := RunLength(list, p);
    var run, rest := list[..n], list[n..];
    assert list == run + rest;
    RestRanked(side, list, n);
    WholeLevel(run, side, p);
    hide LevelOf, Ranked, OneSided, RunLength;
    forall price ensures LevelOf(rest, side, price) == if price == p then [] else LevelOf(list, side, price) {
      LevelConcat(run, rest, side, price);
      LevelOccupied(run, side, price);
    }
    LevelConcat(run, rest, side, p);
  }

  lemma RestRanked(side: Side, list: seq<Arrival>, n: nat)
    requires list != [] && Ranked(side, list) && OneSided(side, list) && n == RunLength(list, list[0].price)
    ensures Ranked(side, list[n..]) && OneSided(side, list[n..]) && LevelOf(list[n..], side, list[0].price) == []
  {
    var rest := list[n..];
    assert forall i | 0 <= i < |rest| :: rest[i] == list[n + i];
    LevelOccupied(rest, side, list[0].price);
  }

  lemma {:induction false} WholeLevel(run: seq<Arrival>, side: Side, price: Price)
    requires forall i | 0 <= i < |run| :: run[i].side == side && run[i].price == price
    ensures LevelOf(run, side, price) == run
  {
    if run != [] {
      WholeLevel(run[..|run| - 1], side, price);
      assert run == run[..|run| - 1] + [run[|run| - 1]];
    }
  }
}
