/** Price-time priority as a plain list: one side of a book is the sequence of its orders, best
    price first and, at one price, in order of arrival. */
module PriceTime {
  import opened Domain

  type ExchangeOrderId = nat
  type ClientOrderId = nat
  type AccountId = nat

  /** An order while it rests (resting_order.hpp). */
  datatype BookOrder = BookOrder(
    exchangeOrderId: ExchangeOrderId,
    clientOrderId: ClientOrderId,
    accountId: AccountId,
    price: Price,
    remaining: Quantity,
    side: Side,
    timeInForce: TimeInForce)

  /** No order stands behind one with a worse price. */
  ghost predicate Sorted(side: Side, queue: seq<BookOrder>) {
    forall i, j | 0 <= i < j < |queue| :: !Better(side, queue[j].price, queue[i].price)
  }

  /** Position `k` is behind every order at `price` or better and ahead of every worse one. */
  ghost predicate IsBackOf(side: Side, queue: seq<BookOrder>, price: Price, k: nat) {
    && k <= |queue|
    && (forall i | 0 <= i < k :: !Better(side, price, queue[i].price))
    && (forall i | k <= i < |queue| :: Better(side, price, queue[i].price))
  }

  function BackOf(side: Side, queue: seq<BookOrder>, price: Price): (k: nat)
    ensures k <= |queue|
    ensures Sorted(side, queue) ==> IsBackOf(side, queue, price, k)
  {
    if queue == [] then 0
    else if Better(side, price, queue[0].price) then 0
    else
      assert Sorted(side, queue) ==> Sorted(side, queue[1..]);
      var k := BackOf(side, queue[1..], price);
      assert forall i | 1 <= i < |queue| :: queue[i] == queue[1..][i - 1];
      1 + k
  }

  /** `order` joins the back of its price level. */
  function Insert(side: Side, queue: seq<BookOrder>, order: BookOrder): seq<BookOrder> {
    var k := BackOf(side, queue, order.price);
    queue[..k] + [order] + queue[k..]
  }

  lemma InsertSorted(side: Side, queue: seq<BookOrder>, order: BookOrder)
    requires Sorted(side, queue)
    ensures Sorted(side, Insert(side, queue, order))
  {
  }

  lemma BackOfUnique(side: Side, queue: seq<BookOrder>, price: Price, j: nat, k: nat)
    requires IsBackOf(side, queue, price, j) && IsBackOf(side, queue, price, k)
    ensures j == k
  {
    var i := if j < k then j else k;
    assert i < |queue| ==> Better(side, price, queue[i].price) || !Better(side, price, queue[i].price);
  }

  function Without<T>(s: seq<T>, k: nat): seq<T>
    requires k < |s|
  {
    s[..k] + s[k + 1..]
  }

  /** The orders of `queue` at one price, oldest first. */
  function Level(queue: seq<BookOrder>, price: Price): seq<BookOrder> {
    if queue == [] then []
    else (if queue[0].price == price then [queue[0]] else []) + Level(queue[1..], price)
  }

  /** The quantity on `side` that would cross at `price`, added up from the front until `quantity`
      is covered. */
  function CrossableFrom(side: Side, queue: seq<BookOrder>, price: Price, quantity: Quantity,
                         total: Quantity): Quantity {
    if queue == [] || Better(side, price, queue[0].price) then total
    else
      var t := total + queue[0].remaining;
      if t >= quantity then t else CrossableFrom(side, queue[1..], price, quantity, t)
  }
}
