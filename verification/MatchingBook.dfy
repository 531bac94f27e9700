/** The exchange's order book for one instrument (matching_book.hpp, matching_book.cpp): orders in
    a slab of slots, each price level a doubly linked queue of slots, freed slots on a free list.
    Its abstract value is one price-time list of slots per side. */
module MatchingBooks {
  import opened Domain
  import opened PriceTime
  import opened TickLadder

  datatype SlabOrder = SlabOrder(order: BookOrder, next: int, prev: int)

  ghost predicate InSlab(slab: seq<SlabOrder>, slots: seq<nat>) {
    forall i | 0 <= i < |slots| :: slots[i] < |slab|
  }

  ghost predicate Distinct(slots: seq<nat>) {
    forall i, j | 0 <= i < j < |slots| :: slots[i] != slots[j]
  }

  /** What the slab holds at the slots of `queue`. */
  function Nodes(slab: seq<SlabOrder>, queue: seq<nat>): (r: seq<SlabOrder>)
    requires InSlab(slab, queue)
    ensures |r| == |queue| && forall i | 0 <= i < |r| :: r[i] == slab[queue[i]]
  {
    seq(|queue|, i requires 0 <= i < |queue| => slab[queue[i]])
  }

  function Orders(nodes: seq<SlabOrder>): (r: seq<BookOrder>)
    ensures |r| == |nodes| && forall i | 0 <= i < |r| :: r[i] == nodes[i].order
  {
    seq(|nodes|, i requires 0 <= i < |nodes| => nodes[i].order)
  }

  /** Positions `i - 1` and `i` are at one price. */
  predicate Joined(nodes: seq<SlabOrder>, i: int) {
    0 < i < |nodes| && nodes[i - 1].order.price == nodes[i].order.price
  }

  ghost predicate OnSide(side: Side, nodes: seq<SlabOrder>) {
    forall i | 0 <= i < |nodes| :: nodes[i].order.side == side
  }

  /** The links of each node name its neighbours at the same price. */
  ghost predicate Linked(queue: seq<nat>, nodes: seq<SlabOrder>) {
    && |queue| == |nodes|
    && (forall i | 0 <= i < |nodes| :: nodes[i].next == if Joined(nodes, i + 1) then queue[i + 1] else NIL)
    && (forall i | 0 <= i < |nodes| :: nodes[i].prev == if Joined(nodes, i) then queue[i - 1] else NIL)
  }

  /** Each indexed level names the first and the last node at its price. */
  ghost predicate Ended(queue: seq<nat>, nodes: seq<SlabOrder>, levels: map<Price, LevelSlot>) {
    && |queue| == |nodes|
    && (forall i | 0 <= i < |nodes| :: nodes[i].order.price in levels)
    && (forall p | p in levels :: levels[p].head >= 0 && levels[p].tail >= 0)
    && (forall i | 0 <= i < |nodes| && !Joined(nodes, i) :: levels[nodes[i].order.price].head == queue[i])
    && (forall i | 0 <= i < |nodes| && !Joined(nodes, i + 1) :: levels[nodes[i].order.price].tail == queue[i])
  }

  ghost predicate NoEmptyLevel(nodes: seq<SlabOrder>, levels: map<Price, LevelSlot>) {
    forall p | p in levels :: exists i :: 0 <= i < |nodes| && nodes[i].order.price == p
  }

  /** Every level of one side is a doubly linked queue, and `queue` lists those queues one after
      the other, best price first. */
  ghost predicate Chained(side: Side, queue: seq<nat>, nodes: seq<SlabOrder>, levels: map<Price, LevelSlot>) {
    && OnSide(side, nodes)
    && Sorted(side, Orders(nodes))
    && Linked(queue, nodes)
    && Ended(queue, nodes, levels)
    && NoEmptyLevel(nodes, levels)
  }

  /** The free list starts at `head` and runs through the `next` links. */
  ghost predicate FreeChain(slab: seq<SlabOrder>, free: seq<nat>, head: int) {
    && InSlab(slab, free)
    && head == (if free == [] then NIL else free[0])
    && forall i | 0 <= i < |free| :: slab[free[i]].next == if i + 1 < |free| then free[i + 1] else NIL
  }

  /** Every slot is in exactly one place of exactly one of the three lists. */
  ghost predicate Partition(slots: nat, bids: seq<nat>, asks: seq<nat>, free: seq<nat>) {
    && Distinct(bids) && Distinct(asks) && Distinct(free)
    && (forall s | s in bids :: s < slots && s !in asks && s !in free)
    && (forall s | s in asks :: s < slots && s !in free)
    && (forall s | s in free :: s < slots)
    && (forall s: nat | s < slots :: s in bids || s in asks || s in free)
  }

  // ---------- the link operations on a slab value ----------

  function LinkedBack(slab: seq<SlabOrder>, tail: int, slot: nat): seq<SlabOrder>
    requires slot < |slab| && NIL <= tail < |slab|
  {
    var s := slab[slot := SlabOrder(slab[slot].order, NIL, tail)];
    if tail == NIL then s else s[tail := SlabOrder(s[tail].order, slot, s[tail].prev)]
  }

  function Unlinked(slab: seq<SlabOrder>, slot: nat): seq<SlabOrder>
    requires slot < |slab| && NIL <= slab[slot].next < |slab| && NIL <= slab[slot].prev < |slab|
  {
    var next := slab[slot].next;
    var prev := slab[slot].prev;
    var s := if prev == NIL then slab else slab[prev := SlabOrder(slab[prev].order, next, slab[prev].prev)];
    if next == NIL then s else s[next := SlabOrder(s[next].order, s[next].next, prev)]
  }

  // ---------- inserting a node ----------

  /** The level an arriving order joins. */
  lemma LevelAtBack(side: Side, queue: seq<nat>, nodes: seq<SlabOrder>, levels: map<Price, LevelSlot>,
                    price: Price, k: nat)
    requires Chained(side, queue, nodes, levels) && IsBackOf(side, Orders(nodes), price, k)
    ensures price in levels <==> k > 0 && nodes[k - 1].order.price == price
  {
    hide Linked, Joined;
    if price in levels {
      var i :| 0 <= i < |nodes| && nodes[i].order.price == price;
      assert Orders(nodes)[i].price == price;
      assert i < k;
      assert !Better(side, price, Orders(nodes)[k - 1].price);
    }
  }

  /** `nodes` after `node` is linked in at position `k`. */
  function Spliced(nodes: seq<SlabOrder>, k: nat, slot: nat, node: SlabOrder): seq<SlabOrder>
    requires k <= |nodes| && (k == 0 ==> node.prev == NIL)
  {
    (if node.prev == NIL then nodes[..k] else nodes[..k - 1] + [nodes[k - 1].(next := slot)]) + [node] + nodes[k..]
  }

  function Put<T>(s: seq<T>, k: nat, x: T): seq<T>
    requires k <= |s|
  {
    s[..k] + [x] + s[k..]
  }

  /** `node` belongs at position `k`: behind its own price, ahead of a strictly worse one. */
  ghost predicate Fits(queue: seq<nat>, nodes: seq<SlabOrder>, k: nat, node: SlabOrder) {
    && |queue| == |nodes| && k <= |nodes|
    && node.next == NIL
    && node.prev == (if k > 0 && nodes[k - 1].order.price == node.order.price then queue[k - 1] else NIL)
    && (k < |nodes| ==> nodes[k].order.price != node.order.price)
    && !Joined(nodes, k)
  }

  /** The nodes at `price` run up to position `k - 1`. */
  ghost predicate Run(nodes: seq<SlabOrder>, k: nat, price: Price) {
    forall i | 0 <= i < |nodes| && nodes[i].order.price == price :: i == k - 1 || (i < k && Joined(nodes, i + 1))
  }

  lemma SplicedAt(nodes: seq<SlabOrder>, k: nat, slot: nat, node: SlabOrder)
    requires k <= |nodes| && (k == 0 ==> node.prev == NIL)
    ensures |Spliced(nodes, k, slot, node)| == |nodes| + 1
    ensures forall i | 0 <= i < |nodes| + 1 :: Spliced(nodes, k, slot, node)[i] ==
              if i == k - 1 && node.prev != NIL then nodes[i].(next := slot)
              else if i < k then nodes[i] else if i == k then node else nodes[i - 1]
  {
  }

  lemma JoinedSpliced(queue: seq<nat>, nodes: seq<SlabOrder>, k: nat, slot: nat, node: SlabOrder, i: int)
    requires Fits(queue, nodes, k, node)
    ensures Joined(Spliced(nodes, k, slot, node), i) ==
            if i < k then Joined(nodes, i)
            else if i == k then node.prev != NIL
            else if i == k + 1 then false
            else Joined(nodes, i - 1)
  {
    SplicedAt(nodes, k, slot, node);
    if 0 < i <= |nodes| {
      var after := Spliced(nodes, k, slot, node);
      assert after[i].order == if i < k then nodes[i].order else if i == k then node.order else nodes[i - 1].order;
      assert after[i - 1].order ==
             if i - 1 < k then nodes[i - 1].order else if i - 1 == k then node.order else nodes[i - 2].order;
    }
  }

  lemma SpliceNode(nodes: seq<SlabOrder>, k: nat, slot: nat, node: SlabOrder, i: nat)
    requires k <= |nodes| && (k == 0 ==> node.prev == NIL) && i <= |nodes|
    ensures |Spliced(nodes, k, slot, node)| == |nodes| + 1
    ensures Spliced(nodes, k, slot, node)[i].next ==
            if i == k - 1 && node.prev != NIL then slot
            else if i < k then nodes[i].next else if i == k then node.next else nodes[i - 1].next
    ensures Spliced(nodes, k, slot, node)[i].prev ==
            if i < k then nodes[i].prev else if i == k then node.prev else nodes[i - 1].prev
    ensures Spliced(nodes, k, slot, node)[i].order ==
            if i < k then nodes[i].order else if i == k then node.order else nodes[i - 1].order
  {
    SplicedAt(nodes, k, slot, node);
  }

  lemma SpliceNext(queue: seq<nat>, nodes: seq<SlabOrder>, k: nat, slot: nat, node: SlabOrder, i: nat)
    requires Linked(queue, nodes) && Fits(queue, nodes, k, node) && i <= |nodes|
    ensures Spliced(nodes, k, slot, node)[i].next ==
            if Joined(Spliced(nodes, k, slot, node), i + 1) then Put(queue, k, slot)[i + 1] else NIL
  {
    hide Linked, Joined, Spliced;
    SpliceNode(nodes, k, slot, node, i);
    JoinedEnds(nodes);
    JoinedEnds(Spliced(nodes, k, slot, node));
    JoinedSpliced(queue, nodes, k, slot, node, i + 1);
    if i < |nodes| { LinkedNode(queue, nodes, i); }
    if i > k { LinkedNode(queue, nodes, i - 1); }
    if i < |nodes| {
      assert Put(queue, k, slot)[i + 1] == if i + 1 < k then queue[i + 1] else if i + 1 == k then slot else queue[i];
    }
  }

  lemma SplicePrev(queue: seq<nat>, nodes: seq<SlabOrder>, k: nat, slot: nat, node: SlabOrder, i: nat)
    requires Linked(queue, nodes) && Fits(queue, nodes, k, node) && i <= |nodes|
    ensures Spliced(nodes, k, slot, node)[i].prev ==
            if Joined(Spliced(nodes, k, slot, node), i) then Put(queue, k, slot)[i - 1] else NIL
  {
    hide Linked, Joined, Spliced;
    SpliceNode(nodes, k, slot, node, i);
    JoinedEnds(Spliced(nodes, k, slot, node));
    JoinedSpliced(queue, nodes, k, slot, node, i);
    if i < |nodes| { LinkedNode(queue, nodes, i); }
    if i > k { LinkedNode(queue, nodes, i - 1); }
    if i > 0 {
      assert Put(queue, k, slot)[i - 1] ==
             if i - 1 < k then queue[i - 1] else if i - 1 == k then slot else queue[i - 2];
    }
  }

  lemma SpliceLinked(queue: seq<nat>, nodes: seq<SlabOrder>, k: nat, slot: nat, node: SlabOrder)
    requires Linked(queue, nodes) && Fits(queue, nodes, k, node)
    ensures Linked(Put(queue, k, slot), Spliced(nodes, k, slot, node))
  {
    forall i: nat | i < |nodes| + 1
      ensures Spliced(nodes, k, slot, node)[i].next ==
              if Joined(Spliced(nodes, k, slot, node), i + 1) then Put(queue, k, slot)[i + 1] else NIL
      ensures Spliced(nodes, k, slot, node)[i].prev ==
              if Joined(Spliced(nodes, k, slot, node), i) then Put(queue, k, slot)[i - 1] else NIL
    {
      SpliceNext(queue, nodes, k, slot, node, i);
      SplicePrev(queue, nodes, k, slot, node, i);
    }
  }

  lemma SpliceEnds(queue: seq<nat>, nodes: seq<SlabOrder>, levels: map<Price, LevelSlot>,
                   k: nat, slot: nat, node: SlabOrder, levels': map<Price, LevelSlot>, i: nat)
    requires Ended(queue, nodes, levels) && Fits(queue, nodes, k, node) && Run(nodes, k, node.order.price)
    requires i <= |nodes|
    requires node.prev == NIL <==> node.order.price !in levels
    requires levels' == levels[node.order.price := LevelSlot(if node.prev == NIL then slot
                                                             else levels[node.order.price].head, slot)]
    ensures var after := Spliced(nodes, k, slot, node);
            && after[i].order.price in levels'
            && (!Joined(after, i) ==> levels'[after[i].order.price].head == Put(queue, k, slot)[i])
            && (!Joined(after, i + 1) ==> levels'[after[i].order.price].tail == Put(queue, k, slot)[i])
  {
    hide Spliced, Joined;
    SpliceNode(nodes, k, slot, node, i);
    JoinedSpliced(queue, nodes, k, slot, node, i);
    JoinedSpliced(queue, nodes, k, slot, node, i + 1);
  }

  lemma SpliceEnded(queue: seq<nat>, nodes: seq<SlabOrder>, levels: map<Price, LevelSlot>,
                    k: nat, slot: nat, node: SlabOrder, levels': map<Price, LevelSlot>)
    requires Ended(queue, nodes, levels) && Fits(queue, nodes, k, node) && Run(nodes, k, node.order.price)
    requires node.prev == NIL <==> node.order.price !in levels
    requires levels' == levels[node.order.price := LevelSlot(if node.prev == NIL then slot
                                                             else levels[node.order.price].head, slot)]
    ensures Ended(Put(queue, k, slot), Spliced(nodes, k, slot, node), levels')
  {
    var after := Spliced(nodes, k, slot, node);
    forall i: nat | i < |nodes| + 1
      ensures after[i].order.price in levels'
      ensures !Joined(after, i) ==> levels'[after[i].order.price].head == Put(queue, k, slot)[i]
      ensures !Joined(after, i + 1) ==> levels'[after[i].order.price].tail == Put(queue, k, slot)[i]
    {
      SpliceEnds(queue, nodes, levels, k, slot, node, levels', i);
    }
  }

  lemma SpliceNoEmptyLevel(nodes: seq<SlabOrder>, levels: map<Price, LevelSlot>, k: nat, slot: nat, node: SlabOrder,
                           level: LevelSlot)
    requires NoEmptyLevel(nodes, levels) && k <= |nodes| && (k == 0 ==> node.prev == NIL)
    ensures NoEmptyLevel(Spliced(nodes, k, slot, node), levels[node.order.price := level])
  {
    SplicedAt(nodes, k, slot, node);
    var after := Spliced(nodes, k, slot, node);
    var levels' := levels[node.order.price := level];
    forall p | p in levels' ensures exists i :: 0 <= i < |after| && after[i].order.price == p {
      if p == node.order.price {
        assert after[k].order.price == p;
      } else {
        var i :| 0 <= i < |nodes| && nodes[i].order.price == p;
        assert after[if i < k then i else i + 1].order.price == p;
      }
    }
  }

  lemma SpliceOrders(side: Side, queue: seq<nat>, nodes: seq<SlabOrder>, k: nat, slot: nat, node: SlabOrder)
    requires k <= |nodes| && (k == 0 ==> node.prev == NIL)
    requires Sorted(side, Orders(nodes)) && IsBackOf(side, Orders(nodes), node.order.price, k)
    requires OnSide(side, nodes) && node.order.side == side
    ensures Orders(Spliced(nodes, k, slot, node)) == Insert(side, Orders(nodes), node.order)
    ensures OnSide(side, Spliced(nodes, k, slot, node))
    ensures Sorted(side, Orders(Spliced(nodes, k, slot, node)))
  {
    SplicedAt(nodes, k, slot, node);
    BackOfUnique(side, Orders(nodes), node.order.price, k, BackOf(side, Orders(nodes), node.order.price));
    InsertSorted(side, Orders(nodes), node.order);
  }

  lemma JoinedEnds(nodes: seq<SlabOrder>)
    ensures !Joined(nodes, 0) && !Joined(nodes, |nodes|)
  {
  }

  /** Behind its own price and ahead of every worse one, a node fits. */
  lemma BackFits(side: Side, queue: seq<nat>, nodes: seq<SlabOrder>, levels: map<Price, LevelSlot>,
                 k: nat, node: SlabOrder)
    requires Chained(side, queue, nodes, levels) && IsBackOf(side, Orders(nodes), node.order.price, k)
    requires node.next == NIL
    requires node.prev == if node.order.price in levels then levels[node.order.price].tail else NIL
    ensures Fits(queue, nodes, k, node) && Run(nodes, k, node.order.price)
    ensures node.prev == NIL <==> node.order.price !in levels
  {
    hide Linked;
    var price := node.order.price;
    LevelAtBack(side, queue, nodes, levels, price, k);
    forall i | 0 <= i < |nodes| ensures Better(side, price, nodes[i].order.price) <==> i >= k {
      assert Orders(nodes)[i].price == nodes[i].order.price;
    }
    assert !Joined(nodes, k);
    forall i | 0 <= i < |nodes| && nodes[i].order.price == price
      ensures i == k - 1 || (i < k && Joined(nodes, i + 1))
    {
      if i < k - 1 {
        assert !Better(side, Orders(nodes)[i + 1].price, Orders(nodes)[i].price);
      }
    }
  }

  /** Linking a node at the tail of its level inserts its order into the price-time list. */
  lemma SpliceChained(side: Side, queue: seq<nat>, nodes: seq<SlabOrder>, levels: map<Price, LevelSlot>,
                      k: nat, slot: nat, node: SlabOrder, head: int)
    requires Chained(side, queue, nodes, levels) && IsBackOf(side, Orders(nodes), node.order.price, k)
    requires node.order.side == side && node.next == NIL
    requires node.prev == if node.order.price in levels then levels[node.order.price].tail else NIL
    requires head == if node.prev == NIL then slot else levels[node.order.price].head
    ensures k == 0 ==> node.prev == NIL
    ensures node.prev != NIL ==> node.prev == queue[k - 1]
    ensures Chained(side, Put(queue, k, slot), Spliced(nodes, k, slot, node),
                    levels[node.order.price := LevelSlot(head, slot)])
    ensures Orders(Spliced(nodes, k, slot, node)) == Insert(side, Orders(nodes), node.order)
  {
    hide Linked, Ended, NoEmptyLevel, Sorted, Spliced, Orders, IsBackOf, OnSide;
    BackFits(side, queue, nodes, levels, k, node);
    SpliceLinked(queue, nodes, k, slot, node);
    SpliceEnded(queue, nodes, levels, k, slot, node, levels[node.order.price := LevelSlot(head, slot)]);
    SpliceNoEmptyLevel(nodes, levels, k, slot, node, LevelSlot(head, slot));
    SpliceOrders(side, queue, nodes, k, slot, node);
  }

  // ---------- removing a node ----------

  /** `nodes` after the node at position `k` is unlinked from its neighbours and dropped. */
  function Cut(nodes: seq<SlabOrder>, k: nat): seq<SlabOrder>
    requires k < |nodes| && (k == 0 ==> nodes[k].prev == NIL) && (k + 1 == |nodes| ==> nodes[k].next == NIL)
  {
    (if nodes[k].prev == NIL then nodes[..k] else nodes[..k - 1] + [nodes[k - 1].(next := nodes[k].next)])
    + (if nodes[k].next == NIL then nodes[k + 1..] else [nodes[k + 1].(prev := nodes[k].prev)] + nodes[k + 2..])
  }

  lemma CutAt(nodes: seq<SlabOrder>, k: nat)
    requires k < |nodes| && (k == 0 ==> nodes[k].prev == NIL) && (k + 1 == |nodes| ==> nodes[k].next == NIL)
    ensures |Cut(nodes, k)| == |nodes| - 1
    ensures forall i | 0 <= i < |nodes| - 1 :: Cut(nodes, k)[i] ==
              if i == k - 1 && nodes[k].prev != NIL then nodes[i].(next := nodes[k].next)
              else if i < k then nodes[i]
              else if i == k && nodes[k].next != NIL then nodes[i + 1].(prev := nodes[k].prev)
              else nodes[i + 1]
  {
  }

  /** The ends of position `k`'s own links, and what joins across it once it is gone. */
  ghost predicate Cuttable(queue: seq<nat>, nodes: seq<SlabOrder>, k: nat) {
    && k < |nodes| == |queue|
    && nodes[k].next == (if Joined(nodes, k + 1) then queue[k + 1] else NIL)
    && nodes[k].prev == (if Joined(nodes, k) then queue[k - 1] else NIL)
    && (0 < k < |nodes| - 1 && nodes[k - 1].order.price == nodes[k + 1].order.price ==> Joined(nodes, k))
  }

  lemma LinkedCuttable(side: Side, queue: seq<nat>, nodes: seq<SlabOrder>, k: nat)
    requires Linked(queue, nodes) && Sorted(side, Orders(nodes)) && k < |nodes|
    ensures Cuttable(queue, nodes, k)
  {
    if 0 < k < |nodes| - 1 {
      assert !Better(side, Orders(nodes)[k].price, Orders(nodes)[k - 1].price);
      assert !Better(side, Orders(nodes)[k + 1].price, Orders(nodes)[k].price);
    }
  }

  lemma JoinedCut(queue: seq<nat>, nodes: seq<SlabOrder>, k: nat, i: int)
    requires Cuttable(queue, nodes, k)
    ensures Joined(Cut(nodes, k), i) ==
            if i < k then Joined(nodes, i)
            else if i == k then Joined(nodes, k) && Joined(nodes, k + 1)
            else Joined(nodes, i + 1)
  {
    CutAt(nodes, k);
    if 0 < i < |nodes| - 1 {
      var after := Cut(nodes, k);
      assert after[i].order == if i < k then nodes[i].order else nodes[i + 1].order;
      assert after[i - 1].order == if i - 1 < k then nodes[i - 1].order else nodes[i].order;
    }
  }

  lemma CutNode(nodes: seq<SlabOrder>, k: nat, i: nat)
    requires k < |nodes| && (k == 0 ==> nodes[k].prev == NIL) && (k + 1 == |nodes| ==> nodes[k].next == NIL)
    requires i < |nodes| - 1
    ensures |Cut(nodes, k)| == |nodes| - 1
    ensures Cut(nodes, k)[i].next == if i == k - 1 && nodes[k].prev != NIL then nodes[k].next
                                     else if i < k then nodes[i].next else nodes[i + 1].next
    ensures Cut(nodes, k)[i].prev == if i < k then nodes[i].prev
                                     else if i == k && nodes[k].next != NIL then nodes[k].prev else nodes[i + 1].prev
  {
    CutAt(nodes, k);
  }

  lemma LinkedNode(queue: seq<nat>, nodes: seq<SlabOrder>, i: nat)
    requires Linked(queue, nodes) && i < |nodes|
    ensures nodes[i].next == if Joined(nodes, i + 1) then queue[i + 1] else NIL
    ensures nodes[i].prev == if Joined(nodes, i) then queue[i - 1] else NIL
  {
  }

  lemma CutNext(queue: seq<nat>, nodes: seq<SlabOrder>, k: nat, i: nat)
    requires Linked(queue, nodes) && Cuttable(queue, nodes, k) && i < |nodes| - 1
    ensures Cut(nodes, k)[i].next == if Joined(Cut(nodes, k), i + 1) then Without(queue, k)[i + 1] else NIL
  {
    hide Linked, Joined, Cut;
    JoinedEnds(nodes);
    CutNode(nodes, k, i);
    JoinedEnds(Cut(nodes, k));
    JoinedCut(queue, nodes, k, i + 1);
    LinkedNode(queue, nodes, i);
    LinkedNode(queue, nodes, i + 1);
    assert i == k - 1 && Joined(nodes, k) ==> nodes[k].prev == queue[k - 1] >= 0;
    assert i + 2 < |nodes| ==> Without(queue, k)[i + 1] == if i + 1 < k then queue[i + 1] else queue[i + 2];
  }

  lemma CutPrev(queue: seq<nat>, nodes: seq<SlabOrder>, k: nat, i: nat)
    requires Linked(queue, nodes) && Cuttable(queue, nodes, k) && i < |nodes| - 1
    ensures Cut(nodes, k)[i].prev == if Joined(Cut(nodes, k), i) then Without(queue, k)[i - 1] else NIL
  {
    hide Linked, Joined, Cut;
    JoinedEnds(nodes);
    CutNode(nodes, k, i);
    JoinedCut(queue, nodes, k, i);
    LinkedNode(queue, nodes, i);
    LinkedNode(queue, nodes, i + 1);
    assert i == k && Joined(nodes, k + 1) ==> nodes[k].next == queue[k + 1] >= 0;
    assert i > 0 ==> Without(queue, k)[i - 1] == if i <= k then queue[i - 1] else queue[i];
  }

  lemma CutLinked(queue: seq<nat>, nodes: seq<SlabOrder>, k: nat)
    requires Linked(queue, nodes) && Cuttable(queue, nodes, k)
    ensures Linked(Without(queue, k), Cut(nodes, k))
  {
    CutAt(nodes, k);
    forall i: nat | i < |nodes| - 1
      ensures Cut(nodes, k)[i].next == if Joined(Cut(nodes, k), i + 1) then Without(queue, k)[i + 1] else NIL
      ensures Cut(nodes, k)[i].prev == if Joined(Cut(nodes, k), i) then Without(queue, k)[i - 1] else NIL
    {
      CutNext(queue, nodes, k, i);
      CutPrev(queue, nodes, k, i);
    }
  }

  /** The level of the removed node afterwards. */
  function CutLevel(node: SlabOrder, level: LevelSlot): LevelSlot {
    LevelSlot(if node.prev == NIL then node.next else level.head, if node.next == NIL then node.prev else level.tail)
  }

  function CutLevels(levels: map<Price, LevelSlot>, node: SlabOrder): map<Price, LevelSlot>
    requires node.order.price in levels
  {
    var level := CutLevel(node, levels[node.order.price]);
    if level.head == NIL then levels - {node.order.price} else levels[node.order.price := level]
  }

  lemma CutLevelEmpty(queue: seq<nat>, nodes: seq<SlabOrder>, levels: map<Price, LevelSlot>, k: nat)
    requires Ended(queue, nodes, levels) && Cuttable(queue, nodes, k)
    ensures CutLevel(nodes[k], levels[nodes[k].order.price]).head == NIL
            <==> !Joined(nodes, k) && !Joined(nodes, k + 1)
  {
  }

  /** Another node at the same price keeps the level, and has an end of it only when it is next
      to the removed end. */
  lemma CutEnds(queue: seq<nat>, nodes: seq<SlabOrder>, levels: map<Price, LevelSlot>, k: nat, i: nat)
    requires Ended(queue, nodes, levels) && Cuttable(queue, nodes, k) && i < |nodes| - 1 && Distinct(queue)
    requires Alone(nodes, k)
    ensures var after := Cut(nodes, k);
            var levels' := CutLevels(levels, nodes[k]);
            && after[i].order.price in levels'
            && (!Joined(after, i) ==> levels'[after[i].order.price].head == Without(queue, k)[i])
            && (!Joined(after, i + 1) ==> levels'[after[i].order.price].tail == Without(queue, k)[i])
  {
    CutAt(nodes, k);
    CutLevelEmpty(queue, nodes, levels, k);
    JoinedCut(queue, nodes, k, i);
    JoinedCut(queue, nodes, k, i + 1);
    var o := if i < k then i else i + 1;
    assert Cut(nodes, k)[i].order == nodes[o].order;
    assert Without(queue, k)[i] == queue[o];
    assert queue[o] != queue[k];
    hide Joined, Cut, Without;
    JoinedEnds(nodes);
  }

  /** A node joined on neither side is the only one at its price. */
  ghost predicate Alone(nodes: seq<SlabOrder>, k: nat) {
    k < |nodes| && (!Joined(nodes, k) && !Joined(nodes, k + 1) ==>
      forall i | 0 <= i < |nodes| && nodes[i].order.price == nodes[k].order.price :: i == k)
  }

  lemma SortedAlone(side: Side, nodes: seq<SlabOrder>, k: nat)
    requires Sorted(side, Orders(nodes)) && k < |nodes|
    ensures Alone(nodes, k)
  {
    forall i | 0 <= i < |nodes| && nodes[i].order.price == nodes[k].order.price && i != k
      ensures Joined(nodes, k) || Joined(nodes, k + 1)
    {
      var m := if i < k then k - 1 else k + 1;
      assert i <= k - 1 ==> !Better(side, Orders(nodes)[k].price, Orders(nodes)[k - 1].price);
      assert i < k - 1 ==> !Better(side, Orders(nodes)[k - 1].price, Orders(nodes)[i].price);
      assert i >= k + 1 ==> !Better(side, Orders(nodes)[k + 1].price, Orders(nodes)[k].price);
      assert i > k + 1 ==> !Better(side, Orders(nodes)[i].price, Orders(nodes)[k + 1].price);
    }
  }

  lemma CutEnded(queue: seq<nat>, nodes: seq<SlabOrder>, levels: map<Price, LevelSlot>, k: nat)
    requires Ended(queue, nodes, levels) && Cuttable(queue, nodes, k) && Distinct(queue) && Alone(nodes, k)
    ensures Ended(Without(queue, k), Cut(nodes, k), CutLevels(levels, nodes[k]))
  {
    CutAt(nodes, k);
    CutLevelEmpty(queue, nodes, levels, k);
    var after := Cut(nodes, k);
    var levels' := CutLevels(levels, nodes[k]);
    forall i: nat | i < |nodes| - 1
      ensures after[i].order.price in levels'
      ensures !Joined(after, i) ==> levels'[after[i].order.price].head == Without(queue, k)[i]
      ensures !Joined(after, i + 1) ==> levels'[after[i].order.price].tail == Without(queue, k)[i]
    {
      CutEnds(queue, nodes, levels, k, i);
    }
  }

  lemma CutKeepsPrice(nodes: seq<SlabOrder>, k: nat, j: nat)
    requires k < |nodes| && (k == 0 ==> nodes[k].prev == NIL) && (k + 1 == |nodes| ==> nodes[k].next == NIL)
    requires j < |nodes| && j != k
    ensures exists i :: 0 <= i < |Cut(nodes, k)| && Cut(nodes, k)[i].order.price == nodes[j].order.price
  {
    CutOrder(nodes, k, if j < k then j else j - 1);
  }

  lemma CutNoEmptyLevel(queue: seq<nat>, nodes: seq<SlabOrder>, levels: map<Price, LevelSlot>, k: nat)
    requires NoEmptyLevel(nodes, levels) && Ended(queue, nodes, levels) && Cuttable(queue, nodes, k)
    ensures NoEmptyLevel(Cut(nodes, k), CutLevels(levels, nodes[k]))
  {
    CutLevelEmpty(queue, nodes, levels, k);
    var levels' := CutLevels(levels, nodes[k]);
    forall p | p in levels' ensures exists i :: 0 <= i < |Cut(nodes, k)| && Cut(nodes, k)[i].order.price == p {
      hide Cut, Ended;
      var i :| 0 <= i < |nodes| && nodes[i].order.price == p;
      CutKeepsPrice(nodes, k, if i != k then i else if Joined(nodes, k) then k - 1 else k + 1);
    }
  }

  lemma CutOrder(nodes: seq<SlabOrder>, k: nat, i: nat)
    requires k < |nodes| && (k == 0 ==> nodes[k].prev == NIL) && (k + 1 == |nodes| ==> nodes[k].next == NIL)
    requires i < |nodes| - 1
    ensures |Cut(nodes, k)| == |nodes| - 1
    ensures Cut(nodes, k)[i].order == if i < k then nodes[i].order else nodes[i + 1].order
  {
    CutAt(nodes, k);
  }

  lemma CutOrders(side: Side, nodes: seq<SlabOrder>, k: nat)
    requires k < |nodes| && (k == 0 ==> nodes[k].prev == NIL) && (k + 1 == |nodes| ==> nodes[k].next == NIL)
    requires Sorted(side, Orders(nodes)) && OnSide(side, nodes)
    ensures Orders(Cut(nodes, k)) == Without(Orders(nodes), k)
    ensures OnSide(side, Cut(nodes, k))
    ensures Sorted(side, Orders(Cut(nodes, k)))
  {
    CutAt(nodes, k);
  }

  /** Unlinking a node removes its order from the price-time list. */
  lemma CutChained(side: Side, queue: seq<nat>, nodes: seq<SlabOrder>, levels: map<Price, LevelSlot>, k: nat)
    requires Chained(side, queue, nodes, levels) && Distinct(queue) && k < |nodes|
    ensures nodes[k].order.price in levels
    ensures Cuttable(queue, nodes, k)
    ensures Chained(side, Without(queue, k), Cut(nodes, k), CutLevels(levels, nodes[k]))
    ensures Orders(Cut(nodes, k)) == Without(Orders(nodes), k)
  {
    hide NoEmptyLevel, Sorted, Cut, Orders, OnSide, Distinct, Cuttable;
    LinkedCuttable(side, queue, nodes, k);
    SortedAlone(side, nodes, k);
    CutLinked(queue, nodes, k);
    CutEnded(queue, nodes, levels, k);
    CutNoEmptyLevel(queue, nodes, levels, k);
    CutOrders(side, nodes, k);
  }

  // ---------- slots ----------

  lemma PartitionSwap(slots: nat, bids: seq<nat>, asks: seq<nat>, free: seq<nat>)
    requires Partition(slots, bids, asks, free)
    ensures Partition(slots, asks, bids, free)
  {
  }

  lemma PartitionApart(slots: nat, bids: seq<nat>, asks: seq<nat>, free: seq<nat>)
    requires Partition(slots, bids, asks, free)
    ensures Distinct(bids) && Distinct(asks) && Distinct(free)
    ensures forall s | s in bids :: s < slots && s !in asks && s !in free
    ensures forall s | s in asks :: s < slots && s !in bids && s !in free
    ensures forall s | s in free :: s < slots
  {
  }

  lemma PutMembers(queue: seq<nat>, k: nat, slot: nat)
    requires k <= |queue| && slot !in queue && Distinct(queue)
    ensures Distinct(Put(queue, k, slot)) && |Put(queue, k, slot)| == |queue| + 1
    ensures forall s: nat :: s in Put(queue, k, slot) <==> s == slot || s in queue
  {
  }

  lemma WithoutMembers(queue: seq<nat>, k: nat)
    requires k < |queue| && Distinct(queue)
    ensures Distinct(Without(queue, k)) && |Without(queue, k)| == |queue| - 1
    ensures forall s: nat :: s in Without(queue, k) <==> s != queue[k] && s in queue
  {
    forall s: nat | s in queue && s != queue[k] ensures s in Without(queue, k) {
      var i :| 0 <= i < |queue| && queue[i] == s;
      assert s == Without(queue, k)[if i < k then i else i - 1];
    }
  }

  lemma ConsMembers(free: seq<nat>, slot: nat)
    requires Distinct(free) && slot !in free
    ensures Distinct([slot] + free)
    ensures forall s: nat :: s in [slot] + free <==> s == slot || s in free
  {
  }

  lemma TailMembers(free: seq<nat>)
    requires free != [] && Distinct(free)
    ensures Distinct(free[1..]) && free[0] !in free[1..]
    ensures forall s: nat :: s in free <==> s == free[0] || s in free[1..]
  {
  }

  /** A slot leaves the free list, or is new, and joins a side. */
  lemma PartitionPut(slots: nat, queue: seq<nat>, other: seq<nat>, free: seq<nat>, k: nat)
    requires Partition(slots, queue, other, free) && k <= |queue|
    ensures free == [] ==> Partition(slots + 1, Put(queue, k, slots), other, [])
    ensures free != [] ==> Partition(slots, Put(queue, k, free[0]), other, free[1..])
  {
    hide Put, Distinct;
    var slot := if free == [] then slots else free[0];
    assert slot !in queue && slot !in other;
    PutMembers(queue, k, slot);
    if free != [] {
      TailMembers(free);
    }
  }

  /** A slot leaves a side and joins the free list. */
  lemma PartitionWithout(slots: nat, queue: seq<nat>, other: seq<nat>, free: seq<nat>, k: nat)
    requires Partition(slots, queue, other, free) && k < |queue|
    ensures Partition(slots, Without(queue, k), other, [queue[k]] + free)
  {
    hide Distinct, Without;
    assert queue[k] in queue;
    WithoutMembers(queue, k);
    ConsMembers(free, queue[k]);
  }

  /** Slots whose contents are kept contribute the same nodes. */
  lemma NodesKept(slab: seq<SlabOrder>, slab': seq<SlabOrder>, queue: seq<nat>)
    requires InSlab(slab, queue) && |slab| <= |slab'|
    requires forall s: nat | s < |slab| && s in queue :: slab'[s] == slab[s]
    ensures InSlab(slab', queue) && Nodes(slab', queue) == Nodes(slab, queue)
  {
    forall i | 0 <= i < |queue| ensures slab'[queue[i]] == slab[queue[i]] {
      assert queue[i] in queue;
    }
  }

  lemma FreeKept(slab: seq<SlabOrder>, slab': seq<SlabOrder>, free: seq<nat>, head: int)
    requires FreeChain(slab, free, head) && |slab| <= |slab'|
    requires forall s: nat | s < |slab| && s in free :: slab'[s] == slab[s]
    ensures FreeChain(slab', free, head)
  {
    forall i | 0 <= i < |free| ensures slab'[free[i]] == slab[free[i]] {
      assert free[i] in free;
    }
  }

  lemma LinkedBackAt(slab: seq<SlabOrder>, queue: seq<nat>, slot: nat, tail: int, k: nat, o: nat)
    requires InSlab(slab, queue) && Distinct(queue) && slot !in queue && slot < |slab| && k <= |queue|
    requires tail == NIL || (k > 0 && tail == queue[k - 1])
    requires o < |queue|
    ensures NIL <= tail < |slab| && queue[o] < |slab|
    ensures LinkedBack(slab, tail, slot)[queue[o]] ==
            if tail != NIL && o == k - 1 then slab[queue[o]].(next := slot) else slab[queue[o]]
  {
    assert queue[o] in queue;
    assert tail != NIL ==> (queue[o] == tail <==> o == k - 1);
  }

  lemma NodesLinked(slab: seq<SlabOrder>, queue: seq<nat>, slot: nat, tail: int, k: nat)
    requires InSlab(slab, queue) && Distinct(queue) && slot !in queue && slot < |slab| && k <= |queue|
    requires tail == NIL || (k > 0 && tail == queue[k - 1])
    ensures NIL <= tail < |slab|
    ensures InSlab(LinkedBack(slab, tail, slot), Put(queue, k, slot))
    ensures Nodes(LinkedBack(slab, tail, slot), Put(queue, k, slot)) ==
            Spliced(Nodes(slab, queue), k, slot, SlabOrder(slab[slot].order, NIL, tail))
  {
    var after := LinkedBack(slab, tail, slot);
    var node := SlabOrder(slab[slot].order, NIL, tail);
    var nodes := Nodes(slab, queue);
    var spliced := Spliced(nodes, k, slot, node);
    assert after[slot] == node by { assert tail != NIL ==> tail in queue; }
    SplicedAt(nodes, k, slot, node);
    forall i: nat | i < |queue| + 1 ensures after[Put(queue, k, slot)[i]] == spliced[i] {
      hide LinkedBack, Spliced, Nodes, Distinct;
      if i != k {
        var o := if i < k then i else i - 1;
        assert Put(queue, k, slot)[i] == queue[o];
        LinkedBackAt(slab, queue, slot, tail, k, o);
      }
    }
  }

  lemma UnlinkedAt(slab: seq<SlabOrder>, queue: seq<nat>, k: nat, o: nat)
    requires InSlab(slab, queue) && Distinct(queue) && k < |queue| && Cuttable(queue, Nodes(slab, queue), k)
    requires o < |queue| && o != k
    ensures NIL <= slab[queue[k]].next < |slab| && NIL <= slab[queue[k]].prev < |slab|
    ensures var node := slab[queue[k]];
            Unlinked(slab, queue[k])[queue[o]] ==
              if o == k - 1 && node.prev != NIL then slab[queue[o]].(next := node.next)
              else if o == k + 1 && node.next != NIL then slab[queue[o]].(prev := node.prev)
              else slab[queue[o]]
  {
    var node := Nodes(slab, queue)[k];
    assert node == slab[queue[k]];
    assert node.next != NIL ==> (queue[o] == node.next <==> o == k + 1);
    assert node.prev != NIL ==> (queue[o] == node.prev <==> o == k - 1);
    hide Distinct, Cuttable, InSlab, Nodes;
  }

  lemma NodesUnlinked(slab: seq<SlabOrder>, queue: seq<nat>, k: nat)
    requires InSlab(slab, queue) && Distinct(queue) && k < |queue| && Cuttable(queue, Nodes(slab, queue), k)
    ensures NIL <= slab[queue[k]].next < |slab| && NIL <= slab[queue[k]].prev < |slab|
    ensures InSlab(Unlinked(slab, queue[k]), Without(queue, k))
    ensures Nodes(Unlinked(slab, queue[k]), Without(queue, k)) == Cut(Nodes(slab, queue), k)
  {
    var nodes := Nodes(slab, queue);
    assert nodes[k] == slab[queue[k]];
    var after := Unlinked(slab, queue[k]);
    var cut := Cut(nodes, k);
    CutAt(nodes, k);
    forall i: nat | i < |queue| - 1 ensures after[Without(queue, k)[i]] == cut[i] {
      hide Unlinked, Cut, Distinct, Cuttable;
      var o := if i < k then i else i + 1;
      assert Without(queue, k)[i] == queue[o];
      UnlinkedAt(slab, queue, k, o);
    }
  }

  // ---------- one side of a book, as values ----------

  ghost predicate SideChained(side: Side, slab: seq<SlabOrder>, queue: seq<nat>, levels: map<Price, LevelSlot>) {
    InSlab(slab, queue) && Chained(side, queue, Nodes(slab, queue), levels)
  }

  /** The orders at the slots of `queue`. */
  ghost function RestingIn(slab: seq<SlabOrder>, queue: seq<nat>): seq<BookOrder> {
    if InSlab(slab, queue) then Orders(Nodes(slab, queue)) else []
  }

  lemma RestingAt(slab: seq<SlabOrder>, queue: seq<nat>, i: nat)
    requires InSlab(slab, queue) && i < |queue|
    ensures |RestingIn(slab, queue)| == |queue| && RestingIn(slab, queue)[i] == slab[queue[i]].order
  {
  }

  /** The level after `slot` is linked at its back. */
  function Grown(level: LevelSlot, slot: nat): LevelSlot {
    LevelSlot(if level.tail == NIL then slot else level.head, slot)
  }

  function LevelIn(levels: map<Price, LevelSlot>, price: Price): LevelSlot {
    if price in levels then levels[price] else LevelSlot(NIL, NIL)
  }

  /** A side none of whose slots changed. */
  lemma SideKept(side: Side, slab: seq<SlabOrder>, slab': seq<SlabOrder>, queue: seq<nat>,
                 levels: map<Price, LevelSlot>)
    requires SideChained(side, slab, queue, levels) && |slab| <= |slab'|
    requires forall s: nat | s < |slab| && s in queue :: slab'[s] == slab[s]
    ensures SideChained(side, slab', queue, levels)
    ensures RestingIn(slab', queue) == RestingIn(slab, queue)
  {
    hide Chained;
    NodesKept(slab, slab', queue);
  }

  lemma TailInQueue(side: Side, slab: seq<SlabOrder>, queue: seq<nat>, levels: map<Price, LevelSlot>, price: Price,
                    k: nat)
    requires SideChained(side, slab, queue, levels) && k == BackOf(side, RestingIn(slab, queue), price)
    ensures k <= |queue| && NIL <= LevelIn(levels, price).tail < |slab|
    ensures LevelIn(levels, price).tail == NIL
         || (0 < k <= |queue| && LevelIn(levels, price).tail == queue[k - 1] && queue[k - 1] in queue)
  {
    var node := SlabOrder(BookOrder(0, 0, 0, price, 0, side, GTC), NIL, LevelIn(levels, price).tail);
    BackFits(side, queue, Nodes(slab, queue), levels, k, node);
    assert k > 0 ==> queue[k - 1] in queue;
  }

  /** Linking an acquired slot. */
  lemma LinkSide(side: Side, slab: seq<SlabOrder>, queue: seq<nat>, levels: map<Price, LevelSlot>, slot: nat, k: nat,
                 level: LevelSlot, slab': seq<SlabOrder>, queue': seq<nat>)
    requires SideChained(side, slab, queue, levels) && Distinct(queue)
    requires slot !in queue && slot < |slab| && slab[slot].order.side == side
    requires k == BackOf(side, RestingIn(slab, queue), slab[slot].order.price)
    requires level == LevelIn(levels, slab[slot].order.price) && NIL <= level.tail < |slab|
    requires slab' == LinkedBack(slab, level.tail, slot) && k <= |queue| && queue' == Put(queue, k, slot)
    ensures SideChained(side, slab', queue', levels[slab[slot].order.price := Grown(level, slot)])
    ensures RestingIn(slab', queue') == Insert(side, RestingIn(slab, queue), slab[slot].order)
  {
    hide Spliced, Insert, Put, LinkedBack, Distinct;
    var price := slab[slot].order.price;
    var nodes := Nodes(slab, queue);
    TailInQueue(side, slab, queue, levels, price, k);
    var node := SlabOrder(slab[slot].order, NIL, level.tail);
    SpliceChained(side, queue, nodes, levels, k, slot, node, Grown(level, slot).head);
    NodesLinked(slab, queue, slot, level.tail, k);
  }

  /** Linking touches the linked slot and the tail, and no order. */
  lemma LinkTouches(slab: seq<SlabOrder>, tail: int, slot: nat)
    requires slot < |slab| && NIL <= tail < |slab|
    ensures |LinkedBack(slab, tail, slot)| == |slab|
    ensures forall s: nat | s < |slab| :: LinkedBack(slab, tail, slot)[s].order == slab[s].order
    ensures forall s: nat | s < |slab| && s != slot && s != tail :: LinkedBack(slab, tail, slot)[s] == slab[s]
  {
  }

  /** Unlinking the slot at position `k`. */
  lemma UnlinkSide(side: Side, slab: seq<SlabOrder>, queue: seq<nat>, levels: map<Price, LevelSlot>, k: nat,
                   slot: nat, slab': seq<SlabOrder>, queue': seq<nat>)
    requires SideChained(side, slab, queue, levels) && Distinct(queue) && k < |queue| && slot == queue[k]
    requires slot < |slab| && NIL <= slab[slot].next < |slab| && NIL <= slab[slot].prev < |slab|
    requires slab' == Unlinked(slab, slot) && queue' == Without(queue, k)
    ensures slab[slot].order.price in levels
    ensures SideChained(side, slab', queue', CutLevels(levels, slab[slot]))
    ensures RestingIn(slab', queue') == Without(RestingIn(slab, queue), k)
  {
    hide Cut, Cuttable, CutLevels, Unlinked, Distinct;
    CutChained(side, queue, Nodes(slab, queue), levels, k);
    NodesUnlinked(slab, queue, k);
  }

  /** The links of a queued slot stay within the queue. */
  lemma LinksInQueue(side: Side, slab: seq<SlabOrder>, queue: seq<nat>, levels: map<Price, LevelSlot>, k: nat)
    requires SideChained(side, slab, queue, levels) && k < |queue|
    ensures InSlab(slab, queue) && |RestingIn(slab, queue)| == |queue|
    ensures var node := slab[queue[k]];
            && node.order.side == side && node.order.price in levels
            && NIL <= node.next < |slab| && NIL <= node.prev < |slab|
            && (node.next != NIL ==> node.next in queue) && (node.prev != NIL ==> node.prev in queue)
  {
    LinkedNode(queue, Nodes(slab, queue), k);
    assert Nodes(slab, queue)[k] == slab[queue[k]];
  }

  lemma UnlinkTouches(slab: seq<SlabOrder>, slot: nat)
    requires slot < |slab| && NIL <= slab[slot].next < |slab| && NIL <= slab[slot].prev < |slab|
    ensures |Unlinked(slab, slot)| == |slab|
    ensures forall s: nat | s < |slab| :: Unlinked(slab, slot)[s].order == slab[s].order
    ensures forall s: nat | s < |slab| && s != slab[slot].next && s != slab[slot].prev ::
              Unlinked(slab, slot)[s] == slab[s]
  {
  }

  lemma FreeNode(slab: seq<SlabOrder>, free: seq<nat>, head: int, i: nat)
    requires FreeChain(slab, free, head) && i < |free|
    ensures free[i] < |slab| && slab[free[i]].next == if i + 1 < |free| then free[i + 1] else NIL
  {
  }

  lemma FreePopped(slab: seq<SlabOrder>, free: seq<nat>, order: BookOrder, slab': seq<SlabOrder>, free': seq<nat>)
    requires free != [] && Distinct(free) && FreeChain(slab, free, free[0])
    requires slab' == slab[free[0] := slab[free[0]].(order := order)] && free' == free[1..]
    ensures FreeChain(slab', free', slab[free[0]].next)
  {
    forall i: nat | i < |free'| ensures slab'[free'[i]].next == if i + 1 < |free'| then free'[i + 1] else NIL {
      assert free'[i] == free[i + 1] != free[0];
      FreeNode(slab, free, free[0], i + 1);
    }
    FreeNode(slab, free, free[0], 0);
    assert |free| > 1 ==> free'[0] == free[1];
  }

  lemma FreePushed(slab: seq<SlabOrder>, free: seq<nat>, head: int, slot: nat)
    requires FreeChain(slab, free, head) && slot !in free && slot < |slab|
    ensures FreeChain(slab[slot := slab[slot].(next := head)], [slot] + free, slot)
  {
    var after := slab[slot := slab[slot].(next := head)];
    assert forall i | 0 <= i < |free| :: free[i] in free && after[free[i]] == slab[free[i]];
  }

  // ---------- editing an order in place ----------

  /** The same links, prices and sides. */
  ghost predicate Alike(nodes: seq<SlabOrder>, nodes': seq<SlabOrder>) {
    |nodes'| == |nodes| && forall i | 0 <= i < |nodes| ::
      && nodes'[i].next == nodes[i].next && nodes'[i].prev == nodes[i].prev
      && nodes'[i].order.price == nodes[i].order.price && nodes'[i].order.side == nodes[i].order.side
  }

  lemma AlikeLinked(queue: seq<nat>, nodes: seq<SlabOrder>, nodes': seq<SlabOrder>)
    requires Linked(queue, nodes) && Alike(nodes, nodes')
    ensures Linked(queue, nodes')
  {
    forall i: nat | i < |nodes'|
      ensures nodes'[i].next == if Joined(nodes', i + 1) then queue[i + 1] else NIL
      ensures nodes'[i].prev == if Joined(nodes', i) then queue[i - 1] else NIL
    {
      LinkedNode(queue, nodes, i);
    }
  }

  lemma AlikeEnded(queue: seq<nat>, nodes: seq<SlabOrder>, nodes': seq<SlabOrder>, levels: map<Price, LevelSlot>)
    requires Ended(queue, nodes, levels) && NoEmptyLevel(nodes, levels) && Alike(nodes, nodes')
    ensures Ended(queue, nodes', levels) && NoEmptyLevel(nodes', levels)
  {
    forall i: nat | i < |nodes'|
      ensures nodes'[i].order.price in levels
      ensures !Joined(nodes', i) ==> levels[nodes'[i].order.price].head == queue[i]
      ensures !Joined(nodes', i + 1) ==> levels[nodes'[i].order.price].tail == queue[i]
    {
      assert Joined(nodes', i) == Joined(nodes, i) && Joined(nodes', i + 1) == Joined(nodes, i + 1);
    }
    forall p | p in levels ensures exists i :: 0 <= i < |nodes'| && nodes'[i].order.price == p {
      var i :| 0 <= i < |nodes| && nodes[i].order.price == p;
      assert nodes'[i].order.price == p;
    }
  }

  lemma AlikeSorted(side: Side, nodes: seq<SlabOrder>, nodes': seq<SlabOrder>)
    requires Sorted(side, Orders(nodes)) && OnSide(side, nodes) && Alike(nodes, nodes')
    ensures Sorted(side, Orders(nodes')) && OnSide(side, nodes')
  {
    forall i, j | 0 <= i < j < |nodes'| ensures !Better(side, Orders(nodes')[j].price, Orders(nodes')[i].price) {
      SortedNodes(side, nodes, i, j);
    }
  }

  lemma SortedNodes(side: Side, nodes: seq<SlabOrder>, i: nat, j: nat)
    requires Sorted(side, Orders(nodes)) && i <= j < |nodes|
    ensures !Better(side, nodes[j].order.price, nodes[i].order.price)
  {
    assert Orders(nodes)[i] == nodes[i].order && Orders(nodes)[j] == nodes[j].order;
  }

  /** Editing an order, price and side apart, moves nothing. */
  lemma SideEdited(side: Side, slab: seq<SlabOrder>, queue: seq<nat>, levels: map<Price, LevelSlot>, k: nat,
                   slot: nat, order: BookOrder, slab': seq<SlabOrder>)
    requires SideChained(side, slab, queue, levels) && Distinct(queue) && k < |queue| && slot == queue[k]
    requires slot < |slab| && order.price == slab[slot].order.price && order.side == slab[slot].order.side
    requires slab' == slab[slot := slab[slot].(order := order)]
    ensures SideChained(side, slab', queue, levels)
    ensures RestingIn(slab', queue) == RestingIn(slab, queue)[k := order]
  {
    hide Linked, Ended, NoEmptyLevel, Sorted;
    var nodes, nodes' := Nodes(slab, queue), Nodes(slab', queue);
    AlikeLinked(queue, nodes, nodes');
    AlikeEnded(queue, nodes, nodes', levels);
    AlikeSorted(side, nodes, nodes');
  }

  // ---------- walking the levels ----------

  /** The best indexed price is the front order's, and its level starts at the front slot. */
  lemma BestIsFront(side: Side, slab: seq<SlabOrder>, queue: seq<nat>, levels: map<Price, LevelSlot>, best: Price)
    requires SideChained(side, slab, queue, levels)
    requires best in levels && forall p | p in levels :: !Better(side, p, best)
    ensures queue != [] && levels[best].head == queue[0] && slab[queue[0]].order.price == best
  {
    hide Linked, Sorted, Orders;
    var nodes := Nodes(slab, queue);
    var i: nat :| i < |nodes| && nodes[i].order.price == best;
    SortedNodes(side, nodes, 0, i);
    assert nodes[0].order.price in levels;
    assert nodes[0].order.price == best;
    JoinedEnds(nodes);
    assert nodes[0] == slab[queue[0]];
  }

  lemma EmptySide(side: Side, slab: seq<SlabOrder>, queue: seq<nat>, levels: map<Price, LevelSlot>)
    requires SideChained(side, slab, queue, levels)
    ensures levels == map[] <==> queue == []
    ensures InSlab(slab, queue) && |RestingIn(slab, queue)| == |queue|
  {
    hide Linked, Sorted;
    var nodes := Nodes(slab, queue);
    assert queue != [] ==> nodes[0].order.price in levels;
  }

  /** What NextPrice promises of its result. */
  ghost predicate IsNext(side: Side, levels: map<Price, LevelSlot>, price: Price, next: Option<Price>) {
    match next
    case Some(q) => q in levels && Better(side, price, q)
                    && forall p | p in levels && Better(side, price, p) :: !Better(side, p, q)
    case None => forall p | p in levels :: !Better(side, price, p)
  }

  /** Past the last node at `price` comes the head of the next level, or the end. */
  lemma NextIsAt(side: Side, slab: seq<SlabOrder>, queue: seq<nat>, levels: map<Price, LevelSlot>, i: nat,
                 price: Price, next: Option<Price>)
    requires SideChained(side, slab, queue, levels) && 0 < i <= |queue|
    requires slab[queue[i - 1]].order.price == price && (i < |queue| ==> slab[queue[i]].order.price != price)
    requires IsNext(side, levels, price, next)
    ensures next.None? <==> i == |queue|
    ensures next.Some? ==> slab[queue[i]].order.price == next.value && levels[next.value].head == queue[i]
  {
    hide Linked, Sorted, Orders;
    var nodes := Nodes(slab, queue);
    assert nodes[i - 1].order.price == price;
    if i < |queue| {
      SortedNodes(side, nodes, i - 1, i);
      assert nodes[i].order.price in levels && Better(side, price, nodes[i].order.price);
      assert !Joined(nodes, i);
    }
    if next.Some? {
      var j: nat :| j < |nodes| && nodes[j].order.price == next.value;
      if j < i {
        SortedNodes(side, nodes, j, i - 1);
        assert false;
      }
      SortedNodes(side, nodes, i, j);
    }
  }

  /** The next link stays on the level; off its end, the level is done. */
  lemma NextLink(side: Side, slab: seq<SlabOrder>, queue: seq<nat>, levels: map<Price, LevelSlot>, i: nat, price: Price)
    requires SideChained(side, slab, queue, levels) && i < |queue| && slab[queue[i]].order.price == price
    ensures price in levels
    ensures if slab[queue[i]].next == NIL then i + 1 == |queue| || slab[queue[i + 1]].order.price != price
            else i + 1 < |queue| && slab[queue[i]].next == queue[i + 1] && slab[queue[i + 1]].order.price == price
  {
    hide Sorted;
    var nodes := Nodes(slab, queue);
    LinkedNode(queue, nodes, i);
    assert nodes[i] == slab[queue[i]] && (i + 1 < |queue| ==> nodes[i + 1] == slab[queue[i + 1]]);
    assert i + 1 < |queue| ==> queue[i + 1] >= 0;
  }

  /** The order at each slot that is in a queue. */
  ghost function LiveOrders(slab: seq<SlabOrder>, bids: seq<nat>, asks: seq<nat>): map<nat, BookOrder> {
    map h: nat | h < |slab| && (h in bids || h in asks) :: slab[h].order
  }

  lemma LiveGrown(slab: seq<SlabOrder>, bids: seq<nat>, asks: seq<nat>, slab': seq<SlabOrder>, bids': seq<nat>,
                  asks': seq<nat>, handle: nat)
    requires handle < |slab'| && handle !in bids && handle !in asks
    requires forall s: nat :: s in bids' || s in asks' <==> s == handle || s in bids || s in asks
    requires forall s: nat | s in bids || s in asks :: s < |slab| && s < |slab'| && slab'[s].order == slab[s].order
    ensures handle !in LiveOrders(slab, bids, asks)
    ensures LiveOrders(slab', bids', asks') == LiveOrders(slab, bids, asks)[handle := slab'[handle].order]
  {
  }

  class MatchingBook {
    var slab: seq<SlabOrder>
    var liveCount: nat
    var freeHead: int
    const bids: SideIndex
    const asks: SideIndex
    ghost var bidQueue: seq<nat>
    ghost var askQueue: seq<nat>
    ghost var free: seq<nat>

    ghost function Repr(): set<object>
      reads this, bids, asks
    {
      {this} + bids.Repr() + asks.Repr()
    }

    function IndexOf(side: Side): SideIndex {
      if side == Buy then bids else asks
    }

    ghost function Queue(side: Side): seq<nat>
      reads this
    {
      if side == Buy then bidQueue else askQueue
    }

    /** Some order rests at this slot. */
    ghost predicate Live(slot: nat)
      reads this
    {
      slot in bidQueue || slot in askQueue
    }

    /** The order behind each live handle. */
    ghost function Handles(): map<nat, BookOrder>
      reads this
    {
      LiveOrders(slab, bidQueue, askQueue)
    }

    /** The handle of the order that matches next. */
    ghost function FrontHandle(side: Side): nat
      requires Resting(side) != []
      reads this
    {
      Queue(side)[0]
    }

    /** The two price indexes are sound and share nothing. */
    ghost predicate Indexed()
      reads this, bids, asks, bids.Repr(), asks.Repr()
    {
      && bids.side == Buy && asks.side == Sell
      && this !in bids.Repr() && this !in asks.Repr() && bids.Repr() !! asks.Repr()
      && bids.Valid() && asks.Valid()
    }

    ghost predicate Valid()
      reads this, bids, asks, bids.Repr(), asks.Repr()
    {
      && Indexed()
      && Partition(|slab|, bidQueue, askQueue, free)
      && FreeChain(slab, free, freeHead)
      && SideChained(Buy, slab, bidQueue, bids.levels)
      && SideChained(Sell, slab, askQueue, asks.levels)
      && liveCount == |bidQueue| + |askQueue|
    }

    /** One side as a price-time list: the abstract value of this class. */
    ghost function Resting(side: Side): seq<BookOrder>
      reads this
    {
      RestingIn(slab, Queue(side))
    }

    constructor (bandTicks: nat)
      requires BandWidth(bandTicks)
      ensures Valid() && fresh(Repr())
      ensures bidQueue == [] && askQueue == []
    {
      bids := new SideIndex(Buy, bandTicks);
      asks := new SideIndex(Sell, bandTicks);
      slab, liveCount, freeHead := [], 0, NIL;
      bidQueue, askQueue, free := [], [], [];
    }

    /** Takes a freed slot, or a new one. Its links mean nothing yet. */
    method AcquireSlot(order: BookOrder) returns (slot: nat)
      requires Valid()
      modifies this`slab, this`freeHead, this`free
      ensures |slab| >= |old(slab)| && slot < |slab| && slab[slot].order == order
      ensures slot !in bidQueue && slot !in askQueue
      ensures forall s: nat | s < |old(slab)| && s != slot :: slab[s] == old(slab)[s]
      ensures if old(free) == [] then slot == |old(slab)| && |slab| == slot + 1 && free == []
              else slot == old(free)[0] && |slab| == |old(slab)| && free == old(free)[1..]
      ensures slot !in free && FreeChain(slab, free, freeHead)
    {
      hide SideChained;
      if freeHead != NIL {
        slot := freeHead;
        TailMembers(free);
        FreePopped(slab, free, order, slab[slot := slab[slot].(order := order)], free[1..]);
        freeHead := slab[slot].next;
        slab := slab[slot := slab[slot].(order := order)];
        free := free[1..];
      } else {
        slot := |slab|;
        slab := slab + [SlabOrder(order, NIL, NIL)];
      }
    }

    method LinkBack(level: LevelSlot, slot: nat) returns (grown: LevelSlot)
      requires slot < |slab| && NIL <= level.tail < |slab|
      modifies this`slab
      ensures slab == LinkedBack(old(slab), level.tail, slot)
      ensures grown == Grown(level, slot)
    {
      slab := slab[slot := slab[slot].(next := NIL, prev := level.tail)];
      var head := level.head;
      if level.tail == NIL {
        head := slot;
      } else {
        slab := slab[level.tail := slab[level.tail].(next := slot)];
      }
      grown := LevelSlot(head, slot);
    }

    method Unlink(level: LevelSlot, slot: nat) returns (cut: LevelSlot)
      requires slot < |slab| && NIL <= slab[slot].next < |slab| && NIL <= slab[slot].prev < |slab|
      modifies this`slab
      ensures slab == Unlinked(old(slab), slot)
      ensures cut == CutLevel(old(slab)[slot], level)
    {
      var next, prev := slab[slot].next, slab[slot].prev;
      var head, tail := level.head, level.tail;
      if prev == NIL {
        head := next;
      } else {
        slab := slab[prev := slab[prev].(next := next)];
      }
      if next == NIL {
        tail := prev;
      } else {
        slab := slab[next := slab[next].(prev := prev)];
      }
      cut := LevelSlot(head, tail);
    }

    /** Links an acquired slot at the back of its price level, creating the level if need be. */
    method LinkInto(side: Side, slot: nat)
      requires Indexed() && slot < |slab| && slab[slot].order.side == side
      requires slot !in Queue(side) && Distinct(Queue(side))
      requires SideChained(side, slab, Queue(side), IndexOf(side).levels)
      modifies this`slab, IndexOf(side).Repr()
      ensures Indexed() && fresh(IndexOf(side).Repr() - old(IndexOf(side).Repr()))
      ensures IndexOf(Opposite(side)).levels == old(IndexOf(Opposite(side)).levels)
      ensures var k := BackOf(side, old(Resting(side)), old(slab)[slot].order.price);
              && k <= |Queue(side)|
              && SideChained(side, slab, Put(Queue(side), k, slot), IndexOf(side).levels)
              && RestingIn(slab, Put(Queue(side), k, slot)) == Insert(side, old(Resting(side)), old(slab)[slot].order)
      ensures |slab| == |old(slab)|
      ensures forall s: nat | s < |slab| :: slab[s].order == old(slab)[s].order
      ensures forall s: nat | s < |slab| && s != slot && s !in Queue(side) :: slab[s] == old(slab)[s]
    {
      hide SideChained, RestingIn, Insert, LinkedBack, Put, SideIndex.Valid, Grown, BackOf;
      var index := IndexOf(side);
      var price := slab[slot].order.price;
      ghost var was, levels, k := slab, index.levels, BackOf(side, Resting(side), price);
      TailInQueue(side, slab, Queue(side), levels, price, k);
      var level := index.LevelFor(price);
      var grown := LinkBack(level, slot);
      index.SetLevel(price, grown);
      assert index.levels == levels[price := grown];
      LinkTouches(was, level.tail, slot);
      LinkSide(side, was, Queue(side), levels, slot, k, level, slab, Put(Queue(side), k, slot));
    }

    /** The order joins the back of its price level, and nothing else moves. */
    method Add(order: BookOrder) returns (handle: nat)
      requires Valid()
      modifies Repr()
      ensures Valid() && fresh(Repr() - old(Repr()))
      ensures handle !in old(Handles()) && Handles() == old(Handles())[handle := order]
      ensures Resting(order.side) == Insert(order.side, old(Resting(order.side)), order)
      ensures Queue(order.side) ==
              Put(old(Queue(order.side)), BackOf(order.side, old(Resting(order.side)), order.price), handle)
      ensures Queue(Opposite(order.side)) == old(Queue(Opposite(order.side)))
      ensures Resting(Opposite(order.side)) == old(Resting(Opposite(order.side)))
      ensures liveCount == old(liveCount) + 1
    {
      hide SideChained, RestingIn, Insert, Put, SideIndex.Valid, Partition, FreeChain, BackOf, LiveOrders;
      var side := order.side;
      ghost var queue, other := Queue(side), Queue(Opposite(side));
      ghost var k := BackOf(side, Resting(side), order.price);
      PartitionApart(|slab|, bidQueue, askQueue, free);
      handle := AcquireSlot(order);
      ghost var acquired := slab;
      SideKept(side, old(slab), acquired, queue, IndexOf(side).levels);
      SideKept(Opposite(side), old(slab), acquired, other, IndexOf(Opposite(side)).levels);
      LinkInto(side, handle);
      SideKept(Opposite(side), acquired, slab, other, IndexOf(Opposite(side)).levels);
      FreeKept(acquired, slab, free, freeHead);
      liveCount := liveCount + 1;
      PutMembers(queue, k, handle);
      if side == Buy {
        PartitionPut(|old(slab)|, queue, other, old(free), k);
        bidQueue := Put(queue, k, handle);
      } else {
        PartitionSwap(|old(slab)|, other, queue, old(free));
        PartitionPut(|old(slab)|, queue, other, old(free), k);
        askQueue := Put(queue, k, handle);
        PartitionSwap(|slab|, askQueue, bidQueue, free);
      }
      LiveGrown(old(slab), old(bidQueue), old(askQueue), slab, bidQueue, askQueue, handle);
    }

    method ReleaseSlot(slot: nat)
      requires FreeChain(slab, free, freeHead) && slot !in free && slot < |slab|
      modifies this`slab, this`freeHead, this`free
      ensures FreeChain(slab, free, freeHead) && free == [slot] + old(free)
      ensures |slab| == |old(slab)| && slab[slot].order == old(slab)[slot].order
      ensures forall s: nat | s < |slab| && s != slot :: slab[s] == old(slab)[s]
    {
      FreePushed(slab, free, freeHead, slot);
      slab := slab[slot := slab[slot].(next := freeHead)];
      freeHead := slot;
      free := [slot] + free;
    }

    /** Unlinks a slot and writes its level back, or erases a level left empty. */
    method CutFrom(index: SideIndex, slot: nat)
      requires Indexed() && (index == bids || index == asks)
      requires slot < |slab| && NIL <= slab[slot].next < |slab| && NIL <= slab[slot].prev < |slab|
      requires slab[slot].order.price in index.levels
      modifies this`slab, index.Repr()
      ensures Indexed() && index.Repr() == old(index.Repr())
      ensures bids != index ==> bids.levels == old(bids.levels)
      ensures asks != index ==> asks.levels == old(asks.levels)
      ensures slab == Unlinked(old(slab), slot)
      ensures index.levels == CutLevels(old(index.levels), old(slab)[slot])
    {
      hide SideIndex.Valid, Unlinked;
      var price := slab[slot].order.price;
      var level := index.LevelAt(price);
      var cut := Unlink(level, slot);
      if cut.head == NIL {
        index.EraseLevel(price);
      } else {
        index.SetLevel(price, cut);
      }
    }

    /** Unlinks a resting slot from its level, erasing the level with its last order. */
    method UnlinkFrom(side: Side, slot: nat, ghost k: nat)
      requires Indexed() && k < |Queue(side)| && slot == Queue(side)[k] && Distinct(Queue(side))
      requires SideChained(side, slab, Queue(side), IndexOf(side).levels) && slot < |slab|
      modifies this`slab, IndexOf(side).Repr()
      ensures Indexed() && IndexOf(side).Repr() == old(IndexOf(side).Repr())
      ensures IndexOf(Opposite(side)).levels == old(IndexOf(Opposite(side)).levels)
      ensures SideChained(side, slab, Without(Queue(side), k), IndexOf(side).levels)
      ensures k < |old(Resting(side))|
      ensures RestingIn(slab, Without(Queue(side), k)) == Without(old(Resting(side)), k)
      ensures |slab| == |old(slab)|
      ensures forall s: nat | s < |slab| :: slab[s].order == old(slab)[s].order
      ensures forall s: nat | s < |slab| && s !in Queue(side) :: slab[s] == old(slab)[s]
    {
      hide SideChained, RestingIn, Unlinked, Without, SideIndex.Valid, Distinct, InSlab, CutLevels;
      ghost var was, queue, levels := slab, Queue(side), IndexOf(side).levels;
      LinksInQueue(side, slab, queue, levels, k);
      CutFrom(IndexOf(side), slot);
      UnlinkTouches(was, slot);
      UnlinkSide(side, was, queue, levels, k, slot, slab, Without(queue, k));
    }

    /** Unlinks the slot at position `k` and frees it. */
    method Drop(side: Side, slot: nat, ghost k: nat)
      requires Valid() && k < |Queue(side)| && slot == Queue(side)[k] && slot < |slab|
      modifies Repr()
      ensures Valid() && Repr() == old(Repr())
      ensures Queue(side) == Without(old(Queue(side)), k) && Resting(side) == Without(old(Resting(side)), k)
      ensures Queue(Opposite(side)) == old(Queue(Opposite(side)))
      ensures Resting(Opposite(side)) == old(Resting(Opposite(side)))
      ensures !Live(slot) && forall s: nat :: Live(s) <==> s != slot && old(Live(s))
      ensures |slab| == |old(slab)| && forall s: nat | s < |slab| :: slab[s].order == old(slab)[s].order
      ensures liveCount == old(liveCount) - 1
    {
      hide SideChained, RestingIn, Without, SideIndex.Valid, Partition, FreeChain;
      ghost var queue, other := Queue(side), Queue(Opposite(side));
      PartitionApart(|slab|, bidQueue, askQueue, free);
      UnlinkFrom(side, slot, k);
      ghost var unlinked := slab;
      SideKept(Opposite(side), old(slab), unlinked, other, IndexOf(Opposite(side)).levels);
      FreeKept(old(slab), unlinked, free, freeHead);
      ReleaseSlot(slot);
      WithoutMembers(queue, k);
      SideKept(side, unlinked, slab, Without(queue, k), IndexOf(side).levels);
      SideKept(Opposite(side), unlinked, slab, other, IndexOf(Opposite(side)).levels);
      liveCount := liveCount - 1;
      if side == Buy {
        PartitionWithout(|slab|, queue, other, old(free), k);
        bidQueue := Without(queue, k);
      } else {
        PartitionSwap(|slab|, other, queue, old(free));
        PartitionWithout(|slab|, queue, other, old(free), k);
        askQueue := Without(queue, k);
        PartitionSwap(|slab|, askQueue, bidQueue, free);
      }
    }

    /** Removes the order this handle locates, wherever it stands, and returns it. */
    method RemoveAt(handle: nat) returns (removed: BookOrder, ghost k: nat)
      requires Valid() && Live(handle)
      modifies Repr()
      ensures Valid() && Repr() == old(Repr())
      ensures handle < |old(slab)| && removed == old(slab)[handle].order
      ensures k < |old(Queue(removed.side))| && old(Queue(removed.side))[k] == handle
      ensures Queue(removed.side) == Without(old(Queue(removed.side)), k)
      ensures Resting(removed.side) == Without(old(Resting(removed.side)), k)
      ensures Queue(Opposite(removed.side)) == old(Queue(Opposite(removed.side)))
      ensures Resting(Opposite(removed.side)) == old(Resting(Opposite(removed.side)))
      ensures k < |old(Resting(removed.side))| && old(Resting(removed.side))[k] == removed
      ensures handle in old(Handles()) && old(Handles())[handle] == removed && Handles() == old(Handles()) - {handle}
      ensures liveCount == old(liveCount) - 1
    {
      hide SideChained, RestingIn, SideIndex.Valid, Partition, FreeChain;
      k := Locate(handle);
      removed := slab[handle].order;
      Drop(removed.side, handle, k);
    }

    /** Where a live handle stands, and on which side. */
    lemma Locate(handle: nat) returns (k: nat)
      requires Valid() && Live(handle)
      ensures handle < |slab|
      ensures k < |Queue(slab[handle].order.side)| && Queue(slab[handle].order.side)[k] == handle
      ensures |Resting(slab[handle].order.side)| == |Queue(slab[handle].order.side)|
      ensures Resting(slab[handle].order.side)[k] == slab[handle].order
    {
      hide SideIndex.Valid, FreeChain, Partition, RestingIn;
      var side := if handle in bidQueue then Buy else Sell;
      var queue := Queue(side);
      k :| 0 <= k < |queue| && queue[k] == handle;
      LinksInQueue(side, slab, queue, IndexOf(side).levels, k);
      RestingAt(slab, queue, k);
    }

    /** A slot stands at one place of a queue. */
    lemma OnePlace(side: Side, j: nat, k: nat)
      requires Valid() && j < |Queue(side)| && k < |Queue(side)| && Queue(side)[j] == Queue(side)[k]
      ensures j == k
    {
      hide SideIndex.Valid, FreeChain, SideChained;
    }

    function At(handle: nat): BookOrder
      requires handle < |slab|
      reads this
    {
      slab[handle].order
    }

    /** Rewrites a live order where it stands, price and side apart. */
    method Edit(handle: nat, order: BookOrder) returns (ghost k: nat)
      requires Valid() && Live(handle)
      requires handle < |slab| ==> order.price == slab[handle].order.price && order.side == slab[handle].order.side
      modifies this`slab
      ensures Valid() && Repr() == old(Repr())
      ensures k < |Queue(order.side)| && Queue(order.side)[k] == handle
      ensures Resting(order.side) == old(Resting(order.side))[k := order]
      ensures Resting(Opposite(order.side)) == old(Resting(Opposite(order.side)))
      ensures handle < |old(slab)| && slab == old(slab)[handle := old(slab)[handle].(order := order)]
    {
      hide SideChained, RestingIn, SideIndex.Valid, Partition, FreeChain;
      k := Locate(handle);
      PartitionApart(|slab|, bidQueue, askQueue, free);
      var side := order.side;
      ghost var was := slab;
      slab := slab[handle := slab[handle].(order := order)];
      SideEdited(side, was, Queue(side), IndexOf(side).levels, k, handle, order, slab);
      SideKept(Opposite(side), was, slab, Queue(Opposite(side)), IndexOf(Opposite(side)).levels);
      FreeKept(was, slab, free, freeHead);
    }

    /** A smaller quantity, in the same place of the same queue. */
    method ReduceAt(handle: nat, newRemaining: Quantity) returns (ghost k: nat)
      requires Valid() && Live(handle)
      modifies this`slab
      ensures Valid() && Repr() == old(Repr())
      ensures handle < |old(slab)|
      ensures var order := old(slab)[handle].order.(remaining := newRemaining);
              && k < |Queue(order.side)| && Queue(order.side)[k] == handle
              && Resting(order.side) == old(Resting(order.side))[k := order]
              && Resting(Opposite(order.side)) == old(Resting(Opposite(order.side)))
              && slab == old(slab)[handle := old(slab)[handle].(order := order)]
              && handle in old(Handles()) && Handles() == old(Handles())[handle := order]
    {
      hide SideChained, RestingIn, SideIndex.Valid, Partition, FreeChain;
      k := Locate(handle);
      k := Edit(handle, slab[handle].order.(remaining := newRemaining));
    }

    method SetClientOrderIdAt(handle: nat, newClientOrderId: ClientOrderId) returns (ghost k: nat)
      requires Valid() && Live(handle)
      modifies this`slab
      ensures Valid() && Repr() == old(Repr())
      ensures handle < |old(slab)|
      ensures var order := old(slab)[handle].order.(clientOrderId := newClientOrderId);
              && k < |Queue(order.side)| && Queue(order.side)[k] == handle
              && Resting(order.side) == old(Resting(order.side))[k := order]
              && Resting(Opposite(order.side)) == old(Resting(Opposite(order.side)))
              && slab == old(slab)[handle := old(slab)[handle].(order := order)]
              && handle in old(Handles()) && Handles() == old(Handles())[handle := order]
    {
      hide SideChained, RestingIn, SideIndex.Valid, Partition, FreeChain;
      k := Locate(handle);
      k := Edit(handle, slab[handle].order.(clientOrderId := newClientOrderId));
    }

    /** The slot at the front of the best level, or NIL when the side is empty. */
    method FrontSlot(side: Side) returns (slot: int)
      requires Valid()
      ensures if Queue(side) == [] then slot == NIL else slot == Queue(side)[0] && 0 <= slot < |slab|
      ensures |Resting(side)| == |Queue(side)|
      ensures Queue(side) != [] ==> Live(slot) && slab[slot].order == Resting(side)[0] && slab[slot].order.side == side
    {
      hide SideChained, SideIndex.Valid, Partition, FreeChain, RestingIn;
      var index := IndexOf(side);
      EmptySide(side, slab, Queue(side), index.levels);
      var empty := index.Empty();
      if empty {
        return NIL;
      }
      var price := index.BestPrice();
      BestIsFront(side, slab, Queue(side), index.levels, price);
      var level := index.LevelAt(price);
      slot := level.head;
      LinksInQueue(side, slab, Queue(side), index.levels, 0);
      assert Queue(side)[0] in Queue(side);
      RestingAt(slab, Queue(side), 0);
    }

    /** The order that matches next on this side. */
    method FrontOfBest(side: Side) returns (front: Option<BookOrder>)
      requires Valid()
      ensures front == if Resting(side) == [] then None else Some(Resting(side)[0])
    {
      hide RestingIn, SideChained, SideIndex.Valid, Partition;
      var slot := FrontSlot(side);
      front := if slot == NIL then None else Some(slab[slot].order);
    }

    method ReduceFront(side: Side, newRemaining: Quantity)
      requires Valid() && Resting(side) != []
      modifies this`slab
      ensures Valid() && Repr() == old(Repr())
      ensures Resting(side) == old(Resting(side))[0 := old(Resting(side))[0].(remaining := newRemaining)]
      ensures Resting(Opposite(side)) == old(Resting(Opposite(side)))
      ensures bidQueue == old(bidQueue) && askQueue == old(askQueue)
      ensures var handle := old(FrontHandle(side));
              && handle in old(Handles()) && old(Handles())[handle] == old(Resting(side))[0]
              && Handles() == old(Handles())[handle := old(Resting(side))[0].(remaining := newRemaining)]
    {
      hide RestingIn, SideChained, SideIndex.Valid, FreeChain;
      var slot := FrontSlot(side);
      PartitionApart(|slab|, bidQueue, askQueue, free);
      ghost var k := ReduceAt(slot, newRemaining);
    }

    /** Removes the order that matches next; its handle dies with it. */
    method RemoveFront(side: Side) returns (ghost slot: nat)
      requires Valid() && Resting(side) != []
      modifies Repr()
      ensures Valid() && Repr() == old(Repr())
      ensures old(Queue(side)) != [] && slot == old(Queue(side))[0] && old(Live(slot))
      ensures Queue(side) == old(Queue(side))[1..] && Resting(side) == old(Resting(side))[1..]
      ensures Queue(Opposite(side)) == old(Queue(Opposite(side)))
      ensures Resting(Opposite(side)) == old(Resting(Opposite(side)))
      ensures slot < |old(slab)| && old(slab)[slot].order == old(Resting(side))[0]
      ensures slot in old(Handles()) && old(Handles())[slot] == old(Resting(side))[0]
              && Handles() == old(Handles()) - {slot}
      ensures liveCount == old(liveCount) - 1
    {
      hide RestingIn, SideChained, SideIndex.Valid, FreeChain, Partition;
      var front := FrontSlot(side);
      slot := front;
      Drop(side, front, 0);
    }

    /** The best price of a side, when it has one. */
    method Best(side: Side) returns (r: Option<Price>)
      requires Valid()
      ensures r == if Resting(side) == [] then None else Some(Resting(side)[0].price)
    {
      hide RestingIn, SideChained, SideIndex.Valid, FreeChain, Partition;
      var front := FrontOfBest(side);
      r := if front == None then None else Some(front.value.price);
    }

    /** The walk from level to level: the first price of a side, where `queue` position 0 stands. */
    method FirstLevel(side: Side) returns (price: Option<Price>)
      requires Valid()
      ensures InSlab(slab, Queue(side)) && |Resting(side)| == |Queue(side)|
      ensures price.None? <==> Queue(side) == []
      ensures price.Some? ==> slab[Queue(side)[0]].order.price == price.value
                              && price.value in IndexOf(side).levels
                              && IndexOf(side).levels[price.value].head == Queue(side)[0]
    {
      hide SideChained, SideIndex.Valid, Partition, FreeChain, RestingIn;
      var index := IndexOf(side);
      EmptySide(side, slab, Queue(side), index.levels);
      var empty := index.Empty();
      if empty {
        return None;
      }
      var best := index.BestPrice();
      BestIsFront(side, slab, Queue(side), index.levels, best);
      price := Some(best);
    }

    /** The walk from level to level: past the level that ends before position `i`. */
    method NextLevel(side: Side, price: Price, ghost i: nat) returns (next: Option<Price>)
      requires Valid() && InSlab(slab, Queue(side)) && 0 < i <= |Queue(side)|
      requires slab[Queue(side)[i - 1]].order.price == price
      requires i < |Queue(side)| ==> slab[Queue(side)[i]].order.price != price
      ensures next.None? <==> i == |Queue(side)|
      ensures next.Some? ==> slab[Queue(side)[i]].order.price == next.value
                             && next.value in IndexOf(side).levels
                             && IndexOf(side).levels[next.value].head == Queue(side)[i]
    {
      hide SideChained, SideIndex.Valid, Partition, FreeChain, RestingIn;
      next := IndexOf(side).NextPrice(price);
      NextIsAt(side, slab, Queue(side), IndexOf(side).levels, i, price, next);
    }

    /** Every resting order of one side, by price priority and then arrival. */
    method AllOf(side: Side) returns (result: seq<BookOrder>)
      requires Valid()
      ensures result == Resting(side)
    {
      hide SideChained, SideIndex.Valid, Partition, FreeChain, RestingIn;
      result := [];
      var levelPrice := FirstLevel(side);
      ghost var i: nat := 0;
      ghost var queue, levels := Queue(side), IndexOf(side).levels;
      while levelPrice.Some?
        invariant i <= |queue| && result == Resting(side)[..i]
        invariant levelPrice.None? <==> i == |queue|
        invariant levelPrice.Some? ==> slab[queue[i]].order.price == levelPrice.value
                                       && levelPrice.value in levels && levels[levelPrice.value].head == queue[i]
        decreases |queue| - i
      {
        var level := IndexOf(side).LevelAt(levelPrice.value);
        var slot := level.head;
        ghost var start := i;
        while slot != NIL
          invariant start <= i <= |queue| && result == Resting(side)[..i]
          invariant start < i || slot != NIL
          invariant i > 0 && slot == NIL ==> slab[queue[i - 1]].order.price == levelPrice.value
          invariant slot != NIL ==> i < |queue| && slot == queue[i] && slab[queue[i]].order.price == levelPrice.value
          invariant slot == NIL && i < |queue| ==> slab[queue[i]].order.price != levelPrice.value
          decreases |queue| - i
        {
          RestingAt(slab, queue, i);
          NextLink(side, slab, queue, levels, i, levelPrice.value);
          result := result + [slab[slot].order];
          slot := slab[slot].next;
          i := i + 1;
        }
        levelPrice := NextLevel(side, levelPrice.value, i);
      }
    }

    /** FOK's pre-check: stops at the first level that does not cross, or once `quantity` is covered. */
    method CrossableQuantity(side: Side, price: Price, quantity: Quantity) returns (total: Quantity)
      requires Valid()
      ensures total == CrossableFrom(side, Resting(side), price, quantity, 0)
    {
      hide SideChained, SideIndex.Valid, Partition, FreeChain, RestingIn;
      total := 0;
      var levelPrice := FirstLevel(side);
      ghost var i: nat := 0;
      ghost var queue, levels, orders := Queue(side), IndexOf(side).levels, Resting(side);
      assert orders[0..] == orders;
      while levelPrice.Some?
        invariant i <= |queue| && |orders| == |queue|
        invariant levelPrice.None? <==> i == |queue|
        invariant levelPrice.Some? ==> slab[queue[i]].order.price == levelPrice.value
                                       && levelPrice.value in levels && levels[levelPrice.value].head == queue[i]
        invariant CrossableFrom(side, orders, price, quantity, 0) ==
                  CrossableFrom(side, orders[i..], price, quantity, total)
        decreases |queue| - i
      {
        RestingAt(slab, queue, i);
        if Better(side, price, levelPrice.value) {
          return;
        }
        var level := IndexOf(side).LevelAt(levelPrice.value);
        var slot := level.head;
        ghost var start := i;
        while slot != NIL
          invariant start <= i <= |queue|
          invariant start < i || slot != NIL
          invariant i > 0 && slot == NIL ==> slab[queue[i - 1]].order.price == levelPrice.value
          invariant slot != NIL ==> i < |queue| && slot == queue[i] && slab[queue[i]].order.price == levelPrice.value
          invariant slot == NIL && i < |queue| ==> slab[queue[i]].order.price != levelPrice.value
          invariant CrossableFrom(side, orders, price, quantity, 0) ==
                    CrossableFrom(side, orders[i..], price, quantity, total)
          decreases |queue| - i
        {
          RestingAt(slab, queue, i);
          NextLink(side, slab, queue, levels, i, levelPrice.value);
          assert orders[i..][0] == orders[i] && orders[i..][1..] == orders[i + 1..];
          total := total + slab[slot].order.remaining;
          if total >= quantity {
            return;
          }
          slot := slab[slot].next;
          i := i + 1;
        }
        levelPrice := NextLevel(side, levelPrice.value, i);
      }
    }
  }
}
