/** Snapshots of all books as bytes (snapshot.cpp): a header and one add message for each resting
    order, and reading one back. */
module Snapshot {
  import opened Domain
  import opened PriceTime
  import opened TraderSpec
  import opened BookManagers
  import opened BookEquivalence
  import opened BookRegistry
  import opened TraderBooks
  import opened ByteIo
  import opened Codec
  import opened Framing
  import P = Protocol

  const SNAPSHOT_MAGIC: nat := 0x4D444832
  const SNAPSHOT_VERSION: nat := 1
  const SNAPSHOT_HEADER_SIZE: nat := 24

  /** magic, version, reserved, sequence number, entry count. */
  const SNAPSHOT_WIDTHS: seq<nat> := [4, 2, 2, 8, 8]

  lemma SnapshotWidths()
    ensures Sum(SNAPSHOT_WIDTHS) == SNAPSHOT_HEADER_SIZE
  {
    assert SNAPSHOT_WIDTHS[1..] == [2, 2, 8, 8] && [2, 2, 8, 8][1..] == [2, 8, 8] && [2, 8, 8][1..] == [8, 8];
    assert [8, 8][1..] == [8] && [8][1..] == [];
  }

  // ---------- what is written ----------

  function EntryOf(sequence: nat, i: InstrumentId, o: Arrival): P.Event {
    P.AddOrder(sequence, 0, o.id, i, o.price, o.quantity, o.side)
  }

  function SideEntries(sequence: nat, i: InstrumentId, orders: seq<Arrival>): seq<P.Event> {
    seq(|orders|, k requires 0 <= k < |orders| => EntryOf(sequence, i, orders[k]))
  }

  /** A book as a list of its sides. */
  function Stacked(list: seq<Arrival>): seq<Arrival> {
    Arranged(Buy, list) + Arranged(Sell, list)
  }

  /** The entries of these instruments, bids before asks. */
  function Entries(sequence: nat, b: Books, ids: seq<InstrumentId>): seq<P.Event> {
    if ids == [] then []
    else SideEntries(sequence, ids[0], Stacked(ListOf(b, ids[0]))) + Entries(sequence, b, ids[1..])
  }

  /** Every instrument that has had an order or a trade, in ascending order. */
  ghost predicate Listing(b: Books, ids: seq<InstrumentId>) {
    && (forall i: InstrumentId :: i in ids <==> i in b.books || i in b.stats)
    && (forall j, k | 0 <= j < k < |ids| :: ids[j] < ids[k])
  }

  /** The lowest of some ids. */
  method LeastOf(ids: set<InstrumentId>) returns (least: InstrumentId)
    requires ids != {}
    ensures least in ids && forall i | i in ids :: least <= i
  {
    least :| least in ids;
    var rest := ids - {least};
    while rest != {}
      invariant least in ids && rest <= ids
      invariant forall i | i in ids && i !in rest :: least <= i
    {
      var i :| i in rest;
      rest := rest - {i};
      if i < least {
        least := i;
      }
    }
  }

  /** All instrument ids seen so far, ascending. */
  method Instruments(manager: BookManager) returns (ids: seq<InstrumentId>)
    requires manager.Valid()
    ensures Listing(manager.State(), ids)
  {
    hide Keeps, Apart;
    var left := manager.books.Keys + manager.stats.Keys;
    ids := [];
    ghost var b := manager.State();
    while left != {}
      invariant forall i: InstrumentId :: i in ids || i in left <==> i in b.books || i in b.stats
      invariant forall j, k | 0 <= j < k < |ids| :: ids[j] < ids[k]
      invariant forall k, i | 0 <= k < |ids| && i in left :: ids[k] < i
      decreases left
    {
      var i := LeastOf(left);
      left := left - {i};
      ids := ids + [i];
    }
  }

  /** Every number fits its field. */
  ghost predicate Encodable(b: Books) {
    forall i | i in b.books ::
      i < 0x1_0000_0000 && forall k | 0 <= k < |b.books[i]| ::
        b.books[i][k].id < WHOLE && b.books[i][k].quantity < WHOLE
  }

  /** The bytes of a snapshot with these entries. */
  ghost function Bytes(sequence: nat, entries: seq<P.Event>): ByteIo.Bytes
    requires sequence < WHOLE && |entries| < WHOLE && AllFit(entries)
  {
    Widths();
    PutAll([SNAPSHOT_MAGIC, SNAPSHOT_VERSION, 0, sequence, |entries|], SNAPSHOT_WIDTHS) + Frames(entries)
  }

  // ---------- what is read ----------

  datatype Loaded = Loaded(sequenceNumber: nat, books: Books)

  /** So many add messages, applied as they are read; anything else, or a book error, fails. */
  function LoadEntries(data: ByteIo.Bytes, count: nat, books: Books): Option<Books>
    decreases count
  {
    if count == 0 then Some(books)
    else if |data| < HEADER_SIZE then None
    else
      match DecodeHeader(data[..HEADER_SIZE])
      case Err(_) => None
      case Ok(h) =>
        if h.kind != 1 || |data| - HEADER_SIZE < h.payloadSize then None
        else
          match DecodeEvent(data[..HEADER_SIZE + h.payloadSize])
          case Err(_) => None
          case Ok(e) =>
            var applied := ApplyEvent(books, e);
            if applied.errors != 0 then None
            else LoadEntries(data[HEADER_SIZE + h.payloadSize..], count - 1, applied.books)
  }

  function Load(data: ByteIo.Bytes): Option<Loaded> {
    if |data| < SNAPSHOT_HEADER_SIZE then None
    else
      SnapshotWidths();
      var h := GetAll(data, SNAPSHOT_WIDTHS);
      if h[0] != SNAPSHOT_MAGIC || h[1] != SNAPSHOT_VERSION || h[2] != 0 then None
      else
        match LoadEntries(data[SNAPSHOT_HEADER_SIZE..], h[4], NoBooks)
        case None => None
        case Some(books) => Some(Loaded(h[3], books))
  }

  /** A snapshot of these books, in a file. */
  ghost predicate SnapshotOf(file: ByteIo.Bytes, number: nat, b: Books) {
    exists ids ::
      && Listing(b, ids) && number < WHOLE && OrderCount(b, ids) < WHOLE && AllFit(Entries(number, b, ids))
      && |Entries(number, b, ids)| < WHOLE
      && file == Bytes(number, Entries(number, b, ids))
  }

  // ---------- reading what was written ----------

  ghost predicate AllAdds(entries: seq<P.Event>) {
    forall i | 0 <= i < |entries| :: entries[i].AddOrder?
  }

  /** Frames of add messages load by applying them. */
  lemma {:induction false} LoadFrames(entries: seq<P.Event>, rest: ByteIo.Bytes, books: Books)
    requires AllFit(entries) && AllAdds(entries) && ApplyEvents(books, entries).errors == 0
    ensures LoadEntries(Frames(entries) + rest, |entries|, books) == Some(ApplyEvents(books, entries).books)
    decreases |entries|
  {
    hide EncodeEvent, DecodeHeader, DecodeEvent, ApplyEvent;
    if entries != [] {
      var e, tail := entries[0], Frames(entries[1..]) + rest;
      var data, n := EncodeEvent(e) + tail, |EncodeEvent(e)|;
      assert Frames(entries) + rest == data;
      FrameInFront(e, tail);
      EncodedHeader(e, tail);
      LoadFrames(entries[1..], rest, ApplyEvent(books, e).books);
    }
  }

  /** Adding new orders to a book puts them behind what is there. */
  lemma {:induction false} AddAll(b: Books, sequence: nat, i: InstrumentId, orders: seq<Arrival>)
    requires Proper(ListOf(b, i) + orders)
    ensures ApplyEvents(b, SideEntries(sequence, i, orders)) ==
            Applied(if orders == [] then b else b.(books := b.books[i := ListOf(b, i) + orders]), 0)
    decreases |orders|
  {
    if orders != [] {
      var o, list := orders[0], ListOf(b, i);
      assert (list + orders)[|list|] == o;
      NotYet(list, orders);
      var entries := SideEntries(sequence, i, orders);
      var b1 := b.(books := b.books[i := list + [o]]);
      assert ApplyEvent(b, entries[0]) == Applied(b1, 0);
      assert entries[1..] == SideEntries(sequence, i, orders[1..]);
      assert list + [o] + orders[1..] == list + orders;
      AddAll(b1, sequence, i, orders[1..]);
      hide ApplyEvent, Proper, SideEntries;
      assert b1.books[i := list + orders] == b.books[i := list + orders];
      assert orders[1..] == [] ==> [o] == orders;
      assert ApplyEvents(b, entries) == ApplyEvents(b1, entries[1..]).(errors := 0);
    }
  }

  lemma NotYet(list: seq<Arrival>, orders: seq<Arrival>)
    requires Proper(list + orders) && orders != []
    ensures !Has(list, orders[0].id)
  {
    var all := list + orders;
    assert all[|list|] == orders[0];
    assert forall j | 0 <= j < |list| :: all[j] == list[j];
  }

  // ---------- taking a book down loses nothing ----------

  lemma ArrangedNext(side: Side, front: seq<Arrival>, last: Arrival)
    ensures multiset(Arranged(side, front + [last])) ==
            if last.side == side then multiset(Arranged(side, front)) + multiset{last}
            else multiset(Arranged(side, front))
  {
    assert (front + [last])[..|front|] == front;
    var sorted := Arranged(side, front);
    var k := TraderSpec.Behind(side, sorted, last.price);
    assert sorted == sorted[..k] + sorted[k..];
  }

  lemma ArrangedNone()
    ensures multiset(Arranged(Buy, [])) + multiset(Arranged(Sell, [])) == multiset{}
  {
  }

  lemma {:induction false} ArrangedBag(list: seq<Arrival>)
    ensures multiset(Arranged(Buy, list)) + multiset(Arranged(Sell, list)) == multiset(list)
  {
    hide Arranged;
    if list == [] {
      ArrangedNone();
    } else {
      var front, last := list[..|list| - 1], list[|list| - 1];
      ArrangedBag(front);
      ArrangedNext(Buy, front, last);
      ArrangedNext(Sell, front, last);
      assert list == front + [last];
      OneMore(multiset(Arranged(Buy, front)), multiset(Arranged(Sell, front)), multiset(front), last);
    }
  }

  lemma OneMore(bids: multiset<Arrival>, asks: multiset<Arrival>, all: multiset<Arrival>, o: Arrival)
    requires bids + asks == all
    ensures bids + multiset{o} + asks == all + multiset{o} == bids + (asks + multiset{o})
  {
  }

  lemma StackedBag(list: seq<Arrival>)
    ensures multiset(Stacked(list)) == multiset(list) && |Stacked(list)| == |list|
  {
    ArrangedBag(list);
    hide Arranged;
    assert |multiset(Stacked(list))| == |multiset(list)|;
  }

  lemma BagHas(a: seq<Arrival>, b: seq<Arrival>, id: OrderId)
    requires multiset(a) == multiset(b)
    ensures Has(a, id) ==> Has(b, id)
  {
    if Has(a, id) {
      var o := a[Place(a, id)];
      assert o in multiset(b);
      assert o in b;
    }
  }

  /** Being proper is a matter of the bag. */
  lemma {:induction false} ProperBag(a: seq<Arrival>, b: seq<Arrival>)
    requires Proper(a) && multiset(a) == multiset(b)
    ensures Proper(b)
    decreases |b|
  {
    if b == [] {
      EmptyProper();
    } else {
      var last, front := b[|b| - 1], b[..|b| - 1];
      assert b == front + [last];
      assert last in multiset(a);
      var k :| 0 <= k < |a| && a[k] == last;
      assert last.price > 0 && last.quantity > 0;
      hide Proper, Place, Without;
      WithoutBag(a, k);
      WithoutProper(a, k);
      assert multiset(front) == multiset(b) - multiset{last};
      ProperBag(Without(a, k), front);
      BagHas(front, Without(a, k), last.id);
      AppendProper(front, last);
    }
  }

  lemma WithoutBag(list: seq<Arrival>, k: nat)
    requires k < |list|
    ensures multiset(Without(list, k)) == multiset(list) - multiset{list[k]}
  {
    assert list == list[..k] + [list[k]] + list[k + 1..];
  }

  lemma StackedProper(list: seq<Arrival>)
    requires Proper(list)
    ensures Proper(Stacked(list))
  {
    StackedBag(list);
    ProperBag(list, Stacked(list));
  }

  // ---------- all books ----------

  ghost predicate DistinctIds(ids: seq<InstrumentId>) {
    forall j, k | 0 <= j < k < |ids| :: ids[j] != ids[k]
  }

  /** What loading the entries of these instruments makes of the books so far. */
  ghost predicate Restored(b: Books, ids: seq<InstrumentId>, before: Books, after: Books) {
    && (forall i: InstrumentId :: ListOf(after, i) == if i in ids then Stacked(ListOf(b, i)) else ListOf(before, i))
    && (forall i: InstrumentId :: i in after.books <==> i in before.books || (i in ids && ListOf(b, i) != []))
    && after.stats == before.stats
  }

  lemma OneRestored(b: Books, i: InstrumentId, before: Books, after: Books)
    requires i !in before.books
    requires after == if Stacked(ListOf(b, i)) == [] then before
                      else before.(books := before.books[i := Stacked(ListOf(b, i))])
    ensures Restored(b, [i], before, after)
  {
    StackedBag(ListOf(b, i));
    hide Stacked;
  }

  lemma {:induction false} EntriesApply(b: Books, sequence: nat, ids: seq<InstrumentId>, before: Books)
    requires AllProper(b) && DistinctIds(ids) && forall k | 0 <= k < |ids| :: ids[k] !in before.books
    ensures var applied := ApplyEvents(before, Entries(sequence, b, ids));
            applied.errors == 0 && Restored(b, ids, before, applied.books)
    decreases |ids|
  {
    hide Stacked, Proper, ApplyEvents, SideEntries;
    if ids == [] {
      NoneRestored(b, sequence, before);
    } else {
      var i := ids[0];
      var list := Stacked(ListOf(b, i));
      FirstApplies(b, sequence, i, before);
      var entries, rest := SideEntries(sequence, i, list), Entries(sequence, b, ids[1..]);
      var mid := ApplyEvents(before, entries).books;
      ApplyConcat(before, entries, rest);
      EntriesApply(b, sequence, ids[1..], mid);
      RestoredNext(b, ids, before, mid, ApplyEvents(mid, rest).books);
    }
  }

  lemma NoneRestored(b: Books, sequence: nat, before: Books)
    ensures ApplyEvents(before, Entries(sequence, b, [])) == Applied(before, 0) && Restored(b, [], before, before)
  {
  }

  /** One instrument's entries. */
  lemma FirstApplies(b: Books, sequence: nat, i: InstrumentId, before: Books)
    requires AllProper(b) && i !in before.books
    ensures var applied := ApplyEvents(before, SideEntries(sequence, i, Stacked(ListOf(b, i))));
            && applied.errors == 0 && Restored(b, [i], before, applied.books)
            && forall j: InstrumentId | j != i :: j in applied.books.books <==> j in before.books
  {
    hide Stacked, ApplyEvents, SideEntries, Proper;
    var list := Stacked(ListOf(b, i));
    EmptyProper();
    StackedProper(ListOf(b, i));
    assert ListOf(before, i) + list == list;
    AddAll(before, sequence, i, list);
    OneRestored(b, i, before, ApplyEvents(before, SideEntries(sequence, i, list)).books);
  }

  lemma RestoredNext(b: Books, ids: seq<InstrumentId>, before: Books, mid: Books, after: Books)
    requires ids != [] && DistinctIds(ids) && Restored(b, [ids[0]], before, mid) && Restored(b, ids[1..], mid, after)
    ensures Restored(b, ids, before, after)
  {
    hide Stacked, ListOf;
    forall i: InstrumentId ensures i in ids <==> i == ids[0] || i in ids[1..] {
      assert ids == [ids[0]] + ids[1..];
    }
    assert ids[0] !in ids[1..];
  }

  lemma {:induction false} EntriesShape(b: Books, sequence: nat, ids: seq<InstrumentId>)
    requires Encodable(b) && sequence < WHOLE
    ensures AllFit(Entries(sequence, b, ids)) && AllAdds(Entries(sequence, b, ids))
  {
    if ids != [] {
      EntriesShape(b, sequence, ids[1..]);
      var list := ListOf(b, ids[0]);
      StackedBag(list);
      forall k | 0 <= k < |Stacked(list)|
        ensures Fits(EntryOf(sequence, ids[0], Stacked(list)[k]))
      {
        assert Stacked(list)[k] in multiset(list);
        assert Stacked(list)[k] in list;
      }
    }
  }

  /** Every entry carries the snapshot's own number, and no time. */
  lemma {:induction false} EntriesStamped(b: Books, sequence: nat, ids: seq<InstrumentId>)
    ensures forall e | e in Entries(sequence, b, ids) ::
              e.AddOrder? && e.sequenceNumber == sequence && e.timestampNs == 0
  {
    if ids != [] {
      EntriesStamped(b, sequence, ids[1..]);
      hide Stacked;
    }
  }

  /** How many orders rest in the books of these instruments. */
  function OrderCount(b: Books, ids: seq<InstrumentId>): nat {
    if ids == [] then 0 else |ListOf(b, ids[0])| + OrderCount(b, ids[1..])
  }

  lemma {:induction false} EntriesCount(b: Books, sequence: nat, ids: seq<InstrumentId>)
    ensures |Entries(sequence, b, ids)| == OrderCount(b, ids)
  {
    if ids != [] {
      StackedBag(ListOf(b, ids[0]));
      EntriesCount(b, sequence, ids[1..]);
    }
  }

  lemma SnapshotHeader(sequence: nat, entries: seq<P.Event>)
    requires sequence < WHOLE && |entries| < WHOLE && AllFit(entries)
    ensures var data := Bytes(sequence, entries);
            && |data| == SNAPSHOT_HEADER_SIZE + |Frames(entries)| && data[SNAPSHOT_HEADER_SIZE..] == Frames(entries)
            && Sum(SNAPSHOT_WIDTHS) == SNAPSHOT_HEADER_SIZE
            && GetAll(data, SNAPSHOT_WIDTHS) == [SNAPSHOT_MAGIC, SNAPSHOT_VERSION, 0, sequence, |entries|]
  {
    Widths();
    SnapshotWidths();
    GetPutAll([SNAPSHOT_MAGIC, SNAPSHOT_VERSION, 0, sequence, |entries|], SNAPSHOT_WIDTHS, Frames(entries));
  }

  lemma ListingDistinct(b: Books, ids: seq<InstrumentId>)
    requires Listing(b, ids)
    ensures DistinctIds(ids)
  {
  }

  /** Loading everything gives back every book that is not empty. */
  lemma AllRestored(b: Books, sequence: nat, ids: seq<InstrumentId>)
    requires AllProper(b) && Listing(b, ids)
    ensures var applied := ApplyEvents(NoBooks, Entries(sequence, b, ids));
            && applied.errors == 0 && Same(applied.books, b) && AllProper(applied.books) && applied.books.stats == map[]
            && forall i: InstrumentId :: i in applied.books.books <==> ListOf(b, i) != []
  {
    hide ApplyEvents, Entries, Stacked, SameBook, Proper;
    ListingDistinct(b, ids);
    EntriesApply(b, sequence, ids, NoBooks);
    ApplyAllKeepsProper(NoBooks, Entries(sequence, b, ids));
    var books := ApplyEvents(NoBooks, Entries(sequence, b, ids)).books;
    forall i: InstrumentId
      ensures SameBook(ListOf(books, i), ListOf(b, i)) && (i in books.books <==> ListOf(b, i) != []) {
      RestackedList(ListOf(b, i));
      EmptySame();
    }
  }

  /** Reading back what was written succeeds and restores the sequence number and every book that is not
      empty, each level in its order; and the entry count is the number of resting orders. */
  lemma SnapshotRoundTrip(sequence: nat, b: Books, ids: seq<InstrumentId>)
    requires AllProper(b) && Encodable(b) && sequence < WHOLE && Listing(b, ids) && OrderCount(b, ids) < WHOLE
    ensures var entries := Entries(sequence, b, ids);
            && AllFit(entries) && |entries| == OrderCount(b, ids)
            && var r := Load(Bytes(sequence, entries));
            && r.Some? && r.value.sequenceNumber == sequence && Same(r.value.books, b)
            && AllProper(r.value.books) && r.value.books.stats == map[]
            && forall i: InstrumentId :: i in r.value.books.books <==> ListOf(b, i) != []
  {
    hide ApplyEvents, LoadEntries, Frames, GetAll, Sum, Entries, Same, Listing, AllProper, Encodable, PutAll, Bytes;
    var entries := Entries(sequence, b, ids);
    EntriesShape(b, sequence, ids);
    EntriesCount(b, sequence, ids);
    AllRestored(b, sequence, ids);
    SnapshotHeader(sequence, entries);
    LoadFrames(entries, [], NoBooks);
    assert Frames(entries) + [] == Frames(entries);
  }

  lemma RestackedList(list: seq<Arrival>)
    ensures SameBook(Stacked(list), list)
  {
    Restacked(list);
  }

  // ---------- the loops ----------

  lemma {:induction false} EntriesAppended(sequence: nat, b: Books, ids: seq<InstrumentId>, i: InstrumentId)
    ensures Entries(sequence, b, ids + [i]) ==
            Entries(sequence, b, ids) + SideEntries(sequence, i, Stacked(ListOf(b, i)))
  {
    hide SideEntries, Stacked, ListOf;
    if ids == [] {
      assert ([] + [i])[1..] == [];
      assert Entries(sequence, b, []) == [];
    } else {
      EntriesAppended(sequence, b, ids[1..], i);
      assert (ids + [i])[1..] == ids[1..] + [i];
    }
  }

  /** Appends one side of a book, and counts its orders. */
  method AppendSide(sequence: nat, i: InstrumentId, side: Side, views: seq<OrderView>, out: ByteIo.Bytes, count: nat,
                    ghost orders: seq<Arrival>, ghost before: seq<P.Event>)
    returns (longer: ByteIo.Bytes, more: nat)
    requires views == Views(orders) && OneSided(side, orders)
    requires AllFit(before) && AllFit(SideEntries(sequence, i, orders)) && out == Frames(before) && count == |before|
    ensures AllFit(before + SideEntries(sequence, i, orders))
    ensures longer == Frames(before + SideEntries(sequence, i, orders)) && more == |before| + |orders|
  {
    hide EncodeEvent, Frames;
    longer, more := out, count;
    ghost var entries := SideEntries(sequence, i, orders);
    assert before + entries[..0] == before;
    for k := 0 to |views|
      invariant AllFit(before + entries[..k]) && longer == Frames(before + entries[..k]) && more == |before| + k
    {
      assert Fits(entries[k]) && before + entries[..k + 1] == before + entries[..k] + [entries[k]];
      FramesAppended(before + entries[..k], entries[k]);
      longer := EncodeInto(longer,
                           P.AddOrder(sequence, 0, views[k].orderId, i, views[k].price, views[k].quantity, side));
      more := more + 1;
    }
    assert entries[..|orders|] == entries;
  }

  lemma SidesFit(sequence: nat, b: Books, i: InstrumentId)
    requires Encodable(b) && sequence < WHOLE
    ensures AllFit(SideEntries(sequence, i, Arranged(Buy, ListOf(b, i))))
    ensures AllFit(SideEntries(sequence, i, Arranged(Sell, ListOf(b, i))))
    ensures SideEntries(sequence, i, Stacked(ListOf(b, i))) ==
            SideEntries(sequence, i, Arranged(Buy, ListOf(b, i))) +
              SideEntries(sequence, i, Arranged(Sell, ListOf(b, i)))
  {
    EntriesShape(b, sequence, [i]);
    hide Arranged, Fits;
    var bids, asks := Arranged(Buy, ListOf(b, i)), Arranged(Sell, ListOf(b, i));
    var all := Entries(sequence, b, [i]);
    assert [i][1..] == [] && Entries(sequence, b, []) == [];
    assert all == SideEntries(sequence, i, bids + asks) + [];
    forall k | 0 <= k < |bids| ensures Fits(SideEntries(sequence, i, bids)[k]) {
      assert all[k] == SideEntries(sequence, i, bids)[k];
    }
    forall k | 0 <= k < |asks| ensures Fits(SideEntries(sequence, i, asks)[k]) {
      assert all[|bids| + k] == SideEntries(sequence, i, asks)[k];
    }
  }

  /** Appends both sides of one book. */
  method AppendBook(sequence: nat, manager: BookManager, i: InstrumentId, out: ByteIo.Bytes, count: nat,
                    ghost before: seq<P.Event>)
    returns (longer: ByteIo.Bytes, more: nat)
    requires manager.Valid() && sequence < WHOLE && Encodable(manager.State())
    requires AllFit(before) && out == Frames(before) && count == |before|
    ensures var after := before + SideEntries(sequence, i, Stacked(ListOf(manager.State(), i)));
            AllFit(after) && longer == Frames(after) && more == |after|
  {
    hide EncodeEvent, Frames, SideEntries, Arranged, Encodable, Keeps, OneSided, OrderBook.Valid, OrderBook.Repr;
    SidesFit(sequence, manager.State(), i);
    longer, more := out, count;
    if i in manager.books {
      var book := manager.books[i];
      KeptBook(book, manager.model.frames[i], manager.model.lists[i]);
      ghost var list := book.arrivals;
      ghost var bids, asks := Arranged(Buy, list), Arranged(Sell, list);
      ArrangedStable(Buy, list);
      ArrangedStable(Sell, list);
      SideSizes(sequence, i, bids);
      SideSizes(sequence, i, asks);
      var bidViews := book.All(Buy);
      longer, more := AppendSide(sequence, i, Buy, bidViews, longer, more, bids, before);
      var askViews := book.All(Sell);
      longer, more := AppendSide(sequence, i, Sell, askViews, longer, more, asks,
                                 before + SideEntries(sequence, i, bids));
      assert before + SideEntries(sequence, i, bids) + SideEntries(sequence, i, asks)
          == before + (SideEntries(sequence, i, bids) + SideEntries(sequence, i, asks));
    } else {
      NothingStacked(sequence, i);
      assert before + [] == before;
    }
  }

  method PutSnapshotHeader(sequence: nat, count: nat) returns (out: ByteIo.Bytes)
    requires sequence < WHOLE && count < WHOLE
    ensures Fit([SNAPSHOT_MAGIC, SNAPSHOT_VERSION, 0, sequence, count], SNAPSHOT_WIDTHS)
    ensures out == PutAll([SNAPSHOT_MAGIC, SNAPSHOT_VERSION, 0, sequence, count], SNAPSHOT_WIDTHS)
  {
    hide PutAll, Sum;
    SnapshotFields(sequence, count);
    ghost var f, w := [SNAPSHOT_MAGIC, SNAPSHOT_VERSION, 0, sequence, count], SNAPSHOT_WIDTHS;
    NothingPut(f, w);
    out := PutField([], SNAPSHOT_MAGIC, 4, [], f, w, 0);
    out := PutField(out, SNAPSHOT_VERSION, 2, [], f, w, 1);
    out := PutField(out, 0, 2, [], f, w, 2);
    out := PutField(out, sequence, 8, [], f, w, 3);
    out := PutField(out, count, 8, [], f, w, 4);
    assert f[..5] == f && w[..5] == w;
  }

  /** Writes every resting order of every instrument, then puts the header in front. */
  method WriteSnapshot(sequence: nat, manager: BookManager) returns (out: ByteIo.Bytes)
    requires manager.Valid() && sequence < WHOLE && Encodable(manager.State())
    requires forall ids | Listing(manager.State(), ids) :: OrderCount(manager.State(), ids) < WHOLE
    ensures SnapshotOf(out, sequence, manager.State())
  {
    hide EncodeEvent, Frames, SideEntries, Stacked, Encodable, PutAll, Sum, Listing, BookManager.Valid;
    var ids := Instruments(manager);
    ghost var b := manager.State();
    var entries: ByteIo.Bytes := [];
    var count := 0;
    NoFrames();
    assert Entries(sequence, b, ids[..0]) == [];
    for n := 0 to |ids|
      invariant AllFit(Entries(sequence, b, ids[..n]))
      invariant entries == Frames(Entries(sequence, b, ids[..n])) && count == |Entries(sequence, b, ids[..n])|
    {
      assert ids[..n + 1] == ids[..n] + [ids[n]];
      EntriesAppended(sequence, b, ids[..n], ids[n]);
      entries, count := AppendBook(sequence, manager, ids[n], entries, count, Entries(sequence, b, ids[..n]));
    }
    assert ids[..|ids|] == ids;
    EntriesCount(b, sequence, ids);
    var header := PutSnapshotHeader(sequence, count);
    out := header + entries;
    assert out == Bytes(sequence, Entries(sequence, b, ids));
  }

  lemma NoFrames()
    ensures Frames([]) == []
  {
  }

  lemma SideSizes(sequence: nat, i: InstrumentId, orders: seq<Arrival>)
    ensures |SideEntries(sequence, i, orders)| == |orders|
  {
  }

  lemma NothingStacked(sequence: nat, i: InstrumentId)
    ensures SideEntries(sequence, i, Stacked([])) == []
  {
  }

  lemma SnapshotFields(sequence: nat, count: nat)
    requires sequence < WHOLE && count < WHOLE
    ensures Fit([SNAPSHOT_MAGIC, SNAPSHOT_VERSION, 0, sequence, count], SNAPSHOT_WIDTHS)
  {
    Widths();
  }

  datatype SnapshotLoad = SnapshotLoad(sequenceNumber: nat, books: BookManager)

  /** Reads a snapshot, adding each order as it comes. */
  method ReadSnapshot(data: ByteIo.Bytes) returns (r: Option<SnapshotLoad>)
    ensures r.None? <==> Load(data).None?
    ensures r.Some? ==> var books := r.value.books;
              && books.Valid() && fresh(books) && fresh(books.frame)
              && Load(data) == Some(Loaded(r.value.sequenceNumber, books.State()))
  {
    hide GetAll, Sum, LoadEntries, BookManager.Valid;
    if |data| < SNAPSHOT_HEADER_SIZE {
      return None;
    }
    SnapshotWidths();
    GetAllFront(data, SNAPSHOT_HEADER_SIZE, SNAPSHOT_WIDTHS);
    NoWidth(SNAPSHOT_WIDTHS);
    var reader := new ByteReader(data[..SNAPSHOT_HEADER_SIZE]);
    ghost var w := SNAPSHOT_WIDTHS;
    var magic := GetField(reader, 4, w, 0);
    var version := GetField(reader, 2, w, 1);
    var reserved := GetField(reader, 2, w, 2);
    var sequence := GetField(reader, 8, w, 3);
    var count := GetField(reader, 8, w, 4);
    if magic != SNAPSHOT_MAGIC || version != SNAPSHOT_VERSION || reserved != 0 {
      return None;
    }
    var books := ReadEntries(data[SNAPSHOT_HEADER_SIZE..], count);
    if books.None? {
      return None;
    }
    return Some(SnapshotLoad(sequence, books.value));
  }

  method ReadEntries(data: ByteIo.Bytes, count: nat) returns (r: Option<BookManager>)
    ensures r.None? <==> LoadEntries(data, count, NoBooks).None?
    ensures r.Some? ==> r.value.Valid() && fresh(r.value) && fresh(r.value.frame)
                        && LoadEntries(data, count, NoBooks) == Some(r.value.State())
  {
    hide DecodeHeader, DecodeEvent, ApplyEvent, BookManager.Valid;
    var left := data;
    var books := new BookManager();
    for i := 0 to count
      invariant books.Valid() && fresh(books) && fresh(books.frame)
      invariant LoadEntries(data, count, NoBooks) == LoadEntries(left, count - i, books.State())
    {
      if |left| < HEADER_SIZE {
        return None;
      }
      var header := ReadHeader(left[..HEADER_SIZE]);
      if header.Err? || header.value.kind != 1 || |left| - HEADER_SIZE < header.value.payloadSize {
        return None;
      }
      var n := HEADER_SIZE + header.value.payloadSize;
      var event := ReadEvent(left[..n]);
      if event.Err? {
        return None;
      }
      var refused := books.ApplyEvent(event.value);
      if refused {
        return None;
      }
      left := left[n..];
    }
    return Some(books);
  }
}
