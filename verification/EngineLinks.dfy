/** How the engine's registry, handles and books stand for the abstract engine, on values. */
module EngineLinks {
  import opened Domain
  import opened PriceTime
  import opened Exchange
  import opened Matching
  import opened EngineSpec
  import opened EngineLaws

  const NO_SLOT := -1

  /** What the directory keeps of a live order: where in its book it is, and what the book does not. */
  datatype Entry = Entry(originalQuantity: Quantity, orderSequence: nat, handle: nat, instrumentId: InstrumentId)

  /** What the engine can see of one matching book. */
  datatype View = View(handles: map<nat, BookOrder>, bids: seq<BookOrder>, asks: seq<BookOrder>) {
    function Lists(): Book {
      Book(bids, asks)
    }
  }

  predicate Known(slotOfId: seq<int>, i: InstrumentId) {
    i < |slotOfId| && slotOfId[i] != NO_SLOT
  }

  /** Every known instrument has a book of its own. */
  ghost predicate Registered(slotOfId: seq<int>, books: nat) {
    && (forall i | 0 <= i < |slotOfId| && slotOfId[i] != NO_SLOT :: 0 <= slotOfId[i] < books)
    && (forall i, j | 0 <= i < j < |slotOfId| && slotOfId[i] != NO_SLOT :: slotOfId[i] != slotOfId[j])
  }

  /** The entry holds the handle of a live order that answers to its key. */
  ghost predicate Refers(slotOfId: seq<int>, views: seq<View>, directory: Directory, key: LiveKey, entry: Entry)
    requires Registered(slotOfId, |views|)
  {
    && Known(slotOfId, entry.instrumentId)
    && entry.handle in views[slotOfId[entry.instrumentId]].handles
    && var order := views[slotOfId[entry.instrumentId]].handles[entry.handle];
    && KeyOf(order) == key
    && key in directory
    && directory[key] == OrderRef(order.exchangeOrderId, entry.originalQuantity, entry.orderSequence,
                                  entry.instrumentId)
  }

  ghost predicate Booked(slotOfId: seq<int>, views: seq<View>, books: map<InstrumentId, Book>)
    requires Registered(slotOfId, |views|)
  {
    && (forall i | i in books :: Known(slotOfId, i))
    && (forall i: nat | Known(slotOfId, i) :: i in books && books[i] == views[slotOfId[i]].Lists())
  }

  ghost predicate Referred(slotOfId: seq<int>, views: seq<View>, directory: Directory, orders: map<LiveKey, Entry>)
    requires Registered(slotOfId, |views|)
  {
    && orders.Keys == directory.Keys
    && forall key | key in orders :: Refers(slotOfId, views, directory, key, orders[key])
  }

  ghost predicate Agrees(slotOfId: seq<int>, views: seq<View>, orders: map<LiveKey, Entry>,
                         lists: map<InstrumentId, Book>, directory: Directory) {
    && Registered(slotOfId, |views|)
    && Booked(slotOfId, views, lists)
    && Referred(slotOfId, views, directory, orders)
  }

  lemma BookShown(slotOfId: seq<int>, views: seq<View>, orders: map<LiveKey, Entry>,
                  lists: map<InstrumentId, Book>, directory: Directory, i: InstrumentId)
    requires Agrees(slotOfId, views, orders, lists, directory)
    ensures Known(slotOfId, i) <==> i in lists
    ensures Known(slotOfId, i) ==> 0 <= slotOfId[i] < |views| && lists[i] == views[slotOfId[i]].Lists()
  {
  }

  /** Where an entry leads. */
  lemma EntryShown(slotOfId: seq<int>, views: seq<View>, orders: map<LiveKey, Entry>,
                   lists: map<InstrumentId, Book>, directory: Directory, key: LiveKey)
    requires Agrees(slotOfId, views, orders, lists, directory)
    ensures key in orders <==> key in directory
    ensures key in orders ==>
              var i, handle := orders[key].instrumentId, orders[key].handle;
              && Known(slotOfId, i) && 0 <= slotOfId[i] < |views| && i in lists
                 && lists[i] == views[slotOfId[i]].Lists()
              && handle in views[slotOfId[i]].handles && KeyOf(views[slotOfId[i]].handles[handle]) == key
              && directory[key].instrumentId == i
              && directory[key].exchangeOrderId == views[slotOfId[i]].handles[handle].exchangeOrderId
  {
    if key in orders {
      assert Refers(slotOfId, views, directory, key, orders[key]);
    }
  }

  /** One book changes, and its lists with it. */
  lemma Rebooked(slotOfId: seq<int>, views: seq<View>, books: map<InstrumentId, Book>, i: InstrumentId, view: View)
    requires Registered(slotOfId, |views|) && Booked(slotOfId, views, books) && Known(slotOfId, i)
    ensures Registered(slotOfId, |views[slotOfId[i] := view]|)
    ensures Booked(slotOfId, views[slotOfId[i] := view], books[i := view.Lists()])
  {
  }

  /** An entry whose order did not change still refers to it. */
  lemma StillRefers(slotOfId: seq<int>, views: seq<View>, directory: Directory, directory': Directory, i: InstrumentId,
                    view: View, key: LiveKey, entry: Entry)
    requires Registered(slotOfId, |views|) && Known(slotOfId, i) && Refers(slotOfId, views, directory, key, entry)
    requires key in directory' && directory'[key] == directory[key]
    requires entry.instrumentId == i && entry.handle in views[slotOfId[i]].handles ==>
               entry.handle in view.handles
               && KeyOf(view.handles[entry.handle]) == key
               && view.handles[entry.handle].exchangeOrderId == views[slotOfId[i]].handles[entry.handle].exchangeOrderId
    ensures Refers(slotOfId, views[slotOfId[i] := view], directory', key, entry)
  {
  }

  /** The id table once an instrument has the next slot. */
  function Enrolled(slotOfId: seq<int>, i: InstrumentId, slot: nat): seq<int> {
    (if i < |slotOfId| then slotOfId else slotOfId + seq(i + 1 - |slotOfId|, _ => NO_SLOT))[i := slot]
  }

  /** A new instrument gets an empty book of its own. */
  lemma LinkedRegister(slotOfId: seq<int>, views: seq<View>, orders: map<LiveKey, Entry>,
                       lists: map<InstrumentId, Book>, directory: Directory, i: InstrumentId)
    requires Agrees(slotOfId, views, orders, lists, directory) && !Known(slotOfId, i)
    ensures Agrees(Enrolled(slotOfId, i, |views|), views + [View(map[], [], [])], orders, lists[i := Book([], [])],
                   directory)
  {
    var table, views' := Enrolled(slotOfId, i, |views|), views + [View(map[], [], [])];
    assert forall j: nat :: Known(table, j) <==> j == i || Known(slotOfId, j);
    assert forall j: nat | Known(slotOfId, j) :: table[j] == slotOfId[j] && views'[table[j]] == views[slotOfId[j]];
    forall key | key in orders ensures Refers(table, views', directory, key, orders[key]) {
      assert Refers(slotOfId, views, directory, key, orders[key]);
    }
  }

  /** An order leaves, with the entry of its key. */
  lemma LinkedDrop(slotOfId: seq<int>, views: seq<View>, orders: map<LiveKey, Entry>,
                   lists: map<InstrumentId, Book>, directory: Directory, i: InstrumentId,
                   handle: nat, view: View, key: LiveKey)
    requires Agrees(slotOfId, views, orders, lists, directory) && Known(slotOfId, i)
             && handle in views[slotOfId[i]].handles
    requires key == KeyOf(views[slotOfId[i]].handles[handle])
    requires view.handles == views[slotOfId[i]].handles - {handle}
    ensures Agrees(slotOfId, views[slotOfId[i] := view], orders - {key},
                   lists[i := view.Lists()], directory - {key})
  {
    Rebooked(slotOfId, views, lists, i, view);
    forall k | k in orders - {key}
      ensures Refers(slotOfId, views[slotOfId[i] := view], directory - {key}, k, (orders - {key})[k])
    {
      StillRefers(slotOfId, views, directory, directory - {key}, i, view, k, orders[k]);
    }
  }

  /** An order changes where it stands, and keeps its key and id. */
  lemma LinkedEdit(slotOfId: seq<int>, views: seq<View>, orders: map<LiveKey, Entry>,
                   lists: map<InstrumentId, Book>, directory: Directory, i: InstrumentId,
                   handle: nat, view: View, order: BookOrder)
    requires Agrees(slotOfId, views, orders, lists, directory) && Known(slotOfId, i)
             && handle in views[slotOfId[i]].handles
    requires KeyOf(order) == KeyOf(views[slotOfId[i]].handles[handle])
    requires order.exchangeOrderId == views[slotOfId[i]].handles[handle].exchangeOrderId
    requires view.handles == views[slotOfId[i]].handles[handle := order]
    ensures Agrees(slotOfId, views[slotOfId[i] := view], orders, lists[i := view.Lists()], directory)
  {
    Rebooked(slotOfId, views, lists, i, view);
    forall k | k in orders ensures Refers(slotOfId, views[slotOfId[i] := view], directory, k, orders[k]) {
      StillRefers(slotOfId, views, directory, directory, i, view, k, orders[k]);
    }
  }

  /** An order joins a book, and an entry under its key leads to it. */
  lemma LinkedAdd(slotOfId: seq<int>, views: seq<View>, orders: map<LiveKey, Entry>,
                  lists: map<InstrumentId, Book>, directory: Directory, i: InstrumentId,
                  view: View, order: BookOrder, entry: Entry)
    requires Agrees(slotOfId, views, orders, lists, directory) && Known(slotOfId, i)
    requires entry.handle !in views[slotOfId[i]].handles
    requires entry.instrumentId == i && view.handles == views[slotOfId[i]].handles[entry.handle := order]
    ensures var ref := OrderRef(order.exchangeOrderId, entry.originalQuantity, entry.orderSequence, i);
            Agrees(slotOfId, views[slotOfId[i] := view], orders[KeyOf(order) := entry],
                   lists[i := view.Lists()], directory[KeyOf(order) := ref])
  {
    var key, ref := KeyOf(order), OrderRef(order.exchangeOrderId, entry.originalQuantity, entry.orderSequence, i);
    Rebooked(slotOfId, views, lists, i, view);
    var orders' := orders[key := entry];
    forall k | k in orders'
      ensures Refers(slotOfId, views[slotOfId[i] := view], directory[key := ref], k, orders'[k])
    {
      if k != key {
        StillRefers(slotOfId, views, directory, directory[key := ref], i, view, k, orders[k]);
      }
    }
  }

  /** An order changes where it stands and answers to another key, whoever had it before. */
  lemma LinkedRename(slotOfId: seq<int>, views: seq<View>, orders: map<LiveKey, Entry>,
                     lists: map<InstrumentId, Book>, directory: Directory, i: InstrumentId,
                     view: View, key: LiveKey, order: BookOrder)
    requires Agrees(slotOfId, views, orders, lists, directory) && Known(slotOfId, i)
    requires key in orders && orders[key].instrumentId == i
    requires orders[key].handle in views[slotOfId[i]].handles
    requires order.exchangeOrderId == views[slotOfId[i]].handles[orders[key].handle].exchangeOrderId
    requires view.handles == views[slotOfId[i]].handles[orders[key].handle := order]
    ensures key in directory
    ensures Agrees(slotOfId, views[slotOfId[i] := view], (orders - {key})[KeyOf(order) := orders[key]],
                   lists[i := view.Lists()], (directory - {key})[KeyOf(order) := directory[key]])
  {
    var newKey := KeyOf(order);
    Rebooked(slotOfId, views, lists, i, view);
    assert Refers(slotOfId, views, directory, key, orders[key]);
    var orders', directory' := (orders - {key})[newKey := orders[key]], (directory - {key})[newKey := directory[key]];
    forall k | k in orders' ensures Refers(slotOfId, views[slotOfId[i] := view], directory', k, orders'[k]) {
      if k != newKey {
        assert Refers(slotOfId, views, directory, k, orders[k]);
        StillRefers(slotOfId, views, directory, directory', i, view, k, orders[k]);
      }
    }
  }

  /** A handle and an id lead to the same place. */
  lemma HandleIsNamed(slotOfId: seq<int>, views: seq<View>, orders: map<LiveKey, Entry>, e: Engine, key: LiveKey,
                      side: Side, k: nat)
    requires Agrees(slotOfId, views, orders, e.books, e.directory) && Sound(e) && key in orders
    requires var i := orders[key].instrumentId;
             Known(slotOfId, i) && orders[key].handle in views[slotOfId[i]].handles
             && k < |views[slotOfId[i]].Lists().On(side)|
             && views[slotOfId[i]].Lists().On(side)[k] == views[slotOfId[i]].handles[orders[key].handle]
    ensures var i := orders[key].instrumentId;
            && EngineSpec.Known(e, key, i)
            && e.directory[key].exchangeOrderId == views[slotOfId[i]].handles[orders[key].handle].exchangeOrderId
            && SideOf(e.books[i], e.directory[key].exchangeOrderId) == side
            && Find(e.books[i].On(side), e.directory[key].exchangeOrderId) == k
            && Named(e, key, i) == e.books[i].On(side)[k]
            && e.books[i].On(side)[k].side == side
  {
    var i := orders[key].instrumentId;
    assert Refers(slotOfId, views, e.directory, key, orders[key]);
    var id := e.directory[key].exchangeOrderId;
    NamedIsKeyed(e, key);
    Located(e.books[i], e.nextExchangeOrderId, id);
    FoundOnce(side, e.books[i].On(side), e.nextExchangeOrderId, id);
    InIds(e.books[i].On(side), k);
  }
}
