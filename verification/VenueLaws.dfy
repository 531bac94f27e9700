/** Whole runs of the gated exchange: nobody is overspent, reservations are exactly what rests, and
    cash and units only come from deposits. */
module VenueLaws {
  import opened Domain
  import opened PriceTime
  import opened Exchange
  import opened Matching
  import opened EngineSpec
  import opened EngineLaws
  import opened Completeness
  import opened LedgerSpec
  import opened Reservations
  import opened Gated

  /** What a command keeps: the invariant, and an exact and solvent ledger at every event on the way. */
  ghost predicate Kept(v: Venue, c: Command, maxQuantity: Quantity) {
    Good(GatedProcess(v, c, maxQuantity)) && Steady(v.ledger, GatedOut(v, c, maxQuantity).events)
  }

  // ---------- what a key leads to ----------

  /** Behind a key of the directory stand one order and one hold, which agree. */
  lemma KeyAgrees(v: Venue, key: LiveKey)
    requires Good(v) && key in v.engine.directory
    ensures var i := v.engine.directory[key].instrumentId;
            && Known(v.engine, key, i) && KeyOf(Named(v.engine, key, i)) == key
            && Named(v.engine, key, i).price > 0 && Named(v.engine, key, i).timeInForce == GTC
            && Named(v.engine, key, i).remaining > 0
            && key in v.ledger.holds
            && BackedOrder(v.ledger.holds, i, Named(v.engine, key, i))
  {
    var i, id := v.engine.directory[key].instrumentId, v.engine.directory[key].exchangeOrderId;
    var book := v.engine.books[i];
    NamedIsKeyed(v.engine, key);
    Located(book, v.engine.nextExchangeOrderId, id);
    QueueBacked(v.engine, v.ledger.holds, i, SideOf(book, id));
  }

  /** Two maps of holds agree on every listed key but one. */
  ghost predicate AgreeBut(directory: Directory, key: LiveKey, holds: map<LiveKey, Hold>, holds': map<LiveKey, Hold>) {
    forall k | k in directory && k != key && k in holds :: k in holds' && holds'[k] == holds[k]
  }

  lemma BackedWithout(holds: map<LiveKey, Hold>, i: InstrumentId, queue: seq<BookOrder>, k: nat)
    requires BackedQueue(holds, i, queue) && k < |queue|
    ensures BackedQueue(holds, i, Without(queue, k))
  {
    forall j: nat | j < |queue| - 1 ensures BackedOrder(holds, i, Without(queue, k)[j]) {
      WithoutAt(queue, k, j);
    }
  }

  lemma BackedReplaced(holds: map<LiveKey, Hold>, i: InstrumentId, queue: seq<BookOrder>, k: nat, order: BookOrder)
    requires k < |queue| && BackedQueue(holds, i, Without(queue, k)) && BackedOrder(holds, i, order)
    ensures BackedQueue(holds, i, queue[k := order])
  {
    forall j: nat | j < |queue| && j != k ensures BackedOrder(holds, i, queue[j]) {
      WithoutAt(queue, k, if j < k then j else j - 1);
      assert BackedOrder(holds, i, Without(queue, k)[if j < k then j else j - 1]);
    }
  }

  /** The engine with one listed order gone. */
  function Dropped(e: Engine, key: LiveKey, i: InstrumentId): Engine
    requires Known(e, key, i)
  {
    e.(books := e.books[i := Remove(e.books[i], e.directory[key].exchangeOrderId)], directory := e.directory - {key})
  }

  lemma RemovalQueueBacked(e: Engine, key: LiveKey, i: InstrumentId, holds: map<LiveKey, Hold>,
                           holds': map<LiveKey, Hold>,
                           j: InstrumentId, side: Side)
    requires Sound(e) && Complete(e) && Backed(e, holds) && Known(e, key, i)
             && AgreeBut(e.directory, key, holds, holds')
    requires j in e.books
    ensures BackedQueue(holds', j, Dropped(e, key, i).books[j].On(side))
  {
    var id, book := e.directory[key].exchangeOrderId, e.books[i];
    NamedIsKeyed(e, key);
    Located(book, e.nextExchangeOrderId, id);
    var s := SideOf(book, id);
    var queue, k := book.On(s), Find(book.On(s), id);
    QueueBacked(e, holds, i, s);
    QueueBacked(e, holds, j, side);
    ListsWithout(e.directory, i, queue, k);
    BackedWithout(holds, i, queue, k);
    WithoutSound(s, queue, k, e.nextExchangeOrderId);
    var left := Dropped(e, key, i).books[j].On(side);
    assert left == if j == i && side == s then Without(queue, k) else e.books[j].On(side);
    hide QueueSound, Ids, Uncrossed, Names, Lists, StandsIn, Without, BackedQueue, Backed, Complete, Find, SideOf;
    BackedApart(e.directory, holds, holds', i, queue[k], j, left);
  }

  /** With one order out of the books, its key's hold may change freely. */
  lemma RemovalBacked(e: Engine, key: LiveKey, i: InstrumentId, holds: map<LiveKey, Hold>, holds': map<LiveKey, Hold>)
    requires Sound(e) && Complete(e) && Backed(e, holds) && Known(e, key, i)
             && AgreeBut(e.directory, key, holds, holds')
    ensures Backed(Dropped(e, key, i), holds')
  {
    hide Sound, Complete, BackedQueue, Remove, AgreeBut;
    forall j, side: Side | j in e.books ensures BackedQueue(holds', j, Dropped(e, key, i).books[j].On(side)) {
      RemovalQueueBacked(e, key, i, holds, holds', j, side);
    }
  }

  // ---------- new orders ----------

  /** The ledger once an order is accepted. */
  function AcceptedLedger(l: Ledger, order: Incoming): Ledger {
    if order.timeInForce != GTC then l else OpenHold(l, IncomingKey(order), HoldOf(order))
  }

  /** An accepted order that passed the gate starts out covered. */
  lemma AcceptMid(v: Venue, c: Command, maxQuantity: Quantity)
    requires Good(v) && c.NewOrder? && Gate(v, c, maxQuantity) == NoReason && NewRejection(v.engine, c) == NoReason
    ensures Mid(Stamped(v.engine), AcceptedLedger(v.ledger, NewIncoming(v.engine, c)), NewIncoming(v.engine, c))
  {
    hide Sound, Exact, OpenHold, BackedQueue;
    var e, l, order := v.engine, v.ledger, NewIncoming(v.engine, c);
    var l' := AcceptedLedger(l, order);
    if order.timeInForce == GTC {
      OpenSolvent(l, IncomingKey(order), HoldOf(order));
    }
    forall i, side: Side | i in e.books ensures BackedQueue(l'.holds, i, e.books[i].On(side)) {
      FreshKeyBacked(e.directory, l.holds, l'.holds, i, e.books[i].On(side));
    }
  }

  lemma FreshKeyBacked(directory: Directory, holds: map<LiveKey, Hold>, holds': map<LiveKey, Hold>, i: InstrumentId,
                       queue: seq<BookOrder>)
    requires BackedQueue(holds, i, queue)
    requires forall key | key in holds :: key in holds' && holds'[key] == holds[key]
    ensures BackedQueue(holds', i, queue)
  {
    forall k: nat | k < |queue| ensures BackedOrder(holds', i, queue[k]) {
      assert BackedOrder(holds, i, queue[k]);
    }
  }

  lemma NewLedger(v: Venue, c: Command)
    requires c.NewOrder? && NewRejection(v.engine, c) == NoReason
    ensures var l', events := AcceptedLedger(v.ledger, NewIncoming(v.engine, c)), Process(v.engine, c).events;
            var entering := Enter(Stamped(v.engine), NewIncoming(v.engine, c), c.commandSequence).events;
            && ApplyAll(v.ledger, events) == ApplyAll(l', entering)
            && (Exact(v.ledger) && Solvent(v.ledger) && Steady(l', entering) ==> Steady(v.ledger, events))
  {
    hide Enter, OpenHold, Exact, Solvent;
    var events := Process(v.engine, c).events;
    assert events[1..] == Enter(Stamped(v.engine), NewIncoming(v.engine, c), c.commandSequence).events;
    assert Apply(v.ledger, events[0]) == AcceptedLedger(v.ledger, NewIncoming(v.engine, c));
  }

  lemma NewGood(v: Venue, c: Command, maxQuantity: Quantity)
    requires Good(v) && c.NewOrder? && Gate(v, c, maxQuantity) == NoReason && NewRejection(v.engine, c) == NoReason
    ensures Kept(v, c, maxQuantity)
  {
    hide Enter, Mid, Complete, Backed, Exact, Solvent, Uncrossed, QueueSound, StandsIn, AcceptedLedger, ApplyAll, Gate,
      NewRejection, Steady;
    var s, order := Stamped(v.engine), NewIncoming(v.engine, c);
    NewLedger(v, c);
    AcceptMid(v, c, maxQuantity);
    NewAdmissible(v, c, maxQuantity);
    EnterGood(s, AcceptedLedger(v.ledger, order), order, c.commandSequence);
  }

  /** What the two checks leave of a new order. */
  lemma NewAdmissible(v: Venue, c: Command, maxQuantity: Quantity)
    requires c.NewOrder? && Gate(v, c, maxQuantity) == NoReason && NewRejection(v.engine, c) == NoReason
    ensures c.price > 0 && c.quantity > 0 && c.instrumentId in v.engine.books
    ensures GatedOut(v, c, maxQuantity) == Process(v.engine, c)
    ensures Process(v.engine, c).engine == Enter(Stamped(v.engine), NewIncoming(v.engine, c), c.commandSequence).engine
  {
    hide Enter;
  }

  // ---------- cancels ----------

  lemma CancelShape(v: Venue, c: Command, maxQuantity: Quantity)
    requires c.CancelOrder? && Known(v.engine, LiveKey(c.accountId, c.clientOrderId), c.instrumentId)
    requires LiveKey(c.accountId, c.clientOrderId) in v.ledger.holds
    ensures var key, v' := LiveKey(c.accountId, c.clientOrderId), GatedProcess(v, c, maxQuantity);
            && v'.ledger == Released(v.ledger, key)
            && (Exact(v.ledger) && Solvent(v.ledger) && Exact(v'.ledger) && Solvent(v'.ledger)
                ==> Steady(v.ledger, GatedOut(v, c, maxQuantity).events))
            && v'.engine == Dropped(v.engine, key, c.instrumentId).(nextEventSequence := v.engine.nextEventSequence + 2)
  {
    hide OrderIn, Remove, ReleaseHoldFully, Exact, Solvent;
    var key, events := LiveKey(c.accountId, c.clientOrderId), Process(v.engine, c).events;
    var l' := Released(v.ledger, key);
    assert Apply(v.ledger, events[0]) == l' && Apply(l', events[1]) == l';
    assert events[1..][1..] == [] && ApplyAll(l', events[1..]) == ApplyAll(Apply(l', events[1]), []);
    if Exact(v.ledger) && Solvent(v.ledger) && Exact(l') && Solvent(l') {
      SteadyPair(v.ledger, events);
    }
  }

  lemma CancelGood(v: Venue, c: Command, maxQuantity: Quantity)
    requires Good(v) && c.CancelOrder? && Known(v.engine, LiveKey(c.accountId, c.clientOrderId), c.instrumentId)
    ensures Kept(v, c, maxQuantity)
  {
    hide Exact, Solvent, BackedQueue, QueueSound, Ids, StandsIn, Uncrossed, Lists, Released, Remove, Steady;
    var key := LiveKey(c.accountId, c.clientOrderId);
    KeyAgrees(v, key);
    CancelShape(v, c, maxQuantity);
    RemovalSound(v.engine, key);
    RemovalComplete(v.engine, key);
    ReleaseSolvent(v.ledger, key);
    RemovalBacked(v.engine, key, c.instrumentId, v.ledger.holds, v.ledger.holds - {key});
  }

  // ---------- replaces ----------

  /** A replace the two checks let through, of an order that is there, to an id that is free. */
  ghost predicate Replaceable(v: Venue, c: Command, maxQuantity: Quantity) {
    && c.ReplaceOrder?
    && Gate(v, c, maxQuantity) == NoReason
    && ReplaceRejection(v.engine, c) == NoReason
    && !ReusesLiveId(v.engine, c)
  }

  function OldKey(c: Command): LiveKey
    requires c.ReplaceOrder?
  {
    LiveKey(c.accountId, c.originalClientOrderId)
  }

  function NewKey(c: Command): LiveKey
    requires c.ReplaceOrder?
  {
    LiveKey(c.accountId, c.newClientOrderId)
  }

  /** The hold a replace opens. */
  function NewHold(l: Ledger, c: Command): Hold
    requires c.ReplaceOrder? && OldKey(c) in l.holds
  {
    Hold(c.instrumentId, l.holds[OldKey(c)].side, c.newPrice, c.newQuantity)
  }

  /** The ledger once an order is replaced. */
  function ReplacedLedger(l: Ledger, c: Command): Ledger
    requires c.ReplaceOrder? && OldKey(c) in l.holds
  {
    OpenHold(Released(l, OldKey(c)), NewKey(c), NewHold(l, c))
  }

  /** The replace credit is right: what the check lets through is covered once the old hold is
      released. */
  lemma CreditCovers(l: Ledger, c: Command, maxQuantity: Quantity)
    requires Exact(l) && Solvent(l) && c.ReplaceOrder? && CheckReplace(l, c, maxQuantity) == NoReason
    requires OldKey(c) in l.holds && l.holds[OldKey(c)].instrumentId == c.instrumentId
             && l.holds[OldKey(c)].limitPrice > 0
    ensures var hold := NewHold(l, c);
            Weigh(ClaimOf(NewKey(c), hold), NewKey(c), hold)
            <= Available(Released(l, OldKey(c)), ClaimOf(NewKey(c), hold))
  {
    hide Released, Exact, Solvent;
    ReleaseSolvent(l, OldKey(c));
    var claim := ClaimOf(OldKey(c), l.holds[OldKey(c)]);
    assert claim == ClaimOf(NewKey(c), NewHold(l, c));
    assert Available(l, claim) >= 0 by { SolventAt(l, claim); }
  }

  lemma SolventAt(l: Ledger, claim: Claim)
    requires Solvent(l)
    ensures Available(l, claim) >= 0
  {
  }

  lemma ReplaceSolvent(v: Venue, c: Command, maxQuantity: Quantity)
    requires Good(v) && Replaceable(v, c, maxQuantity)
    ensures OldKey(c) in v.ledger.holds
    ensures var l' := ReplacedLedger(v.ledger, c);
            && Exact(l') && Solvent(l')
            && l'.holds == (v.ledger.holds - {OldKey(c)})[NewKey(c) := NewHold(v.ledger, c)]
  {
    KeyAgrees(v, OldKey(c));
    var l := v.ledger;
    CreditCovers(l, c, maxQuantity);
    ReleaseSolvent(l, OldKey(c));
    OpenSolvent(Released(l, OldKey(c)), NewKey(c), NewHold(l, c));
  }

  /** The announced replacement, seen by the ledger. */
  lemma ReplaceLedger(v: Venue, c: Command)
    requires c.ReplaceOrder? && ReplaceRejection(v.engine, c) == NoReason && OldKey(c) in v.ledger.holds
    ensures var e, l, l', events := v.engine, v.ledger, ReplacedLedger(v.ledger, c), Process(v.engine, c).events;
            if KeepsPriority(c, Named(e, OldKey(c), c.instrumentId))
            then ApplyAll(l, events) == l'
                 && (Exact(l) && Solvent(l) && Exact(l') && Solvent(l') ==> Steady(l, events))
            else
              var entering := Enter(Withdrawn(e, c), ReplacementIncoming(e, c), c.commandSequence).events;
              && ApplyAll(l, events) == ApplyAll(l', entering)
              && (Exact(l) && Solvent(l) && Exact(l') && Solvent(l') && Steady(l', entering) ==> Steady(l, events))
  {
    hide Enter, OpenHold, ReleaseHoldFully, OrderIn, Remove, Amend, Exact, Solvent;
    var e, l, events := v.engine, v.ledger, Process(v.engine, c).events;
    var l' := ReplacedLedger(l, c);
    assert Apply(l, events[0]) == l' && Apply(l', events[1]) == l';
    assert ApplyAll(l, events) == ApplyAll(l', events[1..]);
    assert ApplyAll(l', events[1..]) == ApplyAll(l', events[1..][1..]);
    if KeepsPriority(c, Named(e, OldKey(c), c.instrumentId)) {
      assert events[1..][1..] == [];
      assert Exact(l') && Solvent(l') ==> Steady(l', events[1..][1..]);
    } else {
      assert events[1..][1..] == Enter(Withdrawn(e, c), ReplacementIncoming(e, c), c.commandSequence).events;
    }
    assert Exact(l') && Solvent(l') && Steady(l', events[1..][1..]) ==> Steady(l', events[1..]);
  }

  lemma InPlaceQueueBacked(e: Engine, c: Command, holds: map<LiveKey, Hold>, j: InstrumentId, side: Side)
    requires Sound(e) && c.ReplaceOrder? && ReplaceRejection(e, c) == NoReason && j in e.books
    requires Backed(Dropped(e, OldKey(c), c.instrumentId), holds)
    requires BackedOrder(holds, c.instrumentId,
                         Named(e, OldKey(c), c.instrumentId).(remaining := c.newQuantity,
                                                              clientOrderId := c.newClientOrderId))
    ensures BackedQueue(holds, j, ReplaceInPlace(e, c).engine.books[j].On(side))
  {
    hide BackedOrder, BackedQueue, Sound;
    var i, id := c.instrumentId, e.directory[OldKey(c)].exchangeOrderId;
    var book := e.books[i];
    var s := SideOf(book, id);
    var order := Named(e, OldKey(c), i).(remaining := c.newQuantity, clientOrderId := c.newClientOrderId);
    assert BackedQueue(holds, j, Dropped(e, OldKey(c), i).books[j].On(side));
    if j == i && side == s {
      BackedReplaced(holds, i, book.On(s), Find(book.On(s), id), order);
    }
  }

  lemma InPlaceGood(v: Venue, c: Command, maxQuantity: Quantity)
    requires Good(v) && Replaceable(v, c, maxQuantity)
    requires KeepsPriority(c, Named(v.engine, OldKey(c), c.instrumentId))
    ensures Kept(v, c, maxQuantity)
  {
    hide Exact, Solvent, BackedQueue, Sound, Complete, ReplacedLedger, Remove, Amend, OrderIn, ApplyAll, Gate, Steady;
    var e, l, key := v.engine, v.ledger, OldKey(c);
    KeyAgrees(v, key);
    ProcessSound(e, c);
    ProcessComplete(e, c);
    ReplaceSolvent(v, c, maxQuantity);
    ReplaceLedger(v, c);
    var holds := ReplacedLedger(l, c).holds;
    RemovalBacked(e, key, c.instrumentId, l.holds, holds);
    forall j, side: Side | j in e.books ensures BackedQueue(holds, j, ReplaceInPlace(e, c).engine.books[j].On(side)) {
      InPlaceQueueBacked(e, c, holds, j, side);
    }
  }

  lemma AnewSound(v: Venue, c: Command, maxQuantity: Quantity)
    requires Good(v) && Replaceable(v, c, maxQuantity)
    ensures Sound(Withdrawn(v.engine, c).(nextExchangeOrderId := v.engine.nextExchangeOrderId))
    ensures ReplacementIncoming(v.engine, c).price > 0
  {
    hide Complete, Backed, Exact, Solvent, BookSound, StandsIn, Uncrossed, Remove, OrderIn, Gate;
    RemovalSound(v.engine, OldKey(c));
  }

  lemma AnewMid(v: Venue, c: Command, maxQuantity: Quantity)
    requires Good(v) && Replaceable(v, c, maxQuantity) && OldKey(c) in v.ledger.holds
    ensures Mid(Withdrawn(v.engine, c), ReplacedLedger(v.ledger, c), ReplacementIncoming(v.engine, c))
  {
    hide Sound, Exact, Solvent, BackedQueue, Lists, ReplacedLedger, Remove, OrderIn, Gate;
    var e, l, key := v.engine, v.ledger, OldKey(c);
    KeyAgrees(v, key);
    AnewListed(v, c, maxQuantity);
    ReplaceSolvent(v, c, maxQuantity);
    RemovalBacked(e, key, c.instrumentId, l.holds, ReplacedLedger(l, c).holds);
  }

  lemma AnewListed(v: Venue, c: Command, maxQuantity: Quantity)
    requires Good(v) && Replaceable(v, c, maxQuantity)
    ensures Complete(Withdrawn(v.engine, c))
  {
    hide Sound, Backed, Exact, Solvent, Lists, Remove, OrderIn, Gate;
    RemovalComplete(v.engine, OldKey(c));
  }

  lemma AnewGood(v: Venue, c: Command, maxQuantity: Quantity)
    requires Good(v) && Replaceable(v, c, maxQuantity)
    requires !KeepsPriority(c, Named(v.engine, OldKey(c), c.instrumentId))
    ensures Kept(v, c, maxQuantity)
  {
    hide Complete, Backed, Exact, Solvent, Mid, Sound, ReplacedLedger, Enter, OrderIn, ApplyAll, Remove, Gate, Steady;
    ReplaceSolvent(v, c, maxQuantity);
    AnewSound(v, c, maxQuantity);
    AnewMid(v, c, maxQuantity);
    ReplaceLedger(v, c);
    EnterGood(Withdrawn(v.engine, c), ReplacedLedger(v.ledger, c), ReplacementIncoming(v.engine, c), c.commandSequence);
  }

  // ---------- every command ----------

  lemma RejectedGood(v: Venue, c: Command, id: ClientOrderId, reason: RejectReason)
    requires Good(v)
    ensures var out := Rejected(v.engine, c, id, reason);
            Good(Venue(out.engine, ApplyAll(v.ledger, out.events))) && Steady(v.ledger, out.events)
  {
    hide Exact, Solvent, BookSound, Uncrossed, StandsIn, BackedQueue, Lists;
    var events := Rejected(v.engine, c, id, reason).events;
    assert events[1..] == [] && Apply(v.ledger, events[0]) == v.ledger;
    assert ApplyAll(v.ledger, events) == ApplyAll(v.ledger, []);
    assert Steady(v.ledger, events[1..]);
  }

  /** A replace that passes the gate and goes through under a key another live order has. */
  predicate TakesOverLiveId(v: Venue, c: Command, maxQuantity: Quantity) {
    ReusesLiveId(v.engine, c) && Gate(v, c, maxQuantity) == NoReason
  }

  /** A command keeps the books uncrossed, a hold behind each resting order and an order behind each
      hold, every reservation the exact sum of its holds, and nobody overspent, the last two even at
      each event in between, exactly when it does not take over a live id. */
  lemma CommandGood(v: Venue, c: Command, maxQuantity: Quantity)
    requires Good(v)
    ensures Kept(v, c, maxQuantity) <==> !TakesOverLiveId(v, c, maxQuantity)
  {
    hide Good, Enter, Remove, Amend, OrderIn, Find, CrossableFrom, ApplyAll, Steady, ReusesLiveId;
    if Gate(v, c, maxQuantity) != NoReason {
      RejectedGood(v, c, ReportId(c), Gate(v, c, maxQuantity));
    } else if ReusesLiveId(v.engine, c) {
      TakeoverNotKept(v, c, maxQuantity);
    } else {
      AdmittedGood(v, c, maxQuantity);
    }
  }

  lemma AdmittedGood(v: Venue, c: Command, maxQuantity: Quantity)
    requires Good(v) && !ReusesLiveId(v.engine, c) && Gate(v, c, maxQuantity) == NoReason
    ensures Kept(v, c, maxQuantity)
  {
    hide Good, Enter, Remove, Amend, OrderIn, Find, CrossableFrom, ApplyAll, Steady;
    var e := v.engine;
    match c
    case NewOrder(_, _, _, _, _, _, _, _) =>
      if NewRejection(e, c) == NoReason {
        NewGood(v, c, maxQuantity);
      } else {
        RejectedGood(v, c, c.clientOrderId, NewRejection(e, c));
      }
    case CancelOrder(_, _, _, _) =>
      if c.instrumentId !in e.books {
        RejectedGood(v, c, c.clientOrderId, InvalidInstrument);
      } else if !Known(e, LiveKey(c.accountId, c.clientOrderId), c.instrumentId) {
        RejectedGood(v, c, c.clientOrderId, UnknownOrderId);
      } else {
        CancelGood(v, c, maxQuantity);
      }
    case ReplaceOrder(_, _, _, _, _, _, _) =>
      if ReplaceRejection(e, c) != NoReason {
        RejectedGood(v, c, c.originalClientOrderId, ReplaceRejection(e, c));
      } else if KeepsPriority(c, Named(e, OldKey(c), c.instrumentId)) {
        InPlaceGood(v, c, maxQuantity);
      } else {
        AnewGood(v, c, maxQuantity);
      }
  }

  // ---------- the condition is exact ----------

  /** A replace that goes through leaves reservations exact, once the ledger has heard of it, precisely
      when it does not take over a live id. */
  lemma ReplaceExactly(v: Venue, c: Command, maxQuantity: Quantity)
    requires Good(v) && c.ReplaceOrder? && Gate(v, c, maxQuantity) == NoReason
             && ReplaceRejection(v.engine, c) == NoReason
    ensures Exact(Apply(v.ledger, Process(v.engine, c).events[0])) <==> !ReusesLiveId(v.engine, c)
  {
    hide Exact, Solvent, Complete, Backed, BookSound, Uncrossed, StandsIn, Enter, Remove, Amend, OrderIn, OpenHold,
      ReleaseHoldFully;
    var l := v.ledger;
    KeyAgrees(v, OldKey(c));
    ReleaseSolvent(l, OldKey(c));
    if NewKey(c) in v.engine.directory {
      KeyAgrees(v, NewKey(c));
    }
    OpenExact(Released(l, OldKey(c)), NewKey(c), NewHold(l, c));
    assert Apply(l, Process(v.engine, c).events[0]) == ReplacedLedger(l, c);
  }

  lemma TakeoverNotKept(v: Venue, c: Command, maxQuantity: Quantity)
    requires Good(v) && TakesOverLiveId(v, c, maxQuantity)
    ensures !Kept(v, c, maxQuantity)
  {
    ReplaceExactly(v, c, maxQuantity);
    hide Good, Enter, Remove, Amend, OrderIn, ApplyAll, Exact, Steady, LedgerSpec.Apply;
    NotSteady(v.ledger, GatedOut(v, c, maxQuantity).events);
  }

  lemma NotSteady(l: Ledger, events: seq<Event>)
    requires events != [] && !Exact(LedgerSpec.Apply(l, events[0]))
    ensures !Steady(l, events)
  {
    hide LedgerSpec.Apply, Exact, Solvent;
  }
}
