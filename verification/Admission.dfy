/** Which commands the gate refuses, and what the order-size limit means for whole runs
    (risk_engine.cpp, risk_gated_engine.cpp). */
module Admission {
  import opened Domain
  import opened PriceTime
  import opened Exchange
  import opened Matching
  import opened EngineSpec
  import opened EngineLaws
  import opened EngineTheorems
  import opened Completeness
  import opened LedgerSpec
  import opened Reservations
  import opened Gated
  import opened VenueLaws
  import opened VenueRuns

  // ---------- who gets in ----------

  /** The gate turns the command away: one rejection, and no book, account or hold changes. */
  ghost predicate TurnedAway(v: Venue, c: Command, id: ClientOrderId, reason: RejectReason, maxQuantity: Quantity) {
    && Refuses(v.engine, c, id, reason, GatedOut(v, c, maxQuantity))
    && GatedProcess(v, c, maxQuantity) ==
       v.(engine := v.engine.(nextEventSequence := v.engine.nextEventSequence + 1))
  }

  /** The engine gets the command, and the ledger all that the engine announces. */
  ghost predicate LetThrough(v: Venue, c: Command, maxQuantity: Quantity) {
    && GatedOut(v, c, maxQuantity) == Process(v.engine, c)
    && GatedProcess(v, c, maxQuantity) ==
       Venue(Process(v.engine, c).engine, ApplyAll(v.ledger, Process(v.engine, c).events))
  }

  /** Why a hold an account cannot pay for is refused. */
  function Shortage(side: Side): RejectReason {
    if side == Buy then InsufficientFunds else InsufficientPosition
  }

  /** A new order is turned away exactly when its instrument is not traded, it is larger than the limit,
      or what it would claim, at its limit price, exceeds what is available. */
  lemma NewAdmission(v: Venue, c: Command, maxQuantity: Quantity)
    requires c.NewOrder?
    ensures var key, hold := LiveKey(c.accountId, c.clientOrderId), Hold(c.instrumentId, c.side, c.price, c.quantity);
            var claim := ClaimOf(key, hold);
            if c.instrumentId !in v.engine.books
            then TurnedAway(v, c, c.clientOrderId, InvalidInstrument, maxQuantity)
            else if c.quantity > maxQuantity then TurnedAway(v, c, c.clientOrderId, OrderTooLarge, maxQuantity)
            else if Weigh(claim, key, hold) > Available(v.ledger, claim)
            then TurnedAway(v, c, c.clientOrderId, Shortage(c.side), maxQuantity)
            else LetThrough(v, c, maxQuantity)
  {
    hide Process;
    if Gate(v, c, maxQuantity) != NoReason {
      RejectionUnheard(v, c, maxQuantity);
    }
  }

  /** A replace is turned away exactly when its instrument is not traded, it is larger than the limit, or
      the part of its claim beyond the hold it replaces exceeds what is available. */
  lemma ReplaceAdmission(v: Venue, c: Command, maxQuantity: Quantity)
    requires c.ReplaceOrder?
    ensures var key, id := LiveKey(c.accountId, c.originalClientOrderId), c.originalClientOrderId;
            if c.instrumentId !in v.engine.books then TurnedAway(v, c, id, InvalidInstrument, maxQuantity)
            else if c.newQuantity > maxQuantity then TurnedAway(v, c, id, OrderTooLarge, maxQuantity)
            else if key !in v.ledger.holds || v.ledger.holds[key].instrumentId != c.instrumentId
            then LetThrough(v, c, maxQuantity)
            else
              var before := v.ledger.holds[key];
              var after := Hold(c.instrumentId, before.side, c.newPrice, c.newQuantity);
              var claim := ClaimOf(key, before);
              var beyond := Weigh(claim, key, after) - Weigh(claim, key, before);
              if Available(v.ledger, claim) < 0 || beyond > Available(v.ledger, claim)
              then TurnedAway(v, c, id, Shortage(before.side), maxQuantity)
              else LetThrough(v, c, maxQuantity)
  {
    hide Process;
    if Gate(v, c, maxQuantity) != NoReason {
      RejectionUnheard(v, c, maxQuantity);
    }
  }

  lemma CancelAdmission(v: Venue, c: Command, maxQuantity: Quantity)
    requires c.CancelOrder?
    ensures LetThrough(v, c, maxQuantity)
  {
  }

  /** The ledger does not hear of a rejection. */
  lemma RejectionUnheard(v: Venue, c: Command, maxQuantity: Quantity)
    requires Gate(v, c, maxQuantity) != NoReason
    ensures TurnedAway(v, c, ReportId(c), Gate(v, c, maxQuantity), maxQuantity)
  {
    hide Gate, Process;
    var events := GatedOut(v, c, maxQuantity).events;
    assert events[1..] == [];
    assert ApplyAll(v.ledger, events) == ApplyAll(Apply(v.ledger, events[0]), []);
  }

  /** What the check on a resting order means: it gets in exactly when the reservation it is about to
      make leaves nobody overspent. */
  lemma NewMeansSolvent(v: Venue, c: Command, maxQuantity: Quantity)
    requires Good(v) && c.NewOrder? && c.timeInForce == GTC
    requires c.instrumentId in v.engine.books && c.price > 0 && 0 < c.quantity <= maxQuantity
    requires LiveKey(c.accountId, c.clientOrderId) !in v.engine.directory
    ensures var key := LiveKey(c.accountId, c.clientOrderId);
            Gate(v, c, maxQuantity) == NoReason <==>
            Solvent(OpenHold(v.ledger, key, Hold(c.instrumentId, c.side, c.price, c.quantity)))
  {
    hide Sound, Complete, Backed, Exact, Solvent, OpenHold;
    OpenSolvent(v.ledger, LiveKey(c.accountId, c.clientOrderId),
                Hold(c.instrumentId, c.side, c.price, c.quantity));
  }

  /** The same of a replace: the old reservation is given back first. */
  lemma ReplaceMeansSolvent(v: Venue, c: Command, maxQuantity: Quantity)
    requires Good(v) && c.ReplaceOrder? && OldKey(c) in v.engine.directory
    requires v.engine.directory[OldKey(c)].instrumentId == c.instrumentId
    requires c.newPrice > 0 && 0 < c.newQuantity <= maxQuantity
    requires NewKey(c) == OldKey(c) || NewKey(c) !in v.engine.directory
    ensures OldKey(c) in v.ledger.holds
    ensures Gate(v, c, maxQuantity) == NoReason <==> Solvent(ReplacedLedger(v.ledger, c))
  {
    hide Sound, Complete, Backed, Exact, Solvent, OpenHold, Released, Named, RestsIn;
    var l, key := v.ledger, OldKey(c);
    KeyAgrees(v, key);
    ReleaseSolvent(l, key);
    OpenSolvent(Released(l, key), NewKey(c), NewHold(l, c));
    SolventAt(l, ClaimOf(key, l.holds[key]));
    assert ClaimOf(NewKey(c), NewHold(l, c)) == ClaimOf(key, l.holds[key]);
  }

  // ---------- the limit, over whole runs ----------

  ghost predicate QueueWithin(queue: seq<BookOrder>, limit: Quantity) {
    forall i | 0 <= i < |queue| :: queue[i].remaining <= limit
  }

  ghost predicate BookWithin(book: Book, limit: Quantity) {
    QueueWithin(book.bids, limit) && QueueWithin(book.asks, limit)
  }

  ghost predicate EngineWithin(e: Engine, limit: Quantity) {
    forall i | i in e.books :: BookWithin(e.books[i], limit)
  }

  ghost predicate LedgerWithin(l: Ledger, limit: Quantity) {
    forall key | key in l.holds :: l.holds[key].remaining <= limit
  }

  /** No quantity an event speaks of exceeds the limit. */
  ghost predicate EventWithin(x: Event, limit: Quantity) {
    match x
    case OrderAccepted(_, _, _, _, _, _, _, _, quantity, _) => quantity <= limit
    case OrderReplaced(_, _, _, _, _, _, _, _, newQuantity) => newQuantity <= limit
    case TradeExecuted(_, _, _, _, quantity, _, buyer, seller) =>
      quantity <= limit && buyer.remaining <= limit && seller.remaining <= limit
    case BookOrderAdded(_, _, _, _, _, quantity) => quantity <= limit
    case BookOrderReduced(_, _, _, _, _, newRemaining) => newRemaining <= limit
    case _ => true
  }

  ghost predicate EventsWithin(events: seq<Event>, limit: Quantity) {
    forall i | 0 <= i < |events| :: EventWithin(events[i], limit)
  }

  /** What a command asks for. */
  function Asked(c: Command): Quantity {
    match c
    case NewOrder(_, _, _, _, _, _, quantity, _) => quantity
    case ReplaceOrder(_, _, _, _, _, _, newQuantity) => newQuantity
    case CancelOrder(_, _, _, _) => 0
  }

  lemma {:induction false} MatchWithin(contra: seq<BookOrder>, incoming: Incoming, directory: Directory,
                                       sequence: nat, commandSequence: nat, limit: Quantity)
    requires QueueWithin(contra, limit) && incoming.remaining <= limit
    ensures var m := Match(contra, incoming, directory, sequence, commandSequence);
            QueueWithin(m.contra, limit) && EventsWithin(m.events, limit)
    decreases |contra|, incoming.remaining
  {
    if !Stops(contra, incoming) {
      var step := MatchStep(contra, incoming, directory, sequence, commandSequence);
      assert QueueWithin(step.contra, limit) && EventsWithin(step.events, limit);
      MatchWithin(step.contra, step.incoming, step.directory, sequence + 2, commandSequence, limit);
    }
  }

  lemma EnterWithin(e: Engine, order: Incoming, commandSequence: nat, limit: Quantity)
    requires order.instrumentId in e.books && EngineWithin(e, limit) && order.remaining <= limit
    ensures var out := Enter(e, order, commandSequence);
            EngineWithin(out.engine, limit) && EventsWithin(out.events, limit)
  {
    var book := e.books[order.instrumentId];
    var own, contra := book.On(order.side), book.On(Opposite(order.side));
    var m := EnterMatch(e, order, commandSequence);
    MatchWithin(contra, order, e.directory, e.nextEventSequence, commandSequence, limit);
    InsertWithin(order.side, own, AsBookOrder(m.incoming), limit);
    EnterShape(e, order, commandSequence);
    assert EventsWithin(Rest(AfterMatch(e, order, m), m.incoming).events, limit) by {
      hide Match, Insert;
    }
    hide Match, Insert, Rest;
  }

  lemma InsertWithin(side: Side, queue: seq<BookOrder>, order: BookOrder, limit: Quantity)
    requires QueueWithin(queue, limit) && order.remaining <= limit
    ensures QueueWithin(Insert(side, queue, order), limit)
  {
  }

  /** An order that leaves, or is edited within the limit, leaves its book within it. */
  lemma AmendWithin(book: Book, id: ExchangeOrderId, order: BookOrder, limit: Quantity)
    requires BookWithin(book, limit) && RestsIn(book, id)
    ensures BookWithin(Remove(book, id), limit)
    ensures order.remaining <= limit ==> BookWithin(Amend(book, id, order), limit)
  {
  }

  /** An engine that is asked for no more than the limit stays within it. */
  lemma ProcessWithin(e: Engine, c: Command, limit: Quantity)
    requires EngineWithin(e, limit) && Asked(c) <= limit
    ensures EngineWithin(Process(e, c).engine, limit) && EventsWithin(Process(e, c).events, limit)
  {
    hide Enter, RestsIn, CrossableFrom, BookWithin, Remove, Amend, OrderIn;
    match c
    case NewOrder(_, _, _, _, _, _, _, _) =>
      if NewRejection(e, c) == NoReason {
        EnterWithin(Stamped(e), NewIncoming(e, c), c.commandSequence, limit);
      }
    case CancelOrder(_, _, _, _) =>
      var key := LiveKey(c.accountId, c.clientOrderId);
      if Known(e, key, c.instrumentId) {
        var o := Named(e, key, c.instrumentId);
        AmendWithin(e.books[c.instrumentId], o.exchangeOrderId, o, limit);
      }
    case ReplaceOrder(_, _, _, _, _, _, _) =>
      if ReplaceRejection(e, c) == NoReason {
        var o := Named(e, LiveKey(c.accountId, c.originalClientOrderId), c.instrumentId);
        var edited := o.(remaining := c.newQuantity, clientOrderId := c.newClientOrderId);
        AmendWithin(e.books[c.instrumentId], o.exchangeOrderId, edited, limit);
        EnterWithin(Withdrawn(e, c), ReplacementIncoming(e, c), c.commandSequence, limit);
      }
  }

  /** Only events within the limit open holds, so holds stay within it. */
  lemma ApplyWithin(l: Ledger, x: Event, limit: Quantity)
    requires LedgerWithin(l, limit) && EventWithin(x, limit)
    ensures LedgerWithin(Apply(l, x), limit)
  {
    hide SettleLeg, Reserve;
    match x
    case OrderAccepted(_, _, a, id, _, i, side, price, quantity, _) =>
      OpenWithin(l, LiveKey(a, id), Hold(i, side, price, quantity), limit);
    case OrderReplaced(_, _, a, original, new_, _, i, newPrice, newQuantity) =>
      var key := LiveKey(a, original);
      if key in l.holds {
        ReleaseWithin(l, key, limit);
        OpenWithin(Released(l, key), LiveKey(a, new_), Hold(i, l.holds[key].side, newPrice, newQuantity), limit);
      }
    case OrderCancelled(_, _, a, id, _, _) =>
      if LiveKey(a, id) in l.holds {
        ReleaseWithin(l, LiveKey(a, id), limit);
      }
    case TradeExecuted(_, _, i, price, quantity, _, buyer, seller) =>
      LegMoves(l, buyer, Buy, i, price, quantity, CashOf(0));
      LegMoves(SettleLeg(l, buyer, Buy, i, price, quantity), seller, Sell, i, price, quantity, CashOf(0));
    case _ =>
  }

  lemma OpenWithin(l: Ledger, key: LiveKey, hold: Hold, limit: Quantity)
    requires LedgerWithin(l, limit) && hold.remaining <= limit
    ensures LedgerWithin(OpenHold(l, key, hold), limit)
  {
  }

  lemma ReleaseWithin(l: Ledger, key: LiveKey, limit: Quantity)
    requires LedgerWithin(l, limit) && key in l.holds
    ensures LedgerWithin(Released(l, key), limit)
  {
  }

  lemma {:induction false} ApplyAllWithin(l: Ledger, events: seq<Event>, limit: Quantity)
    requires LedgerWithin(l, limit) && EventsWithin(events, limit)
    ensures LedgerWithin(ApplyAll(l, events), limit)
    decreases |events|
  {
    hide Apply, LedgerWithin;
    if events != [] {
      ApplyWithin(l, events[0], limit);
      ApplyAllWithin(Apply(l, events[0]), events[1..], limit);
    }
  }

  lemma GatedWithin(v: Venue, c: Command, maxQuantity: Quantity)
    requires EngineWithin(v.engine, maxQuantity) && LedgerWithin(v.ledger, maxQuantity)
    ensures var v' := GatedProcess(v, c, maxQuantity);
            && EngineWithin(v'.engine, maxQuantity) && LedgerWithin(v'.ledger, maxQuantity)
            && EventsWithin(GatedOut(v, c, maxQuantity).events, maxQuantity)
  {
    hide Process, ApplyAll, LedgerWithin;
    if Gate(v, c, maxQuantity) == NoReason {
      ProcessWithin(v.engine, c, maxQuantity);
    }
    ApplyAllWithin(v.ledger, GatedOut(v, c, maxQuantity).events, maxQuantity);
  }

  lemma {:induction false} AllWithin(v: Venue, actions: seq<Action>, maxQuantity: Quantity)
    requires EngineWithin(v.engine, maxQuantity) && LedgerWithin(v.ledger, maxQuantity)
    ensures var v' := RunAll(v, actions, maxQuantity);
            && EngineWithin(v'.engine, maxQuantity) && LedgerWithin(v'.ledger, maxQuantity)
            && EventsWithin(RunEvents(v, actions, maxQuantity), maxQuantity)
    decreases |actions|
  {
    hide GatedOut, EngineWithin, ApplyAll;
    if actions != [] {
      if actions[0].Submit? {
        GatedWithin(v, actions[0].command, maxQuantity);
      }
      AllWithin(Act(v, actions[0], maxQuantity), actions[1..], maxQuantity);
    }
  }

  /** From an opening, in every run, of whatever commands: no resting order, no hold and no quantity that is
      announced, of a trade or of what it leaves, exceeds the limit. */
  lemma RunWithin(universe: set<InstrumentId>, actions: seq<Action>, maxQuantity: Quantity)
    ensures var v := RunAll(Opening(universe), actions, maxQuantity);
            && EngineWithin(v.engine, maxQuantity)
            && LedgerWithin(v.ledger, maxQuantity)
            && EventsWithin(RunEvents(Opening(universe), actions, maxQuantity), maxQuantity)
  {
    AllWithin(Opening(universe), actions, maxQuantity);
  }

  // ---------- event numbers, over whole runs ----------

  lemma GatedNumbered(v: Venue, c: Command, maxQuantity: Quantity)
    ensures var out := GatedOut(v, c, maxQuantity);
            Numbered(out.events, v.engine.nextEventSequence)
            && out.engine.nextEventSequence == v.engine.nextEventSequence + |out.events|
  {
    hide Process, Gate;
    if Gate(v, c, maxQuantity) == NoReason {
      ProcessNumbered(v.engine, c);
    }
  }

  lemma {:induction false} AllNumbered(v: Venue, actions: seq<Action>, maxQuantity: Quantity)
    ensures Numbered(RunEvents(v, actions, maxQuantity), v.engine.nextEventSequence)
    decreases |actions|
  {
    hide GatedOut, ApplyAll, Numbered;
    if actions == [] {
      NothingNumbered(v.engine.nextEventSequence);
    } else {
      var v1 := Act(v, actions[0], maxQuantity);
      var rest := RunEvents(v1, actions[1..], maxQuantity);
      AllNumbered(v1, actions[1..], maxQuantity);
      if actions[0].Submit? {
        GatedNumbered(v, actions[0].command, maxQuantity);
        NumberedConcat(GatedOut(v, actions[0].command, maxQuantity).events, rest, v.engine.nextEventSequence);
      } else {
        assert [] + rest == rest;
      }
    }
  }

  lemma NothingNumbered(first: nat)
    ensures Numbered([], first)
  {
  }

  /** From an opening, all that a run announces, the gate's refusals included, is numbered 1, 2, 3 and so on. */
  lemma RunNumbered(universe: set<InstrumentId>, actions: seq<Action>, maxQuantity: Quantity)
    ensures var events := RunEvents(Opening(universe), actions, maxQuantity);
            forall i | 0 <= i < |events| :: events[i].eventSequence == 1 + i
  {
    hide RunEvents;
    AllNumbered(Opening(universe), actions, maxQuantity);
  }
}
