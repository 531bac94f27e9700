/** Runs of deposits and commands from an exchange that has just opened. */
module VenueRuns {
  import opened Domain
  import opened PriceTime
  import opened Exchange
  import opened EngineSpec
  import opened EngineLaws
  import opened Completeness
  import opened LedgerSpec
  import opened Reservations
  import opened Gated
  import opened VenueLaws

  datatype Action =
    | Cash(accountId: AccountId, amount: int)
    | Position(accountId: AccountId, instrumentId: InstrumentId, units: Quantity)
    | Submit(command: Command)

  function Act(v: Venue, action: Action, maxQuantity: Quantity): Venue {
    match action
    case Cash(a, amount) => v.(ledger := DepositCash(v.ledger, a, amount))
    case Position(a, i, units) => v.(ledger := DepositPosition(v.ledger, a, i, units))
    case Submit(c) => GatedProcess(v, c, maxQuantity)
  }

  function Opening(universe: set<InstrumentId>): Venue {
    Venue(Initial(universe), Ledger(map[], map[]))
  }

  function RunAll(v: Venue, actions: seq<Action>, maxQuantity: Quantity): Venue
    decreases |actions|
  {
    if actions == [] then v else RunAll(Act(v, actions[0], maxQuantity), actions[1..], maxQuantity)
  }

  /** The events a run announces. */
  function RunEvents(v: Venue, actions: seq<Action>, maxQuantity: Quantity): seq<Event>
    decreases |actions|
  {
    if actions == [] then []
    else
      (if actions[0].Submit? then GatedOut(v, actions[0].command, maxQuantity).events else [])
      + RunEvents(Act(v, actions[0], maxQuantity), actions[1..], maxQuantity)
  }

  /** No replace takes over a live id, and no withdrawal takes reserved cash. */
  ghost predicate Admissible(v: Venue, action: Action, maxQuantity: Quantity) {
    match action
    case Cash(a, amount) => Available(v.ledger, CashOf(a)) + amount >= 0
    case Position(_, _, _) => true
    case Submit(c) => !TakesOverLiveId(v, c, maxQuantity)
  }

  ghost predicate AllAdmissible(v: Venue, actions: seq<Action>, maxQuantity: Quantity)
    decreases |actions|
  {
    actions != [] ==> && Admissible(v, actions[0], maxQuantity)
                      && AllAdmissible(Act(v, actions[0], maxQuantity), actions[1..], maxQuantity)
  }

  /** One action keeps the invariant; a command, at every event on the way too. */
  ghost predicate KeptBy(v: Venue, action: Action, maxQuantity: Quantity) {
    match action
    case Submit(c) => Kept(v, c, maxQuantity)
    case _ => Good(Act(v, action, maxQuantity))
  }

  ghost predicate AllKept(v: Venue, actions: seq<Action>, maxQuantity: Quantity)
    decreases |actions|
  {
    actions != [] ==> && KeptBy(v, actions[0], maxQuantity)
                      && AllKept(Act(v, actions[0], maxQuantity), actions[1..], maxQuantity)
  }

  lemma OpeningGood(universe: set<InstrumentId>)
    ensures Good(Opening(universe))
  {
    InitialSound(universe);
    forall claim ensures Reserved(Opening(universe).ledger, claim) == 0 && Total(Opening(universe).ledger, claim) == 0 {
    }
  }

  lemma DepositMoves(l: Ledger, a: AccountId, i: InstrumentId, amount: int, units: Quantity, claim: Claim)
    ensures Reserved(DepositCash(l, a, amount), claim) == Reserved(l, claim)
    ensures Reserved(DepositPosition(l, a, i, units), claim) == Reserved(l, claim)
    ensures Available(DepositCash(l, a, amount), claim) ==
            Available(l, claim) + (if claim == CashOf(a) then amount else 0)
    ensures Available(DepositPosition(l, a, i, units), claim) ==
            Available(l, claim) + (if claim == UnitsOf(a, i) then units else 0)
  {
  }

  /** A deposit keeps the invariant exactly when it leaves reserved cash alone. */
  lemma DepositGood(v: Venue, a: AccountId, i: InstrumentId, amount: int, units: Quantity)
    requires Good(v)
    ensures Good(v.(ledger := DepositCash(v.ledger, a, amount))) <==> Available(v.ledger, CashOf(a)) + amount >= 0
    ensures Good(v.(ledger := DepositPosition(v.ledger, a, i, units)))
  {
    hide Sound, Complete, BackedQueue, Reserved, Available, DepositCash, DepositPosition;
    var cash, position := DepositCash(v.ledger, a, amount), DepositPosition(v.ledger, a, i, units);
    DepositHolds(v.ledger, a, i, amount, units);
    forall claim
      ensures Reserved(cash, claim) == Reserved(v.ledger, claim) == Reserved(position, claim)
      ensures Available(cash, claim) == Available(v.ledger, claim) + (if claim == CashOf(a) then amount else 0)
      ensures Available(position, claim) >= Available(v.ledger, claim)
    {
      DepositMoves(v.ledger, a, i, amount, units, claim);
    }
    assert Available(cash, CashOf(a)) == Available(v.ledger, CashOf(a)) + amount;
  }

  lemma DepositHolds(l: Ledger, a: AccountId, i: InstrumentId, amount: int, units: Quantity)
    ensures DepositCash(l, a, amount).holds == l.holds == DepositPosition(l, a, i, units).holds
  {
  }

  /** An action keeps the invariant exactly when it is admissible. */
  lemma ActionGood(v: Venue, action: Action, maxQuantity: Quantity)
    requires Good(v)
    ensures KeptBy(v, action, maxQuantity) <==> Admissible(v, action, maxQuantity)
  {
    hide Good, GatedOut, ApplyAll, Steady, TakesOverLiveId, Available;
    match action {
      case Cash(a, amount) => DepositGood(v, a, 0, amount, 0);
      case Position(a, i, units) => DepositGood(v, a, i, 0, units);
      case Submit(c) => CommandGood(v, c, maxQuantity);
    }
  }

  /** A run keeps the invariant all the way, each event of each command included, exactly when it is
      admissible: then in every state it reaches the books are uncrossed, holds and resting orders match
      one to one, reservations are exact and nobody is overspent. */
  lemma {:induction false} RunGood(v: Venue, actions: seq<Action>, maxQuantity: Quantity)
    requires Good(v)
    ensures AllKept(v, actions, maxQuantity) <==> AllAdmissible(v, actions, maxQuantity)
    ensures AllAdmissible(v, actions, maxQuantity) ==> Good(RunAll(v, actions, maxQuantity))
    decreases |actions|
  {
    hide Good, GatedOut, ApplyAll, Steady, Admissible;
    if actions != [] {
      ActionGood(v, actions[0], maxQuantity);
      if KeptBy(v, actions[0], maxQuantity) {
        RunGood(Act(v, actions[0], maxQuantity), actions[1..], maxQuantity);
      }
    }
  }

  /** The order at a place in a book. */
  ghost predicate RestsAt(e: Engine, i: InstrumentId, side: Side, k: nat, o: BookOrder) {
    i in e.books && k < |e.books[i].On(side)| && e.books[i].On(side)[k] == o
  }

  /** What the invariant means for holds: each is behind exactly one resting order, with its key,
      side, price and remaining quantity, and each resting order has one of its own. */
  lemma HoldsMatchOrders(v: Venue, key: LiveKey)
    requires Good(v)
    ensures key in v.ledger.holds ==>
              var h := v.ledger.holds[key];
              exists k, o :: RestsAt(v.engine, h.instrumentId, h.side, k, o) && KeyOf(o) == key
                             && o.price == h.limitPrice && o.remaining == h.remaining
    ensures forall i, side: Side, k, o | RestsAt(v.engine, i, side, k, o) && KeyOf(o) == key ::
              key in v.ledger.holds && v.ledger.holds[key] == Hold(i, side, o.price, o.remaining)
    ensures forall i, side: Side, k, o, i', side': Side, k', o' |
              RestsAt(v.engine, i, side, k, o) && RestsAt(v.engine, i', side', k', o')
                && KeyOf(o) == KeyOf(o') == key ::
              i == i' && side == side' && k == k'
  {
    var e, holds := v.engine, v.ledger.holds;
    forall i, side: Side, k: nat, o | RestsAt(e, i, side, k, o) && KeyOf(o) == key
      ensures key in holds && holds[key] == Hold(i, side, o.price, o.remaining)
      ensures ListsOrder(e.directory, i, o) && o.exchangeOrderId in Ids(e.books[i].On(side))
    {
      QueueBacked(e, holds, i, side);
      var queue := e.books[i].On(side);
      assert BackedOrder(holds, i, queue[k]) && ListsOrder(e.directory, i, queue[k]);
      assert OrderSound(side, queue[k], e.nextExchangeOrderId);
      InIds(queue, k);
    }
    if key in holds {
      KeyAgrees(v, key);
      var i := e.directory[key].instrumentId;
      var id := e.directory[key].exchangeOrderId;
      Located(e.books[i], e.nextExchangeOrderId, id);
      var side := SideOf(e.books[i], id);
      assert RestsAt(e, i, side, Find(e.books[i].On(side), id), Named(e, key, i));
    }
  }

  // ---------- conservation ----------

  /** What a run deposits. */
  function Deposited(actions: seq<Action>, asset: Asset): int {
    if actions == [] then 0
    else
      (match actions[0]
       case Cash(_, amount) => if asset == LedgerSpec.Cash then amount else 0
       case Position(_, i, units) => if asset == Units(i) then units else 0
       case Submit(_) => 0)
      + Deposited(actions[1..], asset)
  }

  /** Total cash and the total units of each instrument change only by deposits, in every run, of
      whatever commands. */
  lemma {:induction false} RunConserves(v: Venue, actions: seq<Action>, maxQuantity: Quantity, asset: Asset)
    ensures TotalOwned(RunAll(v, actions, maxQuantity).ledger.accounts, asset) ==
            TotalOwned(v.ledger.accounts, asset) + Deposited(actions, asset)
    decreases |actions|
  {
    hide TotalOwned, GatedOut, DepositCash, DepositPosition, ApplyAll;
    if actions != [] {
      match actions[0] {
        case Cash(a, amount) => DepositAdds(v.ledger, a, 0, amount, 0, asset);
        case Position(a, i, units) => DepositAdds(v.ledger, a, i, 0, units, asset);
        case Submit(c) => ApplyAllConserves(v.ledger, GatedOut(v, c, maxQuantity).events, asset);
      }
      RunConserves(Act(v, actions[0], maxQuantity), actions[1..], maxQuantity, asset);
    }
  }

  /** What a run deposits to one account. */
  function DepositedTo(actions: seq<Action>, claim: Claim): int {
    if actions == [] then 0
    else
      (match actions[0]
       case Cash(a, amount) => if claim == CashOf(a) then amount else 0
       case Position(a, i, units) => if claim == UnitsOf(a, i) then units else 0
       case Submit(_) => 0)
      + DepositedTo(actions[1..], claim)
  }

  /** What an account owns after a run, of whatever commands, is what it owned, what was deposited to it,
      and what the trades of the run moved. */
  lemma {:induction false} RunMoves(v: Venue, actions: seq<Action>, maxQuantity: Quantity, claim: Claim)
    ensures Total(RunAll(v, actions, maxQuantity).ledger, claim) ==
            Total(v.ledger, claim) + DepositedTo(actions, claim) + Movements(RunEvents(v, actions, maxQuantity), claim)
    decreases |actions|
  {
    hide GatedOut, DepositCash, DepositPosition, ApplyAll, Movements, Total;
    NothingMoves(claim);
    if actions != [] {
      var v1 := Act(v, actions[0], maxQuantity);
      var rest := RunEvents(v1, actions[1..], maxQuantity);
      match actions[0] {
        case Cash(a, amount) =>
          DepositOwned(v.ledger, a, 0, amount, 0, claim);
          assert [] + rest == rest;
        case Position(a, i, units) =>
          DepositOwned(v.ledger, a, i, 0, units, claim);
          assert [] + rest == rest;
        case Submit(c) =>
          ApplyAllMoves(v.ledger, GatedOut(v, c, maxQuantity).events, claim);
          MovementsConcat(GatedOut(v, c, maxQuantity).events, rest, claim);
      }
      RunMoves(v1, actions[1..], maxQuantity, claim);
    }
  }

  lemma NothingMoves(claim: Claim)
    ensures Movements([], claim) == 0
  {
  }

  lemma DepositOwned(l: Ledger, a: AccountId, i: InstrumentId, amount: int, units: Quantity, claim: Claim)
    ensures Total(DepositCash(l, a, amount), claim) == Total(l, claim) + (if claim == CashOf(a) then amount else 0)
    ensures Total(DepositPosition(l, a, i, units), claim) ==
            Total(l, claim) + (if claim == UnitsOf(a, i) then units else 0)
  {
  }
}
