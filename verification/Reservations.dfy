/** Reservations against holds: what is reserved is exactly what the open holds claim, and no
    account's reservations exceed what it owns. */
module Reservations {
  import opened Domain
  import opened PriceTime
  import opened Exchange
  import opened LedgerSpec

  /** What a hold can claim: an account's cash, or its units of one instrument. */
  datatype Claim = CashOf(account: AccountId) | UnitsOf(account: AccountId, instrumentId: InstrumentId)

  function Weigh(claim: Claim, key: LiveKey, hold: Hold): int {
    match claim
    case CashOf(a) => if key.accountId == a && hold.side == Buy then hold.remaining * hold.limitPrice else 0
    case UnitsOf(a, i) =>
      if key.accountId == a && hold.side == Sell && hold.instrumentId == i then hold.remaining else 0
  }

  /** The sum of what the open holds claim. */
  ghost function Held(holds: map<LiveKey, Hold>, claim: Claim): int
    decreases |holds|
  {
    if holds == map[] then 0
    else
      var k :| k in holds;
      Weigh(claim, k, holds[k]) + Held(holds - {k}, claim)
  }

  function Reserved(l: Ledger, claim: Claim): int {
    match claim
    case CashOf(a) => AccountOf(l, a).cashReserved
    case UnitsOf(a, i) => At(AccountOf(l, a).positionReserved, i)
  }

  function Total(l: Ledger, claim: Claim): int {
    match claim
    case CashOf(a) => AccountOf(l, a).cashTotal
    case UnitsOf(a, i) => At(AccountOf(l, a).positionTotal, i)
  }

  function Available(l: Ledger, claim: Claim): int {
    Total(l, claim) - Reserved(l, claim)
  }

  /** Every reserved amount is exactly the sum over its open holds. */
  ghost predicate Exact(l: Ledger) {
    forall claim :: Reserved(l, claim) == Held(l.holds, claim)
  }

  /** No account is overspent. */
  ghost predicate Solvent(l: Ledger) {
    forall claim :: Available(l, claim) >= 0
  }

  lemma {:induction false} HeldWithout(holds: map<LiveKey, Hold>, claim: Claim, key: LiveKey)
    requires key in holds
    ensures Held(holds, claim) == Weigh(claim, key, holds[key]) + Held(holds - {key}, claim)
    decreases |holds|
  {
    var k :| k in holds && Held(holds, claim) == Weigh(claim, k, holds[k]) + Held(holds - {k}, claim);
    if k != key {
      HeldWithout(holds - {k}, claim, key);
      HeldWithout(holds - {key}, claim, k);
      assert holds - {key} - {k} == holds - {k} - {key};
    }
  }

  lemma HeldUpdate(holds: map<LiveKey, Hold>, claim: Claim, key: LiveKey, hold: Hold)
    ensures Held(holds[key := hold], claim) ==
            Held(holds, claim) - (if key in holds then Weigh(claim, key, holds[key]) else 0) + Weigh(claim, key, hold)
  {
    HeldWithout(holds[key := hold], claim, key);
    assert holds[key := hold] - {key} == holds - {key};
    if key in holds {
      HeldWithout(holds, claim, key);
    } else {
      assert holds - {key} == holds;
    }
  }

  /** What one reservation move does to every claim. */
  lemma ReserveMoves(l: Ledger, key: LiveKey, i: InstrumentId, side: Side, price: Price, amount: int, claim: Claim)
    ensures var r := Reserve(l, key.accountId, i, side, price, amount);
            && r.holds == l.holds
            && Total(r, claim) == Total(l, claim)
            && Reserved(r, claim) == Reserved(l, claim)
               + (match claim
                  case CashOf(a) => if a == key.accountId && side == Buy then amount * price else 0
                  case UnitsOf(a, j) => if a == key.accountId && side == Sell && j == i then amount else 0)
  {
  }

  // ---------- opening and releasing ----------

  /** The claim a hold weighs on. */
  function ClaimOf(key: LiveKey, hold: Hold): Claim {
    if hold.side == Buy then CashOf(key.accountId) else UnitsOf(key.accountId, hold.instrumentId)
  }

  /** What opening a hold does to every claim. */
  lemma OpenMoves(l: Ledger, key: LiveKey, hold: Hold, claim: Claim)
    requires Exact(l) && hold.remaining > 0
    ensures var after := OpenHold(l, key, hold);
            && after.holds == l.holds[key := hold]
            && Total(after, claim) == Total(l, claim)
            && Reserved(after, claim) == Reserved(l, claim) + Weigh(claim, key, hold)
            && Reserved(after, claim) - Held(after.holds, claim) ==
               (if key in l.holds then Weigh(claim, key, l.holds[key]) else 0)
  {
    hide Reserve;
    ReserveMoves(l, key, hold.instrumentId, hold.side, hold.limitPrice, hold.remaining, claim);
    HeldUpdate(l.holds, claim, key, hold);
    SameAccounts(OpenHold(l, key, hold),
                 Reserve(l, key.accountId, hold.instrumentId, hold.side, hold.limitPrice, hold.remaining), claim);
  }

  /** Opening a hold stays exact precisely when it does not overwrite one that claims something. */
  lemma OpenExact(l: Ledger, key: LiveKey, hold: Hold)
    requires Exact(l) && hold.remaining > 0
    requires key in l.holds ==> l.holds[key].remaining > 0 && l.holds[key].limitPrice > 0
    ensures Exact(OpenHold(l, key, hold)) <==> key !in l.holds
  {
    hide OpenHold;
    var after := OpenHold(l, key, hold);
    forall claim
      ensures Reserved(after, claim) - Held(after.holds, claim) ==
              if key in l.holds then Weigh(claim, key, l.holds[key]) else 0
    {
      OpenMoves(l, key, hold, claim);
    }
    if key in l.holds {
      var h := l.holds[key];
      assert h.remaining * h.limitPrice > 0 by { Positive(h.remaining, h.limitPrice); }
      assert Weigh(ClaimOf(key, h), key, h) > 0;
      assert Reserved(after, ClaimOf(key, h)) - Held(after.holds, ClaimOf(key, h)) != 0;
    }
  }

  /** A fresh hold that what is available covers leaves the account solvent, and one it does not
      cover does not. */
  lemma OpenSolvent(l: Ledger, key: LiveKey, hold: Hold)
    requires Exact(l) && Solvent(l) && hold.remaining > 0 && key !in l.holds
    ensures Exact(OpenHold(l, key, hold)) && OpenHold(l, key, hold).holds == l.holds[key := hold]
    ensures Solvent(OpenHold(l, key, hold)) <==>
            Weigh(ClaimOf(key, hold), key, hold) <= Available(l, ClaimOf(key, hold))
  {
    hide OpenHold;
    var after := OpenHold(l, key, hold);
    OpenExact(l, key, hold);
    forall claim
      ensures Available(after, claim) ==
              Available(l, claim) - (if claim == ClaimOf(key, hold) then Weigh(claim, key, hold) else 0)
      ensures after.holds == l.holds[key := hold]
    {
      OpenMoves(l, key, hold, claim);
    }
    assert Available(after, ClaimOf(key, hold)) ==
           Available(l, ClaimOf(key, hold)) - Weigh(ClaimOf(key, hold), key, hold);
  }

  lemma Positive(x: int, y: int)
    requires x > 0 && y > 0
    ensures x * y > 0
  {
  }

  lemma SameAccounts(a: Ledger, b: Ledger, claim: Claim)
    requires a.accounts == b.accounts
    ensures Reserved(a, claim) == Reserved(b, claim) && Total(a, claim) == Total(b, claim)
  {
  }

  /** A ledger without one hold, its reservation released. */
  function Released(l: Ledger, key: LiveKey): Ledger
    requires key in l.holds
  {
    var released := ReleaseHoldFully(l, key.accountId, l.holds[key]);
    released.(holds := released.holds - {key})
  }

  /** Releasing a hold frees exactly what it claimed. */
  lemma ReleaseExact(l: Ledger, key: LiveKey, claim: Claim)
    requires Exact(l) && key in l.holds
    ensures Released(l, key).holds == l.holds - {key}
    ensures Total(Released(l, key), claim) == Total(l, claim)
    ensures Reserved(Released(l, key), claim) == Reserved(l, claim) - Weigh(claim, key, l.holds[key])
    ensures Reserved(Released(l, key), claim) == Held(l.holds - {key}, claim)
  {
    hide Reserve, Reserved, Total, Held;
    var h := l.holds[key];
    Negated(h.remaining, h.limitPrice);
    ReserveMoves(l, key, h.instrumentId, h.side, h.limitPrice, 0 - h.remaining, claim);
    HeldWithout(l.holds, claim, key);
    var r := Reserve(l, key.accountId, h.instrumentId, h.side, h.limitPrice, 0 - h.remaining);
    SameAccounts(Released(l, key), if h.remaining == 0 then l else r, claim);
  }

  lemma Negated(x: int, y: int)
    ensures (0 - x) * y == 0 - x * y
  {
  }

  /** Releasing a hold keeps the ledger exact and solvent and frees its claim. */
  lemma ReleaseSolvent(l: Ledger, key: LiveKey)
    requires Exact(l) && Solvent(l) && key in l.holds && l.holds[key].limitPrice > 0
    ensures Exact(Released(l, key)) && Solvent(Released(l, key)) && Released(l, key).holds == l.holds - {key}
    ensures var claim := ClaimOf(key, l.holds[key]);
            Available(Released(l, key), claim) == Available(l, claim) + Weigh(claim, key, l.holds[key])
  {
    hide Released;
    var h := l.holds[key];
    assert h.remaining * h.limitPrice >= 0 by { Monotone(h.remaining, 0, h.limitPrice); }
    forall claim
      ensures Reserved(Released(l, key), claim) == Held(l.holds - {key}, claim)
      ensures Available(Released(l, key), claim) == Available(l, claim) + Weigh(claim, key, h)
      ensures Released(l, key).holds == l.holds - {key}
    {
      ReleaseExact(l, key, claim);
    }
    var own := ClaimOf(key, h);
    assert Available(Released(l, key), own) == Available(l, own) + Weigh(own, key, h);
  }

  // ---------- one leg of a trade ----------

  function LegKey(leg: Counterparty): LiveKey {
    LiveKey(leg.accountId, leg.clientOrderId)
  }

  /** The hold behind a leg, if there is one, is this order's, at `limit`, as it stood before the
      fill. */
  ghost predicate LegBacked(l: Ledger, leg: Counterparty, side: Side, i: InstrumentId, limit: Price,
                            quantity: Quantity) {
    LegKey(leg) in l.holds ==> l.holds[LegKey(leg)] == Hold(i, side, limit, leg.remaining + quantity)
  }

  function HoldsAfterLeg(holds: map<LiveKey, Hold>, leg: Counterparty): map<LiveKey, Hold> {
    var key := LegKey(leg);
    if key !in holds then holds
    else if leg.remaining == 0 then holds - {key}
    else holds[key := holds[key].(remaining := leg.remaining)]
  }

  /** What one leg does to every claim's reserved and owned amounts. */
  lemma LegMoves(l: Ledger, leg: Counterparty, side: Side, i: InstrumentId, price: Price, quantity: Quantity,
                 claim: Claim)
    ensures var s := SettleLeg(l, leg, side, i, price, quantity);
            && s.holds == HoldsAfterLeg(l.holds, leg)
            && Reserved(s, claim) == Reserved(l, claim)
               - (if LegKey(leg) !in l.holds then 0 else
                  match claim
                  case CashOf(a) =>
                    if a == leg.accountId && side == Buy then quantity * l.holds[LegKey(leg)].limitPrice else 0
                  case UnitsOf(a, j) => if a == leg.accountId && side == Sell && j == i then quantity else 0)
            && Total(s, claim) == Total(l, claim)
               + (match claim
                  case CashOf(a) => if a != leg.accountId then 0 else if side == Buy then 0 - quantity * price
                                    else quantity * price
                  case UnitsOf(a, j) => if a != leg.accountId || j != i then 0 else if side == Buy then quantity
                                        else 0 - quantity)
  {
    var key := LegKey(leg);
    if key in l.holds {
      var limit := l.holds[key].limitPrice;
      ReserveMoves(l, key, i, side, limit, 0 - quantity, claim);
      Negated(quantity, limit);
    }
  }

  /** A hold's claim is linear in what it holds. */
  lemma WeighSplit(claim: Claim, key: LiveKey, i: InstrumentId, side: Side, limit: Price, a: Quantity, b: Quantity)
    ensures Weigh(claim, key, Hold(i, side, limit, a + b)) ==
            Weigh(claim, key, Hold(i, side, limit, a)) + Weigh(claim, key, Hold(i, side, limit, b))
  {
    assert (a + b) * limit == a * limit + b * limit;
  }

  /** A backed leg's hold gives up the claim of what is filled. */
  lemma LegHeld(holds: map<LiveKey, Hold>, leg: Counterparty, i: InstrumentId, side: Side, limit: Price,
                quantity: Quantity, claim: Claim)
    requires LegKey(leg) in holds && holds[LegKey(leg)] == Hold(i, side, limit, leg.remaining + quantity)
    ensures Held(HoldsAfterLeg(holds, leg), claim) ==
            Held(holds, claim) - Weigh(claim, LegKey(leg), Hold(i, side, limit, quantity))
  {
    var key := LegKey(leg);
    WeighSplit(claim, key, i, side, limit, leg.remaining, quantity);
    HeldWithout(holds, claim, key);
    HeldUpdate(holds, claim, key, holds[key].(remaining := leg.remaining));
    assert leg.remaining == 0 ==> Weigh(claim, key, Hold(i, side, limit, leg.remaining)) == 0;
    hide Weigh, Held;
  }

  /** A backed leg keeps reservations exact. */
  lemma LegExact(l: Ledger, leg: Counterparty, side: Side, i: InstrumentId, limit: Price, price: Price,
                 quantity: Quantity)
    requires Exact(l) && LegBacked(l, leg, side, i, limit, quantity)
    ensures Exact(SettleLeg(l, leg, side, i, price, quantity))
  {
    hide SettleLeg, Reserved, Total, Held, HoldsAfterLeg;
    var s := SettleLeg(l, leg, side, i, price, quantity);
    forall claim ensures Reserved(s, claim) == Held(s.holds, claim) {
      LegMoves(l, leg, side, i, price, quantity, claim);
      if LegKey(leg) in l.holds {
        LegHeld(l.holds, leg, i, side, limit, quantity, claim);
      } else {
        NoHoldNoChange(l.holds, leg);
      }
    }
  }

  lemma NoHoldNoChange(holds: map<LiveKey, Hold>, leg: Counterparty)
    requires LegKey(leg) !in holds
    ensures HoldsAfterLeg(holds, leg) == holds
  {
  }

  /** What a leg costs the claim that pays for it, when no hold does. */
  function LegCost(leg: Counterparty, side: Side, i: InstrumentId, price: Price, quantity: Quantity,
                   claim: Claim): int {
    match claim
    case CashOf(a) => if a == leg.accountId && side == Buy then quantity * price else 0
    case UnitsOf(a, j) => if a == leg.accountId && side == Sell && j == i then quantity else 0
  }

  /** A leg with a hold never lowers what is available; one without lowers it by the leg's cost. */
  lemma LegAvailable(l: Ledger, leg: Counterparty, side: Side, i: InstrumentId, limit: Price, price: Price,
                     quantity: Quantity, claim: Claim)
    requires LegBacked(l, leg, side, i, limit, quantity) && price > 0
    requires LegKey(leg) in l.holds && side == Buy ==> price <= limit
    ensures Available(SettleLeg(l, leg, side, i, price, quantity), claim) >= Available(l, claim)
            - (if LegKey(leg) in l.holds then 0 else LegCost(leg, side, i, price, quantity, claim))
  {
    LegMoves(l, leg, side, i, price, quantity, claim);
    hide SettleLeg;
    if LegKey(leg) in l.holds && side == Buy {
      Monotone(quantity, price, limit);
    }
    Monotone(quantity, 0, price);
  }

  /** What a leg without a hold costs; a leg with one costs nothing that was available. */
  function LegDrain(l: Ledger, leg: Counterparty, side: Side, i: InstrumentId, price: Price, quantity: Quantity,
                    claim: Claim): int {
    if LegKey(leg) in l.holds then 0 else LegCost(leg, side, i, price, quantity, claim)
  }

  /** Both legs of a trade between two different orders, each backed by its hold or by what is
      available, keep the ledger exact and solvent. */
  lemma TwoLegs(l: Ledger, buyer: Counterparty, buyLimit: Price, seller: Counterparty, sellLimit: Price,
                i: InstrumentId, price: Price, quantity: Quantity)
    requires Exact(l) && Solvent(l) && price > 0 && LegKey(buyer) != LegKey(seller)
    requires LegBacked(l, buyer, Buy, i, buyLimit, quantity) && LegBacked(l, seller, Sell, i, sellLimit, quantity)
    requires LegKey(buyer) in l.holds ==> price <= buyLimit
    requires LegKey(buyer) !in l.holds ==> quantity * price <= Available(l, CashOf(buyer.accountId))
    requires LegKey(seller) !in l.holds ==> quantity <= Available(l, UnitsOf(seller.accountId, i))
    ensures var s := SettleLeg(l, buyer, Buy, i, price, quantity);
            var l1 := SettleLeg(s, seller, Sell, i, price, quantity);
            && Exact(l1) && Solvent(l1)
            && l1.holds == HoldsAfterLeg(HoldsAfterLeg(l.holds, buyer), seller)
            && forall claim :: Available(l1, claim) >= Available(l, claim)
                 - LegDrain(l, buyer, Buy, i, price, quantity, claim)
                 - LegDrain(l, seller, Sell, i, price, quantity, claim)
  {
    var s := SettleLeg(l, buyer, Buy, i, price, quantity);
    var l1 := SettleLeg(s, seller, Sell, i, price, quantity);
    LegExact(l, buyer, Buy, i, buyLimit, price, quantity);
    LegMoves(l, buyer, Buy, i, price, quantity, CashOf(0));
    LegExact(s, seller, Sell, i, sellLimit, price, quantity);
    LegMoves(s, seller, Sell, i, price, quantity, CashOf(0));
    hide SettleLeg, Exact, Available;
    forall claim
      ensures Available(l1, claim) >= Available(l, claim)
              - LegDrain(l, buyer, Buy, i, price, quantity, claim)
              - LegDrain(l, seller, Sell, i, price, quantity, claim)
    {
      LegAvailable(l, buyer, Buy, i, buyLimit, price, quantity, claim);
      LegAvailable(s, seller, Sell, i, sellLimit, price, quantity, claim);
    }
  }

  lemma Monotone(x: nat, y: int, z: int)
    requires y <= z
    ensures x * y <= x * z
  {
  }

  // ---------- event by event ----------

  /** After each of these events, and before the first, the ledger is exact and solvent. */
  ghost predicate Steady(l: Ledger, events: seq<Event>)
    decreases |events|
  {
    && Exact(l) && Solvent(l)
    && (events != [] ==> Steady(Apply(l, events[0]), events[1..]))
  }

  lemma {:induction false} SteadyConcat(l: Ledger, a: seq<Event>, b: seq<Event>)
    requires Steady(l, a) && Steady(ApplyAll(l, a), b)
    ensures Steady(l, a + b)
    decreases |a|
  {
    hide Exact, Solvent, Apply;
    if a == [] {
      assert a + b == b;
    } else {
      assert (a + b)[0] == a[0] && (a + b)[1..] == a[1..] + b;
      SteadyConcat(Apply(l, a[0]), a[1..], b);
    }
  }

  /** An event and one the ledger ignores. */
  lemma SteadyPair(l: Ledger, events: seq<Event>)
    requires |events| == 2 && Apply(Apply(l, events[0]), events[1]) == Apply(l, events[0])
    requires Exact(l) && Solvent(l) && Exact(Apply(l, events[0])) && Solvent(Apply(l, events[0]))
    ensures Steady(l, events)
  {
    hide Exact, Solvent, Apply;
    assert Steady(Apply(Apply(l, events[0]), events[1]), events[1..][1..]);
    assert Steady(Apply(l, events[0]), events[1..]);
  }

  // ---------- who pays and who gets what ----------

  /** What a trade moves: cash from the buyer to the seller, quantity times the price of it, and the
      quantity the other way. Nothing else moves anything. */
  function Movement(e: Event, claim: Claim): int {
    if !e.TradeExecuted? then 0
    else
      match claim
      case CashOf(a) =>
        (if a == e.seller.accountId then e.quantity * e.price else 0)
        - (if a == e.buyer.accountId then e.quantity * e.price else 0)
      case UnitsOf(a, i) =>
        if i != e.instrumentId then 0
        else (if a == e.buyer.accountId then e.quantity else 0) - (if a == e.seller.accountId then e.quantity else 0)
  }

  function Movements(events: seq<Event>, claim: Claim): int {
    if events == [] then 0 else Movement(events[0], claim) + Movements(events[1..], claim)
  }

  /** Every event, on every ledger, changes what each account owns by exactly what it moves. */
  lemma ApplyMoves(l: Ledger, e: Event, claim: Claim)
    ensures Total(Apply(l, e), claim) == Total(l, claim) + Movement(e, claim)
  {
    hide SettleLeg, Move;
    match e
    case TradeExecuted(_, _, i, price, quantity, _, buyer, seller) =>
      LegMoves(l, buyer, Buy, i, price, quantity, claim);
      LegMoves(SettleLeg(l, buyer, Buy, i, price, quantity), seller, Sell, i, price, quantity, claim);
    case _ =>
  }

  lemma {:induction false} ApplyAllMoves(l: Ledger, events: seq<Event>, claim: Claim)
    ensures Total(ApplyAll(l, events), claim) == Total(l, claim) + Movements(events, claim)
    decreases |events|
  {
    hide Apply, Movement, Total;
    if events != [] {
      ApplyMoves(l, events[0], claim);
      ApplyAllMoves(Apply(l, events[0]), events[1..], claim);
    }
  }

  lemma {:induction false} MovementsConcat(a: seq<Event>, b: seq<Event>, claim: Claim)
    ensures Movements(a + b, claim) == Movements(a, claim) + Movements(b, claim)
  {
    hide Movement;
    if a == [] {
      assert a + b == b;
    } else {
      assert (a + b)[0] == a[0] && (a + b)[1..] == a[1..] + b;
      MovementsConcat(a[1..], b, claim);
    }
  }
}
