/** The ledger as a function of its state (ledger.cpp): balances and open reservations, moved only
    by events. */
module LedgerSpec {
  import opened Domain
  import opened PriceTime
  import opened Exchange

  /** Balances are signed; a missing position is zero. */
  datatype Account = Account(cashTotal: int, cashReserved: int,
                             positionTotal: map<InstrumentId, int>, positionReserved: map<InstrumentId, int>)

  const NoAccount: Account := Account(0, 0, map[], map[])

  /** One open reservation, behind one resting order. */
  datatype Hold = Hold(instrumentId: InstrumentId, side: Side, limitPrice: Price, remaining: Quantity)

  datatype Ledger = Ledger(accounts: map<AccountId, Account>, holds: map<LiveKey, Hold>)

  function At(positions: map<InstrumentId, int>, i: InstrumentId): int {
    if i in positions then positions[i] else 0
  }

  function Add(positions: map<InstrumentId, int>, i: InstrumentId, amount: int): map<InstrumentId, int> {
    positions[i := At(positions, i) + amount]
  }

  function AccountOf(l: Ledger, a: AccountId): Account {
    if a in l.accounts then l.accounts[a] else NoAccount
  }

  function AvailableCash(l: Ledger, a: AccountId): int {
    AccountOf(l, a).cashTotal - AccountOf(l, a).cashReserved
  }

  function AvailablePosition(l: Ledger, a: AccountId, i: InstrumentId): int {
    At(AccountOf(l, a).positionTotal, i) - At(AccountOf(l, a).positionReserved, i)
  }

  function DepositCash(l: Ledger, a: AccountId, amount: int): Ledger {
    var account := AccountOf(l, a);
    l.(accounts := l.accounts[a := account.(cashTotal := account.cashTotal + amount)])
  }

  function DepositPosition(l: Ledger, a: AccountId, i: InstrumentId, amount: Quantity): Ledger {
    var account := AccountOf(l, a);
    l.(accounts := l.accounts[a := account.(positionTotal := Add(account.positionTotal, i, amount))])
  }

  /** Moves a reservation: a buy reserves cash at the limit price, a sell reserves units. */
  function Reserve(l: Ledger, a: AccountId, i: InstrumentId, side: Side, price: Price, amount: int): Ledger {
    var account := AccountOf(l, a);
    l.(accounts := l.accounts[a :=
         if side == Buy then account.(cashReserved := account.cashReserved + amount * price)
         else account.(positionReserved := Add(account.positionReserved, i, amount))])
  }

  function OpenHold(l: Ledger, key: LiveKey, hold: Hold): Ledger {
    if hold.remaining == 0 then l
    else
      var reserved := Reserve(l, key.accountId, hold.instrumentId, hold.side, hold.limitPrice, hold.remaining);
      reserved.(holds := reserved.holds[key := hold])
  }

  function ReleaseHoldFully(l: Ledger, a: AccountId, hold: Hold): Ledger {
    if hold.remaining == 0 then l
    else Reserve(l, a, hold.instrumentId, hold.side, hold.limitPrice, 0 - hold.remaining)
  }

  /** The hold behind one leg of a trade shrinks by the filled slice, released at the hold's own
      limit price and on the leg's own side. */
  function ShrinkHold(l: Ledger, leg: Counterparty, side: Side, i: InstrumentId, quantity: Quantity): Ledger {
    var key := LiveKey(leg.accountId, leg.clientOrderId);
    if key !in l.holds then l
    else
      var hold := l.holds[key];
      var released := Reserve(l, leg.accountId, i, side, hold.limitPrice, 0 - quantity);
      released.(holds := if leg.remaining == 0 then released.holds - {key}
                         else released.holds[key := hold.(remaining := leg.remaining)])
  }

  /** Cash and units move at the trade price. */
  function Move(l: Ledger, a: AccountId, side: Side, i: InstrumentId, price: Price, quantity: Quantity): Ledger {
    var account := AccountOf(l, a);
    l.(accounts := l.accounts[a :=
         if side == Buy then
           account.(cashTotal := account.cashTotal - quantity * price,
                    positionTotal := Add(account.positionTotal, i, quantity))
         else
           account.(cashTotal := account.cashTotal + quantity * price,
                    positionTotal := Add(account.positionTotal, i, 0 - quantity))])
  }

  function SettleLeg(l: Ledger, leg: Counterparty, side: Side, i: InstrumentId, price: Price,
                     quantity: Quantity): Ledger {
    Move(ShrinkHold(l, leg, side, i, quantity), leg.accountId, side, i, price, quantity)
  }

  /** The one way the ledger changes after seeding. */
  function Apply(l: Ledger, e: Event): Ledger {
    match e
    case OrderAccepted(_, _, a, id, _, i, side, price, quantity, timeInForce) =>
      if timeInForce != GTC then l else OpenHold(l, LiveKey(a, id), Hold(i, side, price, quantity))
    case OrderReplaced(_, _, a, original, new_, _, i, newPrice, newQuantity) =>
      var key := LiveKey(a, original);
      if key !in l.holds then l
      else
        var old_ := l.holds[key];
        var released := ReleaseHoldFully(l, a, old_);
        OpenHold(released.(holds := released.holds - {key}), LiveKey(a, new_),
                 Hold(i, old_.side, newPrice, newQuantity))
    case OrderCancelled(_, _, a, id, _, _) =>
      var key := LiveKey(a, id);
      if key !in l.holds then l
      else
        var released := ReleaseHoldFully(l, a, l.holds[key]);
        released.(holds := released.holds - {key})
    case TradeExecuted(_, _, i, price, quantity, _, buyer, seller) =>
      SettleLeg(SettleLeg(l, buyer, Buy, i, price, quantity), seller, Sell, i, price, quantity)
    case _ => l
  }

  function ApplyAll(l: Ledger, events: seq<Event>): Ledger
    decreases |events|
  {
    if events == [] then l else ApplyAll(Apply(l, events[0]), events[1..])
  }

  lemma {:induction false} ApplyConcat(l: Ledger, a: seq<Event>, b: seq<Event>)
    ensures ApplyAll(l, a + b) == ApplyAll(ApplyAll(l, a), b)
    decreases |a|
  {
    if a == [] {
      assert a + b == b;
    } else {
      assert (a + b)[0] == a[0] && (a + b)[1..] == a[1..] + b;
      ApplyConcat(Apply(l, a[0]), a[1..], b);
    }
  }

  // ---------- conservation ----------

  /** What is conserved: cash, or the units of one instrument. */
  datatype Asset = Cash | Units(instrumentId: InstrumentId)

  function Owned(account: Account, asset: Asset): int {
    match asset
    case Cash => account.cashTotal
    case Units(i) => At(account.positionTotal, i)
  }

  /** The sum over all accounts. */
  ghost function TotalOwned(accounts: map<AccountId, Account>, asset: Asset): int
    decreases |accounts|
  {
    if accounts == map[] then 0
    else
      var a :| a in accounts;
      Owned(accounts[a], asset) + TotalOwned(accounts - {a}, asset)
  }

  lemma {:induction false} TotalWithout(accounts: map<AccountId, Account>, asset: Asset, a: AccountId)
    requires a in accounts
    ensures TotalOwned(accounts, asset) == Owned(accounts[a], asset) + TotalOwned(accounts - {a}, asset)
    decreases |accounts|
  {
    var b :| b in accounts
      && TotalOwned(accounts, asset) == Owned(accounts[b], asset) + TotalOwned(accounts - {b}, asset);
    if a != b {
      TotalWithout(accounts - {b}, asset, a);
      TotalWithout(accounts - {a}, asset, b);
      assert accounts - {a} - {b} == accounts - {b} - {a};
    }
  }

  lemma TotalUpdate(accounts: map<AccountId, Account>, asset: Asset, a: AccountId, account: Account)
    ensures TotalOwned(accounts[a := account], asset) ==
            TotalOwned(accounts, asset) - (if a in accounts then Owned(accounts[a], asset) else 0)
            + Owned(account, asset)
  {
    TotalWithout(accounts[a := account], asset, a);
    assert accounts[a := account] - {a} == accounts - {a};
    if a in accounts {
      TotalWithout(accounts, asset, a);
    } else {
      assert accounts - {a} == accounts;
    }
  }

  lemma ReserveConserves(l: Ledger, a: AccountId, i: InstrumentId, side: Side, price: Price, amount: int, asset: Asset)
    ensures TotalOwned(Reserve(l, a, i, side, price, amount).accounts, asset) == TotalOwned(l.accounts, asset)
  {
    TotalUpdate(l.accounts, asset, a, Reserve(l, a, i, side, price, amount).accounts[a]);
  }

  lemma MoveTransfers(l: Ledger, a: AccountId, side: Side, i: InstrumentId, price: Price, quantity: Quantity,
                      asset: Asset)
    ensures TotalOwned(Move(l, a, side, i, price, quantity).accounts, asset) == TotalOwned(l.accounts, asset)
            + (match asset
               case Cash => if side == Buy then -(quantity * price) else quantity * price
               case Units(j) => if i != j then 0 else if side == Buy then quantity else 0 - quantity)
  {
    TotalUpdate(l.accounts, asset, a, Move(l, a, side, i, price, quantity).accounts[a]);
  }

  /** No event, in any state, creates or destroys cash or units. */
  lemma ApplyConserves(l: Ledger, e: Event, asset: Asset)
    ensures TotalOwned(Apply(l, e).accounts, asset) == TotalOwned(l.accounts, asset)
  {
    hide TotalOwned, Reserve, Move;
    match e
    case OrderAccepted(_, _, a, _, _, i, side, price, quantity, _) =>
      ReserveConserves(l, a, i, side, price, quantity, asset);
    case OrderReplaced(_, _, a, original, _, _, i, newPrice, newQuantity) =>
      var key := LiveKey(a, original);
      if key in l.holds {
        var h := l.holds[key];
        var released := ReleaseHoldFully(l, a, h);
        ReserveConserves(l, a, h.instrumentId, h.side, h.limitPrice, 0 - h.remaining, asset);
        ReserveConserves(released.(holds := released.holds - {key}), a, i, h.side, newPrice, newQuantity, asset);
      }
    case OrderCancelled(_, _, a, id, _, _) =>
      var key := LiveKey(a, id);
      if key in l.holds {
        var h := l.holds[key];
        ReserveConserves(l, a, h.instrumentId, h.side, h.limitPrice, 0 - h.remaining, asset);
      }
    case TradeExecuted(_, _, i, price, quantity, _, buyer, seller) =>
      LegTransfers(l, buyer, Buy, i, price, quantity, asset);
      LegTransfers(SettleLeg(l, buyer, Buy, i, price, quantity), seller, Sell, i, price, quantity, asset);
    case _ =>
  }

  lemma LegTransfers(l: Ledger, leg: Counterparty, side: Side, i: InstrumentId, price: Price, quantity: Quantity,
                     asset: Asset)
    ensures TotalOwned(SettleLeg(l, leg, side, i, price, quantity).accounts, asset) == TotalOwned(l.accounts, asset)
            + (match asset
               case Cash => if side == Buy then -(quantity * price) else quantity * price
               case Units(j) => if i != j then 0 else if side == Buy then quantity else 0 - quantity)
  {
    hide TotalOwned, Reserve, Move;
    var key := LiveKey(leg.accountId, leg.clientOrderId);
    if key in l.holds {
      ReserveConserves(l, leg.accountId, i, side, l.holds[key].limitPrice, 0 - quantity, asset);
    }
    MoveTransfers(ShrinkHold(l, leg, side, i, quantity), leg.accountId, side, i, price, quantity, asset);
  }

  lemma {:induction false} ApplyAllConserves(l: Ledger, events: seq<Event>, asset: Asset)
    ensures TotalOwned(ApplyAll(l, events).accounts, asset) == TotalOwned(l.accounts, asset)
    decreases |events|
  {
    if events != [] {
      ApplyConserves(l, events[0], asset);
      ApplyAllConserves(Apply(l, events[0]), events[1..], asset);
    }
  }

  /** Deposits add exactly what is deposited. */
  lemma DepositAdds(l: Ledger, a: AccountId, i: InstrumentId, amount: int, units: Quantity, asset: Asset)
    ensures TotalOwned(DepositCash(l, a, amount).accounts, asset) ==
            TotalOwned(l.accounts, asset) + (if asset == Cash then amount else 0)
    ensures TotalOwned(DepositPosition(l, a, i, units).accounts, asset) ==
            TotalOwned(l.accounts, asset) + (if asset == Units(i) then units else 0)
  {
    TotalUpdate(l.accounts, asset, a, DepositCash(l, a, amount).accounts[a]);
    TotalUpdate(l.accounts, asset, a, DepositPosition(l, a, i, units).accounts[a]);
  }
}
