/** The ledger as the source keeps it (ledger.cpp): two maps and two counts, changed in place. */
module AccountLedgers {
  import opened Domain
  import opened PriceTime
  import opened Exchange
  import opened LedgerSpec

  class AccountLedger {
    var accounts: map<AccountId, Account>
    var holds: map<LiveKey, Hold>
    var accountCount: nat
    var holdCount: nat

    function Value(): Ledger
      reads this
    {
      Ledger(accounts, holds)
    }

    /** The published counts are the sizes of the maps. */
    ghost predicate Valid()
      reads this
    {
      accountCount == |accounts| && holdCount == |holds|
    }

    constructor ()
      ensures Valid() && Value() == Ledger(map[], map[])
    {
      accounts, holds, accountCount, holdCount := map[], map[], 0, 0;
    }

    /** Makes sure the account is there, and reads it. */
    method AccountRef(a: AccountId) returns (account: Account)
      requires Valid()
      modifies this
      ensures Valid() && holds == old(holds)
      ensures account == AccountOf(old(Value()), a) && accounts == old(accounts)[a := account]
    {
      if a !in accounts {
        accounts := accounts[a := NoAccount];
        accountCount := accountCount + 1;
      }
      account := accounts[a];
    }

    method SetAccount(a: AccountId, account: Account)
      requires Valid() && a in accounts
      modifies `accounts
      ensures Valid() && accounts == old(accounts)[a := account]
    {
      assert accounts[a := account].Keys == accounts.Keys;
      assert |accounts[a := account].Keys| == |accounts[a := account]|;
      accounts := accounts[a := account];
    }

    method EraseHold(key: LiveKey)
      requires Valid() && key in holds
      modifies `holds, `holdCount
      ensures Valid() && holds == old(holds) - {key}
    {
      assert (holds - {key}).Keys == holds.Keys - {key};
      assert |(holds - {key}).Keys| == |holds - {key}|;
      holds := holds - {key};
      holdCount := holdCount - 1;
    }

    method PutHold(key: LiveKey, hold: Hold)
      requires Valid()
      modifies `holds, `holdCount
      ensures Valid() && holds == old(holds)[key := hold]
    {
      assert holds[key := hold].Keys == holds.Keys + {key};
      assert |holds[key := hold].Keys| == |holds[key := hold]|;
      if key !in holds {
        holdCount := holdCount + 1;
      }
      holds := holds[key := hold];
    }

    method DepositCash(a: AccountId, amount: int)
      requires Valid()
      modifies this
      ensures Valid() && Value() == LedgerSpec.DepositCash(old(Value()), a, amount)
    {
      var account := AccountRef(a);
      SetAccount(a, account.(cashTotal := account.cashTotal + amount));
    }

    method DepositPosition(a: AccountId, i: InstrumentId, amount: Quantity)
      requires Valid()
      modifies this
      ensures Valid() && Value() == LedgerSpec.DepositPosition(old(Value()), a, i, amount)
    {
      var account := AccountRef(a);
      SetAccount(a, account.(positionTotal := Add(account.positionTotal, i, amount)));
    }

    method OpenHold(key: LiveKey, hold: Hold)
      requires Valid()
      modifies this
      ensures Valid() && Value() == LedgerSpec.OpenHold(old(Value()), key, hold)
    {
      if hold.remaining == 0 {
        return;
      }
      var account := AccountRef(key.accountId);
      if hold.side == Buy {
        SetAccount(key.accountId, account.(cashReserved := account.cashReserved + hold.remaining * hold.limitPrice));
      } else {
        SetAccount(key.accountId,
                   account.(positionReserved := Add(account.positionReserved, hold.instrumentId, hold.remaining)));
      }
      PutHold(key, hold);
    }

    method ReleaseHoldFully(a: AccountId, hold: Hold)
      requires Valid()
      modifies this
      ensures Valid() && Value() == LedgerSpec.ReleaseHoldFully(old(Value()), a, hold)
    {
      if hold.remaining == 0 {
        return;
      }
      var account := AccountRef(a);
      if hold.side == Buy {
        SetAccount(a, account.(cashReserved := account.cashReserved + (0 - hold.remaining) * hold.limitPrice));
      } else {
        SetAccount(a, account.(positionReserved := Add(account.positionReserved, hold.instrumentId,
                                                       0 - hold.remaining)));
      }
    }

    /** One side of a trade. */
    method SettleLeg(leg: Counterparty, side: Side, i: InstrumentId, price: Price, quantity: Quantity)
      requires Valid()
      modifies this
      ensures Valid() && Value() == LedgerSpec.SettleLeg(old(Value()), leg, side, i, price, quantity)
    {
      var account := AccountRef(leg.accountId);
      var key := LiveKey(leg.accountId, leg.clientOrderId);
      if key in holds {
        var hold := holds[key];
        account := if side == Buy then account.(cashReserved := account.cashReserved + (0 - quantity) * hold.limitPrice)
                   else account.(positionReserved := Add(account.positionReserved, i, 0 - quantity));
        if leg.remaining == 0 {
          EraseHold(key);
        } else {
          PutHold(key, hold.(remaining := leg.remaining));
        }
      }
      account := if side == Buy then
                   account.(cashTotal := account.cashTotal - quantity * price,
                            positionTotal := Add(account.positionTotal, i, quantity))
                 else
                   account.(cashTotal := account.cashTotal + quantity * price,
                            positionTotal := Add(account.positionTotal, i, 0 - quantity));
      SetAccount(leg.accountId, account);
    }

    /** The only way in for events. */
    method Apply(e: Event)
      requires Valid()
      modifies this
      ensures Valid() && Value() == LedgerSpec.Apply(old(Value()), e)
    {
      hide LedgerSpec.OpenHold, LedgerSpec.ReleaseHoldFully, LedgerSpec.SettleLeg;
      match e {
        case OrderAccepted(_, _, a, id, _, i, side, price, quantity, timeInForce) =>
          if timeInForce == GTC {
            OpenHold(LiveKey(a, id), Hold(i, side, price, quantity));
          }
        case OrderReplaced(_, _, a, original, new_, _, i, newPrice, newQuantity) =>
          var key := LiveKey(a, original);
          if key in holds {
            var old_ := holds[key];
            ReleaseHoldFully(a, old_);
            ReleaseKeeps(old(Value()), a, old_);
            EraseHold(key);
            OpenHold(LiveKey(a, new_), Hold(i, old_.side, newPrice, newQuantity));
          }
        case OrderCancelled(_, _, a, id, _, _) =>
          var key := LiveKey(a, id);
          if key in holds {
            var hold := holds[key];
            ReleaseHoldFully(a, hold);
            ReleaseKeeps(old(Value()), a, hold);
            EraseHold(key);
          }
        case TradeExecuted(_, _, i, price, quantity, _, buyer, seller) =>
          SettleLeg(buyer, Buy, i, price, quantity);
          SettleLeg(seller, Sell, i, price, quantity);
        case _ =>
      }
    }
  }

  lemma ReleaseKeeps(l: Ledger, a: AccountId, hold: Hold)
    ensures ReleaseHoldFully(l, a, hold).holds == l.holds
  {
  }
}
