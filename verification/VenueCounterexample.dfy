/** A run in which a replace takes over a live id, and what becomes of the account. */
module VenueCounterexample {
  import opened Domain
  import opened PriceTime
  import opened Exchange
  import opened Matching
  import opened EngineSpec
  import opened EngineLaws
  import opened Completeness
  import opened LedgerSpec
  import opened Reservations
  import opened Gated
  import opened VenueLaws
  import opened VenueRuns

  /** Account 1 has 101 and bids 100 and 1; account 2 has the one unit. */
  const First: Command := NewOrder(1, 1, 1, 0, Buy, 100, 1, GTC)
  const Second: Command := NewOrder(2, 1, 2, 0, Buy, 1, 1, GTC)
  /** Order 2 is renamed to 1, where it already rests under 2. */
  const Takeover: Command := ReplaceOrder(3, 1, 2, 1, 0, 1, 1)
  const Sale: Command := NewOrder(4, 2, 7, 0, Sell, 100, 1, IOC)

  function Bid(id: ExchangeOrderId, client: ClientOrderId, price: Price): BookOrder {
    BookOrder(id, client, 1, price, 1, Buy, GTC)
  }

  function Funds(cash: int, reserved: int): map<AccountId, Account> {
    map[1 := Account(cash, reserved, map[], map[]), 2 := Account(0, 0, map[0 := 1], map[])]
  }

  function Seeded(): Venue {
    Venue(Engine(map[0 := Book([], [])], map[], 1, 1, 1), Ledger(Funds(101, 0), map[]))
  }

  function OneBid(): Venue {
    Venue(Engine(map[0 := Book([Bid(1, 1, 100)], [])], map[LiveKey(1, 1) := OrderRef(1, 1, 1, 0)], 2, 3, 2),
          Ledger(Funds(101, 100), map[LiveKey(1, 1) := Hold(0, Buy, 100, 1)]))
  }

  function TwoBids(): Venue {
    Venue(Engine(map[0 := Book([Bid(1, 1, 100), Bid(2, 2, 1)], [])],
                 map[LiveKey(1, 1) := OrderRef(1, 1, 1, 0), LiveKey(1, 2) := OrderRef(2, 1, 2, 0)], 3, 5, 3),
          Ledger(Funds(101, 101), map[LiveKey(1, 1) := Hold(0, Buy, 100, 1), LiveKey(1, 2) := Hold(0, Buy, 1, 1)]))
  }

  /** Both bids rest, one key and one hold are left. */
  function TakenOver(): Venue {
    Venue(Engine(map[0 := Book([Bid(1, 1, 100), Bid(2, 1, 1)], [])],
                 map[LiveKey(1, 1) := OrderRef(2, 1, 2, 0)], 3, 7, 3),
          Ledger(Funds(101, 101), map[LiveKey(1, 1) := Hold(0, Buy, 1, 1)]))
  }

  /** A good-till-cancelled order that meets nothing it can trade with rests behind its hold. */
  lemma QuietNew(v: Venue, c: Command, maxQuantity: Quantity)
    requires c.NewOrder? && c.timeInForce == GTC && Gate(v, c, maxQuantity) == NoReason
             && NewRejection(v.engine, c) == NoReason
    requires Stops(v.engine.books[c.instrumentId].On(Opposite(c.side)), NewIncoming(v.engine, c))
    ensures GatedProcess(v, c, maxQuantity) ==
            Venue(Rest(Stamped(v.engine), NewIncoming(v.engine, c)).engine,
                  OpenHold(v.ledger, LiveKey(c.accountId, c.clientOrderId),
                           Hold(c.instrumentId, c.side, c.price, c.quantity)))
  {
    var s, order := Stamped(v.engine), NewIncoming(v.engine, c);
    MatchUnrolls(s, order, c.commandSequence);
    EnterLedger(s, order, c.commandSequence, AcceptedLedger(v.ledger, order));
    NewLedger(v, c);
    hide Enter, Rest, EnterMatch, OpenHold;
    assert ApplyAll(AcceptedLedger(v.ledger, order), []) == AcceptedLedger(v.ledger, order);
  }

  lemma FirstRests()
    ensures GatedProcess(Seeded(), First, 1) == OneBid()
  {
    hide GatedProcess;
    var v, o := Seeded(), Bid(1, 1, 100);
    QuietNew(v, First, 1);
    assert Insert(Buy, [], o) == [o];
    assert Rest(Stamped(v.engine), NewIncoming(v.engine, First)).engine == OneBid().engine;
  }

  lemma SecondAdmitted()
    ensures Gate(OneBid(), Second, 1) == NoReason && NewRejection(OneBid().engine, Second) == NoReason
    ensures Stops([], NewIncoming(OneBid().engine, Second))
  {
  }

  lemma JoinsBehind(side: Side, o: BookOrder, p: BookOrder)
    requires !Better(side, p.price, o.price)
    ensures Insert(side, [o], p) == [o, p]
  {
    assert [o][1..] == [];
    assert BackOf(side, [], p.price) == 0 && BackOf(side, [o], p.price) == 1;
    assert [o][..1] == [o];
  }

  lemma SecondBooked()
    ensures Rest(Stamped(OneBid().engine), NewIncoming(OneBid().engine, Second)).engine == TwoBids().engine
  {
    hide Insert;
    JoinsBehind(Buy, Bid(1, 1, 100), Bid(2, 2, 1));
    assert AsBookOrder(NewIncoming(OneBid().engine, Second)) == Bid(2, 2, 1);
  }

  lemma SecondHeld()
    ensures OpenHold(OneBid().ledger, LiveKey(1, 2), Hold(0, Buy, 1, 1)) == TwoBids().ledger
  {
    assert Funds(101, 100)[1 := Account(101, 101, map[], map[])] == Funds(101, 101);
  }

  lemma SecondRests()
    ensures GatedProcess(OneBid(), Second, 1) == TwoBids()
  {
    hide GatedProcess, Gate, NewRejection, Rest, OpenHold, NewIncoming;
    SecondAdmitted();
    QuietNew(OneBid(), Second, 1);
    SecondBooked();
    SecondHeld();
  }

  // ---------- the takeover and the sale ----------

  lemma FindsSecond(o: BookOrder, p: BookOrder)
    requires o.exchangeOrderId != p.exchangeOrderId
    ensures Find([o, p], p.exchangeOrderId) == 1 && Find([o, p], o.exchangeOrderId) == 0
  {
    assert [o, p][1..] == [p];
    assert Find([p], p.exchangeOrderId) == 0;
  }

  lemma TakeoverAdmitted()
    ensures Gate(TwoBids(), Takeover, 1) == NoReason
    ensures ReplaceRejection(TwoBids().engine, Takeover) == NoReason
    ensures SideOf(TwoBids().engine.books[0], 2) == Buy
    ensures Named(TwoBids().engine, LiveKey(1, 2), 0) == Bid(2, 2, 1)
    ensures KeepsPriority(Takeover, Bid(2, 2, 1))
  {
    FindsSecond(Bid(1, 1, 100), Bid(2, 2, 1));
    hide Find;
  }

  lemma TakeoverBooked()
    ensures ReplaceRejection(TwoBids().engine, Takeover) == NoReason
    ensures ReplaceInPlace(TwoBids().engine, Takeover).engine == TakenOver().engine
  {
    TakeoverAdmitted();
    FindsSecond(Bid(1, 1, 100), Bid(2, 2, 1));
    hide Find, SideOf, Known, Named;
    assert [Bid(1, 1, 100), Bid(2, 2, 1)][1 := Bid(2, 1, 1)] == [Bid(1, 1, 100), Bid(2, 1, 1)];
    assert (TwoBids().engine.directory - {LiveKey(1, 2)})[LiveKey(1, 1) := OrderRef(2, 1, 2, 0)] ==
           TakenOver().engine.directory;
  }

  lemma TakeoverHeld()
    ensures ReplacedLedger(TwoBids().ledger, Takeover) == TakenOver().ledger
  {
    var l := TwoBids().ledger;
    var r := Ledger(Funds(101, 100), map[LiveKey(1, 1) := Hold(0, Buy, 100, 1)]);
    assert Released(l, LiveKey(1, 2)).accounts == r.accounts;
    assert Released(l, LiveKey(1, 2)).holds == r.holds;
    hide Released;
    assert OpenHold(r, LiveKey(1, 1), Hold(0, Buy, 1, 1)).accounts == Funds(101, 101);
    assert OpenHold(r, LiveKey(1, 1), Hold(0, Buy, 1, 1)).holds == TakenOver().ledger.holds;
  }

  lemma TakesOver()
    ensures GatedProcess(TwoBids(), Takeover, 1) == TakenOver()
  {
    hide Gate, ReplaceRejection, KeepsPriority, ReplaceInPlace, ReplacedLedger, Find, SideOf, ApplyAll;
    TakeoverAdmitted();
    TakeoverBooked();
    TakeoverHeld();
    ReplaceLedger(TwoBids(), Takeover);
  }

  /** An order filled whole by the front order it meets. */
  lemma FilledAtOnce(v: Venue, c: Command, maxQuantity: Quantity)
    requires c.NewOrder? && c.timeInForce == IOC && Gate(v, c, maxQuantity) == NoReason
             && NewRejection(v.engine, c) == NoReason
    requires !Stops(v.engine.books[c.instrumentId].On(Opposite(c.side)), NewIncoming(v.engine, c))
    requires c.quantity <= v.engine.books[c.instrumentId].On(Opposite(c.side))[0].remaining
    ensures var front, order := v.engine.books[c.instrumentId].On(Opposite(c.side))[0], NewIncoming(v.engine, c);
            GatedProcess(v, c, maxQuantity).ledger ==
            Apply(v.ledger, Trade(v.engine.nextEventSequence + 1, c.commandSequence, order.(remaining := 0),
                                  front.(remaining := front.remaining - c.quantity), c.quantity))
  {
    hide Enter, EnterMatch, MatchStep, Apply, Trade, CrossableFrom, Steady, Rest;
    var s, order := Stamped(v.engine), NewIncoming(v.engine, c);
    NewLedger(v, c);
    EnterLedger(s, order, c.commandSequence, v.ledger);
    MatchUnrolls(s, order, c.commandSequence);
    TripShape(s, order, c.commandSequence, v.ledger);
    var (e1, order1, events1) := Tripped(s, order, c.commandSequence);
    MatchUnrolls(e1, order1, c.commandSequence);
    assert events1 + [] == events1;
  }

  lemma SaleAdmitted()
    ensures Gate(TakenOver(), Sale, 1) == NoReason && NewRejection(TakenOver().engine, Sale) == NoReason
  {
  }

  lemma SaleSettles()
    ensures 1 in GatedProcess(TakenOver(), Sale, 1).ledger.accounts
    ensures GatedProcess(TakenOver(), Sale, 1).ledger.accounts[1] == Account(1, 100, map[0 := 1], map[])
  {
    var v, order, front := TakenOver(), NewIncoming(TakenOver().engine, Sale), Bid(1, 1, 100);
    SaleAdmitted();
    FilledAtOnce(v, Sale, 1);
    hide GatedProcess, Gate, NewRejection;
    var buyer := Counterparty(1, 1, 1, 0);
    var seller := Counterparty(2, 7, 3, 0);
    assert Trade(8, 4, order.(remaining := 0), front.(remaining := 0), 1) ==
           TradeExecuted(8, 4, 0, 100, 1, Sell, buyer, seller);
    var l1 := SettleLeg(v.ledger, buyer, Buy, 0, 100, 1);
    assert l1.accounts[1] == Account(1, 100, map[0 := 1], map[]);
    assert SettleLeg(l1, seller, Sell, 0, 100, 1).accounts[1] == l1.accounts[1];
  }

  const Prelude: seq<Action> := [VenueRuns.Cash(1, 101), Position(2, 0, 1), Submit(First), Submit(Second)]

  lemma DepositsSeed()
    ensures DepositPosition(DepositCash(Opening({0}).ledger, 1, 101), 2, 0, 1) == Seeded().ledger
    ensures Opening({0}).engine == Seeded().engine
  {
    var l := DepositCash(Opening({0}).ledger, 1, 101);
    assert l.accounts == map[1 := Account(101, 0, map[], map[])];
    assert DepositPosition(l, 2, 0, 1).accounts == Funds(101, 0);
    assert Opening({0}).engine.books == Seeded().engine.books;
  }

  lemma Deposits()
    ensures Act(Act(Opening({0}), VenueRuns.Cash(1, 101), 1), Position(2, 0, 1), 1) == Seeded()
    ensures Good(Seeded())
  {
    hide Good, DepositCash, DepositPosition, Opening, Seeded;
    var v := Opening({0});
    OpeningGood({0});
    DepositsSeed();
    OpeningAvailable(1);
    DepositGood(v, 1, 0, 101, 0);
    DepositGood(v.(ledger := DepositCash(v.ledger, 1, 101)), 2, 0, 0, 1);
  }

  lemma OpeningAvailable(a: AccountId)
    ensures Available(Opening({0}).ledger, CashOf(a)) == 0
  {
  }

  lemma PreludeRuns()
    ensures RunAll(Opening({0}), Prelude, 1) == TwoBids() && Good(TwoBids())
  {
    hide Good, GatedProcess, Seeded, OneBid, TwoBids, Opening, ReusesLiveId;
    Deposits();
    FirstRests();
    SecondRests();
    var v := Opening({0});
    var v1 := Act(v, Prelude[0], 1);
    assert RunAll(v, Prelude, 1) == RunAll(v1, Prelude[1..], 1);
    assert RunAll(v1, Prelude[1..], 1) == RunAll(Seeded(), Prelude[1..][1..], 1);
    assert RunAll(Seeded(), Prelude[1..][1..], 1) == RunAll(OneBid(), Prelude[1..][1..][1..], 1);
    assert RunAll(OneBid(), Prelude[1..][1..][1..], 1) == RunAll(TwoBids(), Prelude[1..][1..][1..][1..], 1);
    assert Prelude[1..][1..][1..][1..] == [];
    NewReusesNothing(Seeded().engine, First);
    NewReusesNothing(OneBid().engine, Second);
    CommandGood(Seeded(), First, 1);
    CommandGood(OneBid(), Second, 1);
  }

  lemma NewReusesNothing(e: Engine, c: Command)
    requires c.NewOrder?
    ensures !ReusesLiveId(e, c)
  {
  }

  /** The state before the takeover is reached by an ordinary run and satisfies the invariant. Both
      commands that follow pass the gate and are accepted, and account 1 ends owning 1 with 100
      reserved: its bid at 100 was filled against the hold of its bid at 1. */
  lemma TakeoverOverspends()
    ensures var v := RunAll(Opening({0}), Prelude, 1);
            var w := GatedProcess(GatedProcess(v, Takeover, 1), Sale, 1);
            && Good(v) && TakesOverLiveId(v, Takeover, 1)
            && Available(w.ledger, CashOf(1)) == 1 - 100 && !Solvent(w.ledger)
  {
    PreludeRuns();
    TakesOver();
    SaleSettles();
    TakeoverAdmitted();
    hide Good, GatedProcess, ReplaceRejection;
    var w := GatedProcess(TakenOver(), Sale, 1);
    assert Available(w.ledger, CashOf(1)) == 1 - 100;
  }
}
