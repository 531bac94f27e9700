/** The exchange's front door (risk_gated_engine.cpp): check, match, settle, one command at a time. */
module RiskGatedEngines {
  import opened Domain
  import opened PriceTime
  import opened Exchange
  import opened EngineSpec
  import opened EngineLaws
  import opened Completeness
  import opened LedgerSpec
  import opened Reservations
  import opened Gated
  import opened VenueLaws
  import opened VenueRuns
  import opened AccountLedgers
  import opened MatchingEngines

  lemma ApplyNext(l: Ledger, events: seq<Event>, n: nat)
    requires n < |events|
    ensures ApplyAll(l, events[..n + 1]) == LedgerSpec.Apply(ApplyAll(l, events[..n]), events[n])
  {
    assert events[..n + 1] == events[..n] + [events[n]];
    ApplyConcat(l, events[..n], [events[n]]);
    assert [events[n]][1..] == [];
    assert ApplyAll(ApplyAll(l, events[..n]), [events[n]]) ==
           ApplyAll(LedgerSpec.Apply(ApplyAll(l, events[..n]), events[n]), []);
  }

  class RiskGatedEngine {
    const engine: MatchingEngine
    const ledger: AccountLedger
    const maxOrderQuantity: Quantity

    ghost function Now(): Venue
      reads engine, ledger
    {
      Venue(engine.State(), ledger.Value())
    }

    ghost function Repr(): set<object>
      reads engine
    {
      engine.Repr() + {ledger}
    }

    ghost predicate Valid()
      reads engine, engine.frame, ledger
    {
      engine.Valid() && ledger.Valid() && ledger as object !in engine.frame && this as object !in engine.frame
    }

    constructor (engine: MatchingEngine, ledger: AccountLedger, maxOrderQuantity: Quantity)
      requires engine.Valid() && ledger.Valid() && ledger as object !in engine.frame
      ensures this.engine == engine && this.ledger == ledger && this.maxOrderQuantity == maxOrderQuantity
      ensures Valid()
    {
      this.engine, this.ledger, this.maxOrderQuantity := engine, ledger, maxOrderQuantity;
    }

    /** Feeds the ledger, one event after the other. */
    method Settle(events: seq<Event>)
      requires ledger.Valid()
      modifies ledger
      ensures ledger.Valid() && ledger.Value() == ApplyAll(old(ledger.Value()), events)
    {
      hide LedgerSpec.Apply;
      for n := 0 to |events|
        invariant ledger.Valid() && ledger.Value() == ApplyAll(old(ledger.Value()), events[..n])
      {
        ApplyNext(old(ledger.Value()), events, n);
        ledger.Apply(events[n]);
      }
      assert events[..|events|] == events;
    }

    /** One command. What is announced and what the two states become are as specified; so the
        invariant of the venue is kept, at every event, exactly when the command takes over no live id. */
    method Process(c: Command) returns (events: seq<Event>)
      requires Valid()
      modifies Repr()
      ensures Valid() && fresh(engine.frame - old(engine.frame))
      ensures events == GatedOut(old(Now()), c, maxOrderQuantity).events
      ensures Now() == GatedProcess(old(Now()), c, maxOrderQuantity)
      ensures old(Good(Now())) ==>
                (Good(Now()) && Steady(old(ledger.Value()), events) <==>
                 !TakesOverLiveId(old(Now()), c, maxOrderQuantity))
    {
      hide Good, Sound, EngineSpec.Process, CheckNew, CheckReplace, ApplyAll, Steady, TakesOverLiveId,
        MatchingEngine.Apart, EngineLinks.Agrees;
      ghost var before := Now();
      if Good(before) {
        CommandGood(before, c, maxOrderQuantity);
      }
      engine.KnowsLists(c.instrumentId);
      var reason := NoReason;
      match c {
        case NewOrder(_, _, _, _, _, _, _, _) =>
          reason := if !engine.Knows(c.instrumentId) then InvalidInstrument
                    else CheckNew(ledger.Value(), c, maxOrderQuantity);
        case ReplaceOrder(_, _, _, _, _, _, _) =>
          reason := if !engine.Knows(c.instrumentId) then InvalidInstrument
                    else CheckReplace(ledger.Value(), c, maxOrderQuantity);
        case CancelOrder(_, _, _, _) =>
      }
      if reason != NoReason {
        RejectionSound(engine.State(), c, reason);
        events := engine.Reject(c, reason);
      } else {
        events := engine.Process(c);
      }
      Settle(events);
    }
  }

  lemma RejectionSound(e: Engine, c: Command, reason: RejectReason)
    requires Sound(e)
    ensures Sound(Rejected(e, c, ReportId(c), reason).engine)
  {
    hide BookSound, StandsIn, Uncrossed;
  }
}
