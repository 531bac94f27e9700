/** The feed of the gated exchange: what the risk gate refuses shows nothing, so the mirror holds through
    the gate, over every run of deposits and commands, admissible or not. */
module VenueFeed {
  import opened Domain
  import opened PriceTime
  import opened Exchange
  import opened EngineSpec
  import opened EngineLaws
  import opened Gated
  import opened VenueRuns
  import opened BookManagers
  import opened MarketData
  import opened FeedMirror

  lemma GatedSound(v: Venue, c: Command, maxQuantity: Quantity)
    requires Sound(v.engine)
    ensures Sound(GatedOut(v, c, maxQuantity).engine)
  {
    hide BookSound, StandsIn, Uncrossed, Process, CheckNew, CheckReplace;
    if Gate(v, c, maxQuantity) == NoReason {
      ProcessSound(v.engine, c);
    }
  }

  /** After every command, refused or not, the feed has taken the books to the exchange's. */
  lemma GatedFollows(v: Venue, c: Command, maxQuantity: Quantity, b: Books)
    requires Sound(v.engine) && AllMirror(v.engine.books, b)
    ensures Follows(b, GatedOut(v, c, maxQuantity).events, GatedOut(v, c, maxQuantity).engine.books)
  {
    hide Sound, AllMirror, Process, Follows, Gate;
    if Gate(v, c, maxQuantity) == NoReason {
      CommandShown(v.engine, c, b);
    } else {
      RejectedFollows(v.engine, c, ReportId(c), Gate(v, c, maxQuantity), b);
    }
  }

  lemma {:induction false} VenueFollows(v: Venue, actions: seq<Action>, maxQuantity: Quantity, b: Books)
    requires Sound(v.engine) && AllMirror(v.engine.books, b)
    ensures Follows(b, RunEvents(v, actions, maxQuantity), RunAll(v, actions, maxQuantity).engine.books)
    decreases |actions|
  {
    hide Sound, AllMirror, ShownAll, GatedOut;
    if actions == [] {
      FollowsNothing(b, v.engine.books);
    } else {
      var v1 := Act(v, actions[0], maxQuantity);
      var rest := RunEvents(v1, actions[1..], maxQuantity);
      if actions[0].Submit? {
        var c := actions[0].command;
        GatedSound(v, c, maxQuantity);
        GatedFollows(v, c, maxQuantity, b);
        var events := GatedOut(v, c, maxQuantity).events;
        VenueFollows(v1, actions[1..], maxQuantity, ShownAll(b, events).books);
        FollowsConcat(b, events, rest, RunAll(v, actions, maxQuantity).engine.books);
      } else {
        VenueFollows(v1, actions[1..], maxQuantity, b);
        assert [] + rest == rest;
      }
    }
  }

  /** Over every run of the gated exchange from its opening, the feed applies without an error and makes
      the trader's books exactly the exchange's, with the feed numbered from one. */
  lemma FeedMirrorsVenue(universe: set<InstrumentId>, actions: seq<Action>, maxQuantity: Quantity, clock: Clock)
    ensures var feed := Published(RunEvents(Opening(universe), actions, maxQuantity), 1, clock);
            var applied := ApplyEvents(NoBooks, feed);
            && applied.errors == 0
            && AllMirror(RunAll(Opening(universe), actions, maxQuantity).engine.books, applied.books)
            && forall i | 0 <= i < |feed| :: feed[i].sequenceNumber == 1 + i
  {
    hide AllMirror, RunAll, RunEvents, Follows;
    OpeningMirrored(universe);
    VenueFollows(Opening(universe), actions, maxQuantity, NoBooks);
    FollowedFeed(RunEvents(Opening(universe), actions, maxQuantity),
                 RunAll(Opening(universe), actions, maxQuantity).engine.books, clock);
  }
}
