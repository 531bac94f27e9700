/** From commands to the books a trader rebuilds: matching, publishing, encoding and replaying, with and
    without a loss on the way. */
module EndToEnd {
  import opened Domain
  import opened PriceTime
  import opened EngineSpec
  import opened EngineLaws
  import opened VenueRuns
  import opened TraderSpec
  import opened BookManagers
  import opened BookEquivalence
  import opened MarketData
  import opened Framing
  import opened Snapshot
  import opened Replay
  import X = Exchange
  import F = FeedMirror
  import VenueFeed
  import P = Protocol

  lemma FeedConsecutive(events: seq<X.Event>, clock: Clock)
    ensures Consecutive(Published(events, 1, clock))
  {
    PublishedNumbered(events, 1, clock);
    hide Published;
  }

  /** Books that are the same are the same bags of orders. */
  lemma SameBag(a: seq<Arrival>, b: seq<Arrival>)
    requires SameBook(a, b)
    ensures multiset(a) == multiset(b)
  {
    StackedBag(a);
    StackedBag(b);
    SameSides(a, b, Buy);
    SameSides(a, b, Sell);
    hide SameBook, Arranged;
  }

  /** So what mirrors the exchange is told by levels alone. */
  lemma SameMirrors(books: map<InstrumentId, Book>, x: Books, y: Books)
    requires Same(x, y) && AllProper(x) && F.AllMirror(books, y)
    ensures F.AllMirror(books, x)
  {
    hide SameBook, Proper, F.Shares;
    assert Proper([]) by { EmptyProper(); }
    forall i | i in books ensures F.Mirrors(books[i], ListOf(x, i)) {
      SameBag(ListOf(x, i), ListOf(y, i));
    }
    forall i: InstrumentId | i !in books ensures ListOf(x, i) == [] {
      SameBag(ListOf(x, i), ListOf(y, i));
      assert |multiset(ListOf(x, i))| == 0;
    }
  }

  /** Nothing lost: a file of the feed replays, without a fault, to the books its events lead to. */
  lemma ReplayMirrors(events: seq<X.Event>, books: map<InstrumentId, Book>, clock: Clock, options: Options)
    requires F.Follows(NoBooks, events, books) && AllFit(Published(events, 1, clock))
    ensures var after := ReplayFrames(Fresh, options, ReadAll(Frames(Published(events, 1, clock))));
            && F.AllMirror(books, after.books) && after.stop == NotStopped
            && after.stats.decodeFailures == after.stats.sequenceFailures == after.stats.bookErrors == 0
  {
    hide F.AllMirror, F.Follows, ReplayFrames, ReadAll, Frames, AllFit, Consecutive, Published, ApplyEvents;
    FeedConsecutive(events, clock);
    LosslessReplay(Published(events, 1, clock), options);
    F.FollowedFeed(events, books, clock);
  }

  /** A receiver that has missed some of a feed, and recovers from a snapshot taken just before the
      message that tells it so. */
  ghost predicate Recovers(feed: seq<P.Event>, n: nat, r: Session, options: Options, number: nat) {
    && n < |feed|
    && r.lastSeen.Some? && r.lastSeen.value + 1 < feed[n].sequenceNumber
    && options.recovery.File?
    && Encodable(ApplyEvents(NoBooks, feed[..n]).books)
    && SnapshotOf(options.recovery.data, number, ApplyEvents(NoBooks, feed[..n]).books)
  }

  /** Some of it lost: whatever the receiver had, it ends with the books the events lead to, one sequence
      failure and no book error more. */
  lemma RecoveryMirrors(events: seq<X.Event>, books: map<InstrumentId, Book>, clock: Clock, n: nat, r: Session,
                        options: Options, number: nat)
    requires F.Follows(NoBooks, events, books) && Recovers(Published(events, 1, clock), n, r, options, number)
    ensures var after := ReplayFrames(r, options, Read(Published(events, 1, clock)[n..]));
            && F.AllMirror(books, after.books) && after.stop == r.stop
            && after.stats.bookErrors == r.stats.bookErrors
            && after.stats.sequenceFailures == r.stats.sequenceFailures + 1
  {
    hide F.AllMirror, F.Follows, ReplayFrames, ApplyAllFrames, Consecutive, Published, ApplyEvents, Same, AllProper,
      Encodable, SnapshotOf, Read;
    var feed := Published(events, 1, clock);
    FeedConsecutive(events, clock);
    GapRecovery(feed, n, r, options, number);
    F.FollowedFeed(events, books, clock);
    assert feed == feed[..n] + feed[n..];
    ApplyConcat(NoBooks, feed[..n], feed[n..]);
    SameMirrors(books, ReplayFrames(r, options, Read(feed[n..])).books, ApplyEvents(NoBooks, feed).books);
  }

  // ---------- from commands ----------

  /** The feed of a run of the gated exchange from its opening. */
  function FeedOf(universe: set<InstrumentId>, actions: seq<Action>, maxQuantity: Quantity,
                  clock: Clock): seq<P.Event> {
    Published(RunEvents(Opening(universe), actions, maxQuantity), 1, clock)
  }

  /** The books the exchange ends with. */
  function BooksOf(universe: set<InstrumentId>, actions: seq<Action>, maxQuantity: Quantity): map<InstrumentId, Book> {
    RunAll(Opening(universe), actions, maxQuantity).engine.books
  }

  lemma RunFollowed(universe: set<InstrumentId>, actions: seq<Action>, maxQuantity: Quantity)
    ensures F.Follows(NoBooks, RunEvents(Opening(universe), actions, maxQuantity),
                      BooksOf(universe, actions, maxQuantity))
  {
    hide F.AllMirror, RunAll, RunEvents, F.Follows;
    F.OpeningMirrored(universe);
    VenueFeed.VenueFollows(Opening(universe), actions, maxQuantity, NoBooks);
  }

  /** For every run of deposits and commands through the risk gate: replaying the file of its feed ends,
      without a fault, with the exchange's resting orders. */
  lemma LosslessMirror(universe: set<InstrumentId>, actions: seq<Action>, maxQuantity: Quantity, clock: Clock,
                       options: Options)
    requires AllFit(FeedOf(universe, actions, maxQuantity, clock))
    ensures var after := ReplayFrames(Fresh, options, ReadAll(Frames(FeedOf(universe, actions, maxQuantity, clock))));
            && F.AllMirror(BooksOf(universe, actions, maxQuantity), after.books) && after.stop == NotStopped
            && after.stats.decodeFailures == after.stats.sequenceFailures == after.stats.bookErrors == 0
  {
    hide F.AllMirror, F.Follows, ReplayFrames, ReadAll, Frames, AllFit, Published, RunAll, RunEvents;
    RunFollowed(universe, actions, maxQuantity);
    ReplayMirrors(RunEvents(Opening(universe), actions, maxQuantity), BooksOf(universe, actions, maxQuantity), clock,
                  options);
  }

  /** And a receiver that lost some of the feed and recovers ends with them too. */
  lemma RecoveredMirror(universe: set<InstrumentId>, actions: seq<Action>, maxQuantity: Quantity, clock: Clock, n: nat,
                        r: Session, options: Options, number: nat)
    requires Recovers(FeedOf(universe, actions, maxQuantity, clock), n, r, options, number)
    ensures var after := ReplayFrames(r, options, Read(FeedOf(universe, actions, maxQuantity, clock)[n..]));
            && F.AllMirror(BooksOf(universe, actions, maxQuantity), after.books) && after.stop == r.stop
            && after.stats.bookErrors == r.stats.bookErrors
            && after.stats.sequenceFailures == r.stats.sequenceFailures + 1
  {
    hide F.AllMirror, F.Follows, ReplayFrames, Read, Published, RunAll, RunEvents, Encodable, SnapshotOf, ApplyEvents;
    RunFollowed(universe, actions, maxQuantity);
    RecoveryMirrors(RunEvents(Opening(universe), actions, maxQuantity), BooksOf(universe, actions, maxQuantity),
                    clock, n, r, options, number);
  }
}
