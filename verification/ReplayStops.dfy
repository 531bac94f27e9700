/** What a replay comes to, for every stream of frames and every option: how far it gets, why it stops
    there, and what it has by then (replay_engine.cpp). */
module ReplayStops {
  import opened Domain
  import opened TraderSpec
  import opened SequenceValidators
  import opened BookManagers
  import opened Codec
  import opened Framing
  import opened Snapshot
  import opened Replay
  import P = Protocol

  // ---------- what is in a stream ----------

  function Last<T>(s: seq<T>): T
    requires s != []
  {
    s[|s| - 1]
  }

  function Front<T>(s: seq<T>): seq<T>
    requires s != []
  {
    s[..|s| - 1]
  }

  /** The messages of the frames that could be read. */
  function Decoded(frames: seq<Frame>): (events: seq<P.Event>)
    ensures |events| <= |frames|
  {
    if frames == [] then []
    else Decoded(Front(frames)) + (if Last(frames).Ok? then [Last(frames).value] else [])
  }

  function Numbers(events: seq<P.Event>): (numbers: seq<nat>)
    ensures |numbers| == |events|
    ensures forall i | 0 <= i < |events| :: numbers[i] == events[i].sequenceNumber
  {
    if events == [] then [] else Numbers(Front(events)) + [Last(events).sequenceNumber]
  }

  /** The number does not come next. */
  predicate OffNumber(before: seq<P.Event>, n: nat) {
    before != [] && n != Highest(Numbers(before)).value + 1
  }

  /** The number comes later than next. */
  predicate Skips(before: seq<P.Event>, n: nat) {
    before != [] && n > Highest(Numbers(before)).value + 1
  }

  function Faults(events: seq<P.Event>): nat {
    if events == [] then 0
    else Faults(Front(events)) + (if OffNumber(Front(events), Last(events).sequenceNumber) then 1 else 0)
  }

  function Gaps(events: seq<P.Event>): nat {
    if events == [] then 0
    else Gaps(Front(events)) + (if Skips(Front(events), Last(events).sequenceNumber) then 1 else 0)
  }

  datatype Kind = Adding | Cancelling | Modifying | Trading | Clearing

  predicate Is(e: P.Event, kind: Kind) {
    match kind
    case Adding => e.AddOrder?
    case Cancelling => e.CancelOrder?
    case Modifying => e.ModifyOrder?
    case Trading => e.Trade?
    case Clearing => e.ClearBook?
  }

  function CountOf(events: seq<P.Event>, kind: Kind): nat {
    if events == [] then 0 else CountOf(Front(events), kind) + (if Is(Last(events), kind) then 1 else 0)
  }

  lemma Appended<T>(s: seq<T>, x: T)
    ensures Front(s + [x]) == s && Last(s + [x]) == x
  {
  }

  /** The message after which nothing is skipped any more. */
  ghost predicate LastGap(events: seq<P.Event>, g: nat) {
    && g < |events| && Skips(events[..g], events[g].sequenceNumber)
    && forall j | g < j < |events| :: !Skips(events[..j], events[j].sequenceNumber)
  }

  // ---------- where it stops ----------

  predicate Restores(options: Options) {
    options.recovery.File? && Load(options.recovery.data).Some?
  }

  /** The snapshot's books. */
  function LoadedBooks(options: Options): Books
    requires Restores(options)
  {
    Load(options.recovery.data).value.books
  }

  /** After these frames, this one stops the replay. */
  predicate Halts(options: Options, done: seq<Frame>, frame: Frame) {
    match frame
    case Err(_) => options.stopOnDecodeError
    case Ok(e) =>
      var before := Decoded(done);
      && OffNumber(before, e.sequenceNumber)
      && if Skips(before, e.sequenceNumber) && options.recovery != NoPath then !Restores(options)
         else options.stopOnSequenceError
  }

  /** The reason it gives. */
  function ReasonFor(options: Options, before: seq<P.Event>, frame: Frame): StopReason
    requires frame.Ok? ==> before != []
  {
    match frame
    case Err(error) => DecodeStop(error)
    case Ok(e) =>
      var n, h := e.sequenceNumber, Highest(Numbers(before)).value;
      if n == h then SequenceStop(SequenceCheck(Duplicate, n, 0))
      else if n < h then SequenceStop(SequenceCheck(OutOfOrder, n, 0))
      else if options.recovery != NoPath then RecoveryFailed
      else SequenceStop(SequenceCheck(Missing, n, h + 1))
  }

  // ---------- what it has by then ----------

  /** Everything readable in these frames is applied, and nothing else: each message is counted under its
      kind, and the books are what all of them make, or what those from the last gap on make of the
      snapshot's books. */
  ghost predicate Applies(s: Session, options: Options, done: seq<Frame>) {
    var events, t := Decoded(done), s.stats;
    && t.messagesProcessed == |events|
    && t.added == CountOf(events, Adding) && t.cancelled == CountOf(events, Cancelling)
    && t.modified == CountOf(events, Modifying) && t.traded == CountOf(events, Trading)
    && t.cleared == CountOf(events, Clearing)
    && s.lastSequenceNumber == (if events == [] then None else Some(Last(events).sequenceNumber))
    && t.recoveries == (if Restores(options) then Gaps(events) else 0)
    && (t.recoveries == 0 ==> Applied(s.books, t.bookErrors) == ApplyEvents(NoBooks, events))
    && (Restores(options) ==> forall g: nat | LastGap(events, g) ::
          s.books == ApplyEvents(LoadedBooks(options), events[g..]).books)
  }

  ghost predicate Running(s: Session, options: Options, done: seq<Frame>) {
    && Applies(s, options, done) && s.stop == NotStopped
    && s.stats.decodeFailures == |done| - |Decoded(done)|
    && s.stats.sequenceFailures == Faults(Decoded(done))
    && s.lastSeen == Highest(Numbers(Decoded(done)))
  }

  /** Stopped at a frame: it is counted as a failure, and neither it nor anything behind it is applied. */
  ghost predicate StoppedAt(s: Session, options: Options, done: seq<Frame>, frame: Frame) {
    && (frame.Ok? ==> Decoded(done) != [])
    && Applies(s, options, done) && s.stop == ReasonFor(options, Decoded(done), frame)
    && s.stats.decodeFailures == |done| - |Decoded(done)| + (if frame.Err? then 1 else 0)
    && s.stats.sequenceFailures == Faults(Decoded(done)) + (if frame.Ok? then 1 else 0)
  }

  // ---------- one frame ----------

  lemma NextNumber(events: seq<P.Event>, e: P.Event)
    ensures Numbers(events + [e]) == Numbers(events) + [e.sequenceNumber]
    ensures Highest(Numbers(events + [e])) == Seen(Highest(Numbers(events)), e.sequenceNumber)
    ensures Faults(events + [e]) == Faults(events) + (if OffNumber(events, e.sequenceNumber) then 1 else 0)
    ensures Gaps(events + [e]) == Gaps(events) + (if Skips(events, e.sequenceNumber) then 1 else 0)
    ensures forall kind :: CountOf(events + [e], kind) == CountOf(events, kind) + (if Is(e, kind) then 1 else 0)
  {
    Appended(events, e);
    HighestNext(Numbers(events), e.sequenceNumber);
    hide Highest;
  }

  lemma NextBooks(events: seq<P.Event>, e: P.Event, base: Books)
    ensures var before := ApplyEvents(base, events);
            var one := ApplyEvent(before.books, e);
            ApplyEvents(base, events + [e]) == Applied(one.books, before.errors + one.errors)
  {
    hide ApplyEvent;
    var before := ApplyEvents(base, events);
    ApplyConcat(base, events, [e]);
    assert [e][1..] == [];
    assert ApplyEvents(ApplyEvent(before.books, e).books, []) == Applied(ApplyEvent(before.books, e).books, 0);
  }

  /** Where the last gap is, once a message is added. */
  lemma NextGap(events: seq<P.Event>, e: P.Event, g: nat)
    ensures LastGap(events + [e], g) <==>
            if Skips(events, e.sequenceNumber) then g == |events| else LastGap(events, g)
  {
    hide Skips;
    var all := events + [e];
    assert all[..|events|] == events;
    assert forall j | 0 <= j < |events| :: all[j] == events[j] && all[..j] == events[..j];
  }

  lemma BadFrame(s: Session, options: Options, done: seq<Frame>, frame: Frame)
    requires Running(s, options, done) && frame.Err?
    ensures var next := ApplyFrame(s, options, frame);
            if next.stopped then Halts(options, done, frame) && StoppedAt(next.session, options, done, frame)
            else !Halts(options, done, frame) && Running(next.session, options, done + [frame])
  {
    Appended(done, frame);
    assert Decoded(done + [frame]) == Decoded(done);
    hide Load, ApplyEvents, LastGap, CountOf, Faults, Gaps, Highest, Decoded;
  }

  /** A message that stops the replay. */
  lemma LastFrame(s: Session, options: Options, done: seq<Frame>, e: P.Event)
    requires Running(s, options, done) && Halts(options, done, Ok(e))
    ensures var next := ApplyFrame(s, options, Ok(e));
            next.stopped && StoppedAt(next.session, options, done, Ok(e))
  {
    hide Load, ApplyEvents, LastGap, CountOf, Faults, Gaps, Highest, Decoded, Numbers;
  }

  /** What a message that does not stop the replay does to the session. */
  lemma TakenFrame(s: Session, options: Options, done: seq<Frame>, e: P.Event)
    requires Running(s, options, done) && !Halts(options, done, Ok(e))
    ensures var next, events, t := ApplyFrame(s, options, Ok(e)), Decoded(done), s.stats;
            var off, restores := OffNumber(events, e.sequenceNumber),
                Restores(options) && Skips(events, e.sequenceNumber);
            var books := if restores then LoadedBooks(options) else s.books;
            var one := ApplyEvent(books, e);
            && !next.stopped
            && next.session == Session(Counted(t.(sequenceFailures := t.sequenceFailures + (if off then 1 else 0),
                                                  recoveries := t.recoveries + (if restores then 1 else 0)),
                                               e, one.errors),
                                       one.books, NotStopped, Some(e.sequenceNumber),
                                       Seen(s.lastSeen, e.sequenceNumber))
  {
    hide Load, ApplyEvents, ApplyEvent, LastGap, CountOf, Faults, Gaps, Highest, Decoded, Numbers, Counted;
  }

  lemma NextDecoded(done: seq<Frame>, e: P.Event)
    ensures Decoded(done + [Ok(e)]) == Decoded(done) + [e]
    ensures Last(Decoded(done + [Ok(e)])) == e
  {
    Appended(done, Ok(e));
  }

  /** A message that does not stop the replay leaves it running. */
  lemma GoodFrame(s: Session, options: Options, done: seq<Frame>, e: P.Event)
    requires Running(s, options, done) && !Halts(options, done, Ok(e))
    ensures Running(ApplyFrame(s, options, Ok(e)).session, options, done + [Ok(e)])
  {
    hide ApplyFrame, Load, ApplyEvents, ApplyEvent, LastGap, CountOf, Faults, Gaps, Highest, Decoded, Numbers, Halts,
      Skips, OffNumber, Last, Seen, Restores, Applies;
    GoodApplied(s, options, done, e);
    TakenFrame(s, options, done, e);
    NextDecoded(done, e);
    NextNumber(Decoded(done), e);
  }

  lemma GoodApplied(s: Session, options: Options, done: seq<Frame>, e: P.Event)
    requires Running(s, options, done) && !Halts(options, done, Ok(e))
    ensures Applies(ApplyFrame(s, options, Ok(e)).session, options, done + [Ok(e)])
  {
    hide ApplyFrame, Load, ApplyEvents, ApplyEvent, LastGap, CountOf, Faults, Gaps, Highest, Decoded, Numbers, Halts,
      Skips, OffNumber, Last, Seen, Restores;
    var events := Decoded(done);
    TakenFrame(s, options, done, e);
    NextDecoded(done, e);
    NextNumber(events, e);
    NextBooks(events, e, NoBooks);
    var after := ApplyFrame(s, options, Ok(e)).session;
    if Restores(options) {
      var loaded := LoadedBooks(options);
      forall g: nat | LastGap(events + [e], g)
        ensures g <= |events| && after.books == ApplyEvents(loaded, (events + [e])[g..]).books
      {
        RestoredBooks(events, e, g, loaded, s.books);
      }
    }
  }

  lemma RestoredBooks(events: seq<P.Event>, e: P.Event, g: nat, loaded: Books, books: Books)
    requires LastGap(events + [e], g)
    requires LastGap(events, g) ==> books == ApplyEvents(loaded, events[g..]).books
    ensures g <= |events|
    ensures ApplyEvents(loaded, (events + [e])[g..]).books ==
            ApplyEvent(if Skips(events, e.sequenceNumber) then loaded else books, e).books
  {
    hide ApplyEvents, ApplyEvent, Skips;
    NextGap(events, e, g);
    if Skips(events, e.sequenceNumber) {
      assert (events + [e])[g..] == [] + [e];
      NextBooks([], e, loaded);
      NothingApplied(loaded);
    } else {
      assert (events + [e])[g..] == events[g..] + [e];
      NextBooks(events[g..], e, loaded);
    }
  }

  lemma NothingApplied(b: Books)
    ensures ApplyEvents(b, []) == Applied(b, 0)
  {
  }

  // ---------- every stream ----------

  lemma {:induction false} RunsUntil(s: Session, options: Options, done: seq<Frame>, frames: seq<Frame>)
    returns (k: nat)
    requires Running(s, options, done)
    ensures k <= |frames|
    ensures forall j | 0 <= j < k :: !Halts(options, done + frames[..j], frames[j])
    ensures var after := ReplayFrames(s, options, frames);
            if k == |frames| then Running(after, options, done + frames)
            else Halts(options, done + frames[..k], frames[k])
                 && StoppedAt(after, options, done + frames[..k], frames[k])
    decreases |frames|
  {
    hide Running, StoppedAt, Halts, ApplyFrame;
    k := 0;
    assert done + frames[..0] == done;
    if frames != [] {
      var frame, next := frames[0], ApplyFrame(s, options, frames[0]);
      if frame.Err? {
        BadFrame(s, options, done, frame);
      } else if Halts(options, done, frame) {
        LastFrame(s, options, done, frame.value);
      } else {
        GoodFrame(s, options, done, frame.value);
        TakenFrame(s, options, done, frame.value);
      }
      if !next.stopped {
        var done' := done + [frame];
        var k' := RunsUntil(next.session, options, done', frames[1..]);
        k := k' + 1;
        assert done' + frames[1..] == done + frames;
        forall j | 0 <= j < k ensures !Halts(options, done + frames[..j], frames[j]) {
          assert j > 0 ==> done' + frames[1..][..j - 1] == done + frames[..j] && frames[1..][j - 1] == frames[j];
        }
        assert k < |frames| ==> done' + frames[1..][..k'] == done + frames[..k];
      }
    }
  }

  lemma NothingRead(done: seq<Frame>, events: seq<P.Event>)
    requires done == [] && events == []
    ensures Decoded(done) == events && Numbers(events) == [] && Highest(Numbers(events)) == None
    ensures Faults(events) == Gaps(events) == 0
    ensures forall kind :: CountOf(events, kind) == 0
    ensures forall g: nat :: !LastGap(events, g)
    ensures ApplyEvents(NoBooks, events) == Applied(NoBooks, 0)
  {
  }

  lemma FreshRuns(s: Session, options: Options, done: seq<Frame>)
    requires s == Fresh && done == []
    ensures Running(s, options, done)
  {
    hide Load, ApplyEvents, LastGap, CountOf, Faults, Gaps, Highest, Decoded, Numbers, Restores, LoadedBooks;
    NothingRead(done, Decoded(done));
  }

  /** Every stream, every option: a replay runs up to the first frame that halts it, or to the end. It
      says why it stopped, it has applied all that could be read before, and nothing from there on. */
  lemma ReplayStopsAt(options: Options, frames: seq<Frame>) returns (k: nat)
    ensures k <= |frames|
    ensures forall j | 0 <= j < k :: !Halts(options, frames[..j], frames[j])
    ensures var after := ReplayFrames(Fresh, options, frames);
            if k == |frames| then Running(after, options, frames)
            else Halts(options, frames[..k], frames[k]) && StoppedAt(after, options, frames[..k], frames[k])
  {
    hide Load, ReplayFrames, Halts;
    FreshRuns(Fresh, options, []);
    k := RunsUntil(Fresh, options, [], frames);
    hide Running, StoppedAt;
    assert forall j | 0 <= j <= |frames| :: [] + frames[..j] == frames[..j];
    assert [] + frames == frames;
  }

  /** What was read of a part of a stream is a part of what was read. */
  lemma {:induction false} DecodedPrefix(frames: seq<Frame>, k: nat)
    requires k <= |frames|
    ensures |Decoded(frames[..k])| <= |Decoded(frames)|
    ensures Decoded(frames)[..|Decoded(frames[..k])|] == Decoded(frames[..k])
    decreases |frames|
  {
    if k == |frames| {
      assert frames[..k] == frames;
    } else {
      DecodedPrefix(Front(frames), k);
      assert Front(frames)[..k] == frames[..k];
    }
  }

  /** The message of a frame, among the messages of the stream. */
  lemma DecodedAt(frames: seq<Frame>, k: nat)
    requires k < |frames| && frames[k].Ok?
    ensures var before, events := Decoded(frames[..k]), Decoded(frames);
            |before| < |events| && events[|before|] == frames[k].value && events[..|before|] == before
  {
    DecodedPrefix(frames, k + 1);
    assert frames[..k + 1] == frames[..k] + [frames[k]];
    Appended(frames[..k], frames[k]);
    var before := Decoded(frames[..k]);
    assert Decoded(frames[..k + 1]) == before + [frames[k].value];
    hide Decoded;
    assert (before + [frames[k].value])[..|before|] == before;
  }

  lemma HaltedNotConsecutive(options: Options, frames: seq<Frame>, k: nat)
    requires !options.stopOnDecodeError && k < |frames| && Halts(options, frames[..k], frames[k])
    ensures !Consecutive(Decoded(frames))
  {
    hide Decoded, Numbers, Highest, Restores, Consecutive;
    DecodedAt(frames, k);
    var events, n := Decoded(frames), |Decoded(frames[..k])|;
    if Consecutive(events) {
      ConsecutiveHighest(events, n);
      ConsecutiveAt(events, n);
    }
  }

  lemma ConsecutiveAt(events: seq<P.Event>, n: nat)
    requires Consecutive(events) && 0 < n < |events|
    ensures events[n].sequenceNumber == events[n - 1].sequenceNumber + 1
  {
  }

  /** The sequence gate alone: with no snapshot to recover from, a replay that tolerates bad frames reaches the
      end exactly when every message is numbered one past the one before. */
  lemma GateExactly(options: Options, frames: seq<Frame>)
    requires options.stopOnSequenceError && !options.stopOnDecodeError && options.recovery == NoPath
    ensures ReplayFrames(Fresh, options, frames).stop == NotStopped <==> Consecutive(Decoded(frames))
  {
    hide ReplayFrames, Applies, Faults, Halts, Decoded, Consecutive, Highest, Numbers;
    var k := ReplayStopsAt(options, frames);
    if k == |frames| {
      NeverHalted(options, frames);
    } else {
      HaltedNotConsecutive(options, frames, k);
    }
  }

  /** In a consecutive stream the highest number so far is the one before. */
  lemma {:induction false} ConsecutiveHighest(events: seq<P.Event>, k: nat)
    requires Consecutive(events) && 0 < k <= |events|
    ensures Highest(Numbers(events[..k])) == Some(events[k - 1].sequenceNumber)
  {
    assert events[..k] == events[..k - 1] + [events[k - 1]];
    NextNumber(events[..k - 1], events[k - 1]);
    if k > 1 {
      ConsecutiveHighest(events, k - 1);
    } else {
      assert Numbers([]) == [];
    }
  }

  lemma {:induction false} NeverHalted(options: Options, frames: seq<Frame>)
    requires options.stopOnSequenceError && options.recovery == NoPath
    requires forall j | 0 <= j < |frames| :: !Halts(options, frames[..j], frames[j])
    ensures Consecutive(Decoded(frames))
    decreases |frames|
  {
    hide Highest;
    if frames != [] {
      var front, frame := Front(frames), Last(frames);
      assert forall j | 0 <= j < |front| :: front[..j] == frames[..j] && front[j] == frames[j];
      NeverHalted(options, front);
      var before := Decoded(front);
      assert !Halts(options, front, frame);
      if frame.Ok? && before != [] {
        assert before[..|before|] == before;
        ConsecutiveHighest(before, |before|);
      }
    }
  }
}
