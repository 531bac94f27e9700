/** Rebuilding books from a stream of frames (replay_engine.cpp): decode errors, sequence checks and
    recovery of a gap from a snapshot. */
module Replay {
  import opened Domain
  import opened PriceTime
  import opened TraderSpec
  import opened SequenceValidators
  import opened BookManagers
  import opened BookEquivalence
  import opened BookRegistry
  import opened ByteIo
  import opened Codec
  import opened Framing
  import opened Snapshot
  import P = Protocol

  /** The recovery snapshot an option names: none, one that cannot be opened, or a file. */
  datatype Recovery = NoPath | Unreadable | File(data: ByteIo.Bytes)

  datatype Options = Options(stopOnSequenceError: bool, stopOnDecodeError: bool, recovery: Recovery)

  datatype Stats = Stats(added: nat, cancelled: nat, modified: nat, traded: nat, cleared: nat, messagesProcessed: nat,
                         decodeFailures: nat, sequenceFailures: nat, bookErrors: nat, recoveries: nat)

  datatype StopReason =
    | NotStopped
    | DecodeStop(error: DecodeError)
    | RecoveryFailed
    | SequenceStop(check: SequenceCheck)

  datatype Session = Session(stats: Stats, books: Books, stop: StopReason, lastSequenceNumber: Option<nat>,
                             lastSeen: Option<nat>)

  const NoStats: Stats := Stats(0, 0, 0, 0, 0, 0, 0, 0, 0, 0)

  const Fresh: Session := Session(NoStats, NoBooks, NotStopped, None, None)

  function Counted(s: Stats, e: P.Event, errors: nat): Stats {
    var t := s.(messagesProcessed := s.messagesProcessed + 1, bookErrors := s.bookErrors + errors);
    match e
    case AddOrder(_, _, _, _, _, _, _) => t.(added := t.added + 1)
    case CancelOrder(_, _, _, _) => t.(cancelled := t.cancelled + 1)
    case ModifyOrder(_, _, _, _, _, _) => t.(modified := t.modified + 1)
    case Trade(_, _, _, _, _, _) => t.(traded := t.traded + 1)
    case ClearBook(_, _, _) => t.(cleared := t.cleared + 1)
  }

  function Accept(s: Session, e: P.Event): Session {
    var applied := ApplyEvent(s.books, e);
    s.(books := applied.books, stats := Counted(s.stats, e, applied.errors),
       lastSequenceNumber := Some(e.sequenceNumber))
  }

  function Recovered(recovery: Recovery): Option<Loaded> {
    match recovery
    case File(data) => Load(data)
    case _ => None
  }

  datatype Next = Next(session: Session, stopped: bool)

  /** One frame. `stopped` tells the caller to go no further. */
  function ApplyFrame(s: Session, options: Options, frame: Frame): Next {
    match frame
    case Err(error) =>
      var failed := s.(stats := s.stats.(decodeFailures := s.stats.decodeFailures + 1));
      if options.stopOnDecodeError then Next(failed.(stop := DecodeStop(error)), true) else Next(failed, false)
    case Ok(e) =>
      var check := Classify(s.lastSeen, e.sequenceNumber);
      var seen := s.(lastSeen := Seen(s.lastSeen, e.sequenceNumber));
      if check.outcome == InOrder then Next(Accept(seen, e), false)
      else
        var failed := seen.(stats := seen.stats.(sequenceFailures := seen.stats.sequenceFailures + 1));
        if check.outcome == Missing && options.recovery != NoPath then
          match Recovered(options.recovery)
          case None => Next(failed.(stop := RecoveryFailed), true)
          case Some(loaded) =>
            var restored := failed.(books := loaded.books, lastSeen := Some(e.sequenceNumber),
                                    stats := failed.stats.(recoveries := failed.stats.recoveries + 1));
            Next(Accept(restored, e), false)
        else if options.stopOnSequenceError then Next(failed.(stop := SequenceStop(check)), true)
        else Next(Accept(failed, e), false)
  }

  /** A caller that ignores the answer. */
  function ApplyAllFrames(s: Session, options: Options, frames: seq<Frame>): Session
    decreases |frames|
  {
    if frames == [] then s else ApplyAllFrames(ApplyFrame(s, options, frames[0]).session, options, frames[1..])
  }

  /** A caller that stops when told to. */
  function ReplayFrames(s: Session, options: Options, frames: seq<Frame>): Session
    decreases |frames|
  {
    if frames == [] then s
    else
      var next := ApplyFrame(s, options, frames[0]);
      if next.stopped then next.session else ReplayFrames(next.session, options, frames[1..])
  }

  // ---------- what was applied ----------

  /** The numbers of the messages applied, when the answer is ignored. */
  function AppliedNumbers(s: Session, options: Options, frames: seq<Frame>): seq<nat>
    decreases |frames|
  {
    if frames == [] then []
    else
      var next := ApplyFrame(s, options, frames[0]).session;
      (if next.stats.messagesProcessed > s.stats.messagesProcessed then [frames[0].value.sequenceNumber] else [])
      + AppliedNumbers(next, options, frames[1..])
  }

  ghost predicate Tallied(s: Session) {
    && s.stats.messagesProcessed ==
       s.stats.added + s.stats.cancelled + s.stats.modified + s.stats.traded + s.stats.cleared
    && (s.lastSequenceNumber.Some? ==> s.lastSeen.Some? && s.lastSequenceNumber.value <= s.lastSeen.value)
  }

  lemma FrameTallied(s: Session, options: Options, frame: Frame)
    requires Tallied(s) && options.stopOnSequenceError
    ensures var next := ApplyFrame(s, options, frame).session;
            && Tallied(next)
            && (next.stats.messagesProcessed == s.stats.messagesProcessed ==>
                next.lastSequenceNumber == s.lastSequenceNumber)
            && (next.stats.messagesProcessed != s.stats.messagesProcessed ==>
                  && next.stats.messagesProcessed == s.stats.messagesProcessed + 1 && frame.Ok?
                  && next.lastSequenceNumber == Some(frame.value.sequenceNumber)
                  && (s.lastSeen.Some? ==> frame.value.sequenceNumber > s.lastSeen.value))
  {
    hide ApplyEvent, Load;
  }

  /** With the sequence gate on, whatever the stream and even if the caller ignores the answer, the
      messages applied have increasing numbers, the last of them is the one recorded, and the messages
      processed are the adds, cancels, modifies, trades and clears. */
  lemma {:induction false} AppliedInOrder(s: Session, options: Options, frames: seq<Frame>)
    requires Tallied(s) && options.stopOnSequenceError
    ensures var after, numbers := ApplyAllFrames(s, options, frames), AppliedNumbers(s, options, frames);
            && Tallied(after) && Increasing(numbers)
            && (forall i | 0 <= i < |numbers| && s.lastSequenceNumber.Some? :: numbers[i] > s.lastSequenceNumber.value)
            && after.lastSequenceNumber ==
               (if numbers == [] then s.lastSequenceNumber else Some(numbers[|numbers| - 1]))
            && after.stats.messagesProcessed == s.stats.messagesProcessed + |numbers|
    decreases |frames|
  {
    hide ApplyFrame, Classify;
    if frames != [] {
      FrameTallied(s, options, frames[0]);
      var next := ApplyFrame(s, options, frames[0]).session;
      AppliedInOrder(next, options, frames[1..]);
    }
  }

  // ---------- gap recovery ----------

  /** Numbered one after the other. */
  ghost predicate Consecutive(events: seq<P.Event>) {
    forall i | 0 < i < |events| :: events[i].sequenceNumber == events[i - 1].sequenceNumber + 1
  }

  /** In-order messages are all applied. */
  lemma {:induction false} InOrderApplies(s: Session, options: Options, events: seq<P.Event>)
    requires Consecutive(events)
    requires events != [] ==> s.lastSeen == None || s.lastSeen.value + 1 == events[0].sequenceNumber
    ensures var after, applied := ApplyAllFrames(s, options, Read(events)), ApplyEvents(s.books, events);
            && after.books == applied.books
            && after.stats.bookErrors == s.stats.bookErrors + applied.errors
            && after.stats.sequenceFailures == s.stats.sequenceFailures
            && after.stats.decodeFailures == s.stats.decodeFailures
            && after.stats.messagesProcessed == s.stats.messagesProcessed + |events|
            && after.stats.recoveries == s.stats.recoveries && after.stop == s.stop
            && (events != [] ==>
                 after.lastSequenceNumber == after.lastSeen == Some(events[|events| - 1].sequenceNumber))
            && ReplayFrames(s, options, Read(events)) == after
    decreases |events|
  {
    hide Consecutive, Read, ApplyFrame, ApplyEvent;
    ReadNext(events);
    if events != [] {
      InOrderApplied(s, options, events[0]);
      ConsecutiveNext(events);
      InOrderApplies(ApplyFrame(s, options, Ok(events[0])).session, options, events[1..]);
    }
  }

  lemma InOrderApplied(s: Session, options: Options, e: P.Event)
    requires s.lastSeen == None || s.lastSeen.value + 1 == e.sequenceNumber
    ensures var next, applied := ApplyFrame(s, options, Ok(e)), ApplyEvent(s.books, e);
            && !next.stopped && next.session.books == applied.books
            && next.session.lastSeen == next.session.lastSequenceNumber == Some(e.sequenceNumber)
            && next.session.stop == s.stop
            && next.session.stats.bookErrors == s.stats.bookErrors + applied.errors
            && next.session.stats.recoveries == s.stats.recoveries
            && next.session.stats.sequenceFailures == s.stats.sequenceFailures
            && next.session.stats.decodeFailures == s.stats.decodeFailures
            && next.session.stats.messagesProcessed == s.stats.messagesProcessed + 1
  {
    hide ApplyEvent;
  }

  lemma ReadNext(events: seq<P.Event>)
    ensures |Read(events)| == |events|
    ensures events != [] ==> Read(events)[0] == Ok(events[0]) && Read(events)[1..] == Read(events[1..])
  {
  }

  lemma ConsecutiveNext(events: seq<P.Event>)
    requires Consecutive(events) && events != []
    ensures Consecutive(events[1..])
    ensures |events| > 1 ==> events[1].sequenceNumber == events[0].sequenceNumber + 1
  {
    TailConsecutive(events, 1);
  }

  lemma SnapshotLoads(file: ByteIo.Bytes, number: nat, b: Books)
    requires SnapshotOf(file, number, b) && AllProper(b) && Encodable(b)
    ensures Load(file).Some? && Same(Load(file).value.books, b) && AllProper(Load(file).value.books)
  {
    var ids :| && Listing(b, ids) && number < WHOLE && OrderCount(b, ids) < WHOLE && AllFit(Entries(number, b, ids))
               && |Entries(number, b, ids)| < WHOLE
               && file == Snapshot.Bytes(number, Entries(number, b, ids));
    hide Load, Snapshot.Bytes, Same, AllProper, Encodable, Listing;
    SnapshotRoundTrip(number, b, ids);
  }

  /** The message that reveals a gap is applied to the snapshot's books. */
  lemma GapApplies(r: Session, options: Options, e: P.Event)
    requires r.lastSeen.Some? && r.lastSeen.value + 1 < e.sequenceNumber
    requires options.recovery.File? && Load(options.recovery.data).Some?
    ensures var next, applied := ApplyFrame(r, options, Ok(e)), ApplyEvent(Load(options.recovery.data).value.books, e);
            && !next.stopped && next.session.books == applied.books
            && next.session.lastSeen == Some(e.sequenceNumber) && next.session.stop == r.stop
            && next.session.stats.bookErrors == r.stats.bookErrors + applied.errors
            && next.session.stats.recoveries == r.stats.recoveries + 1
            && next.session.stats.sequenceFailures == r.stats.sequenceFailures + 1
            && next.session.lastSequenceNumber == Some(e.sequenceNumber)
  {
    hide Load, ApplyEvent;
  }

  /** From the message that reveals a gap on, the snapshot's books are what the stream is applied to. */
  lemma AfterGap(r: Session, options: Options, rest: seq<P.Event>)
    requires rest != [] && Consecutive(rest) && r.lastSeen.Some? && r.lastSeen.value + 1 < rest[0].sequenceNumber
    requires options.recovery.File? && Load(options.recovery.data).Some?
    ensures var after, applied := ApplyAllFrames(r, options, Read(rest)),
            ApplyEvents(Load(options.recovery.data).value.books, rest);
            && after.books == applied.books
            && after.stats.bookErrors == r.stats.bookErrors + applied.errors
            && after.stats.sequenceFailures == r.stats.sequenceFailures + 1
            && after.stats.recoveries == r.stats.recoveries + 1
            && after.lastSequenceNumber == Some(rest[|rest| - 1].sequenceNumber)
            && after.stop == r.stop && ReplayFrames(r, options, Read(rest)) == after
  {
    hide Load, ApplyFrame, ApplyEvent, Read, Consecutive;
    GapApplies(r, options, rest[0]);
    ReadNext(rest);
    ConsecutiveNext(rest);
    InOrderApplies(ApplyFrame(r, options, Ok(rest[0])).session, options, rest[1..]);
  }

  /** Recovering from a gap preserves meaning. If the snapshot was taken of the books after the first `n`
      messages, and the first message to arrive past a gap is the next one, then from there on any
      receiver, whatever its books were, has the books of the run that lost nothing: the same orders in
      the same order at every level, the same book errors, and no further sequence failure. */
  lemma GapRecovery(events: seq<P.Event>, n: nat, r: Session, options: Options, number: nat)
    requires Consecutive(events) && n < |events|
    requires r.lastSeen.Some? && r.lastSeen.value + 1 < events[n].sequenceNumber
    requires var before := ApplyEvents(NoBooks, events[..n]).books;
             Encodable(before) && options.recovery.File? && SnapshotOf(options.recovery.data, number, before)
    ensures var before, whole := ApplyEvents(NoBooks, events[..n]), ApplyEvents(NoBooks, events);
            var after := ApplyAllFrames(r, options, Read(events[n..]));
            && Same(after.books, whole.books) && AllProper(after.books)
            && after.stats.bookErrors == r.stats.bookErrors + (whole.errors - before.errors)
            && after.stats.sequenceFailures == r.stats.sequenceFailures + 1
            && after.stats.recoveries == r.stats.recoveries + 1
            && after.lastSequenceNumber == Some(events[|events| - 1].sequenceNumber)
            && after.stop == r.stop && ReplayFrames(r, options, Read(events[n..])) == after
  {
    hide Same, AllProper, Encodable, SnapshotOf, Load, ApplyEvents, ApplyAllFrames, ReplayFrames, Read, Consecutive;
    var before := ApplyEvents(NoBooks, events[..n]).books;
    var rest := events[n..];
    NoBooksProper();
    ApplyAllKeepsProper(NoBooks, events[..n]);
    SnapshotLoads(options.recovery.data, number, before);
    TailConsecutive(events, n);
    AfterGap(r, options, rest);
    ApplyAllSame(Load(options.recovery.data).value.books, before, rest);
    ApplyAllKeepsProper(Load(options.recovery.data).value.books, rest);
    assert events == events[..n] + rest;
    ApplyConcat(NoBooks, events[..n], rest);
  }

  lemma NoBooksProper()
    ensures AllProper(NoBooks)
  {
  }

  lemma TailConsecutive(events: seq<P.Event>, n: nat)
    requires Consecutive(events) && n <= |events|
    ensures Consecutive(events[n..])
  {
    assert forall i | 0 <= i < |events| - n :: events[n..][i] == events[n + i];
  }

  /** A file of consecutive messages replays to the books the messages make, with no decode or sequence
      failure. */
  lemma LosslessReplay(events: seq<P.Event>, options: Options)
    requires Consecutive(events) && AllFit(events)
    ensures var after, applied := ReplayFrames(Fresh, options, ReadAll(Frames(events))), ApplyEvents(NoBooks, events);
            && after.books == applied.books && after.stats.bookErrors == applied.errors
            && after.stats.decodeFailures == 0 && after.stats.sequenceFailures == 0
            && after.stats.messagesProcessed == |events| && after.stop == NotStopped
  {
    hide ReadAll, Frames, Read, Consecutive, ApplyEvents, ApplyAllFrames, ReplayFrames, ApplyFrame, AllFit, Fits;
    FileRoundTrip(events);
    InOrderApplies(Fresh, options, events);
  }

  // ---------- the loop ----------

  class Replayer {
    var stats: Stats
    var books: BookManager
    var stop: StopReason
    var lastSequenceNumber: Option<nat>
    const validator: SequenceValidator

    ghost function State(): Session
      reads this, books, validator
    {
      Session(stats, books.State(), stop, lastSequenceNumber, validator.lastSeen)
    }

    ghost predicate Valid()
      reads this, books, books.frame
    {
      books.Valid() && this !in books.frame && validator !in books.frame
    }

    constructor ()
      ensures Valid() && fresh(validator) && fresh(books) && fresh(books.frame) && State() == Fresh
    {
      validator := new SequenceValidator();
      books := new BookManager();
      stats, stop, lastSequenceNumber := NoStats, NotStopped, None;
    }

    /** Counts a message and applies it to the books. */
    method Take(e: P.Event)
      requires Valid()
      modifies this, books, books.frame
      ensures Valid() && books == old(books) && fresh(books.frame - old(books.frame))
      ensures State() == Accept(old(State()), e)
    {
      hide ApplyEvent, BookManager.Valid, BookManager.State;
      stats := stats.(messagesProcessed := stats.messagesProcessed + 1);
      lastSequenceNumber := Some(e.sequenceNumber);
      match e {
        case AddOrder(_, _, _, _, _, _, _) => stats := stats.(added := stats.added + 1);
        case CancelOrder(_, _, _, _) => stats := stats.(cancelled := stats.cancelled + 1);
        case ModifyOrder(_, _, _, _, _, _) => stats := stats.(modified := stats.modified + 1);
        case Trade(_, _, _, _, _, _) => stats := stats.(traded := stats.traded + 1);
        case ClearBook(_, _, _) => stats := stats.(cleared := stats.cleared + 1);
      }
      var refused := books.ApplyEvent(e);
      if refused {
        stats := stats.(bookErrors := stats.bookErrors + 1);
      }
    }

    /** Loads the snapshot's books in place of these. */
    method Recover(recovery: Recovery, number: nat) returns (ok: bool)
      requires Valid() && recovery != NoPath
      modifies this, validator
      ensures Valid() && (books == old(books) || (fresh(books) && fresh(books.frame)))
      ensures ok == Recovered(recovery).Some?
      ensures State() == match Recovered(recovery)
                         case None => old(State()).(stop := RecoveryFailed)
                         case Some(loaded) =>
                           old(State()).(books := loaded.books, lastSeen := Some(number),
                                         stats := old(stats).(recoveries := old(stats).recoveries + 1))
      ensures !ok ==> books == old(books)
    {
      hide Load, BookManager.Valid, BookManager.State;
      if recovery.Unreadable? {
        stop := RecoveryFailed;
        return false;
      }
      var loaded := ReadSnapshot(recovery.data);
      if loaded.None? {
        stop := RecoveryFailed;
        return false;
      }
      books := loaded.value.books;
      stats := stats.(recoveries := stats.recoveries + 1);
      validator.Reset(number);
      return true;
    }

    method ApplyFrameResult(frame: Frame, options: Options) returns (stopped: bool)
      requires Valid()
      modifies this, validator, books, books.frame
      ensures Valid() && fresh(books.frame - old(books.frame)) && (books == old(books) || fresh(books))
      ensures Next(State(), stopped) == ApplyFrame(old(State()), options, frame)
    {
      hide Accept, Recovered, Classify, Seen, BookManager.Valid, BookManager.State;
      if frame.Err? {
        stats := stats.(decodeFailures := stats.decodeFailures + 1);
        if options.stopOnDecodeError {
          stop := DecodeStop(frame.error);
        }
        return options.stopOnDecodeError;
      }
      var e := frame.value;
      var check := validator.Check(e.sequenceNumber);
      if check.outcome != InOrder {
        stats := stats.(sequenceFailures := stats.sequenceFailures + 1);
        if check.outcome == Missing && options.recovery != NoPath {
          var ok := Recover(options.recovery, e.sequenceNumber);
          if !ok {
            return true;
          }
        } else if options.stopOnSequenceError {
          stop := SequenceStop(check);
          return true;
        }
      }
      Take(e);
      return false;
    }
  }

  /** Applies frames as the file yields them, until told to stop. */
  method RunReplay(data: ByteIo.Bytes, options: Options) returns (outcome: Replayer)
    ensures outcome.Valid() && fresh(outcome)
    ensures outcome.State() == ReplayFrames(Fresh, options, ReadAll(data))
  {
    hide ApplyFrame, NextFrame, Replayer.Valid, Replayer.State;
    var reader := new EventFileReader(data);
    outcome := new Replayer();
    while true
      invariant outcome.Valid() && fresh(outcome) && fresh(outcome.validator) && fresh(outcome.books)
                && fresh(outcome.books.frame)
      invariant fresh(reader) && Separate(reader, outcome)
      invariant ReplayFrames(Fresh, options, ReadAll(data)) ==
                ReplayFrames(outcome.State(), options, ReadAll(reader.left))
      decreases |reader.left|
    {
      NextShorter(reader.left);
      var frame := reader.Next();
      if frame.None? {
        break;
      }
      var stopped := outcome.ApplyFrameResult(frame.value, options);
      if stopped {
        return;
      }
    }
  }

  /** The reader is no part of what the outcome is made of. */
  ghost predicate Separate(reader: EventFileReader, outcome: Replayer)
    reads outcome, outcome.books
  {
    reader !in outcome.books.frame
  }

  lemma NextShorter(data: ByteIo.Bytes)
    ensures match NextFrame(data)
            case None => ReadAll(data) == []
            case Some(next) =>
              |next.1| < |data| && ReadAll(data) != [] && ReadAll(data)[0] == next.0
                && ReadAll(data)[1..] == ReadAll(next.1)
  {
    var next := NextFrame(data);
    hide NextFrame;
    if next.Some? {
      assert ReadAll(data) == [next.value.0] + ReadAll(next.value.1);
    }
  }
}
