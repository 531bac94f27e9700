/** The router between the matching thread and the network (market_data_router.cpp, dropping_queue.hpp):
    a message takes its feed number before it is pushed, so one that is dropped leaves a gap. */
module MarketDataRouter {
  import opened Domain
  import opened SpscQueue
  import opened SequenceValidators

  /** The queue of numbered messages, each standing for its number, and the publisher's counter. What
      was refused was dropped. */
  datatype Router = Router(queue: State<nat>, nextSequence: nat)

  /** The matching thread publishes, or takes its next step in the push; the routing thread takes its
      next step in the drain. */
  datatype Move = Publish | Produce | Drain

  function Step(r: Router, m: Move): Router
    requires |r.queue.storage| > 0
  {
    match m
    case Publish =>
      if r.queue.producer.Resting? then Router(Call(r.queue, r.nextSequence), r.nextSequence + 1) else r
    case Produce => r.(queue := Push(r.queue))
    case Drain => r.(queue := Pop(r.queue))
  }

  function Run(r: Router, moves: seq<Move>): Router
    requires |r.queue.storage| > 0
    decreases |moves|
  {
    if moves == [] then r else Run(Step(r, moves[0]), moves[1..])
  }

  function Opening(capacity: nat): Router {
    Router(Initial(capacity), 1)
  }

  /** The first number that is neither queued nor dropped: in flight, or not given out. */
  function Open(r: Router): nat {
    if r.queue.producer.Resting? then r.nextSequence else r.queue.producer.value
  }

  /** Every number below was queued or dropped, and not both; queued in order; and only the queue's being
      full drops one, so the first never is. */
  ghost predicate Settled(pushed: seq<nat>, refused: seq<nat>, open: nat) {
    && Increasing(pushed)
    && (forall i | 0 <= i < |pushed| :: 1 <= pushed[i] < open)
    && (forall i | 0 <= i < |refused| :: 1 <= refused[i] < open)
    && (forall n: nat | 1 <= n < open :: n in pushed <==> n !in refused)
    && (pushed == [] ==> refused == [])
    && (pushed != [] ==> pushed[0] == 1)
  }

  ghost predicate Numbered(r: Router) {
    && Inv(r.queue)
    && r.nextSequence == Open(r) + (if r.queue.producer.Resting? then 0 else 1) && Open(r) >= 1
    && Settled(r.queue.pushed, r.queue.refused, Open(r))
  }

  lemma QueuedSettles(pushed: seq<nat>, refused: seq<nat>, open: nat)
    requires Settled(pushed, refused, open) && open >= 1
    ensures Settled(pushed + [open], refused, open + 1)
  {
    var pushed' := pushed + [open];
    assert open > 1 ==> (1 in pushed <==> 1 !in refused);
    forall n: nat | 1 <= n < open + 1 ensures n in pushed' <==> n !in refused {
      if n == open {
        assert pushed'[|pushed|] == n;
      } else {
        assert n in pushed' <==> n in pushed;
      }
    }
  }

  lemma DroppedSettles(pushed: seq<nat>, refused: seq<nat>, open: nat)
    requires Settled(pushed, refused, open) && pushed != []
    ensures Settled(pushed, refused + [open], open + 1)
  {
    var refused' := refused + [open];
    forall n: nat | 1 <= n < open + 1 ensures n in pushed <==> n !in refused' {
      if n == open {
        assert refused'[|refused|] == n;
      } else {
        assert n in refused' <==> n in refused;
      }
    }
  }

  /** A queue that refuses has something in it. */
  lemma FirstIsQueued(q: State<nat>)
    requires Inv(q)
    ensures q.producer.TailLoaded? && Push(q).producer.Resting? ==> q.pushed != []
    ensures Push(q).pushed == (if q.producer.Measured? then q.pushed + [q.producer.value] else q.pushed)
    ensures Push(q).refused ==
            (if q.producer.TailLoaded? && Push(q).producer.Resting? then q.refused + [q.producer.value] else q.refused)
  {
  }

  lemma ProduceNumbered(r: Router)
    requires Numbered(r)
    ensures Numbered(Step(r, Move.Produce))
  {
    PushInv(r.queue);
    FirstIsQueued(r.queue);
    hide Inv, Settled;
    var q, q' := r.queue, Push(r.queue);
    if q.producer.Measured? {
      QueuedSettles(q.pushed, q.refused, q.producer.value);
    } else if q.producer.TailLoaded? && q'.producer.Resting? {
      DroppedSettles(q.pushed, q.refused, q.producer.value);
    }
  }

  lemma StepNumbered(r: Router, m: Move)
    requires Numbered(r)
    ensures Numbered(Step(r, m))
  {
    match m
    case Publish =>
      CallInv(r.queue, r.nextSequence);
      hide Inv, Settled;
    case Produce => ProduceNumbered(r);
    case Drain =>
      PopInv(r.queue);
      hide Inv;
  }

  lemma {:induction false} RunNumbered(r: Router, moves: seq<Move>)
    requires Numbered(r)
    ensures Numbered(Run(r, moves))
    decreases |moves|
  {
    if moves != [] {
      StepNumbered(r, moves[0]);
      hide Numbered, Step;
      RunNumbered(Step(r, moves[0]), moves[1..]);
    }
  }

  /** Drops are never silent once something follows. Over every interleaving of publishing and draining,
      a subscriber who loses nothing more sees each message in order or as the end of a gap; and of the
      numbers up to the last one delivered, each was delivered, or was dropped and is reported missing
      by exactly one check. */
  lemma DropsAreNeverSilent(capacity: nat, moves: seq<Move>, n: nat)
    requires capacity > 0
    ensures var r := Run(Opening(capacity), moves);
            var delivered, dropped := r.queue.popped, r.queue.refused;
            var checks := Checks(None, delivered);
            delivered != [] && 1 <= n <= delivered[|delivered| - 1] ==>
              && |checks| == |delivered| && delivered[0] == 1
              && (forall k | 0 <= k < |checks| :: checks[k].outcome == InOrder || checks[k].outcome == Missing)
              && (n in delivered <==> forall k | 0 <= k < |checks| :: !Reports(checks[k], n))
              && (n in dropped <==> n !in delivered)
              && (forall j, k | 0 <= j < k < |checks| :: !(Reports(checks[j], n) && Reports(checks[k], n)))
  {
    var r := Run(Opening(capacity), moves);
    InitialInv<nat>(capacity);
    RunNumbered(Opening(capacity), moves);
    var delivered, pushed := r.queue.popped, r.queue.pushed;
    if delivered != [] && 1 <= n <= delivered[|delivered| - 1] {
      DeliveredFront(r);
      SeenOrReported(delivered, n);
      Accounted(r, n);
    }
  }

  /** What is delivered is the front of what was queued. */
  lemma DeliveredFront(r: Router)
    requires Numbered(r) && r.queue.popped != []
    ensures Increasing(r.queue.popped) && r.queue.popped[0] == 1
    ensures |r.queue.popped| <= |r.queue.pushed|
            && forall i | 0 <= i < |r.queue.popped| :: r.queue.popped[i] == r.queue.pushed[i]
  {
  }

  /** Up to the last delivered number, what was not delivered was dropped. */
  lemma Accounted(r: Router, n: nat)
    requires Numbered(r) && r.queue.popped != [] && 1 <= n <= r.queue.popped[|r.queue.popped| - 1]
    ensures n in r.queue.refused <==> n !in r.queue.popped
  {
    DeliveredFront(r);
    var popped, pushed := r.queue.popped, r.queue.pushed;
    var last := |popped| - 1;
    assert 1 <= pushed[last] < Open(r);
    assert n in pushed <==> n !in r.queue.refused;
    hide Inv, Settled;
    if n in pushed {
      var i :| 0 <= i < |pushed| && pushed[i] == n;
      assert i <= last;
      assert popped[i] == n;
    }
  }
}
