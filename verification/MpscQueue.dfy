/** The multi-producer queue (mpsc_queue.hpp) with the matching thread behind it
    (matching_pipeline.cpp): each atomic load, store and compare-exchange, each construction, move and
    destruction is one step, and any thread may take the next. Steps are sequentially consistent and
    indices stay below 2^64. */
module MpscQueue {
  import opened Domain
  import opened Arithmetic

  const WRAP: nat := 0x1_0000_0000_0000_0000

  /** `storage` is the element while it is constructed. */
  datatype Slot<T> = Slot(published: nat, storage: Option<T>)

  /** Where a producer is in try_push. */
  datatype Producer<T> =
    | Resting
    | Called(value: T)
    | HeadLoaded(value: T, head: nat)
    | TailLoaded(value: T, head: nat, tail: nat)
    | Reserved(value: T, head: nat)
    | Constructed(value: T, head: nat)
    | Published(value: T, head: nat)

  /** Where the matching thread is in try_pop, and just after. */
  datatype Consumer<T> =
    | Polling
    | Looking(index: nat)
    | Ready(index: nat)
    | Moved(index: nat, value: T)
    | Destroyed(index: nat, value: T)
    | Cleared(index: nat, value: T)
    | Dequeued(value: T)

  datatype Reservation<T> = Reservation(producer: nat, value: T)

  datatype Stamped<T> = Stamped(sequence: nat, value: T)

  /** The queue, its threads, and what has happened so far: every successful reservation, what each
      producer was told was accepted, what was popped and how it was numbered. */
  datatype State<T> = State(
    slots: seq<Slot<T>>,
    head: nat,
    tail: nat,
    producers: seq<Producer<T>>,
    consumer: Consumer<T>,
    nextSequence: nat,
    reservations: seq<Reservation<T>>,
    accepted: seq<seq<T>>,
    popped: seq<T>,
    processed: seq<Stamped<T>>)

  /** Who moves: a producer calls try_push, a producer takes its next step (a compare-exchange may fail
      for no reason), or the consumer takes its next step. */
  datatype Action<T> = Call(producer: nat, value: T) | Advance(producer: nat, spurious: bool) | Consume

  /** Unsigned subtraction. */
  function Minus(a: nat, b: nat): nat {
    (a - b) % WRAP
  }

  function At<T>(s: State<T>, p: nat, producer: Producer<T>): State<T>
    requires p < |s.producers|
  {
    s.(producers := s.producers[p := producer])
  }

  function SlotOf<T>(s: State<T>, index: nat): nat
    requires |s.slots| > 0
  {
    index % |s.slots|
  }

  /** One step of try_push. */
  function Push<T>(s: State<T>, p: nat, spurious: bool): State<T>
    requires p < |s.producers| && |s.slots| > 0 && |s.accepted| == |s.producers|
  {
    match s.producers[p]
    case Resting => s
    case Called(v) => At(s, p, HeadLoaded(v, s.head))
    case HeadLoaded(v, h) => At(s, p, TailLoaded(v, h, s.tail))
    case TailLoaded(v, h, t) =>
      if Minus(h, t) >= |s.slots| then At(s, p, Resting)
      else if s.head != h || spurious || h + 1 >= WRAP then At(s, p, HeadLoaded(v, s.head))
      else At(s, p, Reserved(v, h)).(head := h + 1, reservations := s.reservations + [Reservation(p, v)])
    case Reserved(v, h) =>
      var slot := s.slots[SlotOf(s, h)];
      At(s, p, Constructed(v, h)).(slots := s.slots[SlotOf(s, h) := slot.(storage := Some(v))])
    case Constructed(v, h) =>
      var slot := s.slots[SlotOf(s, h)];
      At(s, p, Published(v, h)).(slots := s.slots[SlotOf(s, h) := slot.(published := h + 1)])
    case Published(v, h) =>
      At(s, p, Resting).(accepted := s.accepted[p := s.accepted[p] + [v]])
  }

  /** One step of try_pop, or of what the matching thread does with what it popped. */
  function Pop<T>(s: State<T>): State<T>
    requires |s.slots| > 0
  {
    match s.consumer
    case Polling => s.(consumer := Looking(s.tail))
    case Looking(t) =>
      if s.slots[SlotOf(s, t)].published != t + 1 then s.(consumer := Polling) else s.(consumer := Ready(t))
    case Ready(t) =>
      var storage := s.slots[SlotOf(s, t)].storage;
      if storage.None? then s else s.(consumer := Moved(t, storage.value))
    case Moved(t, v) =>
      s.(consumer := Destroyed(t, v), slots := s.slots[SlotOf(s, t) := s.slots[SlotOf(s, t)].(storage := None)])
    case Destroyed(t, v) =>
      s.(consumer := Cleared(t, v), slots := s.slots[SlotOf(s, t) := s.slots[SlotOf(s, t)].(published := 0)])
    case Cleared(t, v) => s.(consumer := Dequeued(v), tail := t + 1, popped := s.popped + [v])
    case Dequeued(v) =>
      s.(consumer := Polling, nextSequence := s.nextSequence + 1,
         processed := s.processed + [Stamped(s.nextSequence, v)])
  }

  function Step<T>(s: State<T>, a: Action<T>): State<T>
    requires |s.slots| > 0 && |s.accepted| == |s.producers|
  {
    match a
    case Call(p, v) => if p < |s.producers| && s.producers[p].Resting? then At(s, p, Called(v)) else s
    case Advance(p, spurious) => if p < |s.producers| then Push(s, p, spurious) else s
    case Consume => Pop(s)
  }

  // ---------- the invariant ----------

  /** The reservation a producer has not finished with. */
  predicate Owns<T>(producer: Producer<T>, index: nat) {
    (producer.Reserved? || producer.Constructed?) && producer.head == index
  }

  /** The consumer is at work on the element at the tail. */
  predicate Busy<T>(consumer: Consumer<T>) {
    consumer.Ready? || consumer.Moved? || consumer.Destroyed? || consumer.Cleared?
  }

  ghost predicate ProducerSound<T>(s: State<T>, p: nat)
    requires p < |s.producers| && |s.slots| > 0
  {
    match s.producers[p]
    case Resting => true
    case Called(v) => true
    case HeadLoaded(v, h) => h <= s.head
    case TailLoaded(v, h, t) => h <= s.head && t <= s.tail
    case Reserved(v, h) =>
      s.tail <= h < |s.reservations| && s.reservations[h] == Reservation(p, v)
      && s.slots[SlotOf(s, h)] == Slot(0, None)
    case Constructed(v, h) =>
      s.tail <= h < |s.reservations| && s.reservations[h] == Reservation(p, v)
      && s.slots[SlotOf(s, h)] == Slot(0, Some(v))
    case Published(v, h) => h < |s.reservations| && s.reservations[h] == Reservation(p, v)
  }

  ghost predicate Unowned<T>(s: State<T>, index: nat) {
    forall p | 0 <= p < |s.producers| :: !Owns(s.producers[p], index)
  }

  /** What a slot between tail and head is, once no producer owns it. */
  ghost predicate SlotSound<T>(s: State<T>, index: nat)
    requires index < |s.reservations| && |s.slots| > 0
  {
    s.slots[SlotOf(s, index)] ==
    if index == s.tail && s.consumer.Destroyed? then Slot(index + 1, None)
    else if index == s.tail && s.consumer.Cleared? then Slot(0, None)
    else Slot(index + 1, Some(s.reservations[index].value))
  }

  ghost predicate Free<T>(s: State<T>, index: nat)
    requires |s.slots| > 0
  {
    s.slots[SlotOf(s, index)] == Slot(0, None)
  }

  ghost predicate ConsumerSound<T>(s: State<T>) {
    && (s.consumer.Looking? ==> s.consumer.index == s.tail)
    && (Busy(s.consumer) ==> s.consumer.index == s.tail < s.head && Unowned(s, s.tail))
    && (s.consumer.Moved? || s.consumer.Destroyed? || s.consumer.Cleared? ==>
          s.tail < |s.reservations| && s.consumer.value == s.reservations[s.tail].value)
  }

  function Values<T>(reservations: seq<Reservation<T>>): seq<T> {
    seq(|reservations|, i requires 0 <= i < |reservations| => reservations[i].value)
  }

  /** The part of the history one producer wrote. */
  function By<T>(reservations: seq<Reservation<T>>, p: nat): seq<T> {
    if reservations == [] then []
    else
      var last := reservations[|reservations| - 1];
      By(reservations[..|reservations| - 1], p) + (if last.producer == p then [last.value] else [])
  }

  /** The value a producer has reserved a slot for and not yet been told about. */
  function Pending<T>(producer: Producer<T>): seq<T> {
    if producer.Reserved? || producer.Constructed? || producer.Published? then [producer.value] else []
  }

  /** The indices of the ring, and who may touch each slot. */
  ghost predicate Ring<T>(s: State<T>) {
    && 0 < |s.slots| && |s.accepted| == |s.producers|
    && s.tail <= s.head <= s.tail + |s.slots| && s.head < WRAP && s.head == |s.reservations|
    && (forall p | 0 <= p < |s.producers| :: ProducerSound(s, p))
    && (forall i | s.tail <= i < s.head :: Unowned(s, i) ==> SlotSound(s, i))
    && (forall i | s.head <= i < s.tail + |s.slots| :: Free(s, i))
    && ConsumerSound(s)
  }

  /** What has come out is the front of what was reserved, numbered from one without a gap. */
  ghost predicate Delivery<T>(s: State<T>) {
    && s.tail <= |s.reservations|
    && s.popped == Values(s.reservations[..s.tail])
    && s.nextSequence == |s.processed| + 1
    && |s.popped| == |s.processed| + (if s.consumer.Dequeued? then 1 else 0)
    && (s.consumer.Dequeued? ==> s.consumer.value == s.popped[|s.popped| - 1])
    && (forall i | 0 <= i < |s.processed| :: s.processed[i] == Stamped(i + 1, s.popped[i]))
  }

  /** What a producer was told was accepted, with what it is still placing, is what it reserved. */
  ghost predicate Accounted<T>(s: State<T>) {
    && |s.accepted| == |s.producers|
    && forall p | 0 <= p < |s.producers| :: s.accepted[p] + Pending(s.producers[p]) == By(s.reservations, p)
  }

  ghost predicate Inv<T>(s: State<T>) {
    Ring(s) && Delivery(s) && Accounted(s)
  }

  /** Only the slot of `index` changes, so only that index's facts do. */
  lemma OthersKeep<T>(s: State<T>, index: nat, slot: Slot<T>, i: nat)
    requires 0 < |s.slots| && s.tail <= index < s.tail + |s.slots| && s.tail <= i < s.tail + |s.slots| && i != index
    ensures s.slots[SlotOf(s, index) := slot][SlotOf(s, i)] == s.slots[SlotOf(s, i)]
  {
    if SlotOf(s, i) == SlotOf(s, index) {
      NoCollision(s.tail, |s.slots|, i, index);
    }
  }

  lemma SameOwners<T>(s: State<T>, p: nat, producer: Producer<T>, i: nat)
    requires p < |s.producers| && (Owns(producer, i) <==> Owns(s.producers[p], i))
    ensures Unowned(At(s, p, producer), i) <==> Unowned(s, i)
  {
    var s' := At(s, p, producer);
    if Unowned(s', i) {
      forall q | 0 <= q < |s.producers| ensures !Owns(s.producers[q], i) {
        assert !Owns(s'.producers[q], i);
      }
    }
    if Unowned(s, i) {
      forall q | 0 <= q < |s.producers| ensures !Owns(s'.producers[q], i) {
        assert !Owns(s.producers[q], i);
      }
    }
  }

  /** A step that only moves a producer's own program counter, owning nothing before or after. */
  lemma PrivateRing<T>(s: State<T>, p: nat, producer: Producer<T>)
    requires Ring(s) && p < |s.producers|
    requires !s.producers[p].Reserved? && !s.producers[p].Constructed?
    requires !producer.Reserved? && !producer.Constructed? && ProducerSound(At(s, p, producer), p)
    ensures Ring(At(s, p, producer))
  {
    hide Unowned;
    var s' := At(s, p, producer);
    forall q | 0 <= q < |s'.producers| ensures ProducerSound(s', q) {
      assert ProducerSound(s, q);
    }
    forall i: nat ensures Unowned(s', i) <==> Unowned(s, i) {
      SameOwners(s, p, producer, i);
    }
    forall i | s'.tail <= i < s'.head && Unowned(s', i) ensures SlotSound(s', i) {
      assert SlotSound(s, i);
    }
    forall i | s'.head <= i < s'.tail + |s'.slots| ensures Free(s', i) {
      assert Free(s, i);
    }
  }

  /** The compare-exchange succeeds: the next index is this producer's. */
  lemma ReserveRing<T>(s: State<T>, p: nat)
    requires Ring(s) && p < |s.producers| && s.producers[p].TailLoaded? && s.producers[p].head == s.head
    requires Minus(s.head, s.producers[p].tail) < |s.slots| && s.head + 1 < WRAP
    ensures Ring(Push(s, p, false))
  {
    var h, t := s.producers[p].head, s.producers[p].tail;
    var s' := Push(s, p, false);
    assert ProducerSound(s, p);
    assert Minus(h, t) == h - t;
    assert Free(s, h);
    assert s'.slots == s.slots && Owns(s'.producers[p], h) && !Unowned(s', h);
    forall i | s'.tail <= i < s'.head && Unowned(s', i) ensures SlotSound(s', i) {
      SameOwners(s, p, s'.producers[p], i);
      assert At(s, p, s'.producers[p]).producers == s'.producers;
      assert Unowned(s, i) && SlotSound(s, i);
    }
    forall q | 0 <= q < |s'.producers| ensures ProducerSound(s', q) {
      assert ProducerSound(s, q);
    }
    forall i | s'.head <= i < s'.tail + |s'.slots| ensures Free(s', i) {
      assert Free(s, i);
    }
    if Busy(s.consumer) {
      SameOwners(s, p, s'.producers[p], s.tail);
    }
  }

  /** A producer writes to the slot it owns: the element first, then the ticket. */
  lemma PlaceRing<T>(s: State<T>, p: nat)
    requires Ring(s) && p < |s.producers| && (s.producers[p].Reserved? || s.producers[p].Constructed?)
    ensures Ring(Push(s, p, false))
  {
    var h := s.producers[p].head;
    var s' := Push(s, p, false);
    var slot := s'.slots[SlotOf(s, h)];
    assert ProducerSound(s, p) && Owns(s.producers[p], h) && !Unowned(s, h);
    assert h == s.tail ==> !Busy(s.consumer);
    assert s.producers[p].Reserved? ==> Owns(s'.producers[p], h) && !Unowned(s', h);
    forall q | 0 <= q < |s'.producers| ensures ProducerSound(s', q) {
      assert ProducerSound(s, q);
      if q != p && (s.producers[q].Reserved? || s.producers[q].Constructed?) {
        assert s.producers[q].head != h;
        OthersKeep(s, h, slot, s.producers[q].head);
      }
    }
    forall i | s'.tail <= i < s'.head && Unowned(s', i) ensures SlotSound(s', i) {
      if i != h {
        SameOwners(s, p, s'.producers[p], i);
        assert At(s, p, s'.producers[p]).producers == s'.producers;
        assert Unowned(s, i) && SlotSound(s, i);
        OthersKeep(s, h, slot, i);
      }
    }
    forall i | s'.head <= i < s'.tail + |s'.slots| ensures Free(s', i) {
      assert Free(s, i);
      OthersKeep(s, h, slot, i);
    }
    if Busy(s.consumer) {
      SameOwners(s, p, s'.producers[p], s.tail);
    }
  }

  lemma PushRing<T>(s: State<T>, p: nat, spurious: bool)
    requires Ring(s) && p < |s.producers|
    ensures Ring(Push(s, p, spurious))
  {
    var s' := Push(s, p, spurious);
    assert ProducerSound(s, p);
    var producer := s.producers[p];
    if producer.Reserved? || producer.Constructed? {
      PlaceRing(s, p);
    } else if producer.TailLoaded? && s'.head == s.head + 1 {
      ReserveRing(s, p);
    } else if !producer.Resting? {
      hide Unowned, ProducerSound, SlotSound, Free;
      PrivateOnly(s, p, spurious);
      PrivateRing(s, p, s'.producers[p]);
      SameRing(At(s, p, s'.producers[p]), s');
    }
  }

  /** What the remaining steps of try_push change. */
  lemma PrivateOnly<T>(s: State<T>, p: nat, spurious: bool)
    requires Ring(s) && p < |s.producers|
    requires !s.producers[p].Resting? && !s.producers[p].Reserved? && !s.producers[p].Constructed?
    requires s.producers[p].TailLoaded? ==> Push(s, p, spurious).head != s.head + 1
    ensures var s' := Push(s, p, spurious);
            && !s'.producers[p].Reserved? && !s'.producers[p].Constructed?
            && s' == At(s, p, s'.producers[p]).(accepted := s'.accepted) && |s'.accepted| == |s.accepted|
            && ProducerSound(At(s, p, s'.producers[p]), p)
  {
    assert ProducerSound(s, p);
  }

  /** The acceptances are no part of the ring. */
  lemma SameRing<T>(s: State<T>, s': State<T>)
    requires Ring(s) && s' == s.(accepted := s'.accepted) && |s'.accepted| == |s.accepted|
    ensures Ring(s')
  {
    forall p | 0 <= p < |s'.producers| ensures ProducerSound(s', p) {
      assert ProducerSound(s, p);
    }
    forall i: nat ensures Unowned(s', i) == Unowned(s, i) {
    }
    forall i | s'.tail <= i < s'.head && Unowned(s', i) ensures SlotSound(s', i) {
      assert Unowned(s, i) && SlotSound(s, i);
    }
    forall i | s'.head <= i < s'.tail + |s'.slots| ensures Free(s', i) {
      assert Free(s, i);
    }
  }

  lemma SameOwnersEverywhere<T>(s: State<T>, s': State<T>, i: nat)
    requires s'.producers == s.producers
    ensures Unowned(s', i) == Unowned(s, i)
  {
  }

  /** A ticket for the tail means the element is there and nobody owns the slot. */
  lemma LookRing<T>(s: State<T>)
    requires Ring(s) && s.consumer.Looking? && s.slots[SlotOf(s, s.tail)].published == s.tail + 1
    ensures s.tail < s.head && Unowned(s, s.tail) && SlotSound(s, s.tail)
    ensures Ring(Pop(s))
  {
    var s', t := Pop(s), s.tail;
    assert s.head < s.tail + |s.slots| ==> Free(s, s.head);
    forall p | 0 <= p < |s.producers| ensures !Owns(s.producers[p], t) {
      assert ProducerSound(s, p);
    }
    assert SlotSound(s, t);
    QuietRing(s);
  }

  /** Steps that leave slots, indices and producers alone. */
  lemma QuietRing<T>(s: State<T>)
    requires Ring(s) && !s.consumer.Moved? && !s.consumer.Destroyed? && !s.consumer.Cleared?
    requires s.consumer.Looking? && Pop(s).consumer.Ready? ==> s.tail < s.head && Unowned(s, s.tail)
    ensures Ring(Pop(s))
  {
    var s' := Pop(s);
    assert s'.slots == s.slots && s'.producers == s.producers && s'.tail == s.tail && s'.head == s.head;
    if s.consumer.Ready? {
      assert SlotSound(s, s.tail);
    }
    SameOwnersEverywhere(s, s', s.tail);
    forall p | 0 <= p < |s'.producers| ensures ProducerSound(s', p) {
      assert ProducerSound(s, p);
    }
    forall i | s'.tail <= i < s'.head && Unowned(s', i) ensures SlotSound(s', i) {
      SameOwnersEverywhere(s, s', i);
      assert SlotSound(s, i);
    }
    forall i | s'.head <= i < s'.tail + |s'.slots| ensures Free(s', i) {
      assert Free(s, i);
    }
  }

  /** Destroying the element, then taking back the ticket. */
  lemma ClearRing<T>(s: State<T>)
    requires Ring(s) && (s.consumer.Moved? || s.consumer.Destroyed?)
    ensures Ring(Pop(s))
  {
    var s', t := Pop(s), s.tail;
    var slot := s'.slots[SlotOf(s, t)];
    assert SlotSound(s, t);
    SameOwnersEverywhere(s, s', t);
    forall p | 0 <= p < |s'.producers| ensures ProducerSound(s', p) {
      assert ProducerSound(s, p) && !Owns(s.producers[p], t);
      if s.producers[p].Reserved? || s.producers[p].Constructed? {
        OthersKeep(s, t, slot, s.producers[p].head);
      }
    }
    forall i | s'.tail <= i < s'.head && Unowned(s', i) ensures SlotSound(s', i) {
      SameOwnersEverywhere(s, s', i);
      assert SlotSound(s, i);
      if i != t {
        OthersKeep(s, t, slot, i);
      }
    }
    forall i | s'.head <= i < s'.tail + |s'.slots| ensures Free(s', i) {
      assert Free(s, i);
      OthersKeep(s, t, slot, i);
    }
  }

  /** The tail moves on: its slot is the one a lap ahead. */
  lemma AdvanceRing<T>(s: State<T>)
    requires Ring(s) && s.consumer.Cleared?
    ensures Ring(Pop(s))
  {
    var s', t := Pop(s), s.tail;
    assert SlotSound(s, t);
    SameSlot(|s.slots|, t);
    forall p | 0 <= p < |s'.producers| ensures ProducerSound(s', p) {
      assert ProducerSound(s, p) && !Owns(s.producers[p], t);
    }
    forall i | s'.tail <= i < s'.head && Unowned(s', i) ensures SlotSound(s', i) {
      SameOwnersEverywhere(s, s', i);
      assert SlotSound(s, i);
    }
    forall i | s'.head <= i < s'.tail + |s'.slots| ensures Free(s', i) {
      if i < t + |s.slots| {
        assert Free(s, i);
      }
    }
  }

  /** The matching thread's steps. */
  lemma PopRing<T>(s: State<T>)
    requires Ring(s)
    ensures Ring(Pop(s))
  {
    var s', t := Pop(s), s.tail;
    if s.consumer.Looking? && s'.consumer.Ready? {
      LookRing(s);
    } else if s.consumer.Moved? || s.consumer.Destroyed? {
      ClearRing(s);
    } else if s.consumer.Cleared? {
      AdvanceRing(s);
    } else {
      QuietRing(s);
    }
  }

  // ---------- what comes out ----------

  lemma {:induction false} ByAppended<T>(reservations: seq<Reservation<T>>, r: Reservation<T>, p: nat)
    ensures By(reservations + [r], p) ==
            if r.producer == p then By(reservations, p) + [r.value] else By(reservations, p)
  {
    assert (reservations + [r])[..|reservations|] == reservations;
  }

  lemma PushAccounted<T>(s: State<T>, p: nat, spurious: bool, q: nat)
    requires Accounted(s) && |s.slots| > 0 && p < |s.producers| && q < |s.producers|
    ensures var s' := Push(s, p, spurious);
            s'.accepted[q] + Pending(s'.producers[q]) == By(s'.reservations, q)
  {
    var s' := Push(s, p, spurious);
    assert s.accepted[q] + Pending(s.producers[q]) == By(s.reservations, q);
    hide By;
    if s.producers[p].TailLoaded? && s'.producers[p].Reserved? {
      ByAppended(s.reservations, Reservation(p, s.producers[p].value), q);
      assert q == p ==> s.accepted[q] + [] == s.accepted[q];
    } else if s.producers[p].Published? && q == p {
      assert s.accepted[p] + [s.producers[p].value] + [] == s.accepted[p] + [s.producers[p].value];
    }
  }

  lemma StepAccounted<T>(s: State<T>, a: Action<T>)
    requires Accounted(s) && |s.slots| > 0
    ensures Accounted(Step(s, a))
  {
    hide By;
    match a
    case Call(p, v) =>
      assert forall q | 0 <= q < |s.producers| :: s.accepted[q] + Pending(s.producers[q]) == By(s.reservations, q);
    case Advance(p, spurious) =>
      if p < |s.producers| {
        var s' := Push(s, p, spurious);
        assert |s'.producers| == |s.producers| == |s'.accepted|;
        hide Push;
        forall q | 0 <= q < |s.producers| ensures s'.accepted[q] + Pending(s'.producers[q]) == By(s'.reservations, q) {
          PushAccounted(s, p, spurious, q);
        }
      }
    case Consume =>
  }

  lemma PushDelivery<T>(s: State<T>, p: nat, spurious: bool)
    requires Inv(s) && p < |s.producers|
    ensures Delivery(Push(s, p, spurious))
  {
    hide Values, ProducerSound, SlotSound, Unowned, Free;
    var s' := Push(s, p, spurious);
    assert s'.reservations[..s.tail] == s.reservations[..s.tail];
  }

  lemma PopDelivery<T>(s: State<T>)
    requires Inv(s)
    ensures Delivery(Pop(s))
  {
    hide ProducerSound, SlotSound, Free;
    var s' := Pop(s);
    if s.consumer.Cleared? {
      assert s.reservations[..s.tail + 1] == s.reservations[..s.tail] + [s.reservations[s.tail]];
    } else {
      assert s'.tail == s.tail && s'.reservations == s.reservations;
    }
  }

  lemma StepDelivery<T>(s: State<T>, a: Action<T>)
    requires Inv(s)
    ensures Delivery(Step(s, a))
  {
    hide Push, Pop, Values;
    match a
    case Call(_, _) =>
    case Advance(p, spurious) =>
      if p < |s.producers| {
        PushDelivery(s, p, spurious);
      }
    case Consume => PopDelivery(s);
  }

  lemma StepRing<T>(s: State<T>, a: Action<T>)
    requires Ring(s)
    ensures Ring(Step(s, a))
  {
    match a
    case Call(p, v) =>
      if p < |s.producers| && s.producers[p].Resting? {
        PrivateRing(s, p, Called(v));
      }
    case Advance(p, spurious) =>
      if p < |s.producers| {
        PushRing(s, p, spurious);
      }
    case Consume => PopRing(s);
  }

  /** Every step of every thread keeps the invariant. */
  lemma StepInv<T>(s: State<T>, a: Action<T>)
    requires Inv(s)
    ensures Inv(Step(s, a))
  {
    StepRing(s, a);
    StepDelivery(s, a);
    StepAccounted(s, a);
  }

  // ---------- runs ----------

  function Initial<T>(capacity: nat, producers: nat): State<T> {
    State(seq(capacity, _ => Slot(0, None)), 0, 0, seq(producers, _ => Resting), Polling, 1, [],
          seq(producers, _ => []), [], [])
  }

  function Run<T>(s: State<T>, actions: seq<Action<T>>): State<T>
    requires |s.slots| > 0 && |s.accepted| == |s.producers|
    decreases |actions|
  {
    if actions == [] then s else Run(Step(s, actions[0]), actions[1..])
  }

  lemma {:induction false} RunInv<T>(s: State<T>, actions: seq<Action<T>>)
    requires Inv(s)
    ensures Inv(Run(s, actions))
    decreases |actions|
  {
    if actions != [] {
      StepInv(s, actions[0]);
      hide Inv, Step;
      RunInv(Step(s, actions[0]), actions[1..]);
    }
  }

  lemma InitialInv<T>(capacity: nat, producers: nat)
    requires capacity > 0
    ensures Inv(Initial<T>(capacity, producers))
  {
  }

  /** For every capacity, every number of producers and every interleaving: the indices stay within one
      lap; what was popped is exactly the front of what was reserved, so nothing is lost, duplicated or
      reordered; every producer's accepted values appear in its own order; and the commands processed
      are the popped ones, numbered 1, 2, 3 and so on in admission order. */
  lemma EveryInterleaving<T>(capacity: nat, producers: nat, actions: seq<Action<T>>)
    requires capacity > 0
    ensures var s := Run(Initial<T>(capacity, producers), actions);
            && s.tail <= s.head <= s.tail + capacity && |s.slots| == capacity
            && s.tail <= |s.reservations| && s.popped == Values(s.reservations[..s.tail])
            && |s.accepted| == |s.producers| == producers
            && (forall p | 0 <= p < producers :: s.accepted[p] + Pending(s.producers[p]) == By(s.reservations, p))
            && |s.processed| <= |s.popped| <= |s.processed| + 1
            && (forall i | 0 <= i < |s.processed| :: s.processed[i] == Stamped(i + 1, s.popped[i]))
  {
    InitialInv<T>(capacity, producers);
    RunInv(Initial<T>(capacity, producers), actions);
    RunSizes(Initial<T>(capacity, producers), actions);
  }

  lemma {:induction false} RunSizes<T>(s: State<T>, actions: seq<Action<T>>)
    requires |s.slots| > 0 && |s.accepted| == |s.producers|
    ensures |Run(s, actions).slots| == |s.slots| && |Run(s, actions).producers| == |s.producers|
    ensures |Run(s, actions).accepted| == |s.accepted|
    decreases |actions|
  {
    if actions != [] {
      RunSizes(Step(s, actions[0]), actions[1..]);
    }
  }

  /** No slot is touched by two threads, read before its element is there, or built on top of one. */
  lemma SlotsAreSafe<T>(s: State<T>)
    requires Inv(s)
    ensures forall p, q | 0 <= p < |s.producers| && 0 <= q < |s.producers| && p != q
              && (s.producers[p].Reserved? || s.producers[p].Constructed?)
              && (s.producers[q].Reserved? || s.producers[q].Constructed?) ::
              SlotOf(s, s.producers[p].head) != SlotOf(s, s.producers[q].head)
    ensures forall p | 0 <= p < |s.producers| && (s.producers[p].Reserved? || s.producers[p].Constructed?)
            && Busy(s.consumer) ::
              SlotOf(s, s.producers[p].head) != SlotOf(s, s.consumer.index)
    ensures forall p | 0 <= p < |s.producers| && s.producers[p].Reserved? ::
              s.slots[SlotOf(s, s.producers[p].head)].storage == None
    ensures s.consumer.Ready? ==>
              s.tail < |s.reservations|
                && s.slots[SlotOf(s, s.consumer.index)].storage == Some(s.reservations[s.tail].value)
  {
    forall p, q | 0 <= p < |s.producers| && 0 <= q < |s.producers| && p != q
      && (s.producers[p].Reserved? || s.producers[p].Constructed?)
      && (s.producers[q].Reserved? || s.producers[q].Constructed?)
      ensures SlotOf(s, s.producers[p].head) != SlotOf(s, s.producers[q].head)
    {
      assert ProducerSound(s, p) && ProducerSound(s, q);
      if SlotOf(s, s.producers[p].head) == SlotOf(s, s.producers[q].head) {
        NoCollision(s.tail, |s.slots|, s.producers[p].head, s.producers[q].head);
      }
    }
    forall p | 0 <= p < |s.producers| && (s.producers[p].Reserved? || s.producers[p].Constructed?)
      ensures Busy(s.consumer) ==> SlotOf(s, s.producers[p].head) != SlotOf(s, s.consumer.index)
      ensures s.producers[p].Reserved? ==> s.slots[SlotOf(s, s.producers[p].head)].storage == None
    {
      assert ProducerSound(s, p) && Owns(s.producers[p], s.producers[p].head);
      if Busy(s.consumer) && SlotOf(s, s.producers[p].head) == SlotOf(s, s.consumer.index) {
        NoCollision(s.tail, |s.slots|, s.producers[p].head, s.tail);
      }
    }
    if s.consumer.Ready? {
      assert SlotSound(s, s.tail);
    }
  }

  /** A push is refused exactly when the head it holds is a lap ahead of the tail it loaded, or behind it,
      whatever the other threads did between the load and the test. Ahead, the queue was full at the load;
      behind, the refusal says nothing about the queue. Refused, it has changed nothing but its own program
      counter. */
  lemma RefusedExactly<T>(s: State<T>, later: State<T>, p: nat, spurious: bool)
    requires Inv(s) && Inv(later) && p < |s.producers| == |later.producers| && |later.slots| == |s.slots|
    requires s.producers[p].HeadLoaded? && later.producers[p] == Push(s, p, spurious).producers[p]
    requires s.tail + |s.slots| <= WRAP
    ensures var h, tested := s.producers[p].head, Push(later, p, spurious);
            && (tested.producers[p].Resting? <==> h < s.tail || h - s.tail == |s.slots|)
            && (tested.producers[p].Resting? && h >= s.tail ==> s.head - s.tail == |s.slots|)
            && (tested.producers[p].Resting? ==> tested == At(later, p, Resting))
  {
    assert ProducerSound(s, p);
    var h := s.producers[p].head;
    MinusIs(h, s.tail);
  }

  lemma MinusIs(a: nat, b: nat)
    requires a < WRAP && b < WRAP
    ensures Minus(a, b) == if a >= b then a - b else WRAP - (b - a)
  {
  }

  /** One slot, two producers, the first of which has loaded the head and stopped. */
  function Waiting<T>(x: T, slot: Slot<T>, head: nat, tail: nat, other: Producer<T>, consumer: Consumer<T>,
                      reservations: seq<Reservation<T>>, accepted: seq<T>, popped: seq<T>): (s: State<T>)
    ensures |s.slots| == 1 && |s.accepted| == |s.producers| == 2
  {
    State([slot], head, tail, [HeadLoaded(x, 0), other], consumer, 1, reservations, [[], accepted], popped, [])
  }

  lemma WaitingLoads<T>(x: T, y: T)
    ensures var go: Action<T> := Advance(1, false);
            && Step(Waiting(x, Slot(0, None), 0, 0, Resting, Polling, [], [], []), Call(1, y))
               == Waiting(x, Slot(0, None), 0, 0, Called(y), Polling, [], [], [])
            && Step(Waiting(x, Slot(0, None), 0, 0, Called(y), Polling, [], [], []), go)
               == Waiting(x, Slot(0, None), 0, 0, HeadLoaded(y, 0), Polling, [], [], [])
            && Step(Waiting(x, Slot(0, None), 0, 0, HeadLoaded(y, 0), Polling, [], [], []), go)
               == Waiting(x, Slot(0, None), 0, 0, TailLoaded(y, 0, 0), Polling, [], [], [])
  {
  }

  lemma WaitingReserves<T>(x: T, y: T)
    ensures Step(Waiting(x, Slot(0, None), 0, 0, TailLoaded(y, 0, 0), Polling, [], [], []), Advance(1, false))
            == Waiting(x, Slot(0, None), 1, 0, Reserved(y, 0), Polling, [Reservation(1, y)], [], [])
  {
    MinusIs(0, 0);
    assert [] + [Reservation(1, y)] == [Reservation(1, y)];
  }

  lemma WaitingPlaces<T>(x: T, y: T)
    ensures var go: Action<T>, r := Advance(1, false), [Reservation(1, y)];
            && Step(Waiting(x, Slot(0, None), 1, 0, Reserved(y, 0), Polling, r, [], []), go)
               == Waiting(x, Slot(0, Some(y)), 1, 0, Constructed(y, 0), Polling, r, [], [])
            && Step(Waiting(x, Slot(0, Some(y)), 1, 0, Constructed(y, 0), Polling, r, [], []), go)
               == Waiting(x, Slot(1, Some(y)), 1, 0, Published(y, 0), Polling, r, [], [])
            && Step(Waiting(x, Slot(1, Some(y)), 1, 0, Published(y, 0), Polling, r, [], []), go)
               == Waiting(x, Slot(1, Some(y)), 1, 0, Resting, Polling, r, [y], [])
  {
    var empty: seq<T> := [];
    assert empty + [y] == [y];
    assert [empty, empty][1 := [y]] == [empty, [y]];
  }

  lemma WaitingStarts<T>(x: T)
    ensures Step(Initial<T>(1, 2), Call(0, x)) == Initial<T>(1, 2).(producers := [Called(x), Resting])
    ensures Step(Initial<T>(1, 2).(producers := [Called(x), Resting]), Advance(0, false))
            == Waiting(x, Slot(0, None), 0, 0, Resting, Polling, [], [], [])
  {
    var start := Initial<T>(1, 2);
    assert start.producers == [Resting, Resting] && start.slots == [Slot(0, None)] && start.accepted == [[], []];
  }

  lemma OtherPushes<T>(x: T, y: T) returns (actions: seq<Action<T>>)
    ensures Run(Initial<T>(1, 2), actions) ==
            Waiting(x, Slot(1, Some(y)), 1, 0, Resting, Polling, [Reservation(1, y)], [y], [])
  {
    hide Run, Step, Waiting;
    WaitingStarts(x);
    WaitingLoads(x, y);
    WaitingReserves(x, y);
    WaitingPlaces(x, y);
    var start, r := Initial<T>(1, 2), [Reservation(1, y)];
    var go := Advance(1, false);
    actions := [Call(0, x), Advance(0, false), Call(1, y), go, go, go, go, go, go];
    var states := [
      start, start.(producers := [Called(x), Resting]),
      Waiting(x, Slot(0, None), 0, 0, Resting, Polling, [], [], []),
      Waiting(x, Slot(0, None), 0, 0, Called(y), Polling, [], [], []),
      Waiting(x, Slot(0, None), 0, 0, HeadLoaded(y, 0), Polling, [], [], []),
      Waiting(x, Slot(0, None), 0, 0, TailLoaded(y, 0, 0), Polling, [], [], []),
      Waiting(x, Slot(0, None), 1, 0, Reserved(y, 0), Polling, r, [], []),
      Waiting(x, Slot(0, Some(y)), 1, 0, Constructed(y, 0), Polling, r, [], []),
      Waiting(x, Slot(1, Some(y)), 1, 0, Published(y, 0), Polling, r, [], []),
      Waiting(x, Slot(1, Some(y)), 1, 0, Resting, Polling, r, [y], [])];
    RunsThrough(start, actions, states);
  }

  lemma OtherPops<T>(x: T, y: T) returns (actions: seq<Action<T>>)
    ensures var r := [Reservation(1, y)];
            Run(Waiting(x, Slot(1, Some(y)), 1, 0, Resting, Polling, r, [y], []), actions) ==
            Waiting(x, Slot(0, None), 1, 1, Resting, Dequeued(y), r, [y], [y])
  {
    hide Run;
    var r := [Reservation(1, y)];
    actions := [Consume, Consume, Consume, Consume, Consume, Consume];
    var states := [
      Waiting(x, Slot(1, Some(y)), 1, 0, Resting, Polling, r, [y], []),
      Waiting(x, Slot(1, Some(y)), 1, 0, Resting, Looking(0), r, [y], []),
      Waiting(x, Slot(1, Some(y)), 1, 0, Resting, Ready(0), r, [y], []),
      Waiting(x, Slot(1, Some(y)), 1, 0, Resting, Moved(0, y), r, [y], []),
      Waiting(x, Slot(1, None), 1, 0, Resting, Destroyed(0, y), r, [y], []),
      Waiting(x, Slot(0, None), 1, 0, Resting, Cleared(0, y), r, [y], []),
      Waiting(x, Slot(0, None), 1, 1, Resting, Dequeued(y), r, [y], [y])];
    RunsThrough(states[0], actions, states);
  }

  /** A producer that stops between loading the head and loading the tail can be refused by an empty
      queue: with one slot, another producer's element goes in and comes out meanwhile. */
  lemma StaleHeadIsRefused<T>(x: T, y: T) returns (actions: seq<Action<T>>)
    ensures var s := Run(Initial<T>(1, 2), actions);
            && |s.slots| == 1 && s.producers == [HeadLoaded(x, 0), Resting] && |s.accepted| == 2
            && s.head == s.tail == 1 && s.popped == [y]
            && Push(Push(s, 0, false), 0, false) == s.(producers := [Resting, Resting])
  {
    hide Run;
    var push := OtherPushes(x, y);
    var pop := OtherPops(x, y);
    RunConcat(Initial<T>(1, 2), push, pop);
    actions := push + pop;
    MinusIs(0, 1);
  }

  lemma {:induction false} RunsThrough<T>(s: State<T>, actions: seq<Action<T>>, states: seq<State<T>>)
    requires |states| == |actions| + 1 && states[0] == s
    requires forall i | 0 <= i < |states| :: |states[i].slots| > 0 && |states[i].accepted| == |states[i].producers|
    requires forall i | 0 <= i < |actions| :: Step(states[i], actions[i]) == states[i + 1]
    ensures Run(s, actions) == states[|actions|]
    decreases |actions|
  {
    if actions != [] {
      hide Step;
      assert forall i | 0 <= i < |actions| - 1 :: Step(states[1..][i], actions[1..][i]) == states[1..][i + 1];
      RunsThrough(states[1], actions[1..], states[1..]);
    }
  }

  lemma {:induction false} RunConcat<T>(s: State<T>, a: seq<Action<T>>, b: seq<Action<T>>)
    requires |s.slots| > 0 && |s.accepted| == |s.producers|
    ensures |Run(s, a).slots| > 0 && |Run(s, a).accepted| == |Run(s, a).producers|
    ensures Run(s, a + b) == Run(Run(s, a), b)
    decreases |a|
  {
    RunSizes(s, a);
    if a == [] {
      assert a + b == b;
    } else {
      assert (a + b)[0] == a[0] && (a + b)[1..] == a[1..] + b;
      RunConcat(Step(s, a[0]), a[1..], b);
    }
  }

  // ---------- one thread at a time ----------

  lemma Overwritten<U>(xs: seq<U>, i: nat, x: U, y: U)
    requires i < |xs|
    ensures xs[i := x][i := y] == xs[i := y]
  {
  }

  lemma ThreeSteps<T>(s0: State<T>, s1: State<T>, s2: State<T>, s3: State<T>, a: Action<T>)
    requires |s0.slots| > 0 && |s0.accepted| == |s0.producers| && |s1.slots| > 0 && |s1.accepted| == |s1.producers|
    requires |s2.slots| > 0 && |s2.accepted| == |s2.producers| && |s3.slots| > 0 && |s3.accepted| == |s3.producers|
    requires Step(s0, a) == s1 && Step(s1, a) == s2 && Step(s2, a) == s3
    ensures Run(s0, [a, a, a]) == s3
  {
    hide Step;
    assert [a, a, a][1..] == [a, a] && [a, a][1..] == [a] && [a][1..] == [];
    assert Run(s2, [a]) == Run(s3, []);
    assert Run(s1, [a, a]) == Run(s2, [a]);
  }

  /** A producer on its way through a push nobody disturbs. */
  function Placing<T>(s: State<T>, p: nat, producer: Producer<T>, v: T, slot: Slot<T>): State<T>
    requires p < |s.producers| && |s.slots| > 0
  {
    At(s, p, producer).(head := s.head + 1, reservations := s.reservations + [Reservation(p, v)],
                        slots := s.slots[SlotOf(s, s.head) := slot])
  }

  lemma PushReserves<T>(s: State<T>, p: nat, v: T)
    requires Inv(s) && p < |s.producers| && s.producers[p] == Called(v)
    requires s.head - s.tail < |s.slots| && s.head + 1 < WRAP
    ensures var go := Advance(p, false);
            Run(s, [go, go, go]) == Placing(s, p, Reserved(v, s.head), v, Slot(0, None))
  {
    assert Free(s, s.head);
    MinusIs(s.head, s.tail);
    assert s.slots[SlotOf(s, s.head) := Slot(0, None)] == s.slots;
    hide Ring, Delivery, Accounted, SlotOf, Run;
    var x, y, z := HeadLoaded(v, s.head), TailLoaded(v, s.head, s.tail), Reserved(v, s.head);
    Overwritten(s.producers, p, x, y);
    Overwritten(s.producers, p, y, z);
    ThreeSteps(s, At(s, p, x), At(s, p, y), Placing(s, p, z, v, Slot(0, None)), Advance(p, false));
  }

  lemma PushPlaces<T>(s: State<T>, p: nat, v: T)
    requires |s.slots| > 0 && p < |s.producers| == |s.accepted|
    ensures var go := Advance(p, false);
            Run(Placing(s, p, Reserved(v, s.head), v, Slot(0, None)), [go, go, go]) ==
            Placing(s, p, Resting, v, Slot(s.head + 1, Some(v))).(accepted := s.accepted[p := s.accepted[p] + [v]])
  {
    hide Run;
    var i, h := SlotOf(s, s.head), s.head;
    var free, placing, placed := Slot(0, None), Slot(0, Some(v)), Slot(h + 1, Some(v));
    Overwritten(s.slots, i, free, placing);
    Overwritten(s.slots, i, placing, placed);
    Overwritten(s.producers, p, Reserved(v, h), Constructed(v, h));
    Overwritten(s.producers, p, Constructed(v, h), Published(v, h));
    Overwritten(s.producers, p, Published(v, h), Resting);
    ThreeSteps(Placing(s, p, Reserved(v, h), v, free), Placing(s, p, Constructed(v, h), v, placing),
               Placing(s, p, Published(v, h), v, placed),
               Placing(s, p, Resting, v, placed).(accepted := s.accepted[p := s.accepted[p] + [v]]),
               Advance(p, false));
  }

  /** A push that finds room, and that nobody disturbs, is accepted: its value is the next to be reserved,
      and is in its slot. */
  lemma PushAlone<T>(s: State<T>, p: nat, v: T)
    requires Inv(s) && p < |s.producers| && s.producers[p] == Called(v)
    requires s.head - s.tail < |s.slots| && s.head + 1 < WRAP
    ensures var go := Advance(p, false);
            Run(s, [go, go, go, go, go, go]) ==
            s.(producers := s.producers[p := Resting], head := s.head + 1,
               slots := s.slots[SlotOf(s, s.head) := Slot(s.head + 1, Some(v))],
               reservations := s.reservations + [Reservation(p, v)],
               accepted := s.accepted[p := s.accepted[p] + [v]])
  {
    hide Run, SlotOf, Delivery, Accounted;
    PushReserves(s, p, v);
    PushPlaces(s, p, v);
    var go := Advance(p, false);
    RunConcat(s, [go, go, go], [go, go, go]);
    assert [go, go, go] + [go, go, go] == [go, go, go, go, go, go];
  }

  /** A push that finds none, and that nobody disturbs, is refused and changes nothing. */
  lemma PushRefused<T>(s: State<T>, p: nat, v: T)
    requires Inv(s) && p < |s.producers| && s.producers[p] == Called(v) && s.head - s.tail == |s.slots|
    ensures var go := Advance(p, false);
            Run(s, [go, go, go]) == s.(producers := s.producers[p := Resting])
  {
    MinusIs(s.head, s.tail);
    hide Run, SlotOf, Delivery, Accounted, Ring;
    var x, y := HeadLoaded(v, s.head), TailLoaded(v, s.head, s.tail);
    Overwritten(s.producers, p, x, y);
    Overwritten(s.producers, p, y, Resting);
    ThreeSteps(s, At(s, p, x), At(s, p, y), At(s, p, Resting), Advance(p, false));
  }

  /** The consumer on its way through a pop. */
  function Taking<T>(s: State<T>, consumer: Consumer<T>, slot: Slot<T>): State<T>
    requires |s.slots| > 0
  {
    s.(consumer := consumer, slots := s.slots[SlotOf(s, s.tail) := slot])
  }

  lemma PopReads<T>(s: State<T>, v: T)
    requires |s.slots| > 0 && |s.accepted| == |s.producers| && s.consumer.Polling?
    requires s.slots[SlotOf(s, s.tail)] == Slot(s.tail + 1, Some(v))
    ensures Run(s, [Consume, Consume, Consume]) == s.(consumer := Moved(s.tail, v))
  {
    hide Run;
    ThreeSteps(s, s.(consumer := Looking(s.tail)), s.(consumer := Ready(s.tail)), s.(consumer := Moved(s.tail, v)),
               Consume);
  }

  lemma PopFrees<T>(s: State<T>, v: T)
    requires |s.slots| > 0 && |s.accepted| == |s.producers|
    ensures Run(s.(consumer := Moved(s.tail, v)), [Consume, Consume, Consume]) ==
            Taking(s, Dequeued(v), Slot(0, None)).(tail := s.tail + 1, popped := s.popped + [v])
  {
    hide Run;
    var i := SlotOf(s, s.tail);
    var taken := s.slots[i].(storage := None);
    Overwritten(s.slots, i, taken, Slot(0, None));
    ThreeSteps(s.(consumer := Moved(s.tail, v)), Taking(s, Destroyed(s.tail, v), taken),
               Taking(s, Cleared(s.tail, v), Slot(0, None)),
               Taking(s, Dequeued(v), Slot(0, None)).(tail := s.tail + 1, popped := s.popped + [v]), Consume);
  }

  /** A pop that finds the element at the tail in place, and that nobody disturbs, takes it and frees its
      slot, and the thread then processes it under the next number. */
  lemma PopAlone<T>(s: State<T>)
    requires Inv(s) && s.consumer.Polling? && s.tail < s.head && Unowned(s, s.tail)
    ensures var v, go := s.reservations[s.tail].value, [Consume, Consume, Consume];
            var popped := Run(s, go + go);
            && popped == s.(tail := s.tail + 1, slots := s.slots[SlotOf(s, s.tail) := Slot(0, None)],
                            popped := s.popped + [v], consumer := Dequeued(v))
            && Step(popped, Consume) == popped.(consumer := Polling, nextSequence := s.nextSequence + 1,
                                                processed := s.processed + [Stamped(s.nextSequence, v)])
  {
    assert SlotSound(s, s.tail);
    hide Run, SlotOf, Delivery, Accounted;
    var v, go := s.reservations[s.tail].value, [Consume, Consume, Consume];
    PopReads(s, v);
    PopFrees(s, v);
    RunConcat(s, go, go);
  }

  /** A pop that finds the next element not yet in place finds nothing: either the queue is empty, or whoever
      reserved that place has not finished with it. */
  lemma PopFindsNothing<T>(s: State<T>)
    requires Inv(s) && s.consumer.Looking?
    ensures Pop(s) == s.(consumer := Polling) <==> s.tail == s.head || !Unowned(s, s.tail)
  {
    if s.tail < s.head {
      if Unowned(s, s.tail) {
        assert SlotSound(s, s.tail);
      } else {
        var p :| 0 <= p < |s.producers| && Owns(s.producers[p], s.tail);
        assert ProducerSound(s, p);
      }
    } else {
      assert Free(s, s.tail);
    }
  }

  /** When every producer is at rest and the consumer is idle with nothing to read, everything accepted
      has been processed. */
  lemma DrainedMeansProcessed<T>(s: State<T>)
    requires Inv(s) && s.consumer.Looking? && Pop(s).consumer.Polling?
    requires forall p | 0 <= p < |s.producers| :: s.producers[p].Resting?
    ensures s.head == s.tail && s.popped == Values(s.reservations)
    ensures forall p | 0 <= p < |s.producers| :: s.accepted[p] == By(s.reservations, p)
  {
    assert s.tail < s.head ==> Unowned(s, s.tail) && SlotSound(s, s.tail);
    assert s.reservations[..|s.reservations|] == s.reservations;
    forall p | 0 <= p < |s.producers| ensures s.accepted[p] == By(s.reservations, p) {
      assert s.accepted[p] + Pending(s.producers[p]) == By(s.reservations, p);
      assert s.accepted[p] + [] == s.accepted[p];
    }
  }
}
