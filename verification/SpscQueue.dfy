/** The single-producer single-consumer queue (spsc_queue.hpp): each atomic load and store, each
    construction, move and destruction is one step of one of the two threads. Steps are sequentially
    consistent and indices stay below 2^64. */
module SpscQueue {
  import opened Domain
  import opened Arithmetic

  /** Where the producer is in try_push. */
  datatype Producer<T> =
    | Resting
    | Called(value: T)
    | HeadLoaded(value: T, head: nat)
    | TailLoaded(value: T, head: nat, tail: nat)
    | Constructed(value: T, head: nat, tail: nat)
    | Measured(value: T, head: nat)

  /** Where the consumer is in try_pop. */
  datatype Consumer<T> =
    | Idle
    | Looking(tail: nat)
    | Compared(tail: nat, head: nat)
    | Moved(tail: nat, value: T)
    | Destroyed(tail: nat, value: T)

  /** The queue and the two threads; and what was published, refused and popped so far. */
  datatype State<T> = State(
    storage: seq<Option<T>>,
    head: nat,
    tail: nat,
    highWaterMark: nat,
    producer: Producer<T>,
    consumer: Consumer<T>,
    pushed: seq<T>,
    refused: seq<T>,
    popped: seq<T>)

  function Initial<T>(capacity: nat): State<T> {
    State(seq(capacity, _ => None), 0, 0, 0, Resting, Idle, [], [], [])
  }

  function SlotOf<T>(s: State<T>, index: nat): nat
    requires |s.storage| > 0
  {
    index % |s.storage|
  }

  /** The caller offers a value. */
  function Call<T>(s: State<T>, value: T): State<T> {
    if s.producer.Resting? then s.(producer := Called(value)) else s
  }

  /** One step of try_push. */
  function Push<T>(s: State<T>): State<T>
    requires |s.storage| > 0
  {
    match s.producer
    case Resting => s
    case Called(v) => s.(producer := HeadLoaded(v, s.head))
    case HeadLoaded(v, h) => s.(producer := TailLoaded(v, h, s.tail))
    case TailLoaded(v, h, t) =>
      if h - t >= |s.storage| then s.(producer := Resting, refused := s.refused + [v])
      else s.(producer := Constructed(v, h, t), storage := s.storage[SlotOf(s, h) := Some(v)])
    case Constructed(v, h, t) =>
      s.(producer := Measured(v, h),
         highWaterMark := if h + 1 - t > s.highWaterMark then h + 1 - t else s.highWaterMark)
    case Measured(v, h) => s.(producer := Resting, head := h + 1, pushed := s.pushed + [v])
  }

  /** One step of try_pop. */
  function Pop<T>(s: State<T>): State<T>
    requires |s.storage| > 0
  {
    match s.consumer
    case Idle => s.(consumer := Looking(s.tail))
    case Looking(t) => s.(consumer := Compared(t, s.head))
    case Compared(t, h) =>
      if t == h then s.(consumer := Idle)
      else if s.storage[SlotOf(s, t)].None? then s
      else s.(consumer := Moved(t, s.storage[SlotOf(s, t)].value))
    case Moved(t, v) => s.(consumer := Destroyed(t, v), storage := s.storage[SlotOf(s, t) := None])
    case Destroyed(t, v) => s.(consumer := Idle, tail := t + 1, popped := s.popped + [v])
  }

  // ---------- the invariant ----------

  ghost predicate ProducerSound<T>(s: State<T>)
    requires |s.storage| > 0
  {
    match s.producer
    case Resting => true
    case Called(v) => true
    case HeadLoaded(v, h) => h == s.head
    case TailLoaded(v, h, t) => h == s.head && t <= s.tail && h - t <= |s.storage|
    case Constructed(v, h, t) =>
      h == s.head && t <= s.tail && h - t < |s.storage| && s.storage[SlotOf(s, h)] == Some(v)
    case Measured(v, h) =>
      h == s.head && h - s.tail < |s.storage| && s.storage[SlotOf(s, h)] == Some(v)
      && h + 1 - s.tail <= s.highWaterMark <= |s.storage|
  }

  ghost predicate ConsumerSound<T>(s: State<T>)
    requires s.head == |s.pushed|
  {
    match s.consumer
    case Idle => true
    case Looking(t) => t == s.tail
    case Compared(t, h) => t == s.tail <= h <= s.head
    case Moved(t, v) => t == s.tail < s.head && v == s.pushed[t]
    case Destroyed(t, v) => t == s.tail < s.head && v == s.pushed[t]
  }

  /** The element of every index from tail to head is in its slot, and no other slot is in use but the
      one the producer is filling. */
  ghost predicate Filled<T>(s: State<T>, i: nat)
    requires |s.storage| > 0 && s.head == |s.pushed| && s.tail <= i < s.head
  {
    s.storage[SlotOf(s, i)] == if i == s.tail && s.consumer.Destroyed? then None else Some(s.pushed[i])
  }

  ghost predicate Empty<T>(s: State<T>, i: nat)
    requires |s.storage| > 0
  {
    s.storage[SlotOf(s, i)] == None || (i == s.head && (s.producer.Constructed? || s.producer.Measured?))
  }

  ghost predicate Inv<T>(s: State<T>) {
    && |s.storage| > 0 && s.head == |s.pushed|
    && s.tail <= s.head <= s.tail + |s.storage|
    && s.head - s.tail <= s.highWaterMark <= |s.storage|
    && ProducerSound(s) && ConsumerSound(s)
    && (forall i | s.tail <= i < s.head :: Filled(s, i))
    && (forall i | s.head <= i < s.tail + |s.storage| :: Empty(s, i))
    && s.popped == s.pushed[..s.tail]
  }

  lemma OtherSlot<T>(s: State<T>, index: nat, i: nat)
    requires |s.storage| > 0 && s.tail <= index < s.tail + |s.storage| && s.tail <= i < s.tail + |s.storage|
             && i != index
    ensures SlotOf(s, i) != SlotOf(s, index)
  {
    if SlotOf(s, i) == SlotOf(s, index) {
      NoCollision(s.tail, |s.storage|, i, index);
    }
  }

  lemma CallInv<T>(s: State<T>, value: T)
    requires Inv(s)
    ensures Inv(Call(s, value))
  {
    var s' := Call(s, value);
    forall i | s'.tail <= i < s'.head ensures Filled(s', i) {
      assert Filled(s, i);
    }
    forall i | s'.head <= i < s'.tail + |s'.storage| ensures Empty(s', i) {
      assert Empty(s, i);
    }
  }

  lemma PushInv<T>(s: State<T>)
    requires Inv(s)
    ensures Inv(Push(s))
  {
    var s', h := Push(s), s.head;
    var writes := s.producer.TailLoaded? && s'.producer.Constructed?;
    forall i | s'.tail <= i < s'.head ensures Filled(s', i) {
      if i < s.head {
        assert Filled(s, i);
        if writes {
          OtherSlot(s, h, i);
        }
      }
    }
    forall i | s'.head <= i < s'.tail + |s'.storage| ensures Empty(s', i) {
      assert Empty(s, i);
      if writes && i != h {
        OtherSlot(s, h, i);
      }
    }
    if s'.head > s.head {
      assert s'.pushed[..s.tail] == s.pushed[..s.tail];
    }
  }

  lemma PopInv<T>(s: State<T>)
    requires Inv(s)
    ensures Inv(Pop(s))
  {
    var s', t := Pop(s), s.tail;
    var clears := s.consumer.Moved?;
    if t < s.head {
      assert Filled(s, t);
    }
    SameSlot(|s.storage|, t);
    forall i | s'.tail <= i < s'.head ensures Filled(s', i) {
      assert Filled(s, i);
      if clears && i != t {
        OtherSlot(s, t, i);
      }
    }
    forall i | s'.head <= i < s'.tail + |s'.storage| ensures Empty(s', i) {
      if i < t + |s.storage| {
        assert Empty(s, i);
        if clears {
          OtherSlot(s, t, i);
        }
      }
    }
    if clears && (s.producer.Constructed? || s.producer.Measured?) && s.head < t + |s.storage| {
      OtherSlot(s, t, s.head);
    }
    if s'.tail > s.tail {
      assert s.pushed[..t + 1] == s.pushed[..t] + [s.pushed[t]];
    }
  }

  // ---------- what the two calls report ----------

  /** A refusal means the queue was full at the load of the tail. */
  lemma RefusedWhenFull<T>(s: State<T>)
    requires Inv(s) && s.producer.HeadLoaded? && Push(Push(s)).producer.Resting?
    ensures s.head - s.tail == |s.storage|
    ensures Push(Push(s)).storage == s.storage && Push(Push(s)).head == s.head && Push(Push(s)).pushed == s.pushed
  {
  }

  /** An acceptance means it was not. */
  lemma AcceptedWhenNotFull<T>(s: State<T>)
    requires Inv(s) && s.producer.HeadLoaded? && s.head - s.tail < |s.storage|
    ensures Push(Push(s)).producer.Constructed?
  {
  }

  /** An empty pop means the queue was empty at the load of the head, and the other way round. */
  lemma EmptyMeansEmpty<T>(s: State<T>)
    requires Inv(s) && s.consumer.Looking?
    ensures Pop(Pop(s)).consumer.Idle? <==> s.head == s.tail
    ensures s.head == s.tail ==> Pop(Pop(s)) == s.(consumer := Idle)
  {
    if s.tail < s.head {
      assert Filled(s, s.tail);
    }
  }

  /** The element popped is the one at the front, and its slot is touched by nobody else. */
  lemma ReadsWhatWasPushed<T>(s: State<T>)
    requires Inv(s) && s.consumer.Compared? && Pop(s).consumer != Idle
    ensures s.tail < s.head && Pop(s).consumer == Moved(s.tail, s.pushed[s.tail])
    ensures s.producer.Constructed? || s.producer.Measured? ==> SlotOf(s, s.head) != SlotOf(s, s.tail)
    ensures s.producer.TailLoaded? && Push(s).producer.Constructed? ==>
              SlotOf(s, s.head) != SlotOf(s, s.tail) && s.storage[SlotOf(s, s.head)] == None
  {
    assert Filled(s, s.tail);
    if s.head < s.tail + |s.storage| {
      OtherSlot(s, s.tail, s.head);
      assert Empty(s, s.head);
    }
  }

  // ---------- runs ----------

  /** Which thread moves. */
  datatype Action<T> = Offer(value: T) | Produce | Consume

  function Step<T>(s: State<T>, a: Action<T>): State<T>
    requires |s.storage| > 0
  {
    match a
    case Offer(v) => Call(s, v)
    case Produce => Push(s)
    case Consume => Pop(s)
  }

  lemma StepInv<T>(s: State<T>, a: Action<T>)
    requires Inv(s)
    ensures Inv(Step(s, a))
    ensures Step(s, a).highWaterMark >= s.highWaterMark
  {
    match a
    case Offer(v) => CallInv(s, v);
    case Produce => PushInv(s);
    case Consume => PopInv(s);
  }

  function Run<T>(s: State<T>, actions: seq<Action<T>>): State<T>
    requires |s.storage| > 0
    decreases |actions|
  {
    if actions == [] then s else Run(Step(s, actions[0]), actions[1..])
  }

  lemma {:induction false} RunInv<T>(s: State<T>, actions: seq<Action<T>>)
    requires Inv(s)
    ensures Inv(Run(s, actions)) && Run(s, actions).highWaterMark >= s.highWaterMark
    ensures |Run(s, actions).storage| == |s.storage|
    decreases |actions|
  {
    if actions != [] {
      StepInv(s, actions[0]);
      hide Inv;
      RunInv(Step(s, actions[0]), actions[1..]);
    }
  }

  lemma InitialInv<T>(capacity: nat)
    requires capacity > 0
    ensures Inv(Initial<T>(capacity))
  {
  }

  /** The elements in the queue. */
  function Contents<T>(s: State<T>): seq<T>
    requires s.tail <= |s.pushed|
  {
    s.pushed[s.tail..]
  }

  /** Over every interleaving the queue is a bounded FIFO: what was pushed is what was popped followed by
      what is in it, and the occupancy never passes the high-water mark, nor that the capacity. */
  lemma EveryInterleaving<T>(capacity: nat, actions: seq<Action<T>>)
    requires capacity > 0
    ensures var s := Run(Initial<T>(capacity), actions);
            && s.tail <= |s.pushed| && s.pushed == s.popped + Contents(s)
            && |Contents(s)| == s.head - s.tail <= s.highWaterMark <= capacity
  {
    InitialInv<T>(capacity);
    RunInv(Initial<T>(capacity), actions);
  }

  // ---------- the high-water mark ----------

  lemma {:induction false} RunNext<T>(s: State<T>, actions: seq<Action<T>>, a: Action<T>)
    requires Inv(s)
    ensures |Run(s, actions).storage| == |s.storage|
    ensures Run(s, actions + [a]) == Step(Run(s, actions), a)
    decreases |actions|
  {
    RunInv(s, actions);
    if actions == [] {
      assert Run(Step(s, a), (actions + [a])[1..]) == Step(s, a);
    } else {
      assert (actions + [a])[0] == actions[0] && (actions + [a])[1..] == actions[1..] + [a];
      StepInv(s, actions[0]);
      hide Inv;
      RunNext(Step(s, actions[0]), actions[1..], a);
    }
  }

  /** After `k` of these actions the producer is about to look at the tail, with `n` elements in the queue. */
  ghost predicate FoundAt<T>(capacity: nat, actions: seq<Action<T>>, k: nat, n: int)
    requires capacity > 0 && k <= |actions|
  {
    var s := Run(Initial<T>(capacity), actions[..k]);
    s.producer.HeadLoaded? && s.head - s.tail == n
  }

  ghost predicate Found<T>(capacity: nat, actions: seq<Action<T>>, n: int)
    requires capacity > 0
  {
    exists k :: 0 <= k <= |actions| && FoundAt(capacity, actions, k, n)
  }

  lemma StillFound<T>(capacity: nat, actions: seq<Action<T>>, a: Action<T>, n: int)
    requires capacity > 0 && Found(capacity, actions, n)
    ensures Found(capacity, actions + [a], n)
  {
    var k :| 0 <= k <= |actions| && FoundAt(capacity, actions, k, n);
    assert (actions + [a])[..k] == actions[..k];
    assert FoundAt(capacity, actions + [a], k, n);
  }

  /** What the producer measured is what it found, and one more. */
  ghost predicate Measures<T>(capacity: nat, actions: seq<Action<T>>)
    requires capacity > 0
  {
    var s := Run(Initial<T>(capacity), actions);
    && (s.producer.TailLoaded? || s.producer.Constructed? ==>
        Found(capacity, actions, s.producer.head - s.producer.tail))
    && (s.highWaterMark > 0 ==> Found(capacity, actions, s.highWaterMark - 1))
  }

  /** The mark is not merely a bound: there was a moment when the producer, about to push, found one element
      less in the queue. */
  lemma {:induction false} MarkAttained<T>(capacity: nat, actions: seq<Action<T>>)
    requires capacity > 0
    ensures Measures(capacity, actions)
    decreases |actions|
  {
    if actions != [] {
      var before, a := actions[..|actions| - 1], actions[|actions| - 1];
      assert actions == before + [a];
      MarkAttained(capacity, before);
      InitialInv<T>(capacity);
      RunNext(Initial<T>(capacity), before, a);
      var s := Run(Initial<T>(capacity), before);
      hide Run, FoundAt, Inv;
      if s.producer.HeadLoaded? && a.Produce? {
        FoundNow(capacity, before, a);
      }
      if s.producer.TailLoaded? || s.producer.Constructed? {
        StillFound(capacity, before, a, s.producer.head - s.producer.tail);
      }
      if s.highWaterMark > 0 {
        StillFound(capacity, before, a, s.highWaterMark - 1);
      }
    }
  }

  lemma FoundNow<T>(capacity: nat, actions: seq<Action<T>>, a: Action<T>)
    requires capacity > 0 && Run(Initial<T>(capacity), actions).producer.HeadLoaded?
    ensures var s := Run(Initial<T>(capacity), actions);
            Found(capacity, actions + [a], s.producer.head - s.tail)
  {
    var s := Run(Initial<T>(capacity), actions);
    InitialInv<T>(capacity);
    RunInv(Initial<T>(capacity), actions);
    assert actions[..|actions|] == actions;
    assert FoundAt(capacity, actions, |actions|, s.head - s.tail);
    StillFound(capacity, actions, a, s.head - s.tail);
  }
}
