// task25_26: any number of producers and consumers on one bounded queue.
// One mutex, two condition variables, one signal per operation; a newcomer may take the
// mutex before a woken thread does, and a sleeper may wake without a signal.
module QueueProtocol {
  import opened Wrappers
  import opened Locks
  import opened Sums
  import opened BlockingQueue

  type Item = string

  // What a thread still has to do (producer loop, consumer loop) and what it has received.
  datatype Role = Producer(work: seq<Item>) | Consumer(left: nat, got: seq<Item>)

  // Outside: at pthread_mutex_lock or finished. Testing: at the wait loop's condition.
  // Asleep: blocked in pthread_cond_wait. Woken: waiting to get the mutex back.
  datatype Phase = Outside | Testing | Signalling | Unlocking | Asleep | Woken

  datatype Thread = Thread(role: Role, phase: Phase)
  {
    function Left(): nat {
      match role
      case Producer(work) => |work|
      case Consumer(left, _) => left
    }

    predicate Critical() {
      (phase.Testing? || phase.Signalling? || phase.Unlocking?)
    }

    predicate Finished() {
      phase == Outside && Left() == 0
    }
  }

  datatype State = State(
    ring: Ring<Item>,
    owner: Lock,
    threads: seq<Thread>,
    put: seq<Item>,    // history: items stored, in critical-section order
    taken: seq<Item>)  // history: items removed, in critical-section order

  datatype Event =
    | Acquire(t: nat)
    | Sleep(t: nat)
    | Transfer(t: nat)
    | Signal(t: nat, woken: Option<nat>)
    | Unlock(t: nat)
    | Spurious(t: nat)

  // The wait loop's condition, seen by thread t.
  predicate MustWait(s: State, t: nat)
    requires t < |s.threads|
  {
    match s.threads[t].role
    case Producer(_) => s.ring.count == s.ring.Capacity()
    case Consumer(_, _) => s.ring.count == 0
  }

  // Does u sleep on the condition variable that t signals?
  predicate Hears(s: State, t: nat, u: nat)
    requires t < |s.threads| && u < |s.threads|
  {
    s.threads[u].phase == Asleep && s.threads[t].role.Producer? == s.threads[u].role.Consumer?
  }

  predicate Enabled(s: State, e: Event) {
    && e.t < |s.threads|
    && s.ring.WellFormed()
    && match e
       case Acquire(t) => s.owner == Free && (s.threads[t].phase == Woken || (s.threads[t].phase == Outside && s.threads[t].Left() > 0))
       case Sleep(t) => s.threads[t].phase == Testing && MustWait(s, t)
       case Transfer(t) => s.threads[t].phase == Testing && !MustWait(s, t) && s.threads[t].Left() > 0
       case Signal(t, None) => s.threads[t].phase == Signalling && forall u :: 0 <= u < |s.threads| ==> !Hears(s, t, u)
       case Signal(t, Some(u)) => s.threads[t].phase == Signalling && u < |s.threads| && Hears(s, t, u)
       case Unlock(t) => s.threads[t].phase == Unlocking
       case Spurious(t) => s.threads[t].phase == Asleep
  }

  function Move(s: State, t: nat, phase: Phase): seq<Thread>
    requires t < |s.threads|
  {
    s.threads[t := s.threads[t].(phase := phase)]
  }

  function Apply(s: State, e: Event): State
    requires Enabled(s, e)
  {
    match e
    case Acquire(t) => s.(owner := Held(t), threads := Move(s, t, Testing))
    case Sleep(t) => s.(owner := Free, threads := Move(s, t, Asleep))
    case Transfer(t) =>
      (match s.threads[t].role
       case Producer(work) =>
         s.(ring := s.ring.Stored(work[0]), put := s.put + [work[0]],
            threads := s.threads[t := Thread(Producer(work[1..]), Signalling)])
       case Consumer(left, got) =>
         var item := s.ring.items[s.ring.takeIndex];
         s.(ring := s.ring.Removed(), taken := s.taken + [item],
            threads := s.threads[t := Thread(Consumer(left - 1, got + [item]), Signalling)]))
    case Signal(t, None) => s.(threads := Move(s, t, Unlocking))
    case Signal(t, Some(u)) => s.(threads := Move(s, t, Unlocking)[u := s.threads[u].(phase := Woken)])
    case Unlock(t) => s.(owner := Free, threads := Move(s, t, Outside))
    case Spurious(t) => s.(threads := Move(s, t, Woken))
  }

  // ----- Runs -----

  predicate Init(s: State) {
    && s.ring.WellFormed() && s.ring.count == 0
    && s.owner == Free && s.put == [] && s.taken == []
    && forall t :: 0 <= t < |s.threads| ==> s.threads[t].phase == Outside && (s.threads[t].role.Consumer? ==> s.threads[t].role.got == [])
  }

  predicate Legal(s: State, es: seq<Event>)
    decreases |es|
  {
    |es| > 0 ==> Enabled(s, es[0]) && Legal(Apply(s, es[0]), es[1..])
  }

  function After(s: State, es: seq<Event>): State
    requires Legal(s, es)
    decreases |es|
  {
    if |es| == 0 then s else After(Apply(s, es[0]), es[1..])
  }

  function SpuriousIn(es: seq<Event>): nat {
    if |es| == 0 then 0 else (if es[0].Spurious? then 1 else 0) + SpuriousIn(es[1..])
  }

  // ----- Counts over the threads -----

  function SleepingConsumer(t: Thread): nat { if t.role.Consumer? && t.phase == Asleep then 1 else 0 }
  function SleepingProducer(t: Thread): nat { if t.role.Producer? && t.phase == Asleep then 1 else 0 }
  // What will still serve the consumers: a consumer on its way to look at the count, or a
  // signal on not_empty that is due but has not been sent; dually for the producers.
  function ServesConsumers(t: Thread): nat {
    if (t.role.Consumer? && (t.phase.Woken? || t.phase.Testing?)) || (t.role.Producer? && t.phase == Signalling) then 1 else 0
  }
  function ServesProducers(t: Thread): nat {
    if (t.role.Producer? && (t.phase.Woken? || t.phase.Testing?)) || (t.role.Consumer? && t.phase == Signalling) then 1 else 0
  }
  function WokenConsumer(t: Thread): nat { if t.role.Consumer? && t.phase == Woken then 1 else 0 }
  function WokenProducer(t: Thread): nat { if t.role.Producer? && t.phase == Woken then 1 else 0 }
  function ToPut(t: Thread): nat { if t.role.Producer? then |t.role.work| else 0 }
  function ToTake(t: Thread): nat { if t.role.Consumer? then t.role.left else 0 }

  function Total(s: State, f: Thread -> nat): nat {
    Sum(s.threads, f)
  }

  // ----- The invariant -----

  // Thread t is in a critical section exactly when it owns the mutex, and only waits for a
  // reason.
  ghost predicate Orderly(s: State, t: nat)
    requires t < |s.threads|
  {
    && (s.threads[t].Critical() <==> s.owner == Held(t))
    && (s.threads[t].phase.Testing? || s.threads[t].phase.Asleep? || s.threads[t].phase.Woken? ==> s.threads[t].Left() > 0)
  }

  ghost predicate Exclusive(s: State) {
    && (s.owner.Held? ==> s.owner.holder < |s.threads|)
    && forall t :: 0 <= t < |s.threads| ==> Orderly(s, t)
  }

  ghost predicate NoLostWakeup(s: State) {
    && (Total(s, SleepingConsumer) > 0 ==> s.ring.count <= Total(s, ServesConsumers))
    && (Total(s, SleepingProducer) > 0 ==> s.ring.Capacity() - s.ring.count <= Total(s, ServesProducers))
  }

  ghost predicate Fifo(s: State) {
    s.ring.WellFormed() && s.taken + s.ring.Contents() == s.put
  }

  ghost predicate Inv(s: State) {
    Exclusive(s) && NoLostWakeup(s) && Fifo(s)
  }

  lemma InitInv(s: State)
    requires Init(s)
    ensures Inv(s)
  {
    SumZero(s.threads, SleepingConsumer);
    SumZero(s.threads, SleepingProducer);
    forall t | 0 <= t < |s.threads| ensures Orderly(s, t) {}
    assert s.ring.Contents() == [];
  }

  // The ring and both histories together: what is taken, then what is stored, is what was put.
  lemma FifoStep(s: State, e: Event)
    requires Fifo(s) && Enabled(s, e)
    ensures Fifo(Apply(s, e)) && Apply(s, e).ring.Capacity() == s.ring.Capacity()
  {
    if e.Transfer? {
      match s.threads[e.t].role
      case Producer(work) => StoreAppends(s.ring, work[0]);
      case Consumer(_, _) => RemoveTakesOldest(s.ring);
    }
  }

  // Every event changes its own thread; a signal that finds a sleeper changes that one too.
  lemma TotalMoves(s: State, e: Event, f: Thread -> nat)
    requires Enabled(s, e)
    ensures |Apply(s, e).threads| == |s.threads|
    ensures var s' := Apply(s, e);
      if e.Signal? && e.woken.Some? then
        var u := e.woken.value;
        u != e.t && Total(s', f) + f(s.threads[e.t]) + f(s.threads[u]) == Total(s, f) + f(s'.threads[e.t]) + f(s'.threads[u])
      else
        Total(s', f) + f(s.threads[e.t]) == Total(s, f) + f(s'.threads[e.t])
  {
    var s' := Apply(s, e);
    if e.Signal? && e.woken.Some? {
      var u := e.woken.value;
      SumUpdate(s.threads, e.t, s'.threads[e.t], f);
      SumUpdate(s.threads[e.t := s'.threads[e.t]], u, s'.threads[u], f);
    } else {
      SumUpdate(s.threads, e.t, s'.threads[e.t], f);
    }
  }

  lemma NoSleeper(s: State, t: nat)
    requires t < |s.threads| && forall u :: 0 <= u < |s.threads| ==> !Hears(s, t, u)
    ensures s.threads[t].role.Producer? ==> Total(s, SleepingConsumer) == 0
    ensures s.threads[t].role.Consumer? ==> Total(s, SleepingProducer) == 0
  {
    assert forall u :: 0 <= u < |s.threads| ==> !Hears(s, t, u) && (s.threads[u].phase != Asleep || s.threads[u].role.Producer? == s.threads[t].role.Producer?);
    if s.threads[t].role.Producer? {
      SumZero(s.threads, SleepingConsumer);
    } else {
      SumZero(s.threads, SleepingProducer);
    }
  }

  lemma WakeupStep(s: State, e: Event)
    requires Inv(s) && Enabled(s, e)
    ensures NoLostWakeup(Apply(s, e))
  {
    FifoStep(s, e);
    TotalMoves(s, e, SleepingConsumer);
    TotalMoves(s, e, SleepingProducer);
    TotalMoves(s, e, ServesConsumers);
    TotalMoves(s, e, ServesProducers);
    if e.Signal? && e.woken.None? {
      NoSleeper(s, e.t);
    }
  }

  lemma ExclusiveStep(s: State, e: Event)
    requires Exclusive(s) && Enabled(s, e)
    ensures Exclusive(Apply(s, e))
  {
    var s' := Apply(s, e);
    assert Orderly(s, e.t);
    forall u | 0 <= u < |s'.threads| ensures Orderly(s', u) { assert Orderly(s, u); }
  }

  lemma InvStep(s: State, e: Event)
    requires Inv(s) && Enabled(s, e)
    ensures Inv(Apply(s, e))
  {
    ExclusiveStep(s, e);
    WakeupStep(s, e);
    FifoStep(s, e);
  }

  lemma {:induction false} InvRun(s: State, es: seq<Event>)
    requires Inv(s) && Legal(s, es)
    ensures Inv(After(s, es))
    decreases |es|
  {
    if |es| > 0 {
      InvStep(s, es[0]);
      InvRun(Apply(s, es[0]), es[1..]);
    }
  }

  // In every reachable state with the mutex free, sleepers on not_empty are
  // outnumbered: every queued item has a woken consumer on its way; dually for not_full.
  lemma NoWakeupIsLost(init: State, es: seq<Event>)
    requires Init(init) && Legal(init, es) && After(init, es).owner == Free
    ensures var s := After(init, es);
      && (Total(s, SleepingConsumer) > 0 ==> s.ring.count <= Total(s, WokenConsumer))
      && (Total(s, SleepingProducer) > 0 ==> s.ring.Capacity() - s.ring.count <= Total(s, WokenProducer))
  {
    InitInv(init);
    InvRun(init, es);
    var s := After(init, es);
    assert forall t :: 0 <= t < |s.threads| ==> Orderly(s, t) && !s.threads[t].Critical();
    SumPointwise(s.threads, s.threads, ServesConsumers, WokenConsumer);
    SumPointwise(s.threads, s.threads, ServesProducers, WokenProducer);
  }

  // Over every run, what was taken followed by what is queued is what was put,
  // in the order of the critical sections.
  lemma RunsAreFifo(init: State, es: seq<Event>)
    requires Init(init) && Legal(init, es)
    ensures var s := After(init, es); s.ring.WellFormed() && s.taken + s.ring.Contents() == s.put
  {
    InitInv(init);
    InvRun(init, es);
  }

  // ----- What each thread has put and taken -----

  // By what a history has grown.
  function Growth(before: seq<Item>, after: seq<Item>): seq<Item> {
    if |before| <= |after| then after[|before|..] else []
  }

  // The items by which `taken` grows when e is a transfer of thread t, and over a run.
  function TakenAt(s: State, e: Event, t: nat): seq<Item>
    requires Enabled(s, e)
  {
    if e == Transfer(t) then Growth(s.taken, Apply(s, e).taken) else []
  }

  function TakenBy(s: State, es: seq<Event>, t: nat): seq<Item>
    requires Legal(s, es)
    decreases |es|
  {
    if |es| == 0 then [] else TakenAt(s, es[0], t) + TakenBy(Apply(s, es[0]), es[1..], t)
  }

  // Likewise for `put`.
  function PutAt(s: State, e: Event, t: nat): seq<Item>
    requires Enabled(s, e)
  {
    if e == Transfer(t) then Growth(s.put, Apply(s, e).put) else []
  }

  function PutBy(s: State, es: seq<Event>, t: nat): seq<Item>
    requires Legal(s, es)
    decreases |es|
  {
    if |es| == 0 then [] else PutAt(s, es[0], t) + PutBy(Apply(s, es[0]), es[1..], t)
  }

  // What thread t has received; what it still has to put.
  function Got(s: State, t: nat): seq<Item>
    requires t < |s.threads|
  {
    if s.threads[t].role.Consumer? then s.threads[t].role.got else []
  }

  function Work(s: State, t: nat): seq<Item>
    requires t < |s.threads|
  {
    if s.threads[t].role.Producer? then s.threads[t].role.work else []
  }

  lemma HandsStep(s: State, e: Event, t: nat)
    requires Enabled(s, e) && t < |s.threads|
    ensures var s' := Apply(s, e);
      && |s'.threads| == |s.threads| && s'.threads[t].role.Consumer? == s.threads[t].role.Consumer?
      && Got(s', t) == Got(s, t) + TakenAt(s, e, t)
      && Work(s, t) == PutAt(s, e, t) + Work(s', t)
  {
    if e == Transfer(t) && s.threads[t].role.Producer? {
      assert s.threads[t].role.work == [s.threads[t].role.work[0]] + s.threads[t].role.work[1..];
    }
  }

  lemma Associates(a: seq<Item>, b: seq<Item>, c: seq<Item>)
    ensures (a + b) + c == a + (b + c)
  {
  }

  // Over every run a consumer holds, in order, what it held and the items it took.
  lemma {:induction false} ConsumersHoldWhatTheyTook(s: State, es: seq<Event>, t: nat)
    requires Legal(s, es) && t < |s.threads|
    ensures t < |After(s, es).threads| && Got(After(s, es), t) == Got(s, t) + TakenBy(s, es, t)
    decreases |es|
  {
    if |es| > 0 {
      HandsStep(s, es[0], t);
      ConsumersHoldWhatTheyTook(Apply(s, es[0]), es[1..], t);
      Associates(Got(s, t), TakenAt(s, es[0], t), TakenBy(Apply(s, es[0]), es[1..], t));
    }
  }

  // A producer has put, in order, the items it had before those it still has.
  lemma {:induction false} ProducersPutWhatTheyHad(s: State, es: seq<Event>, t: nat)
    requires Legal(s, es) && t < |s.threads|
    ensures t < |After(s, es).threads| && Work(s, t) == PutBy(s, es, t) + Work(After(s, es), t)
    decreases |es|
  {
    if |es| > 0 {
      HandsStep(s, es[0], t);
      ProducersPutWhatTheyHad(Apply(s, es[0]), es[1..], t);
      Associates(PutAt(s, es[0], t), PutBy(Apply(s, es[0]), es[1..], t), Work(After(s, es), t));
    }
  }

  ghost predicate OnlyConsumer(s: State, t: nat) {
    forall u :: 0 <= u < |s.threads| && u != t ==> s.threads[u].role.Producer?
  }

  ghost predicate OnlyProducer(s: State, t: nat) {
    forall u :: 0 <= u < |s.threads| && u != t ==> s.threads[u].role.Consumer?
  }

  lemma OnlyOneStep(s: State, e: Event, t: nat)
    requires Enabled(s, e) && t < |s.threads|
    ensures |Apply(s, e).threads| == |s.threads|
    ensures OnlyConsumer(s, t) ==> OnlyConsumer(Apply(s, e), t) && Apply(s, e).taken == s.taken + TakenAt(s, e, t)
    ensures OnlyProducer(s, t) ==> OnlyProducer(Apply(s, e), t) && Apply(s, e).put == s.put + PutAt(s, e, t)
  {
  }

  lemma {:induction false} OnlyConsumerTakes(s: State, es: seq<Event>, t: nat)
    requires Legal(s, es) && t < |s.threads| && OnlyConsumer(s, t)
    ensures After(s, es).taken == s.taken + TakenBy(s, es, t)
    decreases |es|
  {
    if |es| > 0 {
      OnlyOneStep(s, es[0], t);
      OnlyConsumerTakes(Apply(s, es[0]), es[1..], t);
      Associates(s.taken, TakenAt(s, es[0], t), TakenBy(Apply(s, es[0]), es[1..], t));
    }
  }

  lemma {:induction false} OnlyProducerPuts(s: State, es: seq<Event>, t: nat)
    requires Legal(s, es) && t < |s.threads| && OnlyProducer(s, t)
    ensures After(s, es).put == s.put + PutBy(s, es, t)
    decreases |es|
  {
    if |es| > 0 {
      OnlyOneStep(s, es[0], t);
      OnlyProducerPuts(Apply(s, es[0]), es[1..], t);
      Associates(s.put, PutAt(s, es[0], t), PutBy(Apply(s, es[0]), es[1..], t));
    }
  }

  // A single consumer has received, in order, what was put, but for what is still in the queue;
  // whatever the producers.
  lemma SingleConsumerReceivesAll(init: State, es: seq<Event>, t: nat)
    requires Init(init) && Legal(init, es) && t < |init.threads| && init.threads[t].role.Consumer? && OnlyConsumer(init, t)
    ensures t < |After(init, es).threads| && After(init, es).ring.WellFormed()
    ensures Got(After(init, es), t) + After(init, es).ring.Contents() == After(init, es).put
  {
    ConsumersHoldWhatTheyTook(init, es, t);
    OnlyConsumerTakes(init, es, t);
    RunsAreFifo(init, es);
  }

  // A single producer has put, in order, what it was given, but for what it still has.
  lemma SingleProducerPutsAll(init: State, es: seq<Event>, t: nat)
    requires Init(init) && Legal(init, es) && t < |init.threads| && init.threads[t].role.Producer? && OnlyProducer(init, t)
    ensures t < |After(init, es).threads| && After(init, es).put + Work(After(init, es), t) == Work(init, t)
  {
    ProducersPutWhatTheyHad(init, es, t);
    OnlyProducerPuts(init, es, t);
    assert [] + PutBy(init, es, t) == PutBy(init, es, t);
  }

  // ----- The order of what a consumer receives -----

  // a without some of its items.
  predicate Subsequence(b: seq<Item>, a: seq<Item>)
    decreases |a|
  {
    if |b| == 0 then true
    else |a| > 0 && (Subsequence(b, a[..|a| - 1]) || (b[|b| - 1] == a[|a| - 1] && Subsequence(b[..|b| - 1], a[..|a| - 1])))
  }

  ghost predicate InOrder(s: State) {
    forall t :: 0 <= t < |s.threads| ==> Subsequence(Got(s, t), s.taken)
  }

  lemma InOrderStep(s: State, e: Event)
    requires InOrder(s) && Enabled(s, e)
    ensures InOrder(Apply(s, e))
  {
    var s' := Apply(s, e);
    forall t | 0 <= t < |s'.threads| ensures Subsequence(Got(s', t), s'.taken) {
      assert Subsequence(Got(s, t), s.taken);
      if |s'.taken| > |s.taken| {
        assert s'.taken[..|s'.taken| - 1] == s.taken;
        if e == Transfer(t) {
          assert Got(s', t)[..|Got(s', t)| - 1] == Got(s, t);
        }
      }
    }
  }

  lemma {:induction false} EachReceivesInOrder(s: State, es: seq<Event>)
    requires InOrder(s) && Legal(s, es)
    ensures InOrder(After(s, es))
    decreases |es|
  {
    if |es| > 0 {
      InOrderStep(s, es[0]);
      EachReceivesInOrder(Apply(s, es[0]), es[1..]);
    }
  }

  // However many consumers there are, each receives its items in the order in which they were put.
  lemma ConsumersReceiveInOrder(init: State, es: seq<Event>, t: nat)
    requires Init(init) && Legal(init, es) && t < |After(init, es).threads|
    ensures Subsequence(Got(After(init, es), t), After(init, es).taken) && After(init, es).taken <= After(init, es).put
  {
    forall u | 0 <= u < |init.threads| ensures Subsequence(Got(init, u), init.taken) {}
    EachReceivesInOrder(init, es);
    RunsAreFifo(init, es);
  }
}
