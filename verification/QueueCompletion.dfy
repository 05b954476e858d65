// task25_26: every run of the producers and consumers ends, and where: with everything
// delivered, exactly when what is put exceeds what is taken by no more than the capacity.
module QueueCompletion {
  import opened Wrappers
  import opened Locks
  import opened Sums
  import opened BlockingQueue
  import opened QueueProtocol

  ghost predicate Stuck(s: State) {
    forall e: Event :: Enabled(s, e) ==> e.Spurious?
  }

  predicate AllFinished(s: State) {
    forall t :: 0 <= t < |s.threads| ==> s.threads[t].Finished()
  }

  // ----- Termination -----

  function Phases(p: Phase): nat {
    match p
    case Asleep => 0
    case Testing => 1
    case Woken => 2
    case Outside => 2
    case Unlocking => 3
    case Signalling => 6
  }

  function Energy(t: Thread): nat {
    6 * t.Left() + Phases(t.phase)
  }

  lemma EnergyStep(s: State, e: Event)
    requires Enabled(s, e)
    ensures Total(Apply(s, e), Energy) + 1 <= Total(s, Energy) + (if e.Spurious? then 3 else 0)
  {
    TotalMoves(s, e, Energy);
  }

  // A run takes at most Energy(s) steps and three more for each spurious wakeup;
  // so every run with finitely many spurious wakeups is finite.
  lemma {:induction false} RunsAreBounded(s: State, es: seq<Event>)
    requires Legal(s, es)
    ensures |es| + Total(After(s, es), Energy) <= Total(s, Energy) + 3 * SpuriousIn(es)
    decreases |es|
  {
    if |es| > 0 {
      EnergyStep(s, es[0]);
      RunsAreBounded(Apply(s, es[0]), es[1..]);
    }
  }

  // ----- No deadlock -----

  // Whoever holds the mutex can go on.
  lemma OwnerSteps(s: State) returns (e: Event)
    requires Inv(s) && s.owner.Held?
    ensures Enabled(s, e) && !e.Spurious?
  {
    var t := s.owner.holder;
    assert Orderly(s, t);
    match s.threads[t].phase
    case Testing => e := if MustWait(s, t) then Sleep(t) else Transfer(t);
    case Signalling =>
      if u :| 0 <= u < |s.threads| && Hears(s, t, u) {
        e := Signal(t, Some(u));
      } else {
        e := Signal(t, None);
      }
    case _ => e := Unlock(t);
  }

  // By how much the outstanding puts and the queued items exceed the outstanding takes.
  function Surplus(s: State): int {
    Total(s, ToPut) + s.ring.count - Total(s, ToTake)
  }

  lemma SurplusStays(s: State, e: Event)
    requires Enabled(s, e)
    ensures Surplus(Apply(s, e)) == Surplus(s)
  {
    TotalMoves(s, e, ToPut);
    TotalMoves(s, e, ToTake);
  }

  lemma {:induction false} SurplusRun(s: State, es: seq<Event>)
    requires Inv(s) && Legal(s, es)
    ensures Inv(After(s, es)) && Surplus(After(s, es)) == Surplus(s) && After(s, es).ring.Capacity() == s.ring.Capacity()
    decreases |es|
  {
    if |es| > 0 {
      InvStep(s, es[0]);
      SurplusStays(s, es[0]);
      FifoStep(s, es[0]);
      SurplusRun(Apply(s, es[0]), es[1..]);
    }
  }

  predicate AllAsleep(s: State) {
    forall t :: 0 <= t < |s.threads| ==> s.threads[t].Finished() || s.threads[t].phase == Asleep
  }

  // Where nothing can happen but spurious wakeups, everyone has finished or sleeps.
  lemma StuckIsAllAsleep(s: State)
    requires Inv(s) && Stuck(s)
    ensures s.owner == Free && AllAsleep(s)
  {
    if s.owner.Held? {
      var e := OwnerSteps(s);
      assert false;
    }
    forall t | 0 <= t < |s.threads| ensures s.threads[t].Finished() || s.threads[t].phase == Asleep {
      var e := Acquire(t);
      assert Orderly(s, t) && !Enabled(s, e);
    }
  }

  // Someone still has to take only if the queue is empty, to put only if it is full.
  lemma AsleepForAReason(s: State)
    requires Inv(s) && AllAsleep(s)
    ensures Total(s, ToTake) > 0 ==> s.ring.count == 0
    ensures Total(s, ToPut) > 0 ==> s.ring.count == s.ring.Capacity()
  {
    SumZero(s.threads, ServesConsumers);
    SumZero(s.threads, ServesProducers);
    if Total(s, ToTake) > 0 {
      var t := SumWitness(s.threads, ToTake);
      SumMember(s.threads, t, SleepingConsumer);
    }
    if Total(s, ToPut) > 0 {
      var t := SumWitness(s.threads, ToPut);
      SumMember(s.threads, t, SleepingProducer);
    }
  }

  lemma FinishedIffNothingLeft(s: State)
    requires Inv(s) && AllAsleep(s)
    ensures AllFinished(s) <==> Total(s, ToPut) == 0 && Total(s, ToTake) == 0
  {
    if AllFinished(s) {
      SumZero(s.threads, ToPut);
      SumZero(s.threads, ToTake);
    } else {
      var t :| 0 <= t < |s.threads| && !s.threads[t].Finished();
      assert Orderly(s, t);
      SumMember(s.threads, t, ToPut);
      SumMember(s.threads, t, ToTake);
    }
  }

  // ----- Exactly-once delivery -----

  // The copies of x that a thread was given to send or has received.
  function Carries(x: Item): Thread -> nat {
    (t: Thread) => match t.role
      case Producer(work) => multiset(work)[x]
      case Consumer(_, got) => multiset(got)[x]
  }

  function Received(x: Item): Thread -> nat {
    (t: Thread) => if t.role.Consumer? then multiset(t.role.got)[x] else 0
  }

  function Assigned(x: Item): Thread -> nat {
    (t: Thread) => if t.role.Producer? then multiset(t.role.work)[x] else 0
  }

  function Copies(s: State, x: Item): nat
    requires s.ring.WellFormed()
  {
    Total(s, Carries(x)) + multiset(s.ring.Contents())[x]
  }

  // A transfer moves one item between a thread's hands and the queue.
  lemma TransferKeepsCopies(s: State, t: nat, x: Item)
    requires Fifo(s) && Enabled(s, Transfer(t))
    ensures Apply(s, Transfer(t)).ring.WellFormed()
    ensures var s' := Apply(s, Transfer(t));
      Carries(x)(s'.threads[t]) + multiset(s'.ring.Contents())[x] == Carries(x)(s.threads[t]) + multiset(s.ring.Contents())[x]
  {
    match s.threads[t].role
    case Producer(work) =>
      StoreAppends(s.ring, work[0]);
      assert work == [work[0]] + work[1..];
    case Consumer(_, _) =>
      RemoveTakesOldest(s.ring);
  }

  lemma CopiesStep(s: State, e: Event, x: Item)
    requires Fifo(s) && Enabled(s, e)
    ensures Apply(s, e).ring.WellFormed() && Copies(Apply(s, e), x) == Copies(s, x)
  {
    TotalMoves(s, e, Carries(x));
    if e.Transfer? {
      TransferKeepsCopies(s, e.t, x);
    }
  }

  lemma {:induction false} CopiesRun(s: State, es: seq<Event>, x: Item)
    requires Inv(s) && Legal(s, es)
    ensures After(s, es).ring.WellFormed() && Copies(After(s, es), x) == Copies(s, x)
    decreases |es|
  {
    if |es| > 0 {
      InvStep(s, es[0]);
      CopiesStep(s, es[0], x);
      CopiesRun(Apply(s, es[0]), es[1..], x);
    }
  }

  // In every run, what consumers have received, what is queued and what producers still hold is
  // what producers were given, each item as often.
  lemma ItemsAreConserved(init: State, es: seq<Event>, x: Item)
    requires Init(init) && Legal(init, es)
    ensures var s := After(init, es);
      s.ring.WellFormed() && Total(s, Received(x)) + multiset(s.ring.Contents())[x] + Total(s, Assigned(x)) == Total(init, Assigned(x))
  {
    var s := After(init, es);
    InitInv(init);
    CopiesRun(init, es, x);
    SumSplits(s.threads, Carries(x), Received(x), Assigned(x));
    SumPointwise(init.threads, init.threads, Carries(x), Assigned(x));
  }

  function AtLeastZero(n: int): nat {
    if n < 0 then 0 else n
  }

  // Where a run that cannot go on has stopped: the takes without a put to match are left
  // over, and so are the puts beyond the takes and the capacity; everyone has finished exactly
  // when there are neither.
  lemma StuckRunsDeliverAll(init: State, es: seq<Event>)
    requires Init(init) && init.ring.Capacity() > 0 && Legal(init, es) && Stuck(After(init, es))
    ensures var s, puts, takes := After(init, es), Total(init, ToPut), Total(init, ToTake);
      && Total(s, ToTake) == AtLeastZero(takes - puts)
      && Total(s, ToPut) == AtLeastZero(puts - takes - init.ring.Capacity())
      && s.ring.count == AtLeastZero(puts - takes) - Total(s, ToPut)
      && (AllFinished(s) <==> takes <= puts <= takes + init.ring.Capacity())
      && (puts == takes ==> s.taken == s.put && forall x :: Total(s, Received(x)) == Total(init, Assigned(x)))
  {
    var s := After(init, es);
    InitInv(init);
    SurplusRun(init, es);
    StuckIsAllAsleep(s);
    AsleepForAReason(s);
    FinishedIffNothingLeft(s);
    if Total(init, ToPut) == Total(init, ToTake) {
      forall x: Item ensures Total(s, Received(x)) == Total(init, Assigned(x)) {
        ItemsAreConserved(init, es, x);
        assert s.ring.Contents() == [];
        SumZero(s.threads, Assigned(x));
      }
    }
  }

  // ----- Why the capacity must be positive -----

  lemma {:induction false} MaximalRun(s: State) returns (es: seq<Event>)
    ensures Legal(s, es) && Stuck(After(s, es))
    decreases Total(s, Energy)
  {
    if e :| Enabled(s, e) && !e.Spurious? {
      EnergyStep(s, e);
      var rest := MaximalRun(Apply(s, e));
      es := [e] + rest;
      assert es[1..] == rest;
    } else {
      es := [];
    }
  }

  lemma {:induction false} NothingFits(s: State, es: seq<Event>)
    requires s.ring.WellFormed() && s.ring.Capacity() == 0 && Legal(s, es)
    ensures After(s, es).ring == s.ring && |After(s, es).threads| == |s.threads|
    ensures forall t :: 0 <= t < |s.threads| ==> After(s, es).threads[t].role == s.threads[t].role
    decreases |es|
  {
    if |es| > 0 {
      NothingFits(Apply(s, es[0]), es[1..]);
    }
  }

  // Every maximal run finishes all threads exactly when there is nothing to do, or the capacity
  // is positive and what is put is what is taken and at most a queue full more.
  lemma CompletionNeedsCapacity(init: State)
    requires Init(init)
    ensures var puts, takes, capacity := Total(init, ToPut), Total(init, ToTake), init.ring.Capacity();
      (forall es :: Legal(init, es) && Stuck(After(init, es)) ==> AllFinished(After(init, es)))
       <==> AllFinished(init) || (capacity > 0 && takes <= puts <= takes + capacity)
  {
    var maximal := MaximalRun(init);
    if AllFinished(init) {
      forall es | Legal(init, es) ensures AllFinished(After(init, es)) {
        IdleRun(init, es);
      }
    } else if init.ring.Capacity() > 0 {
      StuckRunsDeliverAll(init, maximal);
      forall es | Legal(init, es) && Stuck(After(init, es))
        ensures AllFinished(After(init, es)) <==> AllFinished(After(init, maximal))
      {
        StuckRunsDeliverAll(init, es);
      }
    } else {
      NothingFits(init, maximal);
      var t :| 0 <= t < |init.threads| && !init.threads[t].Finished();
      assert !After(init, maximal).threads[t].Finished();
    }
  }

  lemma IdleRun(s: State, es: seq<Event>)
    requires AllFinished(s) && s.owner == Free && Legal(s, es)
    ensures AllFinished(After(s, es))
  {
    if |es| > 0 {
      assert false;
    }
  }
}
