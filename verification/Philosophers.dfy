// task22.c: a philosopher takes both forks with trylock under one mutex, or puts the first
// one back and sleeps on a condition variable; whoever has eaten broadcasts.
module Philosophers {
  import opened Locks
  import opened Sums
  import opened Table

  // Wanting: at the lock of m, or finished. TryFirst .. MustSleep hold m. Sated: has put both
  // forks down and wants m for the broadcast.
  datatype Phase =
    | Wanting | TryFirst | TrySecond | DropFirst | MustSleep | Asleep | Woken
    | Served | Eating | Clearing | Sated | Broadcasting | Leaving

  datatype Philosopher = Philosopher(rounds: nat, phase: Phase)
  {
    predicate HoldsMutex() {
      (phase.TryFirst? || phase.TrySecond? || phase.DropFirst? || phase.MustSleep? || phase.Served? || phase.Broadcasting? || phase.Leaving?)
    }
    predicate HoldsFirst() {
      (phase.TrySecond? || phase.DropFirst? || phase.Served? || phase.Eating? || phase.Clearing?)
    }
    predicate HoldsSecond() {
      (phase.Served? || phase.Eating?)
    }
    // Between taking both forks and the broadcast.
    predicate Between() {
      (phase.Served? || phase.Eating? || phase.Clearing? || phase.Sated? || phase.Broadcasting?)
    }
    // Asleep, or bound to fall asleep before letting go of m.
    predicate Drowsy() {
      (phase.DropFirst? || phase.MustSleep? || phase.Asleep?)
    }
    predicate Finished() {
      phase == Wanting && rounds == 0
    }
  }

  datatype State = State(mutex: Lock, forks: Forks, phils: seq<Philosopher>)

  datatype Event =
    | LockMutex(p: nat) | TakeFirst(p: nat) | TakeSecond(p: nat) | PutFirstBack(p: nat) | Sleep(p: nat)
    | UnlockMutex(p: nat) | PutSecond(p: nat) | PutFirst(p: nat) | Broadcast(p: nat) | Spurious(p: nat)

  predicate Shaped(s: State) {
    2 <= |s.phils| == |s.forks|
  }

  function FirstFork(s: State, p: nat): nat
    requires Shaped(s) && p < |s.phils|
  {
    First(|s.phils|, p)
  }

  function SecondFork(s: State, p: nat): nat
    requires Shaped(s) && p < |s.phils|
  {
    Second(|s.phils|, p)
  }

  predicate Enabled(s: State, e: Event) {
    && Shaped(s) && e.p < |s.phils|
    && var ph := s.phils[e.p].phase;
    match e
    case LockMutex(p) => s.mutex == Free && ((ph.Woken? || ph.Sated?) || (ph == Wanting && s.phils[p].rounds > 0))
    case TakeFirst(p) => ph == TryFirst
    case TakeSecond(p) => ph == TrySecond
    case PutFirstBack(p) => ph == DropFirst
    case Sleep(p) => ph == MustSleep
    case UnlockMutex(p) => ph == Served || (ph == Leaving && s.phils[p].rounds > 0)
    case PutSecond(p) => ph == Eating
    case PutFirst(p) => ph == Clearing
    case Broadcast(p) => ph == Broadcasting
    case Spurious(p) => ph == Asleep
  }

  function Move(s: State, p: nat, phase: Phase): State
    requires p < |s.phils|
  {
    s.(phils := s.phils[p := s.phils[p].(phase := phase)])
  }

  function WakeAll(phils: seq<Philosopher>): seq<Philosopher> {
    seq(|phils|, q requires 0 <= q < |phils| => if phils[q].phase == Asleep then phils[q].(phase := Woken) else phils[q])
  }

  function Apply(s: State, e: Event): State
    requires Enabled(s, e)
  {
    match e
    case LockMutex(p) => Move(s, p, if s.phils[p].phase == Sated then Broadcasting else TryFirst).(mutex := Held(p))
    case TakeFirst(p) =>
      if s.forks[FirstFork(s, p)].Held? then Move(s, p, MustSleep)
      else Move(s, p, TrySecond).(forks := s.forks[FirstFork(s, p) := Held(p)])
    case TakeSecond(p) =>
      if s.forks[SecondFork(s, p)].Held? then Move(s, p, DropFirst)
      else Move(s, p, Served).(forks := s.forks[SecondFork(s, p) := Held(p)])
    case PutFirstBack(p) => Move(s, p, MustSleep).(forks := s.forks[FirstFork(s, p) := Free])
    case Sleep(p) => Move(s, p, Asleep).(mutex := Free)
    case UnlockMutex(p) =>
      if s.phils[p].phase == Served then Move(s, p, Eating).(mutex := Free)
      else s.(mutex := Free, phils := s.phils[p := Philosopher(s.phils[p].rounds - 1, Wanting)])
    case PutSecond(p) => Move(s, p, Clearing).(forks := s.forks[SecondFork(s, p) := Free])
    case PutFirst(p) => Move(s, p, Sated).(forks := s.forks[FirstFork(s, p) := Free])
    case Broadcast(p) => s.(phils := WakeAll(Move(s, p, Leaving).phils))
    case Spurious(p) => Move(s, p, Woken)
  }

  predicate Init(s: State) {
    && Shaped(s) && s.mutex == Free
    && (forall f :: 0 <= f < |s.forks| ==> s.forks[f] == Free)
    && (forall p :: 0 <= p < |s.phils| ==> s.phils[p].phase == Wanting)
  }

  predicate Legal(s: State, es: seq<Event>)
    decreases |es|
  {
    |es| > 0 ==> Enabled(s, es[0]) && Legal(Apply(s, es[0]), es[1..])
  }

  function After(s: State, es: seq<Event>): State
    requires Legal(s, es)
    decreases |es|
  {
    if |es| == 0 then s else After(Apply(s, es[0]), es[1..])
  }

  function SpuriousIn(es: seq<Event>): nat {
    if |es| == 0 then 0 else (if es[0].Spurious? then 1 else 0) + SpuriousIn(es[1..])
  }

  // ----- Ownership -----

  // Philosopher p's view: what its phase says it holds is what it holds.
  ghost predicate Mine(s: State, p: nat)
    requires Shaped(s) && p < |s.phils|
  {
    && (s.phils[p].HoldsMutex() <==> s.mutex == Held(p))
    && (s.phils[p].HoldsFirst() <==> s.forks[FirstFork(s, p)] == Held(p))
    && (s.phils[p].HoldsSecond() <==> s.forks[SecondFork(s, p)] == Held(p))
    && (s.phils[p].phase == Wanting || s.phils[p].rounds > 0)
  }

  // A fork is only ever held by a philosopher it lies beside.
  ghost predicate WithinReach(s: State, f: nat)
    requires Shaped(s) && f < |s.forks|
  {
    s.forks[f].Held? ==>
      s.forks[f].holder < |s.phils| && (f == FirstFork(s, s.forks[f].holder) || f == SecondFork(s, s.forks[f].holder))
  }

  ghost predicate Ownership(s: State) {
    && Shaped(s)
    && (s.mutex.Held? ==> s.mutex.holder < |s.phils|)
    && (forall p :: 0 <= p < |s.phils| ==> Mine(s, p))
    && (forall f :: 0 <= f < |s.forks| ==> WithinReach(s, f))
  }

  function Updated(lock: Lock, p: nat, had: bool, has: bool): Lock {
    if has then Held(p) else if had then Free else lock
  }

  // What every event but the broadcast does: it changes philosopher p, and the locks follow
  // p's phase; a lock p did not hold is only taken while free.
  ghost predicate LocalMove(s: State, s': State, p: nat)
    requires Shaped(s) && p < |s.phils|
  {
    && |s'.phils| == |s.phils|
    && var x, y, f, g := s.phils[p], s'.phils[p], FirstFork(s, p), SecondFork(s, p);
    && s'.phils == s.phils[p := y]
    && s'.mutex == Updated(s.mutex, p, x.HoldsMutex(), y.HoldsMutex())
    && s'.forks == s.forks[f := Updated(s.forks[f], p, x.HoldsFirst(), y.HoldsFirst())][g := Updated(s.forks[g], p, x.HoldsSecond(), y.HoldsSecond())]
    && (y.HoldsMutex() ==> x.HoldsMutex() || s.mutex.Free?)
    && (y.HoldsFirst() ==> x.HoldsFirst() || s.forks[f].Free?)
    && (y.HoldsSecond() ==> x.HoldsSecond() || s.forks[g].Free?)
    && (y.phase == Wanting || y.rounds > 0)
  }

  lemma EventsAreLocal(s: State, e: Event)
    requires Enabled(s, e) && !e.Broadcast? && Mine(s, e.p)
    ensures LocalMove(s, Apply(s, e), e.p)
  {
  }

  lemma LocalMoveKeepsOwnership(s: State, s': State, p: nat)
    requires Ownership(s) && p < |s.phils| && LocalMove(s, s', p)
    ensures Ownership(s')
  {
    assert Mine(s, p);
    forall q | 0 <= q < |s'.phils| ensures Mine(s', q) { assert Mine(s, q); }
    forall f | 0 <= f < |s'.forks| ensures WithinReach(s', f) { assert WithinReach(s, f); }
  }

  lemma OwnershipStep(s: State, e: Event)
    requires Ownership(s) && Enabled(s, e)
    ensures Ownership(Apply(s, e))
  {
    var s' := Apply(s, e);
    assert Mine(s, e.p);
    if e.Broadcast? {
      forall q | 0 <= q < |s'.phils| ensures Mine(s', q) { assert Mine(s, q); }
      forall f | 0 <= f < |s'.forks| ensures WithinReach(s', f) { assert WithinReach(s, f); }
    } else {
      EventsAreLocal(s, e);
      LocalMoveKeepsOwnership(s, s', e.p);
    }
  }

  // ----- Sleepers -----

  predicate DrowsyAt(s: State, p: nat) {
    p < |s.phils| && s.phils[p].Drowsy()
  }

  predicate BetweenAt(s: State, p: nat) {
    p < |s.phils| && s.phils[p].Between()
  }

  // The heart: a sleeper (or a philosopher bound to sleep) has someone who will broadcast.
  ghost predicate SleepersAwaited(s: State) {
    (exists p :: DrowsyAt(s, p)) ==> exists q :: BetweenAt(s, q)
  }

  ghost predicate Inv(s: State) {
    Ownership(s) && SleepersAwaited(s)
  }

  // A fork found busy is held by a philosopher who will broadcast, as only one holds m.
  lemma BusyForkHolder(s: State, p: nat, f: nat)
    requires Ownership(s) && p < |s.phils| && s.mutex == Held(p)
    requires f < |s.forks| && s.forks[f].Held? && s.forks[f] != Held(p)
    ensures BetweenAt(s, s.forks[f].holder)
  {
    assert WithinReach(s, f);
    assert Mine(s, s.forks[f].holder);
  }

  // A philosopher only becomes drowsy on finding a fork busy.
  lemma NewlyDrowsy(s: State, e: Event) returns (f: nat)
    requires Ownership(s) && Enabled(s, e)
    requires DrowsyAt(Apply(s, e), e.p) && !DrowsyAt(s, e.p)
    ensures s.mutex == Held(e.p) && f < |s.forks| && s.forks[f].Held? && s.forks[f] != Held(e.p)
  {
    assert Mine(s, e.p);
    f := if e.TakeFirst? then FirstFork(s, e.p) else SecondFork(s, e.p);
  }

  lemma SleepersStep(s: State, e: Event)
    requires Inv(s) && Enabled(s, e)
    ensures SleepersAwaited(Apply(s, e))
  {
    var s' := Apply(s, e);
    if e.Broadcast? {
      assert Mine(s, e.p);
      forall q: nat | q < |s.phils| ensures !DrowsyAt(s', q) {
        assert Mine(s, q);
      }
    } else if p :| DrowsyAt(s', p) {
      var q: nat;
      if DrowsyAt(s, p) {
        q :| BetweenAt(s, q);
      } else {
        var f := NewlyDrowsy(s, e);
        BusyForkHolder(s, e.p, f);
        q := s.forks[f].holder;
      }
      StillBetween(s, e, q);
    }
  }

  lemma StillBetween(s: State, e: Event, q: nat)
    requires Enabled(s, e) && !e.Broadcast? && BetweenAt(s, q)
    ensures BetweenAt(Apply(s, e), q)
  {
  }

  lemma InitInv(s: State)
    requires Init(s)
    ensures Inv(s)
  {
    forall q | 0 <= q < |s.phils| ensures Mine(s, q) {}
    forall f | 0 <= f < |s.forks| ensures WithinReach(s, f) {}
  }

  lemma {:induction false} InvRun(s: State, es: seq<Event>)
    requires Inv(s) && Legal(s, es)
    ensures Inv(After(s, es))
    decreases |es|
  {
    if |es| > 0 {
      OwnershipStep(s, es[0]);
      SleepersStep(s, es[0]);
      InvRun(Apply(s, es[0]), es[1..]);
    }
  }

  lemma Reachable(init: State, es: seq<Event>)
    requires Init(init) && Legal(init, es)
    ensures Inv(After(init, es))
  {
    InitInv(init);
    InvRun(init, es);
  }

  // In every reachable state a sleeping philosopher has another one between
  // taking both forks and the broadcast that wakes all.
  lemma NoForgottenSleeper(init: State, es: seq<Event>, p: nat) returns (q: nat)
    requires Init(init) && Legal(init, es)
    requires p < |After(init, es).phils| && After(init, es).phils[p].phase == Asleep
    ensures q < |After(init, es).phils| && q != p && After(init, es).phils[q].Between()
  {
    Reachable(init, es);
    assert DrowsyAt(After(init, es), p);
    q :| BetweenAt(After(init, es), q);
  }

  // ----- Progress -----

  function NextEvent(s: State, p: nat): Event
    requires p < |s.phils|
  {
    match s.phils[p].phase
    case Wanting => LockMutex(p)
    case TryFirst => TakeFirst(p)
    case TrySecond => TakeSecond(p)
    case DropFirst => PutFirstBack(p)
    case MustSleep => Sleep(p)
    case Asleep => Spurious(p)
    case Woken => LockMutex(p)
    case Served => UnlockMutex(p)
    case Eating => PutSecond(p)
    case Clearing => PutFirst(p)
    case Sated => LockMutex(p)
    case Broadcasting => Broadcast(p)
    case Leaving => UnlockMutex(p)
  }

  // A philosopher that does not sleep can step unless another holds the mutex.
  lemma AwakeSteps(s: State, p: nat)
    requires Ownership(s) && p < |s.phils| && !s.phils[p].Finished() && s.phils[p].phase != Asleep
    requires s.mutex == Free || s.mutex == Held(p)
    ensures Enabled(s, NextEvent(s, p)) && !NextEvent(s, p).Spurious? && NextEvent(s, p).p == p
  {
    assert Mine(s, p);
  }

  // In every reachable state with someone unfinished, someone unfinished can
  // step, and without waiting for a spurious wakeup.
  lemma NoDeadlock(init: State, es: seq<Event>, p: nat) returns (e: Event)
    requires Init(init) && Legal(init, es)
    requires p < |After(init, es).phils| && !After(init, es).phils[p].Finished()
    ensures Enabled(After(init, es), e) && !e.Spurious? && !After(init, es).phils[e.p].Finished()
  {
    Reachable(init, es);
    var s := After(init, es);
    var q := p;
    if s.mutex.Held? {
      q := s.mutex.holder;
      assert Mine(s, q);
    } else if s.phils[p].phase == Asleep {
      q := NoForgottenSleeper(init, es, p);
      assert Mine(s, q);
    }
    AwakeSteps(s, q);
    e := NextEvent(s, q);
  }

  predicate AllEat(s: State, eaters: set<nat>) {
    forall p :: p in eaters ==> p < |s.phils| && s.phils[p].phase == Eating
  }

  // In every reachable state each eater holds both its forks, so no two eaters share one or sit
  // side by side, and at most half the table eats.
  lemma EatersHoldTheirForks(init: State, es: seq<Event>, eaters: set<nat>)
    requires Init(init) && Legal(init, es) && AllEat(After(init, es), eaters)
    ensures Shaped(After(init, es)) && forall p :: p in eaters ==> HasBoth(After(init, es).forks, p)
    ensures |After(init, es).phils| == |init.phils| && Apart(|init.phils|, eaters)
    ensures 2 * |eaters| <= |init.phils|
  {
    Reachable(init, es);
    AsMany(init, es);
    forall p | p in eaters ensures HasBoth(After(init, es).forks, p) {
      assert Mine(After(init, es), p);
    }
    AtMostHalf(After(init, es).forks, eaters);
    EatersAreApart(After(init, es).forks, eaters);
  }

  lemma {:induction false} AsMany(s: State, es: seq<Event>)
    requires Legal(s, es)
    ensures |After(s, es).phils| == |s.phils|
    decreases |es|
  {
    if |es| > 0 {
      AsMany(Apply(s, es[0]), es[1..]);
    }
  }

  // ----- Who can eat together -----

  // Those in done eat, nobody else has begun, and the mutex is free.
  ghost predicate Seated(s: State, done: set<nat>) {
    && Inv(s) && s.mutex == Free && AllEat(s, done)
    && forall p :: 0 <= p < |s.phils| && p !in done ==> s.phils[p].phase == Wanting
  }

  lemma HolderEats(s: State, done: set<nat>, p: nat, f: nat)
    requires Seated(s, done) && p < |s.phils| && p !in done && f < |s.forks| && s.forks[f].Held? && Beside(|s.phils|, p, f)
    ensures var q := s.forks[f].holder; q in done && q < |s.phils| && q != p && Beside(|s.phils|, q, f)
  {
    assert WithinReach(s, f) && Mine(s, s.forks[f].holder);
  }

  lemma ForkIsFree(s: State, done: set<nat>, p: nat, f: nat)
    requires Seated(s, done) && p < |s.phils| && p !in done && Apart(|s.phils|, done + {p}) && Beside(|s.phils|, p, f)
    ensures f < |s.forks| && s.forks[f].Free?
  {
    if s.forks[f].Held? {
      HolderEats(s, done, p, f);
      SharersAreNeighbours(|s.phils|, p, s.forks[f].holder, f);
    }
  }

  // Someone with no neighbour at dinner finds both forks free.
  lemma ForksAreFree(s: State, done: set<nat>, p: nat)
    requires Seated(s, done) && p < |s.phils| && p !in done && Apart(|s.phils|, done + {p})
    ensures s.forks[FirstFork(s, p)].Free? && s.forks[SecondFork(s, p)].Free?
  {
    ForkIsFree(s, done, p, FirstFork(s, p));
    ForkIsFree(s, done, p, SecondFork(s, p));
  }

  function SitDown(p: nat): seq<Event> {
    [LockMutex(p), TakeFirst(p), TakeSecond(p), UnlockMutex(p)]
  }

  lemma FourSteps(s: State, s1: State, s2: State, s3: State, es: seq<Event>)
    requires |es| == 4 && Enabled(s, es[0]) && s1 == Apply(s, es[0]) && Enabled(s1, es[1]) && s2 == Apply(s1, es[1])
    requires Enabled(s2, es[2]) && s3 == Apply(s2, es[2]) && Enabled(s3, es[3])
    ensures Legal(s, es) && After(s, es) == Apply(s3, es[3])
  {
    var s4 := Apply(s3, es[3]);
    assert es[1..][1..][1..] == [es[3]] && [es[3]][1..] == [];
    assert Legal(s4, []) && After(s4, []) == s4;
    assert Legal(s3, [es[3]]) && After(s3, [es[3]]) == s4;
    assert Legal(s2, es[1..][1..]) && After(s2, es[1..][1..]) == s4;
  }

  lemma SitsDown(s: State, p: nat)
    requires Shaped(s) && s.mutex == Free && p < |s.phils| && s.phils[p].phase == Wanting && s.phils[p].rounds > 0
    requires s.forks[FirstFork(s, p)].Free? && s.forks[SecondFork(s, p)].Free?
    ensures Legal(s, SitDown(p))
    ensures After(s, SitDown(p)).mutex == Free && After(s, SitDown(p)).phils == s.phils[p := s.phils[p].(phase := Eating)]
  {
    var s1 := Apply(s, LockMutex(p));
    var s2 := Apply(s1, TakeFirst(p));
    var s3 := Apply(s2, TakeSecond(p));
    FourSteps(s, s1, s2, s3, SitDown(p));
  }

  lemma OneSitsDown(s: State, done: set<nat>, p: nat)
    requires Seated(s, done) && p < |s.phils| && p !in done && Apart(|s.phils|, done + {p}) && s.phils[p].rounds > 0
    ensures Legal(s, SitDown(p)) && Seated(After(s, SitDown(p)), done + {p})
    ensures After(s, SitDown(p)).phils == s.phils[p := s.phils[p].(phase := Eating)]
  {
    ForksAreFree(s, done, p);
    SitsDown(s, p);
    InvRun(s, SitDown(p));
  }

  lemma {:induction false} RunsJoin(s: State, a: seq<Event>, b: seq<Event>)
    requires Legal(s, a) && Legal(After(s, a), b)
    ensures Legal(s, a + b) && After(s, a + b) == After(After(s, a), b)
    decreases |a|
  {
    if |a| == 0 {
      assert a + b == b;
    } else {
      assert (a + b)[1..] == a[1..] + b;
      RunsJoin(Apply(s, a[0]), a[1..], b);
    }
  }

  lemma {:induction false} AllSitDown(s: State, done: set<nat>, todo: set<nat>) returns (es: seq<Event>)
    requires Seated(s, done) && done !! todo && Apart(|s.phils|, done + todo)
    requires forall p :: p in todo ==> p < |s.phils| && s.phils[p].rounds > 0
    ensures Legal(s, es) && AllEat(After(s, es), done + todo)
    decreases |todo|
  {
    es := [];
    if todo == {} {
      assert done + todo == done;
    } else {
      var p :| p in todo;
      OneSitsDown(s, done, p);
      assert done + {p} + (todo - {p}) == done + todo;
      var rest := AllSitDown(After(s, SitDown(p)), done + {p}, todo - {p});
      RunsJoin(s, SitDown(p), rest);
      es := SitDown(p) + rest;
    }
  }

  // Which philosophers can eat at the same time: those with something to eat, no two of whom sit
  // side by side.
  lemma CanEatTogetherIff(init: State, eaters: set<nat>)
    requires Init(init)
    requires forall p :: p in eaters ==> p < |init.phils| && init.phils[p].rounds > 0
    ensures (exists es :: Legal(init, es) && AllEat(After(init, es), eaters)) <==> Apart(|init.phils|, eaters)
  {
    if es :| Legal(init, es) && AllEat(After(init, es), eaters) {
      EatersHoldTheirForks(init, es, eaters);
    }
    if Apart(|init.phils|, eaters) {
      InitInv(init);
      assert {} + eaters == eaters;
      var es := AllSitDown(init, {}, eaters);
    }
  }

  // ----- Everyone eats as often as it is meant to -----

  // The dinners p has ended, by putting its second fork down.
  function MealsOf(es: seq<Event>, p: nat): nat {
    if |es| == 0 then 0 else (if es[0] == PutSecond(p) then 1 else 0) + MealsOf(es[1..], p)
  }

  // The dinners x has yet to end.
  function Owed(x: Philosopher): int {
    if x.phase.Clearing? || x.phase.Sated? || x.phase.Broadcasting? || x.phase.Leaving? then x.rounds - 1 else x.rounds
  }

  lemma OwedStep(s: State, e: Event, p: nat)
    requires Enabled(s, e) && p < |s.phils|
    ensures |Apply(s, e).phils| == |s.phils|
    ensures Owed(Apply(s, e).phils[p]) + (if e == PutSecond(p) then 1 else 0) == Owed(s.phils[p])
  {
  }

  lemma {:induction false} OwedRun(s: State, es: seq<Event>, p: nat)
    requires Legal(s, es) && p < |s.phils|
    ensures |After(s, es).phils| == |s.phils| && MealsOf(es, p) + Owed(After(s, es).phils[p]) == Owed(s.phils[p])
    decreases |es|
  {
    if |es| > 0 {
      OwedStep(s, es[0], p);
      OwedRun(Apply(s, es[0]), es[1..], p);
    }
  }

  // Over every run the dinners ended and the dinners owed are those a philosopher came for; when it
  // has finished it has had all of them.
  lemma MealsAreEaten(init: State, es: seq<Event>, p: nat)
    requires Init(init) && Legal(init, es) && p < |init.phils|
    ensures p < |After(init, es).phils| && MealsOf(es, p) + Owed(After(init, es).phils[p]) == init.phils[p].rounds
    ensures After(init, es).phils[p].Finished() ==> MealsOf(es, p) == init.phils[p].rounds
  {
    OwedRun(init, es, p);
  }

  // ----- Termination -----

  // With n philosophers a broadcast can send up to n of them round the retry loop once more.
  function Weight(n: nat, phase: Phase): nat {
    match phase
    case Leaving => 0
    case Broadcasting => 5 * n + 1
    case Sated => 5 * n + 2
    case Clearing => 5 * n + 3
    case Eating => 5 * n + 4
    case Served => 5 * n + 5
    case Asleep => 5 * n + 6
    case MustSleep => 5 * n + 7
    case DropFirst => 5 * n + 8
    case TrySecond => 5 * n + 9
    case TryFirst => 5 * n + 10
    case Woken => 5 * n + 11
    case Wanting => 5 * n + 11
  }

  function Energy(n: nat): Philosopher -> nat {
    (x: Philosopher) => x.rounds * (5 * n + 12) + Weight(n, x.phase)
  }

  function TotalEnergy(s: State): nat {
    Sum(s.phils, Energy(|s.phils|))
  }

  lemma LocalEnergy(s: State, e: Event)
    requires Enabled(s, e) && !e.Broadcast?
    ensures |Apply(s, e).phils| == |s.phils| && Apply(s, e).phils == s.phils[e.p := Apply(s, e).phils[e.p]]
    ensures var n := |s.phils|;
      Energy(n)(Apply(s, e).phils[e.p]) + 1 <= Energy(n)(s.phils[e.p]) + (if e.Spurious? then 6 else 0)
  {
    var x, c := s.phils[e.p], 5 * |s.phils| + 12;
    if x.phase == Leaving && x.rounds > 0 {
      assert x.rounds * c == (x.rounds - 1) * c + c;
    }
  }

  lemma BroadcastEnergy(s: State, p: nat)
    requires Enabled(s, Broadcast(p))
    ensures |Apply(s, Broadcast(p)).phils| == |s.phils|
    ensures TotalEnergy(Apply(s, Broadcast(p))) + 1 <= TotalEnergy(s)
  {
    var mid, n := Move(s, p, Leaving).phils, |s.phils|;
    SumUpdate(s.phils, p, mid[p], Energy(n));
    SumGrowth(mid, WakeAll(mid), 5, Energy(n));
  }

  lemma EnergyStep(s: State, e: Event)
    requires Enabled(s, e)
    ensures |Apply(s, e).phils| == |s.phils|
    ensures TotalEnergy(Apply(s, e)) + 1 <= TotalEnergy(s) + (if e.Spurious? then 6 else 0)
  {
    if e.Broadcast? {
      BroadcastEnergy(s, e.p);
    } else {
      LocalEnergy(s, e);
      SumUpdate(s.phils, e.p, Apply(s, e).phils[e.p], Energy(|s.phils|));
    }
  }

  // A run takes at most the initial energy in steps, and six more for each
  // spurious wakeup: spurious-free runs of K rounds are finite.
  lemma {:induction false} RunsAreBounded(s: State, es: seq<Event>)
    requires Legal(s, es)
    ensures |es| + TotalEnergy(After(s, es)) <= TotalEnergy(s) + 6 * SpuriousIn(es)
    decreases |es|
  {
    if |es| > 0 {
      EnergyStep(s, es[0]);
      RunsAreBounded(Apply(s, es[0]), es[1..]);
    }
  }
}
