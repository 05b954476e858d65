// task10.c: every philosopher locks its lower-numbered fork first.
module OrderedPhilosophers {
  import opened Locks
  import opened Sums
  import opened Table

  // Wanting: at the first lock, or finished. Halfway: at the second lock.
  datatype Phase = Wanting | Halfway | Eating | Clearing

  datatype Philosopher = Philosopher(rounds: nat, phase: Phase)
  {
    predicate HoldsFirst() {
      phase.Halfway? || phase.Eating? || phase.Clearing?
    }
    predicate Finished() {
      phase == Wanting && rounds == 0
    }
  }

  datatype State = State(forks: Forks, phils: seq<Philosopher>)

  datatype Event = TakeFirst(p: nat) | TakeSecond(p: nat) | PutSecond(p: nat) | PutFirst(p: nat)

  predicate Shaped(s: State) {
    2 <= |s.phils| == |s.forks|
  }

  function FirstFork(s: State, p: nat): nat
    requires Shaped(s) && p < |s.phils|
  {
    First(|s.phils|, p)
  }

  function SecondFork(s: State, p: nat): nat
    requires Shaped(s) && p < |s.phils|
  {
    Second(|s.phils|, p)
  }

  predicate Enabled(s: State, e: Event) {
    && Shaped(s) && e.p < |s.phils|
    && match e
       case TakeFirst(p) => s.phils[p].phase == Wanting && s.phils[p].rounds > 0 && s.forks[FirstFork(s, p)].Free?
       case TakeSecond(p) => s.phils[p].phase == Halfway && s.forks[SecondFork(s, p)].Free?
       case PutSecond(p) => s.phils[p].phase == Eating
       case PutFirst(p) => s.phils[p].phase == Clearing && s.phils[p].rounds > 0
  }

  function Apply(s: State, e: Event): State
    requires Enabled(s, e)
  {
    var p, rounds, f, g := e.p, s.phils[e.p].rounds, FirstFork(s, e.p), SecondFork(s, e.p);
    match e
    case TakeFirst(_) => State(s.forks[f := Held(p)], s.phils[p := Philosopher(rounds, Halfway)])
    case TakeSecond(_) => State(s.forks[g := Held(p)], s.phils[p := Philosopher(rounds, Eating)])
    case PutSecond(_) => State(s.forks[g := Free], s.phils[p := Philosopher(rounds, Clearing)])
    case PutFirst(_) => State(s.forks[f := Free], s.phils[p := Philosopher(rounds - 1, Wanting)])
  }

  predicate Init(s: State) {
    && Shaped(s)
    && (forall f :: 0 <= f < |s.forks| ==> s.forks[f] == Free)
    && (forall p :: 0 <= p < |s.phils| ==> s.phils[p].phase == Wanting)
  }

  predicate Legal(s: State, es: seq<Event>)
    decreases |es|
  {
    |es| > 0 ==> Enabled(s, es[0]) && Legal(Apply(s, es[0]), es[1..])
  }

  function After(s: State, es: seq<Event>): State
    requires Legal(s, es)
    decreases |es|
  {
    if |es| == 0 then s else After(Apply(s, es[0]), es[1..])
  }

  // ----- Ownership -----

  ghost predicate Mine(s: State, p: nat)
    requires Shaped(s) && p < |s.phils|
  {
    && (s.phils[p].HoldsFirst() <==> s.forks[FirstFork(s, p)] == Held(p))
    && (s.phils[p].phase == Eating <==> s.forks[SecondFork(s, p)] == Held(p))
    && (s.phils[p].HoldsFirst() ==> s.phils[p].rounds > 0)
  }

  ghost predicate WithinReach(s: State, f: nat)
    requires Shaped(s) && f < |s.forks|
  {
    s.forks[f].Held? ==>
      s.forks[f].holder < |s.phils| && (f == FirstFork(s, s.forks[f].holder) || f == SecondFork(s, s.forks[f].holder))
  }

  ghost predicate Inv(s: State) {
    && Shaped(s)
    && (forall p :: 0 <= p < |s.phils| ==> Mine(s, p))
    && (forall f :: 0 <= f < |s.forks| ==> WithinReach(s, f))
  }

  lemma InvStep(s: State, e: Event)
    requires Inv(s) && Enabled(s, e)
    ensures Inv(Apply(s, e))
  {
    var s' := Apply(s, e);
    assert Mine(s, e.p);
    forall q | 0 <= q < |s'.phils| ensures Mine(s', q) { assert Mine(s, q); }
    forall f | 0 <= f < |s'.forks| ensures WithinReach(s', f) { assert WithinReach(s, f); }
  }

  lemma {:induction false} InvRun(s: State, es: seq<Event>)
    requires Inv(s) && Legal(s, es)
    ensures Inv(After(s, es))
    decreases |es|
  {
    if |es| > 0 {
      InvStep(s, es[0]);
      InvRun(Apply(s, es[0]), es[1..]);
    }
  }

  lemma Reachable(init: State, es: seq<Event>)
    requires Init(init) && Legal(init, es)
    ensures Inv(After(init, es))
  {
    forall q | 0 <= q < |init.phils| ensures Mine(init, q) {}
    forall f | 0 <= f < |init.forks| ensures WithinReach(init, f) {}
    InvRun(init, es);
  }

  // ----- Results -----

  // The fork p waits for, if it waits.
  function Wanted(s: State, p: nat): nat
    requires Shaped(s) && p < |s.phils|
  {
    if s.phils[p].phase == Halfway then SecondFork(s, p) else FirstFork(s, p)
  }

  // The chain of who waits for whom climbs the fork numbers, so it ends at one who can step.
  lemma {:induction false} FollowWaits(s: State, p: nat) returns (e: Event)
    requires Inv(s) && p < |s.phils| && !s.phils[p].Finished()
    ensures Enabled(s, e) && !s.phils[e.p].Finished()
    decreases |s.phils| - Wanted(s, p)
  {
    assert Mine(s, p);
    match s.phils[p].phase
    case Eating => e := PutSecond(p);
    case Clearing => e := PutFirst(p);
    case _ =>
      var f := Wanted(s, p);
      if s.forks[f].Free? {
        e := if s.phils[p].phase == Halfway then TakeSecond(p) else TakeFirst(p);
      } else {
        assert WithinReach(s, f);
        var q := s.forks[f].holder;
        assert Mine(s, q);
        if s.phils[q].phase == Halfway {
          e := FollowWaits(s, q);
        } else {
          e := if s.phils[q].phase == Eating then PutSecond(q) else PutFirst(q);
        }
      }
  }

  // In every reachable state with someone unfinished, someone can step.
  lemma NoDeadlock(init: State, es: seq<Event>, p: nat) returns (e: Event)
    requires Init(init) && Legal(init, es)
    requires p < |After(init, es).phils| && !After(init, es).phils[p].Finished()
    ensures Enabled(After(init, es), e) && !After(init, es).phils[e.p].Finished()
  {
    Reachable(init, es);
    e := FollowWaits(After(init, es), p);
  }

  predicate AllEat(s: State, eaters: set<nat>) {
    forall p :: p in eaters ==> p < |s.phils| && s.phils[p].phase == Eating
  }

  // Two who eat share no fork and do not sit side by side, and at most half the table eats.
  lemma EatersAreApart(init: State, es: seq<Event>, eaters: set<nat>)
    requires Init(init) && Legal(init, es) && AllEat(After(init, es), eaters)
    ensures forall p, q :: p in eaters && q in eaters && p != q ==>
      var n := |After(init, es).phils|;
      2 <= n && {First(n, p), Second(n, p)} !! {First(n, q), Second(n, q)}
    ensures |After(init, es).phils| == |init.phils| && Apart(|init.phils|, eaters)
    ensures 2 * |eaters| <= |init.phils|
  {
    Reachable(init, es);
    AsMany(init, es);
    var s := After(init, es);
    forall p | p in eaters ensures HasBoth(s.forks, p) { assert Mine(s, p); }
    AtMostHalf(s.forks, eaters);
    Table.EatersAreApart(s.forks, eaters);
  }

  lemma {:induction false} AsMany(s: State, es: seq<Event>)
    requires Legal(s, es)
    ensures |After(s, es).phils| == |s.phils|
    decreases |es|
  {
    if |es| > 0 {
      AsMany(Apply(s, es[0]), es[1..]);
    }
  }

  // Those in done eat, and nobody else has begun.
  ghost predicate Seated(s: State, done: set<nat>) {
    && Inv(s) && AllEat(s, done)
    && forall p :: 0 <= p < |s.phils| && p !in done ==> s.phils[p].phase == Wanting
  }

  lemma HolderEats(s: State, done: set<nat>, p: nat, f: nat)
    requires Seated(s, done) && p < |s.phils| && p !in done && f < |s.forks| && s.forks[f].Held? && Beside(|s.phils|, p, f)
    ensures var q := s.forks[f].holder; q in done && q < |s.phils| && q != p && Beside(|s.phils|, q, f)
  {
    assert WithinReach(s, f) && Mine(s, s.forks[f].holder);
  }

  lemma ForkIsFree(s: State, done: set<nat>, p: nat, f: nat)
    requires Seated(s, done) && p < |s.phils| && p !in done && Apart(|s.phils|, done + {p}) && Beside(|s.phils|, p, f)
    ensures f < |s.forks| && s.forks[f].Free?
  {
    if s.forks[f].Held? {
      HolderEats(s, done, p, f);
      SharersAreNeighbours(|s.phils|, p, s.forks[f].holder, f);
    }
  }

  // Someone with no neighbour at dinner finds both forks free.
  lemma ForksAreFree(s: State, done: set<nat>, p: nat)
    requires Seated(s, done) && p < |s.phils| && p !in done && Apart(|s.phils|, done + {p})
    ensures s.forks[FirstFork(s, p)].Free? && s.forks[SecondFork(s, p)].Free?
  {
    ForkIsFree(s, done, p, FirstFork(s, p));
    ForkIsFree(s, done, p, SecondFork(s, p));
  }

  lemma OneSitsDown(s: State, done: set<nat>, p: nat) returns (s1: State, s2: State)
    requires Seated(s, done) && p < |s.phils| && p !in done && Apart(|s.phils|, done + {p}) && s.phils[p].rounds > 0
    ensures Enabled(s, TakeFirst(p)) && s1 == Apply(s, TakeFirst(p))
    ensures Enabled(s1, TakeSecond(p)) && s2 == Apply(s1, TakeSecond(p))
    ensures Seated(s2, done + {p}) && |s2.phils| == |s.phils|
    ensures forall q :: 0 <= q < |s.phils| ==> s2.phils[q].rounds == s.phils[q].rounds
  {
    ForksAreFree(s, done, p);
    InvStep(s, TakeFirst(p));
    s1 := Apply(s, TakeFirst(p));
    InvStep(s1, TakeSecond(p));
    s2 := Apply(s1, TakeSecond(p));
  }

  lemma {:induction false} AllSitDown(s: State, done: set<nat>, todo: set<nat>) returns (es: seq<Event>)
    requires Seated(s, done) && done !! todo && Apart(|s.phils|, done + todo)
    requires forall p :: p in todo ==> p < |s.phils| && s.phils[p].rounds > 0
    ensures Legal(s, es) && AllEat(After(s, es), done + todo)
    decreases |todo|
  {
    es := [];
    if todo == {} {
      assert done + todo == done;
    } else {
      var p :| p in todo;
      var s1, s2 := OneSitsDown(s, done, p);
      assert done + {p} + (todo - {p}) == done + todo;
      var rest := AllSitDown(s2, done + {p}, todo - {p});
      es := [TakeFirst(p)] + ([TakeSecond(p)] + rest);
      assert es[1..] == [TakeSecond(p)] + rest && es[1..][1..] == rest;
    }
  }

  // Which philosophers can eat at the same time: those with something to eat, no two of whom sit
  // side by side.
  lemma CanEatTogetherIff(init: State, eaters: set<nat>)
    requires Init(init)
    requires forall p :: p in eaters ==> p < |init.phils| && init.phils[p].rounds > 0
    ensures (exists es :: Legal(init, es) && AllEat(After(init, es), eaters)) <==> Apart(|init.phils|, eaters)
  {
    if es :| Legal(init, es) && AllEat(After(init, es), eaters) {
      EatersAreApart(init, es, eaters);
    }
    if Apart(|init.phils|, eaters) {
      Reachable(init, []);
      assert {} + eaters == eaters;
      var es := AllSitDown(init, {}, eaters);
    }
  }

  // ----- Termination -----

  // A round takes four steps; past the first lock a philosopher has three or fewer to go.
  function StepsLeft(x: Philosopher): nat {
    match x.phase
    case Wanting => 4 * x.rounds
    case Halfway => if x.rounds == 0 then 0 else 4 * x.rounds - 1
    case Eating => if x.rounds == 0 then 0 else 4 * x.rounds - 2
    case Clearing => if x.rounds == 0 then 0 else 4 * x.rounds - 3
  }

  lemma StepsLeftStep(s: State, e: Event)
    requires Inv(s) && Enabled(s, e)
    ensures Sum(Apply(s, e).phils, StepsLeft) + 1 == Sum(s.phils, StepsLeft)
  {
    assert Mine(s, e.p);
    SumUpdate(s.phils, e.p, Apply(s, e).phils[e.p], StepsLeft);
  }

  lemma {:induction false} StepsLeftRun(s: State, es: seq<Event>)
    requires Inv(s) && Legal(s, es)
    ensures |es| + Sum(After(s, es).phils, StepsLeft) == Sum(s.phils, StepsLeft)
    decreases |es|
  {
    if |es| > 0 {
      InvStep(s, es[0]);
      StepsLeftStep(s, es[0]);
      StepsLeftRun(Apply(s, es[0]), es[1..]);
    }
  }

  function Rounds(x: Philosopher): nat { x.rounds }

  lemma {:induction false} FourPerRound(phils: seq<Philosopher>)
    requires forall p :: 0 <= p < |phils| ==> phils[p].phase == Wanting
    ensures Sum(phils, StepsLeft) == 4 * Sum(phils, Rounds)
  {
    if |phils| > 0 {
      FourPerRound(phils[..|phils| - 1]);
    }
  }

  // Under every schedule all dinners are eaten: a run that cannot be extended
  // has made exactly four steps per round and leaves everyone finished.
  lemma EveryRunServesAll(init: State, es: seq<Event>)
    requires Init(init) && Legal(init, es)
    ensures |es| <= 4 * Sum(init.phils, Rounds)
    ensures (forall e :: !Enabled(After(init, es), e)) <==> |es| == 4 * Sum(init.phils, Rounds)
    ensures (forall e :: !Enabled(After(init, es), e)) ==> forall p :: 0 <= p < |After(init, es).phils| ==> After(init, es).phils[p].Finished()
  {
    Reachable(init, []);
    Reachable(init, es);
    StepsLeftRun(init, es);
    FourPerRound(init.phils);
    var s := After(init, es);
    if p :| 0 <= p < |s.phils| && !s.phils[p].Finished() {
      var e := FollowWaits(s, p);
      InvStep(s, e);
      StepsLeftStep(s, e);
    } else {
      SumZero(s.phils, StepsLeft);
      forall e ensures !Enabled(s, e) {
        if Enabled(s, e) {
          StepsLeftStep(s, e);
        }
      }
    }
  }
}
