// task12_.c: ping-pong over one monitor. `value` says whose turn it is (-1: nobody's, 0: main's,
// 1 and 2: the workers'); a thread that wakes to another's value forwards the signal.
module OneMonitor {
  import opened Locks
  import Sem = SemaphorePingPong

  // Unborn: before pthread_create. Test: back in monitor_wait with the mutex. Forward: saw
  // another's value and is about to pass the signal on. SetOther: has printed.
  datatype Phase =
    | Unborn | Start | Announce | EnterWait | Asleep | Woken | Test | Forward | Print | SetOther | Leave | Done

  datatype Worker = Worker(rounds: nat, phase: Phase)
  {
    predicate HoldsMutex() {
      !phase.Unborn? && !phase.Start? && !phase.Asleep? && !phase.Woken? && !phase.Done?
    }
    // Took the value for itself and has not passed the turn on.
    predicate Busy() {
      phase.Print? || phase.SetOther?
    }
    // Inside monitor_wait, or through with all rounds.
    predicate Waiting() {
      if rounds > 0 then phase.EnterWait? || phase.Asleep? || phase.Woken? || phase.Test? || phase.Forward?
      else phase.Leave? || phase.Done?
    }
  }

  // Main waits twice for a 0: after creating the first worker, and after creating the second.
  datatype MainPhase = MEnter | MAsleep | MWoken | MTest | MForward | MCreate | MSignal | MUnlock | MJoin

  datatype State = State(
    main: MainPhase, second: bool, w0: Worker, w1: Worker, owner: Lock, value: int, out: string)

  const MAIN: nat := 2

  function W(s: State, i: bool): Worker {
    if i then s.w1 else s.w0
  }
  function Id(i: bool): nat {
    if i then 1 else 0
  }
  // my_val of worker i; the other's is MyValue(!i).
  function MyValue(i: bool): int {
    if i then 2 else 1
  }
  function SetW(s: State, i: bool, w: Worker): State {
    if i then s.(w1 := w) else s.(w0 := w)
  }
  function To(s: State, i: bool, phase: Phase): State {
    SetW(s, i, W(s, i).(phase := phase))
  }

  // ----- The condition variable -----

  datatype Target = Nobody | Main | First | Second

  // A signal wakes some waiter if there is one.
  predicate SignalOk(s: State, target: Target) {
    match target
    case Main => s.main.MAsleep?
    case First => s.w0.phase.Asleep?
    case Second => s.w1.phase.Asleep?
    case Nobody => !s.main.MAsleep? && !s.w0.phase.Asleep? && !s.w1.phase.Asleep?
  }

  function Signalled(s: State, target: Target): State {
    match target
    case Main => s.(main := MWoken)
    case First => To(s, false, Woken)
    case Second => To(s, true, Woken)
    case Nobody => s
  }

  // ----- Steps -----

  datatype Event = Work(i: bool, target: Target) | MainStep(target: Target) | Spurious(i: bool) | SpuriousMain

  predicate Enabled(s: State, e: Event) {
    match e
    case Spurious(i) => W(s, i).phase.Asleep?
    case SpuriousMain => s.main.MAsleep?
    case Work(i, target) =>
      (match W(s, i).phase
       case Unborn => false
       case Asleep => false
       case Done => false
       case Start => s.owner == Free && target == Nobody
       case Woken => s.owner == Free && target == Nobody
       case Announce => SignalOk(s, target)
       case Forward => SignalOk(s, target)
       case SetOther => W(s, i).rounds > 0 && SignalOk(s, target)
       case _ => target == Nobody)
    case MainStep(target) =>
      (match s.main
       case MAsleep => false
       case MJoin => false
       case MWoken => s.owner == Free && target == Nobody
       case MForward => SignalOk(s, target)
       case MSignal => SignalOk(s, target)
       case _ => target == Nobody)
  }

  function Onward(rounds: nat): Phase {
    if rounds > 0 then EnterWait else Leave
  }

  function ApplyWork(s: State, i: bool, target: Target): State
    requires Enabled(s, Work(i, target))
  {
    match W(s, i).phase
    case Start => To(s, i, Announce).(owner := Held(Id(i)))
    case Announce => Signalled(To(s, i, Onward(W(s, i).rounds)).(value := 0), target)
    case EnterWait => To(s, i, Asleep).(owner := Free)
    case Woken => To(s, i, Test).(owner := Held(Id(i)))
    case Test => if s.value == MyValue(i) then To(s, i, Print).(value := -1) else To(s, i, Forward)
    case Forward => Signalled(To(s, i, EnterWait), target)
    case Print => To(s, i, SetOther).(out := s.out + if i then "-" else "+")
    case SetOther =>
      var rounds := W(s, i).rounds - 1;
      Signalled(SetW(s, i, Worker(rounds, Onward(rounds))).(value := MyValue(!i)), target)
    case Leave => To(s, i, Done).(owner := Free)
  }

  function ApplyMain(s: State, target: Target): State
    requires Enabled(s, MainStep(target))
  {
    match s.main
    case MEnter => s.(main := MAsleep, owner := Free)
    case MWoken => s.(main := MTest, owner := Held(MAIN))
    case MTest => if s.value == 0 then s.(main := if s.second then MSignal else MCreate, value := -1) else s.(main := MForward)
    case MForward => Signalled(s.(main := MEnter), target)
    case MCreate => s.(main := MEnter, second := true, w1 := s.w1.(phase := Start))
    case MSignal => Signalled(s.(main := MUnlock, value := 1), target)
    case MUnlock => s.(main := MJoin, owner := Free)
  }

  function Apply(s: State, e: Event): State
    requires Enabled(s, e)
  {
    match e
    case Work(i, target) => ApplyWork(s, i, target)
    case MainStep(target) => ApplyMain(s, target)
    case Spurious(i) => To(s, i, Woken)
    case SpuriousMain => s.(main := MWoken)
  }

  function Initial(n: nat): State {
    State(MEnter, false, Worker(n, Start), Worker(n, Unborn), Held(MAIN), -1, "")
  }

  predicate Legal(s: State, es: seq<Event>)
    decreases |es|
  {
    |es| > 0 ==> Enabled(s, es[0]) && Legal(Apply(s, es[0]), es[1..])
  }

  function After(s: State, es: seq<Event>): State
    requires Legal(s, es)
    decreases |es|
  {
    if |es| == 0 then s else After(Apply(s, es[0]), es[1..])
  }

  // ----- Invariants -----

  predicate MainHolds(m: MainPhase) {
    !m.MAsleep? && !m.MWoken? && !m.MJoin?
  }

  ghost predicate Mutex(s: State) {
    && (s.owner == Held(0) <==> s.w0.HoldsMutex()) && (s.owner == Held(1) <==> s.w1.HoldsMutex())
    && (s.owner == Held(MAIN) <==> MainHolds(s.main))
    && (s.owner.Held? ==> s.owner.holder <= MAIN)
  }

  predicate StartedUp(s: State) {
    s.main.MUnlock? || s.main.MJoin?
  }

  // Main is in one of its monitor_waits.
  predicate MainWaits(m: MainPhase) {
    m.MEnter? || m.MAsleep? || m.MWoken? || m.MTest? || m.MForward?
  }

  // Not yet announced, or announced and waiting with main's 0 pending.
  predicate Announcing(w: Worker, value: int) {
    if value == 0 then w.Waiting() else value == -1 && (w.phase.Start? || w.phase.Announce?)
  }

  predicate Stage(s: State) {
    if StartedUp(s) then Playing(s)
    else if MainWaits(s.main) then
      (s.main.MEnter? || s.main.MForward? ==> s.value == -1)
      && if s.second then s.w0.Waiting() && Announcing(s.w1, s.value) else Announcing(s.w0, s.value) && s.w1.phase.Unborn?
    else s.value == -1 && s.w0.Waiting() && if s.second then s.main.MSignal? && s.w1.Waiting() else s.main.MCreate? && s.w1.phase.Unborn?
  }

  function Tokens(s: State): nat {
    (if s.value == 1 then 1 else 0) + (if s.value == 2 then 1 else 0)
    + (if s.w0.Busy() then 1 else 0) + (if s.w1.Busy() then 1 else 0)
  }

  // After the start-up: one turn, held by a worker or pending in `value`.
  predicate Playing(s: State) {
    && Tokens(s) == 1 && -1 <= s.value <= 2 && s.value != 0
    && (s.w0.Waiting() || (s.w0.Busy() && s.w0.rounds > 0))
    && (s.w1.Waiting() || (s.w1.Busy() && s.w1.rounds > 0))
  }

  // A value is set whose target still waits for it.
  predicate Pending(s: State) {
    s.value == 0 || (s.value == 1 && s.w0.rounds > 0) || (s.value == 2 && s.w1.rounds > 0)
  }

  // Someone is awake who will take the value or pass the signal on.
  predicate SomeoneAwake(s: State) {
    || s.main.MWoken? || s.w0.phase.Woken? || s.w1.phase.Woken?
    || s.main.MTest? || s.w0.phase.Test? || s.w1.phase.Test?
    || s.main.MForward? || s.w0.phase.Forward? || s.w1.phase.Forward?
  }

  // A thread whose own value is set does not turn away from it.
  predicate NotIgnored(s: State) {
    && (s.value == 1 ==> !s.w0.phase.EnterWait? && !s.w0.phase.Forward?)
    && (s.value == 2 ==> !s.w1.phase.EnterWait? && !s.w1.phase.Forward?)
  }

  ghost predicate Inv(s: State) {
    Mutex(s) && Stage(s) && NotIgnored(s) && (Pending(s) ==> SomeoneAwake(s))
  }

  lemma MutexWork(s: State, i: bool, target: Target)
    requires Mutex(s) && Enabled(s, Work(i, target))
    ensures Mutex(ApplyWork(s, i, target))
  {
  }

  lemma MutexMain(s: State, target: Target)
    requires Mutex(s) && Enabled(s, MainStep(target)) && (s.w1.phase.Unborn? || !s.main.MCreate?)
    ensures Mutex(ApplyMain(s, target))
  {
  }

  lemma StartupWork(s: State, i: bool, target: Target)
    requires Stage(s) && !StartedUp(s) && NotIgnored(s) && Enabled(s, Work(i, target))
    requires W(s, i).HoldsMutex() ==> !W(s, !i).HoldsMutex() && !MainHolds(s.main)
    ensures Stage(ApplyWork(s, i, target)) && NotIgnored(ApplyWork(s, i, target))
  {
  }

  lemma PlayingWork(s: State, i: bool, target: Target)
    requires Playing(s) && StartedUp(s) && NotIgnored(s) && Enabled(s, Work(i, target))
    requires W(s, i).HoldsMutex() ==> !W(s, !i).HoldsMutex()
    ensures Playing(ApplyWork(s, i, target)) && StartedUp(ApplyWork(s, i, target)) && NotIgnored(ApplyWork(s, i, target))
  {
    if i {
      PlayingWork1(s, target);
    } else {
      PlayingWork0(s, target);
    }
  }

  lemma PlayingWork1(s: State, target: Target)
    requires Playing(s) && StartedUp(s) && NotIgnored(s) && Enabled(s, Work(true, target))
    requires s.w1.HoldsMutex() ==> !s.w0.HoldsMutex()
    ensures Playing(ApplyWork(s, true, target)) && StartedUp(ApplyWork(s, true, target)) && NotIgnored(ApplyWork(s, true, target))
  {
  }

  lemma PlayingWork0(s: State, target: Target)
    requires Playing(s) && StartedUp(s) && NotIgnored(s) && Enabled(s, Work(false, target))
    requires s.w0.HoldsMutex() ==> !s.w1.HoldsMutex()
    ensures Playing(ApplyWork(s, false, target)) && StartedUp(ApplyWork(s, false, target)) && NotIgnored(ApplyWork(s, false, target))
  {
  }

  lemma StageWork(s: State, i: bool, target: Target)
    requires Mutex(s) && Stage(s) && NotIgnored(s) && Enabled(s, Work(i, target))
    ensures Stage(ApplyWork(s, i, target)) && NotIgnored(ApplyWork(s, i, target))
  {
    if StartedUp(s) {
      PlayingWork(s, i, target);
    } else {
      StartupWork(s, i, target);
    }
  }

  lemma StageMain(s: State, target: Target)
    requires Mutex(s) && Stage(s) && NotIgnored(s) && Enabled(s, MainStep(target))
    ensures Stage(ApplyMain(s, target)) && NotIgnored(ApplyMain(s, target))
  {
  }

  // Forwarding: whichever sleeper the signal wakes, someone is awake afterwards.
  lemma AwakeWork(s: State, i: bool, target: Target)
    requires Inv(s) && Enabled(s, Work(i, target)) && Pending(ApplyWork(s, i, target))
    ensures SomeoneAwake(ApplyWork(s, i, target))
  {
  }

  lemma AwakeMain(s: State, target: Target)
    requires Inv(s) && Enabled(s, MainStep(target)) && Pending(ApplyMain(s, target))
    ensures SomeoneAwake(ApplyMain(s, target))
  {
  }

  lemma InvSpurious(s: State, e: Event)
    requires Inv(s) && Enabled(s, e) && Unprompted(e)
    ensures Inv(Apply(s, e))
  {
  }

  predicate Unprompted(e: Event) {
    e.Spurious? || e.SpuriousMain?
  }

  lemma InvStep(s: State, e: Event)
    requires Inv(s) && Enabled(s, e)
    ensures Inv(Apply(s, e))
  {
    match e
    case Work(i, target) =>
      MutexWork(s, i, target);
      StageWork(s, i, target);
      if Pending(ApplyWork(s, i, target)) {
        AwakeWork(s, i, target);
      }
    case MainStep(target) =>
      MutexMain(s, target);
      StageMain(s, target);
      if Pending(ApplyMain(s, target)) {
        AwakeMain(s, target);
      }
    case _ =>
      InvSpurious(s, e);
  }

  lemma {:induction false} InvRun(s: State, es: seq<Event>)
    requires Inv(s) && Legal(s, es)
    ensures Inv(After(s, es))
    decreases |es|
  {
    if |es| > 0 {
      InvStep(s, es[0]);
      InvRun(Apply(s, es[0]), es[1..]);
    }
  }

  // In every reachable state with the mutex free, a value pending for a live
  // target leaves some thread woken: the signal is never lost, whoever it reached.
  lemma SignalsAreNotLost(n: nat, es: seq<Event>)
    requires Legal(Initial(n), es)
    ensures var s := After(Initial(n), es);
      s.owner == Free && Pending(s) ==> s.main.MWoken? || s.w0.phase.Woken? || s.w1.phase.Woken?
  {
    InvRun(Initial(n), es);
  }

  // A set value changes only by its target taking it.
  lemma ValuesAreNotOverwritten(n: nat, es: seq<Event>, e: Event)
    requires Legal(Initial(n), es) && Enabled(After(Initial(n), es), e)
    ensures var s := After(Initial(n), es); var s' := Apply(s, e);
      s.value != -1 && s'.value != s.value ==>
        s'.value == -1 && (if s.value == 0 then e.MainStep? else e.Work? && MyValue(e.i) == s.value)
  {
    InvRun(Initial(n), es);
    var s := After(Initial(n), es);
    if s.value != -1 && Apply(s, e).value != s.value {
      OverwriteStep(s, e);
    }
  }

  lemma OverwriteStep(s: State, e: Event)
    requires Stage(s) && Enabled(s, e) && s.value != -1 && Apply(s, e).value != s.value
    ensures Apply(s, e).value == -1 && (if s.value == 0 then e.MainStep? else e.Work? && MyValue(e.i) == s.value)
  {
  }

  // ----- Refinement of the semaphore machine -----

  function AbsPhase(w: Worker): Sem.Phase {
    if w.phase.Print? then Sem.Printing else if w.phase.SetOther? then Sem.Posting else Sem.AtWait
  }

  function Abs(s: State): Sem.State {
    Sem.State(
      if StartedUp(s) then (if s.value == 1 then 1 else 0) else 1,
      if s.value == 2 then 1 else 0,
      Sem.Player(s.w0.rounds, AbsPhase(s.w0)), Sem.Player(s.w1.rounds, AbsPhase(s.w1)), s.out)
  }

  // The semaphore operation a worker's step performs: 0 none, otherwise wait, print or post.
  predicate IsAbstract(s: State, e: Event) {
    e.Work? && (W(s, e.i).Busy() || (W(s, e.i).phase.Test? && s.value == MyValue(e.i)))
  }

  function AbsEvent(s: State, i: bool): Sem.Event {
    match W(s, i).phase
    case Print => if i then Sem.PrintPong else Sem.PrintPing
    case SetOther => if i then Sem.PostPong else Sem.PostPing
    case _ => if i then Sem.WaitPong else Sem.WaitPing
  }

  lemma RefinesWork(s: State, i: bool, target: Target)
    requires Stage(s) && Enabled(s, Work(i, target)) && IsAbstract(s, Work(i, target))
    ensures Sem.Enabled(Abs(s), AbsEvent(s, i)) && Sem.Apply(Abs(s), AbsEvent(s, i)) == Abs(ApplyWork(s, i, target))
  {
  }

  lemma Stutters(s: State, e: Event)
    requires Stage(s) && Enabled(s, e) && !IsAbstract(s, e)
    ensures Abs(Apply(s, e)) == Abs(s)
  {
  }

  function AbsRun(s: State, es: seq<Event>): seq<Sem.Event>
    requires Legal(s, es)
    decreases |es|
  {
    if |es| == 0 then []
    else (if IsAbstract(s, es[0]) then [AbsEvent(s, es[0].i)] else []) + AbsRun(Apply(s, es[0]), es[1..])
  }

  // Every run, start-up and spurious wakeups included, is a run of the
  // semaphore machine.
  lemma {:induction false} RunRefines(s: State, es: seq<Event>)
    requires Inv(s) && Legal(s, es)
    ensures Sem.Legal(Abs(s), AbsRun(s, es)) && Sem.After(Abs(s), AbsRun(s, es)) == Abs(After(s, es))
    decreases |es|
  {
    if |es| > 0 {
      var s', rest := Apply(s, es[0]), es[1..];
      InvStep(s, es[0]);
      RunRefines(s', rest);
      if IsAbstract(s, es[0]) {
        RefinesWork(s, es[0].i, es[0].target);
        assert AbsRun(s, es)[1..] == AbsRun(s', rest);
      } else {
        Stutters(s, es[0]);
        assert AbsRun(s, es) == AbsRun(s', rest);
      }
    }
  }

  // The output is always a prefix of (+ -)^n.
  lemma OutputAlternates(n: nat, es: seq<Event>)
    requires Legal(Initial(n), es)
    ensures var out := After(Initial(n), es).out; |out| <= 2 * n && out == Sem.Alternating(|out|)
  {
    RunRefines(Initial(n), es);
    Sem.OutputAlternates(n, AbsRun(Initial(n), es));
  }

  // ----- Progress -----

  predicate Finished(s: State) {
    s.main.MJoin? && s.w0.phase.Done? && s.w1.phase.Done?
  }

  // Whom a signal would wake, if anyone.
  function Sleeper(s: State): Target {
    if s.w0.phase.Asleep? then First else if s.w1.phase.Asleep? then Second else if s.main.MAsleep? then Main else Nobody
  }

  function WorkerMove(s: State, i: bool): Event {
    var p := W(s, i).phase;
    Work(i, if p.Announce? || p.Forward? || p.SetOther? then Sleeper(s) else Nobody)
  }

  function MainMove(s: State): Event {
    MainStep(if s.main.MForward? || s.main.MSignal? then Sleeper(s) else Nobody)
  }

  // The holder of the mutex never waits for anything else.
  lemma HolderSteps(s: State)
    requires Mutex(s) && Stage(s) && s.owner.Held?
    ensures Enabled(s, WorkerMove(s, false)) || Enabled(s, WorkerMove(s, true)) || Enabled(s, MainMove(s))
  {
  }

  lemma SomeoneSteps(n: nat, s: State)
    requires Inv(s) && Sem.Inv(n, Abs(s)) && !Finished(s) && s.owner == Free
    ensures Enabled(s, WorkerMove(s, false)) || Enabled(s, WorkerMove(s, true)) || Enabled(s, MainMove(s))
  {
  }

  lemma Reached(n: nat, es: seq<Event>)
    requires Legal(Initial(n), es)
    ensures Inv(After(Initial(n), es)) && Sem.Inv(n, Abs(After(Initial(n), es)))
  {
    InvRun(Initial(n), es);
    RunRefines(Initial(n), es);
    Sem.InvRun(n, Abs(Initial(n)), AbsRun(Initial(n), es));
  }

  lemma StepExists(n: nat, s: State)
    requires Inv(s) && Sem.Inv(n, Abs(s)) && !Finished(s)
    ensures exists e :: Enabled(s, e) && !Unprompted(e)
  {
    if s.owner.Held? {
      HolderSteps(s);
    } else {
      SomeoneSteps(n, s);
    }
  }

  // In every reachable state either all threads are finished, and (+ -)^n has
  // been printed, or some thread can step without a spurious wakeup.
  lemma NoDeadlock(n: nat, es: seq<Event>)
    requires Legal(Initial(n), es)
    ensures Finished(After(Initial(n), es)) ==> After(Initial(n), es).out == Sem.Alternating(2 * n)
    ensures !Finished(After(Initial(n), es)) ==> exists e :: Enabled(After(Initial(n), es), e) && !Unprompted(e)
  {
    Reached(n, es);
    if Finished(After(Initial(n), es)) {
      FinishedPrintsAll(n, After(Initial(n), es));
    } else {
      StepExists(n, After(Initial(n), es));
    }
  }

  lemma FinishedPrintsAll(n: nat, s: State)
    requires Finished(s) && Inv(s) && Sem.Inv(n, Abs(s))
    ensures s.out == Sem.Alternating(2 * n)
  {
  }

  // ----- What forwarding does not give -----

  // The second worker's announcement reaches the first worker, who passes it to the second,
  // who passes it back, and so on.
  function PassItOn(): seq<Event> {
    Pass(false) + Pass(true)
  }

  // Worker i takes the mutex, sees another's value, signals the other worker and waits again.
  function Pass(i: bool): seq<Event> {
    [Work(i, Nobody), Work(i, Nobody), Work(i, if i then First else Second), Work(i, Nobody)]
  }

  // A schedule that leads there: the second announcement's signal reaches the first worker.
  function Misdelivery(): seq<Event> {
    FirstRound() + SecondRound()
  }

  function FirstRound(): seq<Event> {
    [MainStep(Nobody), Work(false, Nobody), Work(false, Main), Work(false, Nobody), MainStep(Nobody), MainStep(Nobody)]
  }

  function SecondRound(): seq<Event> {
    [MainStep(Nobody), MainStep(Nobody), Work(true, Nobody), Work(true, First), Work(true, Nobody)]
  }

  lemma {:induction false} RunsJoin(s: State, a: seq<Event>, b: seq<Event>)
    requires Legal(s, a) && Legal(After(s, a), b)
    ensures Legal(s, a + b) && After(s, a + b) == After(After(s, a), b)
    decreases |a|
  {
    if |a| == 0 {
      assert a + b == b;
    } else {
      assert (a + b)[1..] == a[1..] + b;
      RunsJoin(Apply(s, a[0]), a[1..], b);
    }
  }

  // Forwarding keeps the signal but bounds no run: while main sleeps, the two
  // workers can hand the signal to each other for ever, with no spurious wakeup.
  lemma ForwardingCanCycle(s: State)
    requires s.main.MAsleep? && s.value == 0 && s.owner == Free
    requires s.w0.phase.Woken? && s.w1.phase.Asleep?
    ensures Legal(s, PassItOn()) && After(s, PassItOn()) == s
  {
    PassRuns(s, false);
    PassRuns(Passed(s, false), true);
    RunsJoin(s, Pass(false), Pass(true));
  }

  function Passed(s: State, i: bool): State {
    To(To(s, i, Asleep), !i, Woken)
  }

  lemma PassRuns(s: State, i: bool)
    requires s.main.MAsleep? && s.value == 0 && s.owner == Free && W(s, i).phase.Woken? && W(s, !i).phase.Asleep?
    ensures Legal(s, Pass(i)) && After(s, Pass(i)) == Passed(s, i)
  {
    var es := Pass(i);
    var s1 := Apply(s, es[0]);
    var s2 := Apply(s1, es[1]);
    var s3 := Apply(s2, es[2]);
    var s4 := Apply(s3, es[3]);
    assert s4 == Passed(s, i);
    assert [es[3]][1..] == [];
    assert Legal(s4, []) && After(s4, []) == s4;
    assert es[1..][1..][1..] == [es[3]];
    assert Legal(s3, [es[3]]) && After(s3, [es[3]]) == s4;
    assert Legal(s2, es[1..][1..]) && After(s2, es[1..][1..]) == Passed(s, i);
  }

  function HalfWay(n: nat): State {
    State(MCreate, false, Worker(n, Asleep), Worker(n, Unborn), Held(MAIN), -1, "")
  }

  lemma FirstRoundRuns(n: nat)
    requires n > 0
    ensures Legal(Initial(n), FirstRound()) && After(Initial(n), FirstRound()) == HalfWay(n)
  {
  }

  lemma SecondRoundRuns(n: nat)
    requires n > 0
    ensures Legal(HalfWay(n), SecondRound())
    ensures After(HalfWay(n), SecondRound()) == State(MAsleep, true, Worker(n, Woken), Worker(n, Asleep), Free, 0, "")
  {
  }

  lemma CycleIsReached(n: nat)
    requires n > 0
    ensures Legal(Initial(n), Misdelivery())
    ensures var s := After(Initial(n), Misdelivery());
      s.main.MAsleep? && s.value == 0 && s.owner == Free && s.w0.phase.Woken? && s.w1.phase.Asleep?
  {
    FirstRoundRuns(n);
    SecondRoundRuns(n);
    RunsJoin(Initial(n), FirstRound(), SecondRound());
  }

  // ----- How long runs are -----

  predicate Forwards(s: State, e: Event) {
    (e.Work? && W(s, e.i).phase.Forward?) || (e.MainStep? && s.main.MForward?)
  }

  function WorkerEnergy(w: Worker): nat {
    5 * w.rounds + match w.phase
      case Unborn => 6
      case Start => 6
      case Announce => 5
      case EnterWait => 1
      case Asleep => 0
      case Woken => 3
      case Test => 2
      case Forward => 1
      case Print => 1
      case SetOther => 0
      case Leave => 1
      case Done => 0
  }

  function MainEnergy(m: MainPhase, second: bool): nat {
    (if second then 4 else 5) + match m
      case MEnter => 1
      case MAsleep => 0
      case MWoken => 3
      case MTest => 2
      case MForward => 1
      case MCreate => 1
      case MSignal => 1
      case MUnlock => -3
      case MJoin => -4
  }

  function Energy(s: State): nat {
    WorkerEnergy(s.w0) + WorkerEnergy(s.w1) + MainEnergy(s.main, s.second)
  }

  // Waking a sleeper gives it three more steps; only forwarding does so for nothing.
  lemma EnergyWork(s: State, i: bool, target: Target)
    requires Enabled(s, Work(i, target))
    ensures Energy(ApplyWork(s, i, target)) + 1 <= Energy(s) + if W(s, i).phase.Forward? then 4 else 0
  {
  }

  lemma EnergyStep(s: State, e: Event)
    requires Stage(s) && Enabled(s, e)
    ensures Energy(Apply(s, e)) + 1 <= Energy(s) + if Unprompted(e) || Forwards(s, e) then 4 else 0
  {
    if e.Work? {
      EnergyWork(s, e.i, e.target);
    }
  }

  function UnpromptedIn(es: seq<Event>): nat {
    if |es| == 0 then 0 else (if Unprompted(es[0]) then 1 else 0) + UnpromptedIn(es[1..])
  }

  function ForwardsIn(s: State, es: seq<Event>): nat
    requires Legal(s, es)
    decreases |es|
  {
    if |es| == 0 then 0 else (if Forwards(s, es[0]) then 1 else 0) + ForwardsIn(Apply(s, es[0]), es[1..])
  }

  // Nothing but spurious wakeups and forwarding makes a run long.
  lemma {:induction false} RunsAreBounded(s: State, es: seq<Event>)
    requires Inv(s) && Legal(s, es)
    ensures |es| + Energy(After(s, es)) <= Energy(s) + 4 * UnpromptedIn(es) + 4 * ForwardsIn(s, es)
    ensures forall n: nat :: s == Initial(n) ==> |es| <= 10 * n + 18 + 4 * UnpromptedIn(es) + 4 * ForwardsIn(s, es)
    decreases |es|
  {
    if |es| > 0 {
      EnergyStep(s, es[0]);
      InvStep(s, es[0]);
      RunsAreBounded(Apply(s, es[0]), es[1..]);
    }
  }

  // With no rounds to play nobody but main waits, and nothing but an announcement wakes it.
  predicate NoPlay(s: State) {
    && s.w0.rounds == 0 == s.w1.rounds && !s.main.MForward?
    && (s.main.MWoken? || s.main.MTest? ==> s.value == 0)
  }

  lemma NoPlayStep(s: State, e: Event)
    requires Inv(s) && NoPlay(s) && Enabled(s, e) && !Unprompted(e)
    ensures NoPlay(Apply(s, e)) && !Forwards(s, e)
  {
  }

  lemma {:induction false} NobodyForwards(s: State, es: seq<Event>)
    requires Inv(s) && NoPlay(s) && Legal(s, es) && UnpromptedIn(es) == 0
    ensures ForwardsIn(s, es) == 0
    decreases |es|
  {
    if |es| > 0 {
      NoPlayStep(s, es[0]);
      InvStep(s, es[0]);
      NobodyForwards(Apply(s, es[0]), es[1..]);
    }
  }

  function PassOn(times: nat): seq<Event> {
    if times == 0 then [] else PassItOn() + PassOn(times - 1)
  }

  lemma {:induction false} UnpromptedJoin(a: seq<Event>, b: seq<Event>)
    ensures UnpromptedIn(a + b) == UnpromptedIn(a) + UnpromptedIn(b)
  {
    if |a| == 0 {
      assert a + b == b;
    } else {
      assert (a + b)[1..] == a[1..] + b;
      UnpromptedJoin(a[1..], b);
    }
  }

  lemma {:induction false} PassingOnIsLegal(s: State, times: nat)
    requires s.main.MAsleep? && s.value == 0 && s.owner == Free
    requires s.w0.phase.Woken? && s.w1.phase.Asleep?
    ensures Legal(s, PassOn(times)) && UnpromptedIn(PassOn(times)) == 0 && |PassOn(times)| == 8 * times
  {
    if times > 0 {
      ForwardingCanCycle(s);
      PassingOnIsLegal(s, times - 1);
      RunsJoin(s, PassItOn(), PassOn(times - 1));
      UnpromptedJoin(PassItOn(), PassOn(times - 1));
    }
  }

  lemma MisdeliveryIsPrompted()
    ensures UnpromptedIn(Misdelivery()) == 0 && |Misdelivery()| == 11
  {
    UnpromptedJoin(FirstRound(), SecondRound());
  }

  // A run of any length.
  lemma LongRun(n: nat, b: nat) returns (es: seq<Event>)
    requires n > 0
    ensures Legal(Initial(n), es) && UnpromptedIn(es) == 0 && |es| > b
  {
    es := Misdelivery() + PassOn(b);
    CycleIsReached(n);
    PassingOnIsLegal(After(Initial(n), Misdelivery()), b);
    RunsJoin(Initial(n), Misdelivery(), PassOn(b));
    MisdeliveryIsPrompted();
    UnpromptedJoin(Misdelivery(), PassOn(b));
  }

  predicate NoLongerThan(es: seq<Event>, b: nat) {
    |es| <= b
  }

  // No run without spurious wakeups is longer than b.
  ghost predicate EndsWithin(n: nat, b: nat) {
    forall es :: Legal(Initial(n), es) && UnpromptedIn(es) == 0 ==> NoLongerThan(es, b)
  }

  // The runs without spurious wakeups have a longest if and only if there is
  // nothing to play.
  lemma RunsEndIffNoRounds(n: nat)
    ensures (exists b: nat :: EndsWithin(n, b)) <==> n == 0
  {
    if n == 0 {
      forall es | Legal(Initial(0), es) && UnpromptedIn(es) == 0 ensures NoLongerThan(es, 18) {
        RunsAreBounded(Initial(0), es);
        NobodyForwards(Initial(0), es);
      }
      assert EndsWithin(0, 18);
    } else {
      forall b: nat ensures !EndsWithin(n, b) {
        var es := LongRun(n, b);
        assert !NoLongerThan(es, b);
      }
    }
  }
}
