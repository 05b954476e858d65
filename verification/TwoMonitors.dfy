// task12.c: ping-pong over two monitors. Each worker keeps its own mutex except while it
// waits, and locks the other's while holding its own; main runs a start-up handshake.
module TwoMonitors {
  import opened Locks
  import Sem = SemaphorePingPong

  // Start: at monitor_lock(my). EnterWait: about to wait. Asleep: in pthread_cond_wait.
  // Woken: waiting to get the own mutex back. Test: at while(!flag). WantOther: at
  // monitor_lock(other).
  datatype Phase =
    | Start | Announce | EnterWait | Asleep | Woken | Test | Print | WantOther | SignalOther | DropOther | Leave | Done

  datatype Worker = Worker(rounds: nat, phase: Phase)
  {
    predicate HoldsOwn() {
      !phase.Start? && !phase.Asleep? && !phase.Woken? && !phase.Done?
    }
    predicate HoldsOther() {
      phase.SignalOther? || phase.DropOther?
    }
    // Between clearing its own flag and setting the other's.
    predicate HasToken() {
      phase.Print? || phase.WantOther? || phase.SignalOther?
    }
  }

  // Main, from the first monitor_wait on; the digit is the monitor it deals with.
  datatype MainPhase =
    | Enter1 | Asleep1 | Woken1 | Test1 | Enter2 | Asleep2 | Woken2 | Test2 | Signal1 | Drop2 | Drop1 | Joining

  datatype State = State(
    main: MainPhase, w0: Worker, w1: Worker,
    m0: Lock, m1: Lock, flag0: bool, flag1: bool, out: string)

  const MAIN: nat := 2

  predicate MainHolds0(m: MainPhase) {
    !m.Asleep1? && !m.Woken1? && !m.Joining?
  }

  predicate MainHolds1(m: MainPhase) {
    !m.Asleep2? && !m.Woken2? && !m.Drop1? && !m.Joining?
  }

  // ----- Access by worker number; monitor i is worker i's own -----

  function W(s: State, i: bool): Worker {
    if i then s.w1 else s.w0
  }
  function Id(i: bool): nat {
    if i then 1 else 0
  }
  function M(s: State, i: bool): Lock {
    if i then s.m1 else s.m0
  }
  function Flag(s: State, i: bool): bool {
    if i then s.flag1 else s.flag0
  }
  function SetW(s: State, i: bool, w: Worker): State {
    if i then s.(w1 := w) else s.(w0 := w)
  }
  function SetM(s: State, i: bool, m: Lock): State {
    if i then s.(m1 := m) else s.(m0 := m)
  }
  function SetFlag(s: State, i: bool, flag: bool): State {
    if i then s.(flag1 := flag) else s.(flag0 := flag)
  }
  function To(s: State, i: bool, phase: Phase): State {
    SetW(s, i, W(s, i).(phase := phase))
  }

  // ----- Condition variables: main and worker i may wait on condition i -----

  datatype Target = Nobody | TheWorker | Main

  predicate MainSleepsOn(s: State, i: bool) {
    if i then s.main.Asleep2? else s.main.Asleep1?
  }

  // A signal on condition i wakes a waiter if there is one.
  predicate SignalOk(s: State, i: bool, target: Target) {
    match target
    case TheWorker => W(s, i).phase == Asleep
    case Main => MainSleepsOn(s, i)
    case Nobody => W(s, i).phase != Asleep && !MainSleepsOn(s, i)
  }

  function Signalled(s: State, i: bool, target: Target): State {
    match target
    case TheWorker => To(s, i, Woken)
    case Main => s.(main := if i then Woken2 else Woken1)
    case Nobody => s
  }

  // ----- Steps -----

  // Each thread's next action is fixed by its phase; a signal also has a target.
  datatype Event = Work(i: bool, target: Target) | MainStep(target: Target) | Spurious(i: bool) | SpuriousMain

  predicate Enabled(s: State, e: Event) {
    match e
    case Spurious(i) => W(s, i).phase == Asleep
    case SpuriousMain => s.main.Asleep1? || s.main.Asleep2?
    case Work(i, target) =>
      (match W(s, i).phase
       case Asleep => false
       case Done => false
       case Start => M(s, i) == Free && target == Nobody
       case Woken => M(s, i) == Free && target == Nobody
       case WantOther => M(s, !i) == Free && target == Nobody
       case Announce => SignalOk(s, i, target)
       case SignalOther => W(s, i).rounds > 0 && SignalOk(s, !i, target)
       case _ => target == Nobody)
    case MainStep(target) =>
      (match s.main
       case Asleep1 => false
       case Asleep2 => false
       case Joining => false
       case Woken1 => s.m0 == Free && target == Nobody
       case Woken2 => s.m1 == Free && target == Nobody
       case Signal1 => SignalOk(s, false, target)
       case _ => target == Nobody)
  }

  function ApplyWork(s: State, i: bool, target: Target): State
    requires Enabled(s, Work(i, target))
  {
    match W(s, i).phase
    case Start => SetM(To(s, i, Announce), i, Held(Id(i)))
    case Announce => Signalled(SetFlag(To(s, i, if W(s, i).rounds > 0 then EnterWait else Leave), i, true), i, target)
    case EnterWait => SetM(To(s, i, Asleep), i, Free)
    case Woken => SetM(To(s, i, Test), i, Held(Id(i)))
    case Test => if Flag(s, i) then SetFlag(To(s, i, Print), i, false) else SetM(To(s, i, Asleep), i, Free)
    case Print => To(s, i, WantOther).(out := s.out + if i then "-" else "+")
    case WantOther => SetM(To(s, i, SignalOther), !i, Held(Id(i)))
    case SignalOther => Signalled(SetFlag(SetW(s, i, Worker(W(s, i).rounds - 1, DropOther)), !i, true), !i, target)
    case DropOther => SetM(To(s, i, if W(s, i).rounds > 0 then EnterWait else Leave), !i, Free)
    case Leave => SetM(To(s, i, Done), i, Free)
  }

  function ApplyMain(s: State, target: Target): State
    requires Enabled(s, MainStep(target))
  {
    match s.main
    case Enter1 => s.(main := Asleep1, m0 := Free)
    case Woken1 => s.(main := Test1, m0 := Held(MAIN))
    case Test1 => if s.flag0 then s.(main := Enter2, flag0 := false) else s.(main := Asleep1, m0 := Free)
    case Enter2 => s.(main := Asleep2, m1 := Free)
    case Woken2 => s.(main := Test2, m1 := Held(MAIN))
    case Test2 => if s.flag1 then s.(main := Signal1, flag1 := false) else s.(main := Asleep2, m1 := Free)
    case Signal1 => Signalled(s.(main := Drop2, flag0 := true), false, target)
    case Drop2 => s.(main := Drop1, m1 := Free)
    case Drop1 => s.(main := Joining, m0 := Free)
  }

  function Apply(s: State, e: Event): State
    requires Enabled(s, e)
  {
    match e
    case Work(i, target) => ApplyWork(s, i, target)
    case MainStep(target) => ApplyMain(s, target)
    case Spurious(i) => To(s, i, Woken)
    case SpuriousMain => s.(main := if s.main.Asleep1? then Woken1 else Woken2)
  }

  function Initial(n: nat): State {
    State(Enter1, Worker(n, Start), Worker(n, Start), Held(MAIN), Held(MAIN), false, false, "")
  }

  // Main has yet to see the flag worker i announced itself with. A worker that woke up now
  // would take that flag for its turn.
  predicate Handshaking(s: State, i: bool) {
    if i then s.main.Woken2? else s.main.Woken1?
  }

  // Every event POSIX allows, but for a worker's spurious wakeup during its own handshake.
  predicate Calm(s: State, e: Event) {
    Enabled(s, e) && (e.Spurious? ==> !Handshaking(s, e.i))
  }

  predicate Legal(s: State, es: seq<Event>)
    decreases |es|
  {
    |es| > 0 ==> Calm(s, es[0]) && Legal(Apply(s, es[0]), es[1..])
  }

  function After(s: State, es: seq<Event>): State
    requires Legal(s, es)
    decreases |es|
  {
    if |es| == 0 then s else After(Apply(s, es[0]), es[1..])
  }

  // ----- Invariants -----

  ghost predicate Mutex(s: State, i: bool) {
    && (M(s, i) == Held(Id(i)) <==> W(s, i).HoldsOwn())
    && (M(s, i) == Held(Id(!i)) <==> W(s, !i).HoldsOther())
    && (M(s, i) == Held(MAIN) <==> if i then MainHolds1(s.main) else MainHolds0(s.main))
    && (M(s, i).Held? ==> M(s, i).holder <= MAIN)
  }

  ghost predicate Mutexes(s: State) {
    Mutex(s, false) && Mutex(s, true)
  }

  // Worker i sits in its wait (or, with no rounds, is through).
  predicate Parked(w: Worker) {
    if w.rounds > 0 then w.phase.Asleep? || w.phase.Woken? else w.phase.Done?
  }

  predicate Yielding(w: Worker) {
    if w.rounds > 0 then w.phase.EnterWait? || w.phase.Asleep? else w.phase.Leave? || w.phase.Done?
  }

  // Before its announcement (flag down), or just after it (flag up).
  predicate Announcing(w: Worker, flag: bool) {
    if flag then Yielding(w) else w.phase.Start? || w.phase.Announce?
  }

  // The same while main holds the worker's mutex.
  predicate Heard(w: Worker, flag: bool) {
    if flag then Parked(w) else w.phase.Start?
  }

  // The start-up, stage by stage.
  predicate Stage(s: State) {
    match s.main
    case Enter1 => s.w0.phase.Start? && s.w1.phase.Start? && !s.flag0 && !s.flag1
    case Asleep1 => Announcing(s.w0, s.flag0) && !s.flag0 && s.w1.phase.Start? && !s.flag1
    case Woken1 => Announcing(s.w0, s.flag0) && s.w1.phase.Start? && !s.flag1
    case Test1 => Heard(s.w0, s.flag0) && s.w1.phase.Start? && !s.flag1
    case Enter2 => Parked(s.w0) && !s.flag0 && s.w1.phase.Start? && !s.flag1
    case Asleep2 => Parked(s.w0) && !s.flag0 && Announcing(s.w1, s.flag1) && !s.flag1
    case Woken2 => Parked(s.w0) && !s.flag0 && Announcing(s.w1, s.flag1)
    case Test2 => Parked(s.w0) && !s.flag0 && Heard(s.w1, s.flag1)
    case Signal1 => Parked(s.w0) && !s.flag0 && Parked(s.w1) && !s.flag1
    case _ => Playing(s)
  }

  predicate HasStarted(w: Worker) {
    && !w.phase.Start? && !w.phase.Announce?
    && (w.phase.Leave? || w.phase.Done? ==> w.rounds == 0)
    && (w.phase.EnterWait? || w.phase.Asleep? || w.phase.Woken? || w.phase.Test? || w.HasToken() ==> w.rounds > 0)
  }

  // A raised flag whose worker has rounds left has woken that worker.
  predicate FlagSeen(w: Worker, flag: bool) {
    flag && w.rounds > 0 ==> w.phase.Woken? || w.phase.Test?
  }

  function Tokens(s: State): nat {
    (if s.flag0 then 1 else 0) + (if s.flag1 then 1 else 0)
    + (if s.w0.HasToken() then 1 else 0) + (if s.w1.HasToken() then 1 else 0)
  }

  // After the start-up: one token, never lost.
  predicate Playing(s: State) {
    Tokens(s) == 1 && HasStarted(s.w0) && HasStarted(s.w1) && FlagSeen(s.w0, s.flag0) && FlagSeen(s.w1, s.flag1)
  }

  // ----- Refinement of the semaphore machine -----

  function AbsPhase(w: Worker): Sem.Phase {
    if w.phase.Print? then Sem.Printing else if w.phase.WantOther? || w.phase.SignalOther? then Sem.Posting else Sem.AtWait
  }

  predicate StartedUp(s: State) {
    s.main.Drop2? || s.main.Drop1? || s.main.Joining?
  }

  // The flags are the semaphores; during the start-up the first player's turn is pending.
  function Abs(s: State): Sem.State {
    Sem.State(
      if StartedUp(s) then (if s.flag0 then 1 else 0) else 1,
      if StartedUp(s) && s.flag1 then 1 else 0,
      Sem.Player(s.w0.rounds, AbsPhase(s.w0)), Sem.Player(s.w1.rounds, AbsPhase(s.w1)), s.out)
  }

  // The semaphore operation an event performs, if it performs one.
  function AbsEvents(s: State, e: Event): seq<Sem.Event> {
    if e.Work? && W(s, e.i).phase.Test? && Flag(s, e.i) then [if e.i then Sem.WaitPong else Sem.WaitPing]
    else if e.Work? && W(s, e.i).phase.Print? then [if e.i then Sem.PrintPong else Sem.PrintPing]
    else if e.Work? && W(s, e.i).phase.SignalOther? then [if e.i then Sem.PostPong else Sem.PostPing]
    else []
  }

  ghost predicate Inv(s: State) {
    Mutexes(s) && Stage(s)
  }

  lemma MutexWorkOwn(s: State, i: bool, target: Target)
    requires Mutex(s, i) && Enabled(s, Work(i, target))
    ensures Mutex(ApplyWork(s, i, target), i)
  {
    if i {
      MutexWorkOwn1(s, target);
    } else {
      MutexWorkOwn0(s, target);
    }
  }

  lemma MutexWorkOwn1(s: State, target: Target)
    requires Mutex(s, true) && Enabled(s, Work(true, target))
    ensures Mutex(ApplyWork(s, true, target), true)
  {
  }

  lemma MutexWorkOwn0(s: State, target: Target)
    requires Mutex(s, false) && Enabled(s, Work(false, target))
    ensures Mutex(ApplyWork(s, false, target), false)
  {
  }

  lemma MutexWorkOther(s: State, i: bool, target: Target)
    requires Mutex(s, !i) && Enabled(s, Work(i, target))
    ensures Mutex(ApplyWork(s, i, target), !i)
  {
    if i {
      MutexWorkOf1(s, target);
    } else {
      MutexWorkOf0(s, target);
    }
  }

  lemma MutexWorkOf1(s: State, target: Target)
    requires Mutex(s, false) && Enabled(s, Work(true, target))
    ensures Mutex(ApplyWork(s, true, target), false)
  {
  }

  lemma MutexWorkOf0(s: State, target: Target)
    requires Mutex(s, true) && Enabled(s, Work(false, target))
    ensures Mutex(ApplyWork(s, false, target), true)
  {
  }

  lemma MutexMain(s: State, target: Target, k: bool)
    requires Mutex(s, k) && Enabled(s, MainStep(target))
    ensures Mutex(ApplyMain(s, target), k)
  {
  }

  lemma PlayingSignal(s: State, i: bool, target: Target)
    requires StartedUp(s) && Playing(s) && Enabled(s, Work(i, target))
    requires W(s, i).phase.SignalOther? && !W(s, !i).HoldsOwn()
    ensures StartedUp(ApplyWork(s, i, target)) && Playing(ApplyWork(s, i, target))
  {
  }

  lemma PlayingWork(s: State, i: bool, target: Target)
    requires StartedUp(s) && Playing(s) && Enabled(s, Work(i, target)) && !W(s, i).phase.SignalOther?
    ensures StartedUp(ApplyWork(s, i, target)) && Playing(ApplyWork(s, i, target))
  {
  }

  lemma StartupWork(s: State, i: bool, target: Target)
    requires !StartedUp(s) && Mutexes(s) && Stage(s) && Enabled(s, Work(i, target))
    ensures Stage(ApplyWork(s, i, target))
  {
  }

  lemma StageMain(s: State, target: Target)
    requires Mutexes(s) && Stage(s) && Enabled(s, MainStep(target))
    ensures Stage(ApplyMain(s, target))
  {
  }

  lemma MutexesWork(s: State, i: bool, target: Target)
    requires Mutexes(s) && Enabled(s, Work(i, target))
    ensures Mutexes(ApplyWork(s, i, target))
  {
    MutexWorkOwn(s, i, target);
    MutexWorkOther(s, i, target);
  }

  // Nobody holds the other's mutex while that worker holds it too.
  lemma Apart(s: State, i: bool)
    requires Mutexes(s) && W(s, i).HoldsOther()
    ensures !W(s, !i).HoldsOwn()
  {
  }

  lemma StageOfPlaying(s: State)
    requires StartedUp(s) && Playing(s)
    ensures Stage(s)
  {
  }

  lemma StageStarted(s: State, i: bool, target: Target)
    requires StartedUp(s) && Mutexes(s) && Playing(s) && Enabled(s, Work(i, target))
    ensures StartedUp(ApplyWork(s, i, target)) && Playing(ApplyWork(s, i, target))
  {
    if W(s, i).phase.SignalOther? {
      Apart(s, i);
      PlayingSignal(s, i, target);
    } else {
      PlayingWork(s, i, target);
    }
  }

  lemma StageWork(s: State, i: bool, target: Target)
    requires Mutexes(s) && Stage(s) && Enabled(s, Work(i, target))
    ensures Stage(ApplyWork(s, i, target))
  {
    if StartedUp(s) {
      StageStarted(s, i, target);
      StageOfPlaying(ApplyWork(s, i, target));
    } else {
      StartupWork(s, i, target);
    }
  }

  lemma InvMain(s: State, target: Target)
    requires Inv(s) && Enabled(s, MainStep(target))
    ensures Inv(ApplyMain(s, target))
  {
    MutexMain(s, target, false);
    MutexMain(s, target, true);
    StageMain(s, target);
  }

  lemma InvSpurious(s: State, i: bool)
    requires Inv(s) && Calm(s, Spurious(i))
    ensures Inv(To(s, i, Woken))
  {
  }

  lemma InvSpuriousMain(s: State)
    requires Inv(s) && Calm(s, SpuriousMain)
    ensures Inv(Apply(s, SpuriousMain))
  {
  }

  lemma InvStep(s: State, e: Event)
    requires Inv(s) && Calm(s, e)
    ensures Inv(Apply(s, e))
  {
    match e
    case Work(i, target) =>
      MutexesWork(s, i, target);
      StageWork(s, i, target);
    case MainStep(target) => InvMain(s, target);
    case Spurious(i) => InvSpurious(s, i);
    case SpuriousMain => InvSpuriousMain(s);
  }

  lemma RefinesSignal(s: State, i: bool, target: Target)
    requires Stage(s) && Enabled(s, Work(i, target)) && W(s, i).phase.SignalOther?
    ensures var post := if i then Sem.PostPong else Sem.PostPing;
      Sem.Enabled(Abs(s), post) && Sem.Apply(Abs(s), post) == Abs(ApplyWork(s, i, target))
  {
  }

  lemma RefinesWork(s: State, i: bool, target: Target)
    requires Stage(s) && Enabled(s, Work(i, target)) && !W(s, i).phase.SignalOther?
    ensures var es := AbsEvents(s, Work(i, target));
      Sem.Legal(Abs(s), es) && Sem.After(Abs(s), es) == Abs(ApplyWork(s, i, target))
  {
  }

  lemma RefinesOther(s: State, e: Event)
    requires Stage(s) && Enabled(s, e) && !e.Work?
    ensures Abs(Apply(s, e)) == Abs(s)
  {
  }

  // ----- Runs -----

  lemma {:induction false} InvRun(s: State, es: seq<Event>)
    requires Inv(s) && Legal(s, es)
    ensures Inv(After(s, es))
    decreases |es|
  {
    if |es| > 0 {
      InvStep(s, es[0]);
      InvRun(Apply(s, es[0]), es[1..]);
    }
  }

  lemma RefinesStep(s: State, e: Event)
    requires Inv(s) && Calm(s, e)
    ensures Sem.Legal(Abs(s), AbsEvents(s, e)) && Sem.After(Abs(s), AbsEvents(s, e)) == Abs(Apply(s, e))
  {
    if !e.Work? {
      RefinesOther(s, e);
    } else if W(s, e.i).phase.SignalOther? {
      RefinesSignal(s, e.i, e.target);
      assert AbsEvents(s, e)[1..] == [];
    } else {
      RefinesWork(s, e.i, e.target);
    }
  }

  // The semaphore operations of a run, in order.
  function AbsRun(s: State, es: seq<Event>): seq<Sem.Event>
    requires Legal(s, es)
    decreases |es|
  {
    if |es| == 0 then [] else AbsEvents(s, es[0]) + AbsRun(Apply(s, es[0]), es[1..])
  }

  lemma AbsPrefix(s: Sem.State, xs: seq<Sem.Event>, ys: seq<Sem.Event>)
    requires |xs| <= 1 && Sem.Legal(s, xs) && Sem.Legal(Sem.After(s, xs), ys)
    ensures Sem.Legal(s, xs + ys) && Sem.After(s, xs + ys) == Sem.After(Sem.After(s, xs), ys)
  {
    if xs == [] {
      assert xs + ys == ys;
    } else {
      assert (xs + ys)[1..] == ys && (xs + ys)[0] == xs[0];
      var s1 := Sem.Apply(s, xs[0]);
      assert Sem.After(s1, xs[1..]) == s1 == Sem.After(s, xs);
    }
  }

  // Every calm run, start-up included, is a run of the semaphore machine.
  lemma {:induction false} RunRefines(s: State, es: seq<Event>)
    requires Inv(s) && Legal(s, es)
    ensures Sem.Legal(Abs(s), AbsRun(s, es)) && Sem.After(Abs(s), AbsRun(s, es)) == Abs(After(s, es))
    decreases |es|
  {
    if |es| > 0 {
      InvStep(s, es[0]);
      RefinesStep(s, es[0]);
      RunRefines(Apply(s, es[0]), es[1..]);
      AbsPrefix(Abs(s), AbsEvents(s, es[0]), AbsRun(Apply(s, es[0]), es[1..]));
    }
  }

  // The output is always a prefix of (+ -)^n.
  lemma OutputAlternates(n: nat, es: seq<Event>)
    requires Legal(Initial(n), es)
    ensures var out := After(Initial(n), es).out; |out| <= 2 * n && out == Sem.Alternating(|out|)
  {
    RunRefines(Initial(n), es);
    Sem.OutputAlternates(n, AbsRun(Initial(n), es));
  }

  // The workers never each hold their own mutex while at the other's lock.
  lemma NeverBothWant(n: nat, es: seq<Event>)
    requires Legal(Initial(n), es)
    ensures var s := After(Initial(n), es); !(s.w0.phase.WantOther? && s.w1.phase.WantOther?)
    ensures StartedUp(After(Initial(n), es)) ==> Tokens(After(Initial(n), es)) == 1
  {
    InvRun(Initial(n), es);
  }

  // ----- Progress -----

  predicate Finished(s: State) {
    s.main.Joining? && s.w0.phase.Done? && s.w1.phase.Done?
  }

  // Whom a signal on condition i would wake.
  function Waiter(s: State, i: bool): Target {
    if W(s, i).phase.Asleep? then TheWorker else if MainSleepsOn(s, i) then Main else Nobody
  }

  function WorkerMove(s: State, i: bool): Event {
    Work(i, if W(s, i).phase.Announce? then Waiter(s, i) else if W(s, i).phase.SignalOther? then Waiter(s, !i) else Nobody)
  }

  function MainMove(s: State): Event {
    MainStep(if s.main.Signal1? then Waiter(s, false) else Nobody)
  }

  predicate SomeoneSteps(s: State) {
    Enabled(s, WorkerMove(s, false)) || Enabled(s, WorkerMove(s, true)) || Enabled(s, MainMove(s))
  }

  lemma StartupProgress(s: State)
    requires Inv(s) && !StartedUp(s)
    ensures SomeoneSteps(s)
  {
  }

  // The token's place shows who can move.
  lemma PlayingProgress(n: nat, s: State)
    requires Inv(s) && StartedUp(s) && Sem.Inv(n, Abs(s)) && !Finished(s)
    ensures SomeoneSteps(s)
  {
    if s.w0.HasToken() {
    } else if s.w1.HasToken() {
    } else if s.flag0 {
    } else {
      assert Sem.PongDue(Abs(s)) && Sem.Printed(n, Abs(s).ping) == Sem.Printed(n, Abs(s).pong) + 1;
    }
  }

  lemma Reached(n: nat, es: seq<Event>)
    requires Legal(Initial(n), es)
    ensures Inv(After(Initial(n), es)) && Sem.Inv(n, Abs(After(Initial(n), es)))
  {
    InvRun(Initial(n), es);
    RunRefines(Initial(n), es);
    Sem.InvRun(n, Abs(Initial(n)), AbsRun(Initial(n), es));
  }

  lemma FinishedPrintsAll(n: nat, s: State)
    requires Finished(s) && Inv(s) && Sem.Inv(n, Abs(s))
    ensures s.out == Sem.Alternating(2 * n)
  {
  }

  predicate Unprompted(e: Event) {
    e.Spurious? || e.SpuriousMain?
  }

  // No calm run deadlocks: as long as a thread is unfinished some thread can
  // step without a spurious wakeup, and once all are finished everything has been printed.
  lemma NoDeadlock(n: nat, es: seq<Event>)
    requires Legal(Initial(n), es)
    ensures Finished(After(Initial(n), es)) ==> After(Initial(n), es).out == Sem.Alternating(2 * n)
    ensures !Finished(After(Initial(n), es)) ==> exists e :: Calm(After(Initial(n), es), e) && !Unprompted(e)
  {
    Reached(n, es);
    var s := After(Initial(n), es);
    if !Finished(s) {
      if StartedUp(s) {
        PlayingProgress(n, s);
      } else {
        StartupProgress(s);
      }
      StepExists(s);
    } else {
      FinishedPrintsAll(n, s);
    }
  }

  lemma StepExists(s: State)
    requires SomeoneSteps(s)
    ensures exists e :: Calm(s, e) && !Unprompted(e)
  {
    assert Calm(s, WorkerMove(s, false)) || Calm(s, WorkerMove(s, true)) || Calm(s, MainMove(s));
  }

  // ----- Termination -----

  function WorkerEnergy(w: Worker): nat {
    8 * w.rounds + match w.phase
      case Start => 8
      case Announce => 7
      case EnterWait => 4
      case Asleep => 3
      case Woken => 5
      case Test => 4
      case Print => 2
      case WantOther => 1
      case SignalOther => 0
      case DropOther => 5
      case Leave => 1
      case Done => 0
  }

  function MainEnergy(m: MainPhase): nat {
    match m
    case Enter1 => 7
    case Asleep1 => 6
    case Woken1 => 8
    case Test1 => 7
    case Enter2 => 6
    case Asleep2 => 5
    case Woken2 => 7
    case Test2 => 6
    case Signal1 => 5
    case Drop2 => 2
    case Drop1 => 1
    case Joining => 0
  }

  function Energy(s: State): nat {
    WorkerEnergy(s.w0) + WorkerEnergy(s.w1) + MainEnergy(s.main)
  }

  lemma WorkEnergy(s: State, i: bool, target: Target)
    requires Enabled(s, Work(i, target))
    ensures Energy(ApplyWork(s, i, target)) + 1 <= Energy(s)
  {
  }

  lemma EnergyStep(s: State, e: Event)
    requires Enabled(s, e)
    ensures Energy(Apply(s, e)) + 1 <= Energy(s) + (if Unprompted(e) then 3 else 0)
  {
    if e.Work? {
      WorkEnergy(s, e.i, e.target);
    }
  }

  function UnpromptedIn(es: seq<Event>): nat {
    if |es| == 0 then 0 else (if Unprompted(es[0]) then 1 else 0) + UnpromptedIn(es[1..])
  }

  // Every run ends: 16 n + 23 steps, and three more for each spurious wakeup.
  lemma {:induction false} RunsAreBounded(s: State, es: seq<Event>)
    requires Legal(s, es)
    ensures |es| + Energy(After(s, es)) <= Energy(s) + 3 * UnpromptedIn(es)
    ensures forall n: nat :: s == Initial(n) ==> |es| <= 16 * n + 23 + 3 * UnpromptedIn(es)
    decreases |es|
  {
    if |es| > 0 {
      EnergyStep(s, es[0]);
      RunsAreBounded(Apply(s, es[0]), es[1..]);
    }
  }

  // ----- Why the handshake needs calm -----

  predicate Possible(s: State, es: seq<Event>)
    decreases |es|
  {
    |es| > 0 ==> Enabled(s, es[0]) && Possible(Apply(s, es[0]), es[1..])
  }

  function Outcome(s: State, es: seq<Event>): State
    requires Possible(s, es)
    decreases |es|
  {
    if |es| == 0 then s else Outcome(Apply(s, es[0]), es[1..])
  }

  ghost predicate Deadlocked(s: State) {
    !Finished(s) && forall e :: Enabled(s, e) ==> Unprompted(e)
  }

  // From the middle of a handshake: worker i wakes, takes its own announcement for its turn,
  // prints, and waits for a mutex main keeps while main waits for the worker's.
  function Stumble(i: bool): seq<Event> {
    [Spurious(i), Work(i, Nobody), Work(i, Nobody), Work(i, Nobody)]
  }

  // Calm is the exact condition: calm runs never deadlock (NoDeadlock), and each
  // wakeup it rules out can deadlock the program, after a line nobody was to print yet.
  lemma StumblingDeadlocks(s: State, i: bool)
    requires Inv(s) && Enabled(s, Spurious(i)) && !Calm(s, Spurious(i))
    ensures Possible(s, Stumble(i)) && Deadlocked(Outcome(s, Stumble(i)))
    ensures Outcome(s, Stumble(i)).out == s.out + if i then "-" else "+"
  {
    var s1 := Apply(s, Spurious(i));
    var s2 := Apply(s1, Work(i, Nobody));
    var s3 := Apply(s2, Work(i, Nobody));
    var s4 := Apply(s3, Work(i, Nobody));
    assert Stumble(i)[1..] == [Work(i, Nobody), Work(i, Nobody), Work(i, Nobody)];
    assert Outcome(s, Stumble(i)) == s4;
  }

  // Such a state is reached: main waits, the first worker announces itself and waits.
  lemma HandshakeIsReached(n: nat)
    requires n > 0
    ensures var es := [MainStep(Nobody), Work(false, Nobody), Work(false, Main), Work(false, Nobody)];
      Legal(Initial(n), es) && Enabled(After(Initial(n), es), Spurious(false)) && !Calm(After(Initial(n), es), Spurious(false))
  {
  }
}
