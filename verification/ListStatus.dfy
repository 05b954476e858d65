// tasks17_20/task18.c as a whole: the FREE/SORTING/UPDATING protocol of sort_list,
// list_push_front and list_print around the list and its walking sorters (module ListSorter).
module ListStatus {
  import opened Locks
  import opened Sums
  import opened StrComp
  import L = ListSorter
  import LS = ListSorting
  import LW = ListWalks

  datatype Op = Sort | Push(str: Str) | Print

  // Testing: in the wait loop. Claimed: has set the status. Inside: works without the mutex.
  // Linked: has put its node in, and has yet to count it. Returning: wants the mutex again.
  // Leaving: has it, and has yet to reset the status.
  datatype Phase =
    | Outside | Testing | Asleep | Woken | Claimed | Inside | Linked | Returning | Leaving | Broadcasting | Unlocking

  datatype Thread = Thread(op: Op, phase: Phase)
  {
    predicate HoldsMutex() {
      phase.Testing? || phase.Claimed? || phase.Leaving? || phase.Broadcasting? || phase.Unlocking?
    }
    // Between setting the status and resetting it.
    predicate In() {
      phase.Claimed? || phase.Inside? || phase.Linked? || phase.Returning? || phase.Leaving?
    }
    predicate Walking() {
      op.Sort? && phase.Inside?
    }
  }

  datatype Status = FREE | SORTING | UPDATING

  // Thread t is sorter t of the inner list.
  datatype State = State(
    status: Status, sortingCount: int, count: nat, owner: Lock, threads: seq<Thread>, list: L.State)

  datatype Event =
    | Begin(t: nat, op: Op) | Relock(t: nat) | Sleep(t: nat) | Claim(t: nat) | GoIn(t: nat)
    | Walk(t: nat, step: L.Event) | WalkOut(t: nat) | Link(t: nat) | Count(t: nat) | Printed(t: nat)
    | Return(t: nat) | Release(t: nat) | Broadcast(t: nat) | Unlock(t: nat) | Spurious(t: nat)

  predicate MustWait(s: State, op: Op) {
    if op.Sort? then s.status == UPDATING else s.status != FREE
  }

  predicate Enabled(s: State, e: Event) {
    && e.t < |s.threads| && L.Shaped(s.list)
    && var x := s.threads[e.t];
    match e
    case Begin(_, _) => x.phase.Outside? && s.owner == Free
    case Relock(_) => x.phase.Woken? && s.owner == Free
    case Sleep(_) => x.phase.Testing? && MustWait(s, x.op)
    case Claim(_) => x.phase.Testing? && !MustWait(s, x.op)
    case GoIn(t) => x.phase.Claimed? && (x.op.Sort? ==> L.Enabled(s.list, L.Enter(t)))
    case Walk(t, step) => x.Walking() && IsWalkStep(step) && step.t == t && L.Enabled(s.list, step)
    case WalkOut(t) => x.Walking() && L.Enabled(s.list, L.Exit(t))
    case Link(_) => x.phase.Inside? && x.op.Push?
    case Count(_) => x.phase.Linked?
    case Printed(_) => x.phase.Inside? && x.op.Print?
    case Return(_) => x.phase.Returning? && s.owner == Free
    case Release(_) => x.phase.Leaving?
    case Broadcast(_) => x.phase.Broadcasting?
    case Unlock(_) => x.phase.Unlocking?
    case Spurious(_) => x.phase.Asleep?
  }

  predicate IsWalkStep(step: L.Event) {
    !step.Enter? && !step.Exit? && !step.PushFront?
  }

  function To(s: State, t: nat, phase: Phase): State
    requires t < |s.threads|
  {
    s.(threads := s.threads[t := s.threads[t].(phase := phase)])
  }

  function WakeAll(threads: seq<Thread>): seq<Thread> {
    seq(|threads|, u requires 0 <= u < |threads| => if threads[u].phase.Asleep? then threads[u].(phase := Woken) else threads[u])
  }

  function Apply(s: State, e: Event): State
    requires Enabled(s, e)
  {
    match e
    case Begin(t, op) => s.(owner := Held(t), threads := s.threads[t := Thread(op, Testing)])
    case Relock(t) => To(s, t, Testing).(owner := Held(t))
    case Sleep(t) => To(s, t, Asleep).(owner := Free)
    case Claim(t) =>
      if s.threads[t].op.Sort? then To(s, t, Claimed).(status := SORTING, sortingCount := s.sortingCount + 1)
      else To(s, t, Claimed).(status := UPDATING)
    case GoIn(t) =>
      To(s, t, Inside).(owner := Free, list := if s.threads[t].op.Sort? then L.Apply(s.list, L.Enter(t)) else s.list)
    case Walk(t, step) => s.(list := L.Apply(s.list, step))
    case WalkOut(t) => To(s, t, Returning).(list := L.Apply(s.list, L.Exit(t)))
    case Link(t) => To(s, t, Linked).(list := L.WithFront(s.list, s.threads[t].op.str))
    case Count(t) => To(s, t, Returning).(count := s.count + 1)
    case Printed(t) => To(s, t, Returning)
    case Return(t) => To(s, t, Leaving).(owner := Held(t))
    case Release(t) =>
      if s.threads[t].op.Sort? then
        To(s, t, Broadcasting).(sortingCount := s.sortingCount - 1, status := if s.sortingCount - 1 == 0 then FREE else s.status)
      else To(s, t, Broadcasting).(status := FREE)
    case Broadcast(t) => s.(threads := WakeAll(To(s, t, Unlocking).threads))
    case Unlock(t) => To(s, t, Outside).(owner := Free)
    case Spurious(t) => To(s, t, Woken)
  }

  predicate Legal(s: State, es: seq<Event>)
    decreases |es|
  {
    |es| > 0 ==> Enabled(s, es[0]) && Legal(Apply(s, es[0]), es[1..])
  }

  function After(s: State, es: seq<Event>): State
    requires Legal(s, es)
    decreases |es|
  {
    if |es| == 0 then s else After(Apply(s, es[0]), es[1..])
  }

  // Nobody at work on a list, which may be empty, laid out as l.
  ghost predicate Init(s: State, l: L.Layout) {
    && s.status == FREE && s.sortingCount == 0 && s.owner == Free
    && L.Inv(s.list, l) && s.count == |s.list.next| - 1
    && |s.threads| == |s.list.sorters|
    && forall t :: 0 <= t < |s.threads| ==> s.threads[t].phase == Outside && s.list.sorters[t].phase == L.Away
  }

  // ----- Counts -----

  function SorterIn(x: Thread): nat { if x.op.Sort? && x.In() then 1 else 0 }
  function UpdaterIn(x: Thread): nat { if !x.op.Sort? && x.In() then 1 else 0 }
  function LinkPending(x: Thread): nat { if x.phase.Linked? then 1 else 0 }

  function Total(s: State, f: Thread -> nat): nat {
    Sum(s.threads, f)
  }

  // ----- Invariants -----

  ghost predicate Orderly(s: State, t: nat)
    requires t < |s.threads|
  {
    && (s.threads[t].HoldsMutex() <==> s.owner == Held(t))
    && (s.threads[t].phase.Linked? ==> s.threads[t].op.Push?)
  }

  ghost predicate MutexInv(s: State) {
    && (s.owner.Held? ==> s.owner.holder < |s.threads|)
    && forall t :: 0 <= t < |s.threads| ==> Orderly(s, t)
  }

  // What the status says about who is inside.
  ghost predicate StatusInv(s: State) {
    && s.sortingCount == Total(s, SorterIn)
    && match s.status
       case FREE => Total(s, SorterIn) == 0 && Total(s, UpdaterIn) == 0
       case SORTING => Total(s, SorterIn) > 0 && Total(s, UpdaterIn) == 0
       case UPDATING => Total(s, SorterIn) == 0 && Total(s, UpdaterIn) == 1
  }

  // The sorters of the inner list are the threads inside sort_list's loop.
  ghost predicate InStep(s: State, t: nat)
    requires t < |s.threads| == |s.list.sorters|
  {
    s.list.sorters[t].phase != L.Away <==> s.threads[t].Walking()
  }

  ghost predicate ListInv(s: State, l: L.Layout) {
    && |s.threads| == |s.list.sorters| && L.Inv(s.list, l)
    && (forall t :: 0 <= t < |s.threads| ==> InStep(s, t))
    && s.count + 1 + Total(s, LinkPending) == |s.list.next|
  }

  predicate Broadcasts(s: State) {
    s.owner.Held? && s.owner.holder < |s.threads| && s.threads[s.owner.holder].phase.Broadcasting?
  }

  // A sleeper sleeps for a reason that still stands, or the broadcast that wakes it is due.
  ghost predicate Justified(s: State, t: nat)
    requires t < |s.threads|
  {
    s.threads[t].phase.Asleep? ==> MustWait(s, s.threads[t].op) || Broadcasts(s)
  }

  ghost predicate SleepInv(s: State) {
    forall t :: 0 <= t < |s.threads| ==> Justified(s, t)
  }

  ghost predicate Inv(s: State, l: L.Layout) {
    MutexInv(s) && StatusInv(s) && SleepInv(s) && ListInv(s, l)
  }

  function NextLayout(s: State, l: L.Layout, e: Event): L.Layout
    requires Enabled(s, e) && |l.order| == |l.pos| == |s.list.next|
  {
    match e
    case Walk(_, step) => L.NextLayout(s.list, l, step)
    case Link(t) => if L.Enabled(s.list, L.PushFront(s.threads[t].op.str)) then L.NextLayout(s.list, l, L.PushFront(s.threads[t].op.str)) else l
    case _ => l
  }

  // ----- Steps -----

  // Every event changes one thread; the broadcast also wakes the sleepers.
  lemma TotalMoves(s: State, e: Event, f: Thread -> nat)
    requires Enabled(s, e)
    requires forall x: Thread :: x.phase.Asleep? ==> f(x.(phase := Woken)) == f(x)
    ensures |Apply(s, e).threads| == |s.threads|
    ensures Total(Apply(s, e), f) + f(s.threads[e.t]) == Total(s, f) + f(Apply(s, e).threads[e.t])
  {
    var s' := Apply(s, e);
    if e.Broadcast? {
      var mid := To(s, e.t, Unlocking).threads;
      SumUpdate(s.threads, e.t, mid[e.t], f);
      SumPointwise(mid, WakeAll(mid), f, f);
    } else {
      assert s'.threads == s.threads[e.t := s'.threads[e.t]];
      SumUpdate(s.threads, e.t, s'.threads[e.t], f);
    }
  }

  lemma MutexStep(s: State, e: Event)
    requires MutexInv(s) && Enabled(s, e)
    ensures MutexInv(Apply(s, e))
  {
    var s' := Apply(s, e);
    assert Orderly(s, e.t);
    forall u | 0 <= u < |s'.threads| ensures Orderly(s', u) { assert Orderly(s, u); }
  }

  // Only setting and resetting the status changes who counts as inside.
  lemma StatusKept(s: State, e: Event)
    requires StatusInv(s) && Enabled(s, e) && !e.Claim? && !e.Release?
    ensures Apply(s, e).status == s.status && Apply(s, e).sortingCount == s.sortingCount
    ensures SorterIn(Apply(s, e).threads[e.t]) == SorterIn(s.threads[e.t]) && UpdaterIn(Apply(s, e).threads[e.t]) == UpdaterIn(s.threads[e.t])
  {
  }

  lemma StatusStep(s: State, e: Event)
    requires StatusInv(s) && Enabled(s, e)
    ensures StatusInv(Apply(s, e))
  {
    TotalMoves(s, e, SorterIn);
    TotalMoves(s, e, UpdaterIn);
    if e.Release? {
      SumMember(s.threads, e.t, SorterIn);
      SumMember(s.threads, e.t, UpdaterIn);
    } else if !e.Claim? {
      StatusKept(s, e);
    }
  }

  lemma SleepStep(s: State, e: Event)
    requires MutexInv(s) && StatusInv(s) && SleepInv(s) && Enabled(s, e)
    ensures SleepInv(Apply(s, e))
  {
    var s' := Apply(s, e);
    assert Orderly(s, e.t) && Justified(s, e.t);
    SumMember(s.threads, e.t, SorterIn);
    SumMember(s.threads, e.t, UpdaterIn);
    forall u | 0 <= u < |s'.threads| ensures Justified(s', u) { assert Justified(s, u); }
  }

  // An updater inside is alone: it may link its node in.
  lemma LinkIsSafe(s: State, l: L.Layout, t: nat)
    requires StatusInv(s) && ListInv(s, l) && Enabled(s, Link(t))
    ensures L.Enabled(s.list, L.PushFront(s.threads[t].op.str))
  {
    SumMember(s.threads, t, UpdaterIn);
    forall u | 0 <= u < |s.list.sorters| ensures s.list.sorters[u].phase == L.Away {
      assert InStep(s, u);
      SumMember(s.threads, u, SorterIn);
    }
  }

  lemma InnerStep(s: State, l: L.Layout, e: Event)
    requires StatusInv(s) && ListInv(s, l) && Enabled(s, e)
    ensures var s', l' := Apply(s, e), NextLayout(s, l, e); L.Inv(s'.list, l') && |s'.list.next| == |s.list.next| + if e.Link? then 1 else 0
  {
    match e
    case GoIn(t) => if s.threads[t].op.Sort? { L.InvStep(s.list, l, L.Enter(t)); }
    case Walk(_, step) => L.InvStep(s.list, l, step);
    case WalkOut(t) => L.InvStep(s.list, l, L.Exit(t));
    case Link(t) =>
      LinkIsSafe(s, l, t);
      L.InvStep(s.list, l, L.PushFront(s.threads[t].op.str));
    case _ =>
  }

  lemma InStepStep(s: State, l: L.Layout, e: Event, u: nat)
    requires ListInv(s, l) && Enabled(s, e) && u < |s.threads|
    ensures |Apply(s, e).threads| == |Apply(s, e).list.sorters| == |s.threads| && InStep(Apply(s, e), u)
  {
    assert InStep(s, u) && InStep(s, e.t);
  }

  lemma ListStep(s: State, l: L.Layout, e: Event)
    requires StatusInv(s) && ListInv(s, l) && Enabled(s, e)
    ensures ListInv(Apply(s, e), NextLayout(s, l, e))
  {
    InnerStep(s, l, e);
    TotalMoves(s, e, LinkPending);
    forall u | 0 <= u < |s.threads| ensures |Apply(s, e).threads| == |Apply(s, e).list.sorters| == |s.threads| && InStep(Apply(s, e), u) {
      InStepStep(s, l, e, u);
    }
    InStepStep(s, l, e, e.t);
  }

  lemma InvStep(s: State, l: L.Layout, e: Event)
    requires Inv(s, l) && Enabled(s, e)
    ensures Inv(Apply(s, e), NextLayout(s, l, e))
  {
    MutexStep(s, e);
    StatusStep(s, e);
    SleepStep(s, e);
    ListStep(s, l, e);
  }

  lemma InitInv(s: State, l: L.Layout)
    requires Init(s, l)
    ensures Inv(s, l)
  {
    SumZero(s.threads, SorterIn);
    SumZero(s.threads, UpdaterIn);
    SumZero(s.threads, LinkPending);
    forall t | 0 <= t < |s.threads| ensures Orderly(s, t) && Justified(s, t) && InStep(s, t) {}
  }

  lemma {:induction false} InvRun(s: State, l: L.Layout, es: seq<Event>) returns (l': L.Layout)
    requires Inv(s, l) && Legal(s, es)
    ensures Inv(After(s, es), l')
    decreases |es|
  {
    l' := l;
    if |es| > 0 {
      InvStep(s, l, es[0]);
      l' := InvRun(Apply(s, es[0]), NextLayout(s, l, es[0]), es[1..]);
    }
  }

  // In every reachable state sorting_count is the number of sorters inside,
  // UPDATING holds exactly when one updater and no sorter is inside, SORTING exactly when
  // sorters are; the list is one chain of count nodes, but for one linked and not yet counted.
  lemma StatusTellsWhoIsInside(init: State, l: L.Layout, es: seq<Event>) returns (l': L.Layout)
    requires Init(init, l) && Legal(init, es)
    ensures var s := After(init, es);
      && s.sortingCount == Total(s, SorterIn)
      && (s.status == UPDATING <==> Total(s, UpdaterIn) == 1 && Total(s, SorterIn) == 0)
      && (s.status == SORTING <==> Total(s, SorterIn) > 0)
      && L.Chain(s.list, l') && s.count + 1 + Total(s, LinkPending) == |s.list.next|
      && (s.status != UPDATING ==> |LS.Listed(s.list, l')| == s.count)
  {
    InitInv(init, l);
    l' := InvRun(init, l, es);
    var s := After(init, es);
    if Total(s, LinkPending) > 0 {
      var t := SumWitness(s.threads, LinkPending);
      assert Orderly(s, t);
      SumMember(s.threads, t, UpdaterIn);
    }
  }

  // While the status is SORTING nobody adds a node or changes the count.
  lemma CountIsFrozenWhileSorting(s: State, l: L.Layout, e: Event)
    requires Inv(s, l) && Enabled(s, e) && s.status == SORTING
    ensures Apply(s, e).count == s.count && |Apply(s, e).list.next| == |s.list.next|
  {
    InnerStep(s, l, e);
    assert Orderly(s, e.t);
    SumMember(s.threads, e.t, UpdaterIn);
  }

  // With the mutex free a sleeping thread implies that the status is not FREE:
  // a sleeping sorter waits for an updater that is inside, a sleeping updater for someone.
  lemma NoLostWakeup(init: State, l: L.Layout, es: seq<Event>, t: nat)
    requires Init(init, l) && Legal(init, es)
    requires var s := After(init, es); s.owner == Free && t < |s.threads| && s.threads[t].phase == Asleep
    ensures var s := After(init, es);
      && s.status != FREE
      && (s.threads[t].op.Sort? ==> s.status == UPDATING)
      && Total(s, SorterIn) + Total(s, UpdaterIn) > 0
  {
    InitInv(init, l);
    var _ := InvRun(init, l, es);
    assert Justified(After(init, es), t);
  }

  // A node is linked in only while every sorter is outside its walk.
  lemma UpdatersAreAlone(s: State, l: L.Layout, e: Event)
    requires Inv(s, l) && Enabled(s, e) && (e.Link? || e.Count? || e.Printed?)
    ensures forall u :: 0 <= u < |s.list.sorters| ==> s.list.sorters[u].phase == L.Away
    ensures forall u :: 0 <= u < |s.threads| && u != e.t ==> !s.threads[u].In()
  {
    assert Orderly(s, e.t);
    SumMember(s.threads, e.t, UpdaterIn);
    forall u | 0 <= u < |s.threads| ensures s.list.sorters[u].phase == L.Away && (u != e.t ==> !s.threads[u].In()) {
      assert InStep(s, u);
      SumMember(s.threads, u, SorterIn);
      if u != e.t {
        AtMostOne(s.threads, e.t, u);
      }
    }
  }

  lemma AtMostOne(threads: seq<Thread>, t: nat, u: nat)
    requires t < |threads| && u < |threads| && t != u && Sum(threads, UpdaterIn) <= 1 && UpdaterIn(threads[t]) == 1
    ensures UpdaterIn(threads[u]) == 0
  {
    var rest := threads[t := Thread(Print, Outside)];
    SumUpdate(threads, t, Thread(Print, Outside), UpdaterIn);
    SumMember(rest, u, UpdaterIn);
  }

  // ----- No deadlock, and where the program stops -----

  // A sorter has been let in while the list is empty.
  ghost predicate LetIntoEmptyList(s: State) {
    |s.list.next| == 1 && exists t :: 0 <= t < |s.threads| && s.threads[t] == Thread(Sort, Claimed)
  }

  // Nothing can happen but new calls and spurious wakeups.
  ghost predicate Stuck(s: State) {
    forall e :: Enabled(s, e) ==> e.Spurious? || e.Begin?
  }

  lemma HolderSteps(s: State, l: L.Layout) returns (e: Event)
    requires Inv(s, l) && s.owner.Held? && !LetIntoEmptyList(s)
    ensures Enabled(s, e) && !e.Spurious? && !e.Begin?
  {
    var t := s.owner.holder;
    assert Orderly(s, t) && InStep(s, t);
    match s.threads[t].phase
    case Testing => e := if MustWait(s, s.threads[t].op) then Sleep(t) else Claim(t);
    case Claimed => e := GoIn(t);
    case Leaving => e := Release(t);
    case Broadcasting => e := Broadcast(t);
    case _ => e := Unlock(t);
  }

  // A thread at work on the list: an updater can go on, and some sorter can.
  lemma InsiderSteps(s: State, l: L.Layout, t: nat) returns (e: Event)
    requires Inv(s, l) && t < |s.threads| && (s.threads[t].phase.Inside? || s.threads[t].phase.Linked?)
    ensures Enabled(s, e) && !e.Spurious? && !e.Begin?
  {
    if s.threads[t].phase.Linked? {
      e := Count(t);
    } else {
      match s.threads[t].op
      case Push(_) => e := Link(t);
      case Print => e := Printed(t);
      case Sort =>
        assert InStep(s, t);
        var step := LS.NoDeadlock(s.list, l, t);
        assert InStep(s, step.t);
        e := if step.Exit? then WalkOut(step.t) else Walk(step.t, step);
    }
  }

  // Whoever the status speaks of, with the mutex free, is at work or about to come back.
  lemma SomeoneIsIn(s: State, l: L.Layout) returns (t: nat)
    requires Inv(s, l) && s.owner == Free && s.status != FREE
    ensures t < |s.threads| && (s.threads[t].phase.Inside? || s.threads[t].phase.Linked? || s.threads[t].phase.Returning?)
  {
    if s.status == UPDATING {
      t := SumWitness(s.threads, UpdaterIn);
    } else {
      t := SumWitness(s.threads, SorterIn);
    }
    assert Orderly(s, t);
  }

  // A call that has not returned: some thread can go on, without a spurious wakeup and
  // without a new call, unless a sorter has been let into the empty list.
  lemma SomeoneSteps(s: State, l: L.Layout, t: nat) returns (e: Event)
    requires Inv(s, l) && !LetIntoEmptyList(s) && t < |s.threads| && s.threads[t].phase != Outside
    ensures Enabled(s, e) && !e.Spurious? && !e.Begin?
  {
    assert Orderly(s, t) && Justified(s, t);
    if s.owner.Held? {
      e := HolderSteps(s, l);
    } else {
      var u := t;
      if s.threads[t].phase.Asleep? {
        u := SomeoneIsIn(s, l);
      }
      if s.threads[u].phase.Inside? || s.threads[u].phase.Linked? {
        e := InsiderSteps(s, l, u);
      } else {
        e := if s.threads[u].phase.Woken? then Relock(u) else Return(u);
      }
    }
  }

  // Over every run: as long as some call has not returned, some thread can go on.
  lemma NoDeadlock(init: State, l: L.Layout, es: seq<Event>, t: nat) returns (e: Event)
    requires Init(init, l) && Legal(init, es) && !LetIntoEmptyList(After(init, es))
    requires t < |After(init, es).threads| && After(init, es).threads[t].phase != Outside
    ensures Enabled(After(init, es), e) && !e.Spurious? && !e.Begin?
  {
    InitInv(init, l);
    var l' := InvRun(init, l, es);
    e := SomeoneSteps(After(init, es), l', t);
  }

  // Such a sorter holds the mutex and nobody is at work on the list: no thread can go on.
  lemma EmptyListStops(s: State, l: L.Layout, e: Event)
    requires Inv(s, l) && LetIntoEmptyList(s) && Enabled(s, e)
    ensures e.Spurious?
  {
    var t :| 0 <= t < |s.threads| && s.threads[t] == Thread(Sort, Claimed);
    assert Orderly(s, t) && Orderly(s, e.t) && InStep(s, e.t) && L.Window(s.list, l, e.t);
    SumMember(s.threads, t, SorterIn);
    SumMember(s.threads, e.t, UpdaterIn);
  }

  // Exactly where the program stops with a call unfinished, over every run from list_init or
  // from any list at rest: a sorter has been let in while the list is empty.
  lemma StopsIffLetIntoEmptyList(init: State, l: L.Layout, es: seq<Event>, t: nat)
    requires Init(init, l) && Legal(init, es)
    requires t < |After(init, es).threads| && After(init, es).threads[t].phase != Outside
    ensures Stuck(After(init, es)) <==> LetIntoEmptyList(After(init, es))
  {
    var s := After(init, es);
    InitInv(init, l);
    var l' := InvRun(init, l, es);
    if LetIntoEmptyList(s) {
      forall e | Enabled(s, e) ensures e.Spurious? {
        EmptyListStops(s, l', e);
      }
    } else {
      var e := SomeoneSteps(s, l', t);
    }
  }

  // ----- Why the list must not be empty -----

  // l->count - 1 in size_t.
  function PassBound(count: nat): nat {
    (count + 0xFFFF_FFFF_FFFF_FFFF) % 0x1_0000_0000_0000_0000
  }

  // A sorter that has been let in goes on only if the list is not empty. With an empty list it
  // finds 2^64 - 1 passes to make, and the first pointer it follows is NULL; with count >= 1 the
  // bound is count - 1.
  lemma EmptyListIsFatal(s: State, l: L.Layout, t: nat)
    requires L.Inv(s.list, l) && s.count + 1 == |s.list.next| && s.count < 0x1_0000_0000_0000_0000
    requires t < |s.threads| == |s.list.sorters| && s.threads[t] == Thread(Sort, Claimed) && s.list.sorters[t].phase == L.Away
    ensures s.count == 0 ==> PassBound(s.count) == 0xFFFF_FFFF_FFFF_FFFF && s.list.next[0] == L.NULL && !Enabled(s, GoIn(t))
    ensures s.count >= 1 ==> PassBound(s.count) == s.count - 1 && s.list.next[0] != L.NULL && Enabled(s, GoIn(t))
  {
    assert L.LinkAt(s.list, l, 0);
  }

  // list_init, before any thread has begun.
  predicate FreshList(s: State) {
    && s.status == FREE && s.sortingCount == 0 && s.count == 0 && s.owner == Free
    && L.Init(s.list) && |s.threads| == |s.list.sorters|
    && forall t :: 0 <= t < |s.threads| ==> s.threads[t].phase == Outside
  }

  // That is one of the starts of the results above.
  lemma FreshListIsInit(s: State)
    requires FreshList(s)
    ensures Init(s, L.Layout([0], [0]))
  {
    LS.InitInv(s.list);
  }

  // The first sorter to call gets there, if it comes before the first string.
  lemma EmptyListIsReached(init: State, t: nat)
    requires FreshList(init) && t < |init.threads|
    ensures var es := [Begin(t, Sort), Claim(t)];
      && Legal(init, es)
      && var s := After(init, es);
         s.count == 0 && t < |s.threads| && s.threads[t] == Thread(Sort, Claimed) && LetIntoEmptyList(s) && Stuck(s)
  {
    var es := [Begin(t, Sort), Claim(t)];
    assert es[1..] == [Claim(t)] && es[1..][1..] == [];
    var s1 := Apply(init, Begin(t, Sort));
    var s2 := Apply(s1, Claim(t));
    assert Legal(s2, es[1..][1..]) && After(s2, es[1..][1..]) == s2;
    assert Legal(s1, es[1..]) && After(s1, es[1..]) == s2;
    FreshListIsInit(init);
    StopsIffLetIntoEmptyList(init, L.Layout([0], [0]), es, t);
  }

  // ----- What sort_list leaves when every walk goes to the end -----

  predicate Thorough(s: State, e: Event) {
    Enabled(s, e) && (e.Walk? ==> LW.Thorough(s.list, e.step))
  }

  predicate ThoroughRun(s: State, es: seq<Event>)
    decreases |es|
  {
    |es| > 0 ==> Thorough(s, es[0]) && ThoroughRun(Apply(s, es[0]), es[1..])
  }

  // Between its last pass and resetting the status.
  predicate HasSorted(x: Thread) {
    x.op.Sort? && (x.phase.Returning? || x.phase.Leaving?)
  }

  ghost predicate SortedFor(s: State, l: L.Layout, t: nat)
    requires L.Chain(s.list, l) && t < |s.threads|
  {
    HasSorted(s.threads[t]) ==> Sorted(LS.Listed(s.list, l))
  }

  ghost predicate SortedInv(s: State, l: L.Layout) {
    && Inv(s, l) && LW.AllAchieved(s.list, l)
    && forall t :: 0 <= t < |s.threads| ==> SortedFor(s, l, t)
  }

  // The inner event that an event performs on the list, if any.
  function ListEvents(s: State, e: Event): seq<L.Event>
    requires Enabled(s, e)
  {
    match e
    case GoIn(t) => if s.threads[t].op.Sort? then [L.Enter(t)] else []
    case Walk(_, step) => [step]
    case WalkOut(t) => [L.Exit(t)]
    case Link(t) => [L.PushFront(s.threads[t].op.str)]
    case _ => []
  }

  lemma ListMoves(s: State, l: L.Layout, e: Event)
    requires StatusInv(s) && ListInv(s, l) && Enabled(s, e)
    ensures var xs := ListEvents(s, e);
      if xs == [] then Apply(s, e).list == s.list && NextLayout(s, l, e) == l
      else L.Enabled(s.list, xs[0]) && Apply(s, e).list == L.Apply(s.list, xs[0]) && NextLayout(s, l, e) == L.NextLayout(s.list, l, xs[0])
  {
    if e.Link? {
      LinkIsSafe(s, l, e.t);
    }
  }

  lemma AchievedStep(s: State, l: L.Layout, e: Event)
    requires Inv(s, l) && LW.AllAchieved(s.list, l) && Thorough(s, e)
    ensures Inv(Apply(s, e), NextLayout(s, l, e)) && LW.AllAchieved(Apply(s, e).list, NextLayout(s, l, e))
  {
    InvStep(s, l, e);
    ListMoves(s, l, e);
    if ListEvents(s, e) != [] {
      LW.AchievedStep(s.list, l, ListEvents(s, e)[0]);
    }
  }

  // A sorted list stays as it is until something is linked in.
  lemma SortedStays(s: State, l: L.Layout, e: Event)
    requires Inv(s, l) && Enabled(s, e) && !e.Link? && Sorted(LS.Listed(s.list, l))
    ensures L.Chain(Apply(s, e).list, NextLayout(s, l, e)) && LS.Listed(Apply(s, e).list, NextLayout(s, l, e)) == LS.Listed(s.list, l)
  {
    ListMoves(s, l, e);
    if ListEvents(s, e) != [] {
      LS.ListedStep(s.list, l, ListEvents(s, e)[0]);
    }
  }

  lemma WhoHasSorted(s: State, l: L.Layout, e: Event, t: nat)
    requires Inv(s, l) && Enabled(s, e) && t < |s.threads|
    ensures |Apply(s, e).threads| == |s.threads|
    ensures HasSorted(Apply(s, e).threads[t]) ==> !e.Link? && (HasSorted(s.threads[t]) || (e.WalkOut? && e.t == t))
  {
    assert Orderly(s, e.t);
    if e.Link? {
      UpdatersAreAlone(s, l, e);
    }
  }

  lemma SortedForStep(s: State, l: L.Layout, e: Event, t: nat)
    requires SortedInv(s, l) && Thorough(s, e) && t < |s.threads|
    ensures |Apply(s, e).threads| == |s.threads| && L.Chain(Apply(s, e).list, NextLayout(s, l, e)) && SortedFor(Apply(s, e), NextLayout(s, l, e), t)
  {
    assert SortedFor(s, l, t);
    AchievedStep(s, l, e);
    WhoHasSorted(s, l, e, t);
    if HasSorted(Apply(s, e).threads[t]) {
      if e.WalkOut? && e.t == t {
        LW.ExitIsSorted(s.list, l, t);
      }
      SortedStays(s, l, e);
    }
  }

  lemma {:induction false} SortedRun(s: State, l: L.Layout, es: seq<Event>) returns (l': L.Layout)
    requires SortedInv(s, l) && Legal(s, es) && ThoroughRun(s, es)
    ensures SortedInv(After(s, es), l')
    decreases |es|
  {
    l' := l;
    if |es| > 0 {
      var s1, l1 := Apply(s, es[0]), NextLayout(s, l, es[0]);
      AchievedStep(s, l, es[0]);
      forall t | 0 <= t < |s1.threads| ensures SortedFor(s1, l1, t) {
        SortedForStep(s, l, es[0], t);
      }
      l' := SortedRun(s1, l1, es[1..]);
    }
  }

  // Whatever other sorters and updaters do, a sort_list call whose walks went to the end finds
  // the list sorted from its last pass until it has reset the status.
  lemma SortIsSorted(init: State, l: L.Layout, es: seq<Event>, t: nat) returns (l': L.Layout)
    requires Init(init, l) && Legal(init, es) && ThoroughRun(init, es)
    requires t < |After(init, es).threads| && HasSorted(After(init, es).threads[t])
    ensures L.Chain(After(init, es).list, l') && Sorted(LS.Listed(After(init, es).list, l'))
  {
    InitInv(init, l);
    LW.NobodyHasAchieved(init.list, l);
    l' := SortedRun(init, l, es);
    assert SortedFor(After(init, es), l', t);
  }
}
