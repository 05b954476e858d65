// tasks17_20/task18.c as a whole: how long its calls take, and what sort_list leaves behind as
// it is written.
module ListCalls {
  import opened Locks
  import opened Sums
  import StrComp
  import opened ListStatus
  import L = ListSorter
  import LS = ListSorting
  import LW = ListWalks

  // ----- How long runs are -----

  // The steps that a thread can still make in its call, among n threads and on a list of at most
  // m nodes; walks in progress are counted apart. A broadcast wakes up to n threads, each of
  // which may test in vain and go back to sleep.
  function Cost(n: nat, m: nat, x: Thread): nat {
    var work := if x.op.Sort? then LS.CallCost(m) else 0;
    match x.phase
    case Outside => 0
    case Unlocking => 1
    case Broadcasting => 2 * n + 2
    case Leaving => 2 * n + 3
    case Returning => 2 * n + 4
    case Linked => 2 * n + 5
    case Inside => 2 * n + 6
    case Claimed => 2 * n + 7 + work
    case Asleep => 2 * n + 8 + work
    case Testing => 2 * n + 9 + work
    case Woken => 2 * n + 10 + work
  }

  function Costs(n: nat, m: nat): Thread -> nat {
    (x: Thread) => Cost(n, m, x)
  }

  // What a call may take, with what goes on around it.
  function CallCost(n: nat, m: nat): nat {
    2 * n + 10 + LS.CallCost(m)
  }

  lemma OneThreadMoves(s: State, e: Event, f: Thread -> nat)
    requires Enabled(s, e) && !e.Broadcast?
    ensures |Apply(s, e).threads| == |s.threads|
    ensures Total(Apply(s, e), f) + f(s.threads[e.t]) == Total(s, f) + f(Apply(s, e).threads[e.t])
  {
    var s' := Apply(s, e);
    assert s'.threads == s.threads[e.t := s'.threads[e.t]];
    SumUpdate(s.threads, e.t, s'.threads[e.t], f);
  }

  // A broadcast costs its sender more than it can give to all the sleepers.
  lemma BroadcastCosts(s: State, e: Event, m: nat)
    requires Enabled(s, e) && e.Broadcast?
    ensures var f := Costs(|s.threads|, m); Total(Apply(s, e), f) + 1 <= Total(s, f)
  {
    var f := Costs(|s.threads|, m);
    var mid := To(s, e.t, Unlocking).threads;
    SumUpdate(s.threads, e.t, mid[e.t], f);
    SumGrowth(mid, WakeAll(mid), 2, f);
  }

  // What an event takes from the cost of its thread.
  function Spent(s: State, m: nat, e: Event): int
    requires Enabled(s, e)
  {
    match e
    case Begin(_, _) => 1 - CallCost(|s.threads|, m)
    case Spurious(_) => -2
    case Walk(_, _) => 0
    case GoIn(t) => if s.threads[t].op.Sort? then LS.CallCost(m) + 1 else 1
    case _ => 1
  }

  lemma ThreadPays(s: State, e: Event, m: nat)
    requires Enabled(s, e) && !e.Broadcast?
    ensures |Apply(s, e).threads| == |s.threads|
    ensures var f := Costs(|s.threads|, m); f(Apply(s, e).threads[e.t]) + Spent(s, m, e) <= f(s.threads[e.t])
  {
  }

  lemma CostStep(s: State, e: Event, m: nat)
    requires Enabled(s, e)
    ensures |Apply(s, e).threads| == |s.threads|
    ensures var f := Costs(|s.threads|, m); Total(Apply(s, e), f) + Spent(s, m, e) <= Total(s, f)
  {
    if e.Broadcast? {
      BroadcastCosts(s, e, m);
    } else {
      ThreadPays(s, e, m);
      OneThreadMoves(s, e, Costs(|s.threads|, m));
    }
  }

  lemma {:induction false} PassesCostGrows(k: nat, k': nat, n: nat, n': nat)
    requires k <= k' && n <= n'
    ensures LS.PassesCost(k, n) <= LS.PassesCost(k', n')
  {
    if k' > 0 {
      PassesCostGrows(if k > 0 then k - 1 else 0, k' - 1, n, n');
    }
  }

  lemma CallCostGrows(n: nat, m: nat)
    requires n <= m
    ensures LS.CallCost(n) <= LS.CallCost(m)
  {
    if n >= 2 {
      PassesCostGrows(n - 2, m - 2, n, m);
    }
  }

  // What an event takes from the walks in progress.
  lemma WalksPay(s: State, l: L.Layout, e: Event, m: nat)
    requires Inv(s, l) && Enabled(s, e) && |s.list.next| <= m
    ensures LS.Energy(Apply(s, e).list, NextLayout(s, l, e)) + (if e.Walk? || e.WalkOut? then 1 else 0)
         <= LS.Energy(s.list, l) + if e.GoIn? && s.threads[e.t].op.Sort? then LS.CallCost(m) else 0
  {
    ListMoves(s, l, e);
    CallCostGrows(|s.list.next|, m);
    if e.Link? {
      UpdatersAreAlone(s, l, e);
      LS.NobodyHasEnergy(s.list, l);
      LS.NobodyHasEnergy(Apply(s, e).list, NextLayout(s, l, e));
    } else if ListEvents(s, e) != [] {
      LS.EnergyStep(s.list, l, ListEvents(s, e)[0]);
    }
  }

  // Calls of list_push_front that have yet to put their node in.
  function PushPending(x: Thread): nat {
    if x.op.Push? && (x.phase.Testing? || x.phase.Asleep? || x.phase.Woken? || x.phase.Claimed? || x.phase.Inside?) then 1 else 0
  }

  // The nodes there are and the nodes to come from the calls that have begun.
  function Nodes(s: State): nat {
    |s.list.next| + Total(s, PushPending)
  }

  predicate BeginsPush(e: Event) {
    e.Begin? && e.op.Push?
  }

  lemma NodesStep(s: State, l: L.Layout, e: Event)
    requires Inv(s, l) && Enabled(s, e)
    ensures Nodes(Apply(s, e)) <= Nodes(s) + if BeginsPush(e) then 1 else 0
  {
    InnerStep(s, l, e);
    TotalMoves(s, e, PushPending);
    assert Orderly(s, e.t);
  }

  function CallsIn(es: seq<Event>): nat {
    if |es| == 0 then 0 else (if es[0].Begin? then 1 else 0) + CallsIn(es[1..])
  }

  function PushesIn(es: seq<Event>): nat {
    if |es| == 0 then 0 else (if BeginsPush(es[0]) then 1 else 0) + PushesIn(es[1..])
  }

  function SpuriousIn(es: seq<Event>): nat {
    if |es| == 0 then 0 else (if es[0].Spurious? then 1 else 0) + SpuriousIn(es[1..])
  }

  function Energy(s: State, l: L.Layout, m: nat): nat {
    Total(s, Costs(|s.threads|, m)) + LS.Energy(s.list, l)
  }

  lemma EnergyStep(s: State, l: L.Layout, e: Event, m: nat)
    requires Inv(s, l) && Enabled(s, e) && |s.list.next| <= m
    ensures |Apply(s, e).threads| == |s.threads|
    ensures Energy(Apply(s, e), NextLayout(s, l, e), m) + 1
         <= Energy(s, l, m) + (if e.Begin? then CallCost(|s.threads|, m) else 0) + if e.Spurious? then 3 else 0
  {
    CostStep(s, e, m);
    WalksPay(s, l, e, m);
  }

  lemma OneMore(calls: nat, cost: nat)
    ensures (1 + calls) * cost == cost + calls * cost
  {
  }

  lemma {:induction false} EnergyRun(s: State, l: L.Layout, es: seq<Event>, m: nat)
    requires Inv(s, l) && Legal(s, es) && Nodes(s) + PushesIn(es) <= m
    ensures |es| <= Energy(s, l, m) + CallsIn(es) * CallCost(|s.threads|, m) + 3 * SpuriousIn(es)
    decreases |es|
  {
    if |es| > 0 {
      InvStep(s, l, es[0]);
      NodesStep(s, l, es[0]);
      EnergyStep(s, l, es[0], m);
      EnergyRun(Apply(s, es[0]), NextLayout(s, l, es[0]), es[1..], m);
      OneMore(CallsIn(es[1..]), CallCost(|s.threads|, m));
    }
  }

  lemma NothingBegun(init: State, l: L.Layout, m: nat)
    requires Init(init, l)
    ensures Total(init, PushPending) == 0 && Energy(init, l, m) == 0
  {
    SumZero(init.threads, PushPending);
    SumZero(init.threads, Costs(|init.threads|, m));
    LS.NobodyHasEnergy(init.list, l);
  }

  lemma CallCostIs(n: nat, m: nat)
    ensures CallCost(n, m) == 2 * n + 12 + if m >= 2 then (m - 2) * (4 * m + 1) else 0
  {
    if m >= 2 {
      LS.PassesCostIs(m - 2, m);
    }
  }

  // However the calls of sort_list, list_push_front and list_print interleave, a run from any list
  // at rest is bounded by its calls and its spurious wakeups: each call costs at most
  // 2 n + 10 steps among n threads, and the (m - 2)(4 m + 1) + 2 of a sorter's passes over m
  // nodes (the head included), m being the nodes there are and those that are pushed.
  lemma RunsAreBounded(init: State, l: L.Layout, es: seq<Event>)
    requires Init(init, l) && Legal(init, es)
    ensures var n, m := |init.threads|, |init.list.next| + PushesIn(es);
      && |es| <= CallsIn(es) * CallCost(n, m) + 3 * SpuriousIn(es)
      && CallCost(n, m) == 2 * n + 12 + if m >= 2 then (m - 2) * (4 * m + 1) else 0
  {
    var m := |init.list.next| + PushesIn(es);
    InitInv(init, l);
    NothingBegun(init, l, m);
    EnergyRun(init, l, es, m);
    CallCostIs(|init.threads|, m);
  }

  // ----- What sort_list leaves as it is written -----

  predicate NoLink(es: seq<Event>) {
    forall i :: 0 <= i < |es| ==> !es[i].Link?
  }

  // No walk goes on behind its first pair.
  predicate NoContinue(es: seq<Event>) {
    forall i :: 0 <= i < |es| ==> !(es[i].Walk? && es[i].step.Continue?)
  }

  // The list is xs or that with its first pair in order; the latter, if a sorter has compared or
  // is through with its passes.
  ghost predicate PairInv(s: State, l: L.Layout, xs: seq<StrComp.Str>) {
    && Inv(s, l) && LW.AllAtHead(s.list)
    && var ys := LS.Listed(s.list, l);
       && (ys == xs || ys == LW.FirstPairInOrder(xs))
       && LW.ComparedInOrder(s.list, ys)
       && forall t :: 0 <= t < |s.threads| && HasSorted(s.threads[t]) ==> LW.FirstPairInOrder(ys) == ys
  }

  // A sorter about to leave the list has compared, if there is anything to compare.
  lemma OutIsInOrder(s: State, l: L.Layout, t: nat)
    requires Inv(s, l) && LW.ComparedInOrder(s.list, LS.Listed(s.list, l)) && L.Enabled(s.list, L.Exit(t))
    ensures LW.FirstPairInOrder(LS.Listed(s.list, l)) == LS.Listed(s.list, l)
  {
    assert L.Window(s.list, l, t);
  }

  lemma PairStays(s: State, l: L.Layout, xs: seq<StrComp.Str>, e: Event)
    requires PairInv(s, l, xs) && Enabled(s, e) && !e.Link? && !(e.Walk? && e.step.Continue?)
    ensures var s', l' := Apply(s, e), NextLayout(s, l, e);
      && Inv(s', l') && LW.AllAtHead(s'.list)
      && var ys, ys' := LS.Listed(s.list, l), LS.Listed(s'.list, l');
         (ys' == ys || ys' == LW.FirstPairInOrder(ys)) && LW.ComparedInOrder(s'.list, ys')
  {
    InvStep(s, l, e);
    ListMoves(s, l, e);
    if ListEvents(s, e) != [] {
      LW.ComparedStep(s.list, l, ListEvents(s, e)[0]);
      LW.AtHeadStep(s.list, ListEvents(s, e)[0]);
    }
  }

  lemma PairStep(s: State, l: L.Layout, xs: seq<StrComp.Str>, e: Event)
    requires PairInv(s, l, xs) && Enabled(s, e) && !e.Link? && !(e.Walk? && e.step.Continue?)
    ensures PairInv(Apply(s, e), NextLayout(s, l, e), xs)
  {
    var s', ys := Apply(s, e), LS.Listed(s.list, l);
    PairStays(s, l, xs, e);
    LW.OnceIsEnough(xs);
    LW.OnceIsEnough(ys);
    forall t | 0 <= t < |s'.threads| && HasSorted(s'.threads[t]) ensures LW.FirstPairInOrder(ys) == ys {
      WhoHasSorted(s, l, e, t);
      if e.WalkOut? && e.t == t {
        OutIsInOrder(s, l, t);
      }
    }
  }

  function AfterLayout(s: State, l: L.Layout, es: seq<Event>): L.Layout
    requires Inv(s, l) && Legal(s, es)
    decreases |es|
  {
    if |es| == 0 then l
    else
      InvStep(s, l, es[0]);
      AfterLayout(Apply(s, es[0]), NextLayout(s, l, es[0]), es[1..])
  }

  lemma {:induction false} PairRun(s: State, l: L.Layout, xs: seq<StrComp.Str>, es: seq<Event>)
    requires PairInv(s, l, xs) && Legal(s, es) && NoLink(es) && NoContinue(es)
    ensures PairInv(After(s, es), AfterLayout(s, l, es), xs)
    decreases |es|
  {
    if |es| > 0 {
      PairStep(s, l, xs, es[0]);
      PairRun(Apply(s, es[0]), NextLayout(s, l, es[0]), xs, es[1..]);
    }
  }

  lemma NobodySorts(s: State, l: L.Layout)
    requires Inv(s, l) && s.status != SORTING
    ensures PairInv(s, l, LS.Listed(s.list, l))
  {
    forall t | 0 <= t < |s.threads| ensures s.list.sorters[t].phase == L.Away && !HasSorted(s.threads[t]) {
      assert InStep(s, t);
      SumMember(s.threads, t, SorterIn);
    }
    forall t | 0 <= t < |s.list.sorters| ensures LW.AtHead(s.list, t) {}
  }

  // As written, the run leads to a state in which thread t is through with sort_list's passes.
  predicate Returns(s: State, es: seq<Event>, t: nat) {
    Legal(s, es) && NoLink(es) && NoContinue(es) && t < |After(s, es).threads| && HasSorted(After(s, es).threads[t])
  }

  // As written, whatever other threads do: from its last pass until it has reset the status, a
  // sorter finds the list as it was when the status was last not SORTING, with the first pair in
  // order.
  lemma AsWrittenReturns(s: State, l: L.Layout, es: seq<Event>, t: nat)
    requires Inv(s, l) && s.status != SORTING && Returns(s, es, t)
    ensures L.Chain(After(s, es).list, AfterLayout(s, l, es))
    ensures LS.Listed(After(s, es).list, AfterLayout(s, l, es)) == LW.FirstPairInOrder(LS.Listed(s.list, l))
  {
    NobodySorts(s, l);
    PairRun(s, l, LS.Listed(s.list, l), es);
    LW.OnceIsEnough(LS.Listed(s.list, l));
  }

  // ----- A sorter with the list to itself -----

  lemma OneEarlier(s: State, e: Event, rest: seq<Event>, t: nat)
    requires Enabled(s, e) && !e.Link? && !(e.Walk? && e.step.Continue?) && Returns(Apply(s, e), rest, t)
    ensures Returns(s, [e] + rest, t)
  {
    assert ([e] + rest)[1..] == rest;
  }

  lemma {:induction false} AloneGetsOut(s: State, l: L.Layout, t: nat) returns (es: seq<Event>)
    requires Inv(s, l) && LW.OthersAway(s.list, t) && t < |s.threads| && s.threads[t].Walking()
    ensures Returns(s, es, t)
    decreases s.list.sorters[t].passes, 8 - LW.Place(s.list.sorters[t].phase)
  {
    assert InStep(s, t);
    if L.Enabled(s.list, L.Exit(t)) {
      es := [WalkOut(t)];
    } else {
      LW.AloneSteps(s.list, l, t);
      var e := Walk(t, LS.NextEvent(s.list, t));
      InvStep(s, l, e);
      var rest := AloneGetsOut(Apply(s, e), NextLayout(s, l, e), t);
      OneEarlier(s, e, rest, t);
      es := [e] + rest;
    }
  }

  // Nobody at work: a sorter is let in at once.
  lemma GetsIn(init: State, l: L.Layout, t: nat) returns (s1: State, s2: State)
    requires Init(init, l) && t < |init.threads| && |init.list.next| >= 2
    ensures Enabled(init, Begin(t, Sort)) && s1 == Apply(init, Begin(t, Sort))
    ensures Enabled(s1, Claim(t)) && s2 == Apply(s1, Claim(t))
    ensures Enabled(s2, GoIn(t)) && Inv(s2, l) && LW.OthersAway(Apply(s2, GoIn(t)).list, t)
  {
    InitInv(init, l);
    InvStep(init, l, Begin(t, Sort));
    s1 := Apply(init, Begin(t, Sort));
    InvStep(s1, l, Claim(t));
    s2 := Apply(s1, Claim(t));
  }

  // A call of sort_list comes to its end.
  lemma CallReturns(init: State, l: L.Layout, t: nat) returns (es: seq<Event>)
    requires Init(init, l) && t < |init.threads| && |init.list.next| >= 2
    ensures Returns(init, es, t)
  {
    var s1, s2 := GetsIn(init, l, t);
    InvStep(s2, l, GoIn(t));
    var rest := AloneGetsOut(Apply(s2, GoIn(t)), l, t);
    OneEarlier(s2, GoIn(t), rest, t);
    OneEarlier(s1, Claim(t), [GoIn(t)] + rest, t);
    OneEarlier(init, Begin(t, Sort), [Claim(t)] + ([GoIn(t)] + rest), t);
    es := [Begin(t, Sort)] + ([Claim(t)] + ([GoIn(t)] + rest));
  }

  ghost predicate ReturnsSorted(init: State, l: L.Layout, es: seq<Event>, t: nat)
    requires Init(init, l)
  {
    InitInv(init, l);
    Returns(init, es, t) ==>
      L.Chain(After(init, es).list, AfterLayout(init, l, es)) && StrComp.Sorted(LS.Listed(After(init, es).list, AfterLayout(init, l, es)))
  }

  // Exactly the lists in which nothing but the first pair may be out of order are sorted by the
  // program as written, by whatever number of threads, as long as nothing is pushed.
  lemma AsWrittenSortsIff(init: State, l: L.Layout)
    requires Init(init, l) && |init.threads| > 0
    ensures (forall es, t: nat :: ReturnsSorted(init, l, es, t)) <==> LW.OnlyFirstPairUnsorted(LS.Listed(init.list, l))
  {
    InitInv(init, l);
    LW.FirstPairSorts(LS.Listed(init.list, l));
    if |init.list.next| >= 2 {
      var es0 := CallReturns(init, l, 0);
      AsWrittenReturns(init, l, es0, 0);
      assert ReturnsSorted(init, l, es0, 0) ==> LW.OnlyFirstPairUnsorted(LS.Listed(init.list, l));
    }
    forall es, t: nat | LW.OnlyFirstPairUnsorted(LS.Listed(init.list, l)) ensures ReturnsSorted(init, l, es, t) {
      if Returns(init, es, t) {
        AsWrittenReturns(init, l, es, t);
      }
    }
  }

  // ----- What list_push_front and list_print do -----

  // The call that thread t is in after these events, op being its call before them.
  function CallAfter(op: Op, es: seq<Event>, t: nat): Op
    decreases |es|
  {
    if |es| == 0 then op
    else CallAfter(if es[0].Begin? && es[0].t == t then es[0].op else op, es[1..], t)
  }

  // A thread stays in the call it has begun.
  lemma {:induction false} ThreadsDoWhatTheyCall(s: State, es: seq<Event>, t: nat)
    requires Legal(s, es) && t < |s.threads|
    ensures |After(s, es).threads| == |s.threads| && After(s, es).threads[t].op == CallAfter(s.threads[t].op, es, t)
    decreases |es|
  {
    if |es| > 0 {
      ThreadsDoWhatTheyCall(Apply(s, es[0]), es[1..], t);
    }
  }

  // Whatever else goes on, linking puts the string of the call in front, and no event but an exchange
  // of two strings found out of order changes the list otherwise.
  lemma OnlyLinksAndExchangesChange(s: State, l: L.Layout, e: Event)
    requires Inv(s, l) && Enabled(s, e)
    ensures L.Chain(Apply(s, e).list, NextLayout(s, l, e))
    ensures var xs, xs' := LS.Listed(s.list, l), LS.Listed(Apply(s, e).list, NextLayout(s, l, e));
      if e.Link? then s.threads[e.t].op.Push? && xs' == [s.threads[e.t].op.str] + xs
      else xs' == xs || (e.Walk? && e.step.Exchange? && multiset(xs') == multiset(xs) && StrComp.Inversions(xs') + 1 == StrComp.Inversions(xs))
  {
    InvStep(s, l, e);
    ListMoves(s, l, e);
    if ListEvents(s, e) != [] {
      LS.ListedStep(s.list, l, ListEvents(s, e)[0]);
      if e.Walk? && e.step.Exchange? && LS.Exchanges(s.list, e.step) {
        LS.ExchangeStep(s.list, l, e.step);
      }
    }
  }

  predicate Leads(s: State, es: seq<Event>, r: State) {
    Legal(s, es) && After(s, es) == r
  }

  lemma LeadsFromBefore(s: State, e: Event, es: seq<Event>, r: State)
    requires Enabled(s, e) && Leads(Apply(s, e), es, r)
    ensures Leads(s, [e] + es, r)
  {
    assert ([e] + es)[1..] == es;
  }

  // The only one at work, on its way out.
  predicate AloneOnItsWayOut(s: State, t: nat) {
    && s.status == UPDATING && s.sortingCount == 0 && s.owner == Free && L.Shaped(s.list)
    && t < |s.threads| && s.threads[t].phase == Returning && !s.threads[t].op.Sort?
    && forall u :: 0 <= u < |s.threads| && u != t ==> s.threads[u].phase == Outside
  }

  lemma WayOut(s: State, t: nat) returns (s1: State, s2: State, s3: State, r: State)
    requires AloneOnItsWayOut(s, t)
    ensures Enabled(s, Return(t)) && s1 == Apply(s, Return(t)) && Enabled(s1, Release(t)) && s2 == Apply(s1, Release(t))
    ensures Enabled(s2, Broadcast(t)) && s3 == Apply(s2, Broadcast(t)) && Enabled(s3, Unlock(t)) && r == Apply(s3, Unlock(t))
    ensures r == s.(status := FREE, threads := s.threads[t := s.threads[t].(phase := Outside)])
  {
    s1 := Apply(s, Return(t));
    s2 := Apply(s1, Release(t));
    s3 := Apply(s2, Broadcast(t));
    assert s3.threads == s.threads[t := s.threads[t].(phase := Unlocking)];
    r := Apply(s3, Unlock(t));
  }

  lemma GetsOut(s: State, t: nat) returns (es: seq<Event>, r: State)
    requires AloneOnItsWayOut(s, t)
    ensures Leads(s, es, r) && r == s.(status := FREE, threads := s.threads[t := s.threads[t].(phase := Outside)])
  {
    var s1, s2, s3;
    s1, s2, s3, r := WayOut(s, t);
    assert Leads(r, [], r);
    LeadsFromBefore(s3, Unlock(t), [], r);
    es := [Unlock(t)] + [];
    LeadsFromBefore(s2, Broadcast(t), es, r);
    es := [Broadcast(t)] + es;
    LeadsFromBefore(s1, Release(t), es, r);
    es := [Release(t)] + es;
    LeadsFromBefore(s, Return(t), es, r);
    es := [Return(t)] + es;
  }

  lemma UpdaterGetsIn(init: State, l: L.Layout, t: nat, op: Op) returns (s1: State, s2: State, s3: State)
    requires Init(init, l) && t < |init.threads| && !op.Sort?
    ensures Enabled(init, Begin(t, op)) && s1 == Apply(init, Begin(t, op))
    ensures Enabled(s1, Claim(t)) && s2 == Apply(s1, Claim(t))
    ensures Enabled(s2, GoIn(t)) && s3 == Apply(s2, GoIn(t))
    ensures s3 == init.(status := UPDATING, threads := init.threads[t := Thread(op, Inside)])
  {
    s1 := Apply(init, Begin(t, op));
    s2 := Apply(s1, Claim(t));
    s3 := Apply(s2, GoIn(t));
  }

  lemma LeadsFromCall(init: State, l: L.Layout, t: nat, op: Op, es: seq<Event>, r: State) returns (all: seq<Event>)
    requires Init(init, l) && t < |init.threads| && !op.Sort?
    requires Leads(init.(status := UPDATING, threads := init.threads[t := Thread(op, Inside)]), es, r)
    ensures Leads(init, all, r)
  {
    var s1, s2, s3 := UpdaterGetsIn(init, l, t, op);
    LeadsFromBefore(s2, GoIn(t), es, r);
    LeadsFromBefore(s1, Claim(t), [GoIn(t)] + es, r);
    LeadsFromBefore(init, Begin(t, op), [Claim(t)] + ([GoIn(t)] + es), r);
    all := [Begin(t, op)] + ([Claim(t)] + ([GoIn(t)] + es));
  }

  // The node is linked in and counted.
  lemma PushWorks(s: State, t: nat, str: StrComp.Str) returns (es: seq<Event>, r: State)
    requires s.status == UPDATING && s.sortingCount == 0 && s.owner == Free && L.Shaped(s.list)
    requires t < |s.threads| && s.threads[t] == Thread(Push(str), Inside)
    requires forall u :: 0 <= u < |s.threads| && u != t ==> s.threads[u].phase == Outside
    ensures Leads(s, es, r)
    ensures r == s.(status := FREE, threads := s.threads[t := Thread(Push(str), Outside)], list := L.WithFront(s.list, str), count := s.count + 1)
  {
    var s4 := Apply(s, Link(t));
    var s5 := Apply(s4, Count(t));
    es, r := GetsOut(s5, t);
    LeadsFromBefore(s4, Count(t), es, r);
    LeadsFromBefore(s, Link(t), [Count(t)] + es, r);
    es := [Link(t)] + ([Count(t)] + es);
  }

  // With nobody else at work list_push_front returns, with its string in front and the list at rest.
  lemma PushPutsInFront(init: State, l: L.Layout, t: nat, str: StrComp.Str) returns (es: seq<Event>, l': L.Layout)
    requires Init(init, l) && t < |init.threads|
    ensures Legal(init, es) && Init(After(init, es), l')
    ensures LS.Listed(After(init, es).list, l') == [str] + LS.Listed(init.list, l)
    ensures After(init, es).count == init.count + 1
  {
    LW.PushedInFront(init.list, l, str);
    l' := L.NextLayout(init.list, l, L.PushFront(str));
    var works, r := PushWorks(init.(status := UPDATING, threads := init.threads[t := Thread(Push(str), Inside)]), t, str);
    es := LeadsFromCall(init, l, t, Push(str), works, r);
  }

  // list_print leaves everything as it was.
  lemma PrintChangesNothing(init: State, l: L.Layout, t: nat) returns (es: seq<Event>)
    requires Init(init, l) && t < |init.threads|
    ensures Legal(init, es) && Init(After(init, es), l)
    ensures After(init, es).list == init.list && After(init, es).count == init.count
  {
    var s3 := init.(status := UPDATING, threads := init.threads[t := Thread(Print, Inside)]);
    var s4 := Apply(s3, Printed(t));
    var out, r := GetsOut(s4, t);
    LeadsFromBefore(s3, Printed(t), out, r);
    es := LeadsFromCall(init, l, t, Print, [Printed(t)] + out, r);
  }
}
