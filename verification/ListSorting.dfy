// tasks17_20/task18.c: what the sorters of module ListSorter achieve together.
module ListSorting {
  import opened Locks
  import opened StrComp
  import opened Sums
  import opened ListSorter

  // ----- Runs -----

  function AfterLayout(s: State, l: Layout, es: seq<Event>): Layout
    requires Inv(s, l) && Legal(s, es)
    decreases |es|
  {
    if |es| == 0 then l
    else
      InvStep(s, l, es[0]);
      AfterLayout(Apply(s, es[0]), NextLayout(s, l, es[0]), es[1..])
  }

  lemma {:induction false} InvRun(s: State, l: Layout, es: seq<Event>)
    requires Inv(s, l) && Legal(s, es)
    ensures Inv(After(s, es), AfterLayout(s, l, es))
    decreases |es|
  {
    if |es| > 0 {
      InvStep(s, l, es[0]);
      InvRun(Apply(s, es[0]), NextLayout(s, l, es[0]), es[1..]);
    }
  }

  lemma InitInv(s: State)
    requires Init(s)
    ensures Inv(s, Layout([0], [0]))
  {
    var l := Layout([0], [0]);
    assert LinkAt(s, l, 0) && PlaceOf(s, l, 0);
    forall t | 0 <= t < |s.sorters| ensures Window(s, l, t) {}
    assert OwnedInWindow(s, l, 0);
  }

  // Under every interleaving of any number of sorters the pointers form one
  // chain from the head to NULL that visits every node exactly once.
  lemma AlwaysOneChain(init: State, es: seq<Event>) returns (l: Layout)
    requires Init(init) && Legal(init, es)
    ensures Inv(After(init, es), l)
  {
    InitInv(init);
    InvRun(init, Layout([0], [0]), es);
    l := AfterLayout(init, Layout([0], [0]), es);
  }

  // ----- The strings in list order -----

  ghost function Listed(s: State, l: Layout): seq<Str>
    requires Chain(s, l)
  {
    seq(|s.next| - 1, i requires 0 <= i < |s.next| - 1 => assert LinkAt(s, l, i + 1); s.strs[l.order[i + 1]])
  }

  predicate Exchanges(s: State, e: Event) {
    Enabled(s, e) && e.Exchange? && OutOfOrder(s, e.t)
  }

  lemma ListedPush(s: State, l: Layout, str: Str)
    requires Chain(s, l) && Enabled(s, PushFront(str))
    requires Chain(Apply(s, PushFront(str)), NextLayout(s, l, PushFront(str)))
    ensures Listed(Apply(s, PushFront(str)), NextLayout(s, l, PushFront(str))) == [str] + Listed(s, l)
  {
    var xs, xs' := Listed(s, l), Listed(Apply(s, PushFront(str)), NextLayout(s, l, PushFront(str)));
    forall i | 0 < i < |xs'| ensures xs'[i] == xs[i - 1] {
      assert LinkAt(s, l, i);
    }
  }

  // A sorter's event leaves the list as it is or exchanges two neighbours that
  // str_comp finds out of order; a push puts its string in front.
  lemma ListedStep(s: State, l: Layout, e: Event)
    requires Inv(s, l) && Enabled(s, e)
    ensures Chain(Apply(s, e), NextLayout(s, l, e))
    ensures var xs, xs' := Listed(s, l), Listed(Apply(s, e), NextLayout(s, l, e));
      if e.PushFront? then xs' == [e.str] + xs
      else if Exchanges(s, e) then
        var p := l.pos[s.sorters[e.t].base];
        p + 1 < |xs| && Compare(xs[p], xs[p + 1]) == GREATER && xs' == Swapped(xs, p)
      else xs' == xs
  {
    ChainStep(s, l, e);
    var s', l' := Apply(s, e), NextLayout(s, l, e);
    if e.PushFront? {
      ListedPush(s, l, e.str);
    } else if Exchanges(s, e) {
      assert Window(s, l, e.t);
      Pointers(s, l, e.t);
      assert Listed(s', l') == Swapped(Listed(s, l), l.pos[s.sorters[e.t].base]);
    } else {
      assert Listed(s', l') == Listed(s, l);
    }
  }

  // Each exchange keeps the strings and removes exactly one inversion.
  lemma ExchangeStep(s: State, l: Layout, e: Event)
    requires Inv(s, l) && Enabled(s, e) && !e.PushFront?
    ensures Chain(Apply(s, e), NextLayout(s, l, e))
    ensures var xs, xs' := Listed(s, l), Listed(Apply(s, e), NextLayout(s, l, e));
      && multiset(xs') == multiset(xs)
      && Inversions(xs') + (if Exchanges(s, e) then 1 else 0) == Inversions(xs)
  {
    ListedStep(s, l, e);
    if Exchanges(s, e) {
      SwapRemovesOne(Listed(s, l), l.pos[s.sorters[e.t].base]);
    }
  }

  function ExchangesIn(s: State, es: seq<Event>): nat
    requires Legal(s, es)
    decreases |es|
  {
    if |es| == 0 then 0 else (if Exchanges(s, es[0]) then 1 else 0) + ExchangesIn(Apply(s, es[0]), es[1..])
  }

  predicate NoPush(es: seq<Event>) {
    forall i :: 0 <= i < |es| ==> !es[i].PushFront?
  }

  // Over any run of sorters the list is permuted, and as many inversions
  // disappear as neighbours were exchanged.
  lemma {:induction false} RunsOnlyRemoveInversions(s: State, l: Layout, es: seq<Event>)
    requires Inv(s, l) && Legal(s, es) && NoPush(es)
    ensures Chain(After(s, es), AfterLayout(s, l, es))
    ensures var xs, xs' := Listed(s, l), Listed(After(s, es), AfterLayout(s, l, es));
      multiset(xs') == multiset(xs) && Inversions(xs') + ExchangesIn(s, es) == Inversions(xs)
    decreases |es|
  {
    if |es| > 0 {
      InvStep(s, l, es[0]);
      ExchangeStep(s, l, es[0]);
      RunsOnlyRemoveInversions(Apply(s, es[0]), NextLayout(s, l, es[0]), es[1..]);
    }
  }

  // A `next` field is written only by the holder of its node's mutex, or by an
  // updater while no sorter is inside.
  lemma WritersHoldTheLock(s: State, l: Layout, e: Event, x: nat)
    requires Inv(s, l) && Enabled(s, e) && x < |s.next| && Apply(s, e).next[x] != s.next[x]
    ensures if e.PushFront? then forall t :: 0 <= t < |s.sorters| ==> s.sorters[t].phase == Away else s.owner[x] == Held(e.t)
  {
    if e.Exchange? {
      assert Window(s, l, e.t);
      Pointers(s, l, e.t);
    }
  }

  // ----- The sorters along the list -----

  ghost predicate Ahead(s: State, l: Layout, u: nat, t: nat)
    requires |l.pos| == |s.next|
  {
    && t < |s.sorters| && u < |s.sorters| && Inside(s.sorters[t]) && Inside(s.sorters[u])
    && s.sorters[t].base < |s.next| && s.sorters[u].base < |s.next|
    && l.pos[s.sorters[t].base] + Holds(s.sorters[t].phase) <= l.pos[s.sorters[u].base]
  }

  // The held windows are disjoint and ordered along the list.
  lemma WindowsAreOrdered(s: State, l: Layout, t: nat, u: nat)
    requires Inv(s, l) && t < |s.sorters| && u < |s.sorters| && t != u && Inside(s.sorters[t]) && Inside(s.sorters[u])
    ensures Ahead(s, l, u, t) || Ahead(s, l, t, u)
  {
    assert Window(s, l, t) && Window(s, l, u);
    var q := if l.pos[s.sorters[t].base] <= l.pos[s.sorters[u].base] then l.pos[s.sorters[u].base] else l.pos[s.sorters[t].base];
    assert !(Owns(s, l, q, t) && Owns(s, l, q, u));
  }

  // A sorter that stays inside moves by one node when it advances, and not otherwise.
  lemma PlaceAfter(s: State, l: Layout, e: Event, t: nat)
    requires Inv(s, l) && Enabled(s, e) && t < |s.sorters| && Inside(s.sorters[t]) && Inside(Apply(s, e).sorters[t])
    ensures |NextLayout(s, l, e).pos| == |l.pos| == |Apply(s, e).next|
    ensures Apply(s, e).sorters[t].base < |l.pos| && s.sorters[t].base < |l.pos|
    ensures NextLayout(s, l, e).pos[Apply(s, e).sorters[t].base] == l.pos[s.sorters[t].base] + if e == Advance(t) then 1 else 0
  {
    assert Window(s, l, t) && Window(s, l, e.t);
    if e.t != t {
      OthersWindow(s, l, e, t);
    } else {
      OwnPlace(s, l, e);
    }
  }

  lemma OwnPlace(s: State, l: Layout, e: Event)
    requires Chain(s, l) && Enabled(s, e) && !e.PushFront? && Window(s, l, e.t)
    requires Inside(s.sorters[e.t]) && Inside(Apply(s, e).sorters[e.t])
    ensures |NextLayout(s, l, e).pos| == |l.pos| == |Apply(s, e).next|
    ensures Apply(s, e).sorters[e.t].base < |l.pos|
    ensures NextLayout(s, l, e).pos[Apply(s, e).sorters[e.t].base] == l.pos[s.sorters[e.t].base] + if e.Advance? then 1 else 0
  {
    Pointers(s, l, e.t);
    if e.Exchange? {
      OwnWindowExchange(s, l, e.t);
    }
  }

  // No sorter overtakes another.
  lemma NoOvertaking(s: State, l: Layout, e: Event, t: nat, u: nat)
    requires Inv(s, l) && Enabled(s, e) && Ahead(s, l, u, t)
    requires Inside(Apply(s, e).sorters[t]) && Inside(Apply(s, e).sorters[u])
    ensures |NextLayout(s, l, e).pos| == |Apply(s, e).next| && Ahead(Apply(s, e), NextLayout(s, l, e), u, t)
  {
    InvStep(s, l, e);
    PlaceAfter(s, l, e, t);
    PlaceAfter(s, l, e, u);
    WindowsAreOrdered(Apply(s, e), NextLayout(s, l, e), t, u);
  }

  // The node a waiting sorter must lock next.
  function Wanted(s: State, t: nat): int
    requires Shaped(s) && t < |s.sorters|
  {
    var x := s.sorters[t];
    if x.phase == AtTerm then 0
    else if x.phase == AtFirst && Node(s, x.base) then First(s, t)
    else if x.phase == AtSecond && Node(s, x.base) && Node(s, First(s, t)) then Second(s, t)
    else NULL
  }

  // Nobody else's step changes which node a waiting sorter must lock next.
  lemma WantedIsStable(s: State, l: Layout, e: Event, u: nat)
    requires Inv(s, l) && Enabled(s, e) && !e.PushFront? && u < |s.sorters| && u != e.t
    ensures Wanted(Apply(s, e), u) == Wanted(s, u)
  {
    if Inside(s.sorters[u]) {
      SorterKept(s, e, u);
      assert Window(s, l, u);
      Pointers(s, l, u);
      NextKept(s, l, e, s.sorters[u].base, u);
      if Holds(s.sorters[u].phase) > 1 {
        NextKept(s, l, e, First(s, u), u);
      }
    }
  }

  lemma SorterKept(s: State, e: Event, u: nat)
    requires Enabled(s, e) && !e.PushFront? && u < |s.sorters| && u != e.t
    ensures |Apply(s, e).sorters| == |s.sorters| && Apply(s, e).sorters[u] == s.sorters[u]
  {
  }

  lemma NextKept(s: State, l: Layout, e: Event, x: nat, u: nat)
    requires Inv(s, l) && Enabled(s, e) && !e.PushFront? && x < |s.next| && s.owner[x] == Held(u) && u != e.t
    ensures |Apply(s, e).next| == |s.next| && Apply(s, e).next[x] == s.next[x]
  {
    if Apply(s, e).next[x] != s.next[x] {
      WritersHoldTheLock(s, l, e, x);
    }
  }

  // ----- No deadlock -----

  // The sorter inside that is furthest along, among the first k.
  lemma {:induction false} FrontMost(s: State, l: Layout, k: nat) returns (t: nat)
    requires Inv(s, l) && k <= |s.sorters| && exists u :: 0 <= u < k && Inside(s.sorters[u])
    ensures t < k && Inside(s.sorters[t])
    ensures forall u :: 0 <= u < k && Inside(s.sorters[u]) ==> u == t || Ahead(s, l, t, u)
  {
    if u :| 0 <= u < k - 1 && Inside(s.sorters[u]) {
      t := FrontMost(s, l, k - 1);
      if Inside(s.sorters[k - 1]) {
        WindowsAreOrdered(s, l, t, k - 1);
        assert Window(s, l, t) && Window(s, l, k - 1);
        t := if Ahead(s, l, k - 1, t) then k - 1 else t;
      }
    } else {
      t := k - 1;
    }
  }

  function NextEvent(s: State, t: nat): Event
    requires t < |s.sorters|
  {
    match s.sorters[t].phase
    case Away => Enter(t)
    case AtTerm => if s.sorters[t].passes > 0 then LockTerm(t) else Exit(t)
    case AtFirst => LockFirst(t)
    case AtSecond => LockSecond(t)
    case Comparing => Exchange(t)
    case Advancing => Advance(t)
    case Deciding => Stop(t)
    case Finishing => Finish(t)
  }

  // Nobody owns a node beyond the front-most sorter's window, so it can always step; in
  // particular every pointer it follows leads to a node.
  lemma FrontMostSteps(s: State, l: Layout, t: nat)
    requires Inv(s, l) && t < |s.sorters| && Inside(s.sorters[t])
    requires forall u :: 0 <= u < |s.sorters| && Inside(s.sorters[u]) ==> u == t || Ahead(s, l, t, u)
    ensures Enabled(s, NextEvent(s, t))
  {
    assert Window(s, l, t);
    Pointers(s, l, t);
    var w := Wanted(s, t);
    if s.sorters[t].phase.AtFirst? || s.sorters[t].phase.AtSecond? {
      assert OwnedInWindow(s, l, w);
    }
  }

  // As long as a sorter has not left, some sorter that has not left can step.
  lemma NoDeadlock(s: State, l: Layout, t: nat) returns (e: Event)
    requires Inv(s, l) && t < |s.sorters| && s.sorters[t].phase != Away
    ensures Enabled(s, e) && !e.PushFront? && s.sorters[e.t].phase != Away
  {
    if u :| 0 <= u < |s.sorters| && Inside(s.sorters[u]) {
      var f := FrontMost(s, l, |s.sorters|);
      FrontMostSteps(s, l, f);
      e := NextEvent(s, f);
    } else {
      assert OwnedInWindow(s, l, 0);
      e := NextEvent(s, t);
    }
  }

  // ----- No NULL -----

  // What sorter t dereferences next is a node.
  predicate FollowsNodes(s: State, t: nat)
    requires t < |s.sorters|
  {
    match s.sorters[t].phase
    case Away => true
    case AtTerm => Node(s, 0)
    case Finishing => Node(s, s.sorters[t].base)
    case AtSecond => HasFirst(s, t) && Node(s, Second(s, t))
    case Comparing => HasFirst(s, t) && Node(s, Second(s, t))
    case _ => HasFirst(s, t)
  }

  // No sorter ever follows NULL: the model's not being enabled there hides no crash. What stops a
  // sorter that is at work is the lock of a node, and another sorter holds it.
  lemma OnlyLocksStop(s: State, l: Layout, t: nat)
    requires Inv(s, l) && t < |s.sorters| && s.sorters[t].phase != Away
    ensures FollowsNodes(s, t)
    ensures !Enabled(s, NextEvent(s, t)) ==>
              && Node(s, Wanted(s, t)) && s.owner[Wanted(s, t)].Held?
              && s.owner[Wanted(s, t)].holder != t && InWindow(s, l, s.owner[Wanted(s, t)].holder, Wanted(s, t))
  {
    assert Window(s, l, t);
    if Inside(s.sorters[t]) {
      Pointers(s, l, t);
    }
    if !Enabled(s, NextEvent(s, t)) {
      assert OwnedInWindow(s, l, Wanted(s, t));
    }
  }

  // ----- How long sorters can be at work -----

  ghost predicate NobodyInside(s: State) {
    forall t :: 0 <= t < |s.sorters| ==> s.sorters[t].phase == Away
  }

  // More than the steps of k passes over n nodes.
  function PassesCost(k: nat, n: nat): nat {
    if k == 0 then 0 else PassesCost(k - 1, n) + 4 * n + 1
  }

  // The steps that sorter x, with its base at place p, can still make before it returns.
  function SorterEnergy(n: nat, x: Sorter, p: nat): nat {
    var rest := if x.passes > 0 then PassesCost(x.passes - 1, n) else 0;
    var walk := if p < n then 4 * (n - p) else 4;
    match x.phase
    case Away => 0
    case AtTerm => PassesCost(x.passes, n) + 1
    case AtFirst => rest + walk
    case AtSecond => rest + walk - 1
    case Comparing => rest + walk - 2
    case Advancing => rest + walk - 3
    case Deciding => rest + walk
    case Finishing => rest + 2
  }

  function EnergyOf(s: State, l: Layout, t: nat): nat
    requires t < |s.sorters|
  {
    var x := s.sorters[t];
    SorterEnergy(|s.next|, x, if x.base < |l.pos| then l.pos[x.base] else 0)
  }

  function Itself(x: nat): nat {
    x
  }

  function Energies(s: State, l: Layout): seq<nat> {
    seq(|s.sorters|, t requires 0 <= t < |s.sorters| => EnergyOf(s, l, t))
  }

  function Energy(s: State, l: Layout): nat {
    Sum(Energies(s, l), Itself)
  }

  // A call of sort_list on n nodes: its n - 2 passes, coming in and going out.
  function CallCost(n: nat): nat {
    if n >= 2 then PassesCost(n - 2, n) + 2 else 2
  }

  // Coming in, the first lock, and leaving a pass or the list.
  lemma EnergyAtTheEnds(s: State, l: Layout, e: Event)
    requires Inv(s, l) && Enabled(s, e) && (e.Enter? || e.LockTerm? || e.Finish? || e.Exit?)
    ensures EnergyOf(Apply(s, e), l, e.t) + 1 <= EnergyOf(s, l, e.t) + if e.Enter? then CallCost(|s.next|) else 0
  {
    assert LinkAt(s, l, 0);
  }

  // What a step within a pass makes of its sorter.
  lemma PhaseAfter(s: State, e: Event)
    requires Enabled(s, e) && !e.PushFront? && Inside(s.sorters[e.t]) && !e.Finish?
    ensures var x, x' := s.sorters[e.t], Apply(s, e).sorters[e.t];
      && x'.passes == x.passes && Inside(x')
      && (match e
          case LockFirst(_) => x.phase == AtFirst && x'.phase == AtSecond
          case LockSecond(_) => x.phase == AtSecond && x'.phase == Comparing
          case Exchange(_) => x.phase == Comparing && x'.phase == Advancing
          case Advance(_) => x.phase == Advancing && x'.phase == Deciding
          case Continue(_) => x.phase == Deciding && x'.phase == AtSecond
          case Stop(_) => x.phase == Deciding && x'.phase == Finishing
          case _ => false)
  {
  }

  lemma EnergyWithin(s: State, l: Layout, e: Event)
    requires Inv(s, l) && Enabled(s, e) && !e.PushFront? && Inside(s.sorters[e.t]) && !e.Finish?
    ensures EnergyOf(Apply(s, e), NextLayout(s, l, e), e.t) + 1 <= EnergyOf(s, l, e.t)
  {
    PhaseAfter(s, e);
    PlaceAfter(s, l, e, e.t);
    assert Window(s, l, e.t);
  }

  lemma OwnEnergy(s: State, l: Layout, e: Event)
    requires Inv(s, l) && Enabled(s, e) && !e.PushFront?
    ensures EnergyOf(Apply(s, e), NextLayout(s, l, e), e.t) + 1 <= EnergyOf(s, l, e.t) + if e.Enter? then CallCost(|s.next|) else 0
  {
    match e
    case Enter(_) => EnergyAtTheEnds(s, l, e);
    case LockTerm(_) => EnergyAtTheEnds(s, l, e);
    case Finish(_) => EnergyAtTheEnds(s, l, e);
    case Exit(_) => EnergyAtTheEnds(s, l, e);
    case _ => EnergyWithin(s, l, e);
  }

  lemma OthersEnergy(s: State, l: Layout, e: Event, u: nat)
    requires Inv(s, l) && Enabled(s, e) && !e.PushFront? && u < |s.sorters| && u != e.t
    ensures |Apply(s, e).sorters| == |s.sorters| && EnergyOf(Apply(s, e), NextLayout(s, l, e), u) == EnergyOf(s, l, u)
  {
    assert Window(s, l, e.t) && Window(s, l, u);
    OthersWindow(s, l, e, u);
  }

  lemma EnergyStep(s: State, l: Layout, e: Event)
    requires Inv(s, l) && Enabled(s, e) && !e.PushFront?
    ensures |Apply(s, e).next| == |s.next|
    ensures Energy(Apply(s, e), NextLayout(s, l, e)) + 1 <= Energy(s, l) + if e.Enter? then CallCost(|s.next|) else 0
  {
    var s', l' := Apply(s, e), NextLayout(s, l, e);
    OwnEnergy(s, l, e);
    forall u | 0 <= u < |s.sorters| && u != e.t ensures |s'.sorters| == |s.sorters| && EnergyOf(s', l', u) == EnergyOf(s, l, u) {
      OthersEnergy(s, l, e, u);
    }
    SumUpdate(Energies(s, l), e.t, EnergyOf(s', l', e.t), Itself);
    assert Energies(s', l') == Energies(s, l)[e.t := EnergyOf(s', l', e.t)];
  }

  lemma {:induction false} PassesCostIs(k: nat, n: nat)
    ensures PassesCost(k, n) == k * (4 * n + 1)
  {
    if k > 0 {
      PassesCostIs(k - 1, n);
      assert k * (4 * n + 1) == (k - 1) * (4 * n + 1) + (4 * n + 1);
    }
  }

  function CallsIn(es: seq<Event>): nat {
    if |es| == 0 then 0 else (if es[0].Enter? then 1 else 0) + CallsIn(es[1..])
  }

  // What the calls begun in a run may cost together.
  function Budget(n: nat, es: seq<Event>): nat {
    if |es| == 0 then 0 else (if es[0].Enter? then CallCost(n) else 0) + Budget(n, es[1..])
  }

  lemma {:induction false} BudgetIs(n: nat, es: seq<Event>)
    ensures Budget(n, es) == CallsIn(es) * CallCost(n)
  {
    if |es| > 0 {
      BudgetIs(n, es[1..]);
    }
  }

  lemma {:induction false} EnergyRun(s: State, l: Layout, es: seq<Event>)
    requires Inv(s, l) && Legal(s, es) && NoPush(es)
    ensures |es| + Energy(After(s, es), AfterLayout(s, l, es)) <= Energy(s, l) + Budget(|s.next|, es)
    decreases |es|
  {
    if |es| > 0 {
      InvStep(s, l, es[0]);
      EnergyStep(s, l, es[0]);
      EnergyRun(Apply(s, es[0]), NextLayout(s, l, es[0]), es[1..]);
    }
  }

  lemma NobodyHasEnergy(s: State, l: Layout)
    requires NobodyInside(s)
    ensures Energy(s, l) == 0
  {
    forall t | 0 <= t < |Energies(s, l)| ensures Itself(Energies(s, l)[t]) == 0 {
      assert EnergyOf(s, l, t) == 0;
    }
    SumZero(Energies(s, l), Itself);
  }

  // However many sorters there are and however they interleave, each call of sort_list on a list
  // of n nodes (the head included) costs no more than n - 2 passes of 4 n + 1 steps: without new
  // calls every run ends.
  lemma RunsAreBounded(s: State, l: Layout, es: seq<Event>)
    requires Inv(s, l) && Legal(s, es) && NoPush(es) && |s.next| >= 2
    ensures |es| <= Energy(s, l) + CallsIn(es) * CallCost(|s.next|)
    ensures NobodyInside(s) ==> Energy(s, l) == 0
    ensures var n := |s.next|; CallCost(n) == (n - 2) * (4 * n + 1) + 2
  {
    EnergyRun(s, l, es);
    BudgetIs(|s.next|, es);
    PassesCostIs(|s.next| - 2, |s.next|);
    if NobodyInside(s) {
      NobodyHasEnergy(s, l);
    }
  }
}
