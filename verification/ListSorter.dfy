// tasks17_20/task18.c, sort_list: any number of sorters walk one linked list with
// hand-over-hand node locks and exchange neighbours by relinking. When the updaters may link
// a node in is the business of module ListStatus; here they do so while no sorter is inside.
module ListSorter {
  import opened Locks
  import opened StrComp

  const NULL: int := -1

  // Away: outside lines 115-141. AtTerm, AtFirst, AtSecond: at the lock of the list head, of
  // base->next, of base->next->next. Comparing: holds all three. Advancing: about to unlock
  // base and move it on. Deciding: at the loop condition. Finishing: about to unlock base.
  datatype Phase = Away | AtTerm | AtFirst | AtSecond | Comparing | Advancing | Deciding | Finishing

  // passes: iterations of the outer loop to go.
  datatype Sorter = Sorter(passes: nat, phase: Phase, base: nat)

  // Node 0 is the list head `term`; strs[0] is unused.
  datatype State = State(next: seq<int>, strs: seq<Str>, owner: seq<Lock>, sorters: seq<Sorter>)

  datatype Event =
    | Enter(t: nat) | LockTerm(t: nat) | LockFirst(t: nat) | LockSecond(t: nat) | Exchange(t: nat) | Advance(t: nat)
    | Continue(t: nat) | Stop(t: nat) | Finish(t: nat) | Exit(t: nat)
    | PushFront(str: Str)

  predicate Shaped(s: State) {
    0 < |s.next| == |s.strs| == |s.owner|
  }

  predicate Node(s: State, x: int) {
    0 <= x < |s.next|
  }

  // base->next and base->next->next of sorter t.
  function First(s: State, t: nat): int
    requires t < |s.sorters| && Node(s, s.sorters[t].base)
  {
    s.next[s.sorters[t].base]
  }

  function Second(s: State, t: nat): int
    requires t < |s.sorters| && Node(s, s.sorters[t].base) && Node(s, First(s, t))
  {
    s.next[First(s, t)]
  }

  // An event that follows a pointer is enabled only where the pointer leads to a node.
  predicate Enabled(s: State, e: Event) {
    && Shaped(s)
    && match e
       case PushFront(_) => forall t :: 0 <= t < |s.sorters| ==> s.sorters[t].phase == Away
       case Enter(t) => At(s, t, Away) && |s.next| >= 2
       case LockTerm(t) => At(s, t, AtTerm) && s.sorters[t].passes > 0 && s.owner[0] == Free
       case Exit(t) => At(s, t, AtTerm) && s.sorters[t].passes == 0
       case Finish(t) => At(s, t, Finishing) && Node(s, s.sorters[t].base) && s.sorters[t].passes > 0
       case LockFirst(t) => At(s, t, AtFirst) && HasFirst(s, t) && s.owner[First(s, t)] == Free
       case LockSecond(t) => At(s, t, AtSecond) && HasFirst(s, t) && Node(s, Second(s, t)) && s.owner[Second(s, t)] == Free
       case Exchange(t) => At(s, t, Comparing) && HasFirst(s, t) && Node(s, Second(s, t))
       case Advance(t) => At(s, t, Advancing) && HasFirst(s, t)
       case Continue(t) => At(s, t, Deciding) && HasFirst(s, t) && Second(s, t) != NULL
       case Stop(t) => At(s, t, Deciding) && HasFirst(s, t)
  }

  predicate At(s: State, t: nat, phase: Phase) {
    t < |s.sorters| && s.sorters[t].phase == phase
  }

  predicate HasFirst(s: State, t: nat)
    requires t < |s.sorters|
  {
    Node(s, s.sorters[t].base) && Node(s, First(s, t))
  }

  function To(s: State, t: nat, phase: Phase): State
    requires t < |s.sorters|
  {
    s.(sorters := s.sorters[t := s.sorters[t].(phase := phase)])
  }

  function Take(s: State, t: nat, x: nat): State
    requires x < |s.owner|
  {
    s.(owner := s.owner[x := Held(t)])
  }

  function Drop(s: State, x: nat): State
    requires x < |s.owner|
  {
    s.(owner := s.owner[x := Free])
  }

  predicate OutOfOrder(s: State, t: nat)
    requires Enabled(s, Exchange(t))
  {
    Compare(s.strs[First(s, t)], s.strs[Second(s, t)]) == GREATER
  }

  // base->next = second; second->next = first; first->next = tmp
  function Relinked(s: State, t: nat): State
    requires Enabled(s, Exchange(t))
  {
    var base, first, second := s.sorters[t].base, First(s, t), Second(s, t);
    s.(next := s.next[base := second][second := first][first := s.next[second]])
  }

  // new_node->next = term.next; term.next = new_node
  function WithFront(s: State, str: Str): State
    requires Shaped(s)
  {
    s.(next := s.next[0 := |s.next|] + [s.next[0]], strs := s.strs + [str], owner := s.owner + [Free])
  }

  function Apply(s: State, e: Event): State
    requires Enabled(s, e)
  {
    match e
    case Enter(t) => s.(sorters := s.sorters[t := Sorter(|s.next| - 2, AtTerm, 0)])
    case LockTerm(t) => Take(s.(sorters := s.sorters[t := Sorter(s.sorters[t].passes, AtFirst, 0)]), t, 0)
    case LockFirst(t) => Take(To(s, t, AtSecond), t, First(s, t))
    case LockSecond(t) => Take(To(s, t, Comparing), t, Second(s, t))
    case Exchange(t) => To(if OutOfOrder(s, t) then Relinked(s, t) else s, t, Advancing)
    case Advance(t) => Drop(s.(sorters := s.sorters[t := Sorter(s.sorters[t].passes, Deciding, First(s, t))]), s.sorters[t].base)
    case Continue(t) => To(s, t, AtSecond)
    case Stop(t) => Drop(To(s, t, Finishing), First(s, t))
    case Finish(t) => Drop(s.(sorters := s.sorters[t := Sorter(s.sorters[t].passes - 1, AtTerm, 0)]), s.sorters[t].base)
    case Exit(t) => To(s, t, Away)
    case PushFront(str) => WithFront(s, str)
  }

  // list_init: an empty list, nobody inside.
  predicate Init(s: State) {
    && s.next == [NULL] && |s.strs| == 1 && s.owner == [Free]
    && forall t :: 0 <= t < |s.sorters| ==> s.sorters[t].phase == Away
  }

  predicate Legal(s: State, es: seq<Event>)
    decreases |es|
  {
    |es| > 0 ==> Enabled(s, es[0]) && Legal(Apply(s, es[0]), es[1..])
  }

  function After(s: State, es: seq<Event>): State
    requires Legal(s, es)
    decreases |es|
  {
    if |es| == 0 then s else After(Apply(s, es[0]), es[1..])
  }

  // ----- The list behind the pointers -----

  // order[i] is the i-th node from the head on; pos is its inverse.
  datatype Layout = Layout(order: seq<nat>, pos: seq<nat>)

  ghost predicate LinkAt(s: State, l: Layout, i: nat)
    requires |l.order| == |l.pos| == |s.next| && i < |s.next|
  {
    && l.order[i] < |s.next| && l.pos[l.order[i]] == i
    && s.next[l.order[i]] == if i + 1 < |s.next| then l.order[i + 1] else NULL
  }

  ghost predicate PlaceOf(s: State, l: Layout, x: nat)
    requires |l.order| == |l.pos| == |s.next| && x < |s.next|
  {
    l.pos[x] < |s.next| && l.order[l.pos[x]] == x
  }

  // The pointers form one chain from the head to NULL through every node, each once.
  ghost predicate Chain(s: State, l: Layout) {
    && Shaped(s) && |l.order| == |l.pos| == |s.next|
    && l.order[0] == 0
    && (forall i :: 0 <= i < |s.next| ==> LinkAt(s, l, i))
    && (forall x :: 0 <= x < |s.next| ==> PlaceOf(s, l, x))
  }

  // How many nodes, from base on, a sorter holds; and how many it needs there to be.
  function Holds(phase: Phase): nat {
    match phase
    case Away => 0
    case AtTerm => 0
    case AtFirst => 1
    case AtSecond => 2
    case Comparing => 3
    case Advancing => 3
    case Deciding => 2
    case Finishing => 1
  }

  function Needs(phase: Phase): nat {
    if phase.AtFirst? || phase.AtSecond? then 3 else Holds(phase)
  }

  predicate Inside(x: Sorter) {
    Holds(x.phase) > 0
  }

  predicate InWindow(s: State, l: Layout, t: nat, x: nat)
    requires |l.pos| == |s.next| && x < |s.next|
  {
    && t < |s.sorters| && s.sorters[t].base < |s.next|
    && l.pos[s.sorters[t].base] <= l.pos[x] < l.pos[s.sorters[t].base] + Holds(s.sorters[t].phase)
  }

  ghost predicate Owns(s: State, l: Layout, i: int, t: nat) {
    0 <= i < |l.order| && l.order[i] < |s.owner| && s.owner[l.order[i]] == Held(t)
  }

  // Sorter t's window lies on the list, and t owns the nodes in it.
  ghost predicate Window(s: State, l: Layout, t: nat)
    requires |l.pos| == |s.next| && t < |s.sorters|
  {
    var x := s.sorters[t];
    && (Inside(x) ==>
          && x.passes > 0 && x.base < |s.next|
          && var p := l.pos[x.base];
          && p + Needs(x.phase) <= |s.next|
          && (x.phase.AtFirst? ==> p == 0)
          && Owns(s, l, p, t)
          && (Holds(x.phase) > 1 ==> Owns(s, l, p + 1, t))
          && (Holds(x.phase) > 2 ==> Owns(s, l, p + 2, t)))
    && (x.phase != Away ==> x.passes + 2 <= |s.next|)
  }

  ghost predicate OwnedInWindow(s: State, l: Layout, x: nat)
    requires |l.pos| == |s.next| == |s.owner| && x < |s.next|
  {
    s.owner[x].Held? ==> InWindow(s, l, s.owner[x].holder, x)
  }

  ghost predicate Inv(s: State, l: Layout) {
    && Chain(s, l)
    && (forall t :: 0 <= t < |s.sorters| ==> Window(s, l, t))
    && (forall x :: 0 <= x < |s.next| ==> OwnedInWindow(s, l, x))
  }

  // How an event moves the nodes.
  function NextLayout(s: State, l: Layout, e: Event): Layout
    requires Enabled(s, e) && |l.order| == |l.pos| == |s.next|
  {
    if e.Exchange? && OutOfOrder(s, e.t) && s.sorters[e.t].base < |l.pos| && l.pos[s.sorters[e.t].base] + 2 < |l.order| then
      var p, first, second := l.pos[s.sorters[e.t].base], First(s, e.t), Second(s, e.t);
      Layout(l.order[p + 1 := second][p + 2 := first], l.pos[second := p + 1][first := p + 2])
    else if e.PushFront? then
      var n := |l.order|;
      Layout([0, n] + l.order[1..], seq(n + 1, x requires 0 <= x <= n => if x == n then 1 else if x == 0 then 0 else l.pos[x] + 1))
    else l
  }

  // ----- The pointers sorter t follows, read off the layout -----

  lemma Pointers(s: State, l: Layout, t: nat)
    requires Chain(s, l) && t < |s.sorters| && Window(s, l, t) && Inside(s.sorters[t])
    ensures var p := l.pos[s.sorters[t].base];
      && l.order[p] == s.sorters[t].base
      && First(s, t) == (if p + 1 < |s.next| then l.order[p + 1] else NULL)
      && (p + 1 < |s.next| ==> Node(s, First(s, t)) && l.pos[First(s, t)] == p + 1 && Second(s, t) == if p + 2 < |s.next| then l.order[p + 2] else NULL)
      && (p + 2 < |s.next| ==> Node(s, Second(s, t)) && l.pos[Second(s, t)] == p + 2 && s.next[Second(s, t)] == if p + 3 < |s.next| then l.order[p + 3] else NULL)
  {
    var p := l.pos[s.sorters[t].base];
    assert PlaceOf(s, l, s.sorters[t].base) && LinkAt(s, l, p);
    if p + 1 < |s.next| {
      assert LinkAt(s, l, p + 1);
    }
    if p + 2 < |s.next| {
      assert LinkAt(s, l, p + 2);
    }
  }

  lemma SwapKeepsChain(s: State, l: Layout, t: nat)
    requires Chain(s, l) && Enabled(s, Exchange(t)) && Window(s, l, t) && OutOfOrder(s, t)
    ensures Chain(Apply(s, Exchange(t)), NextLayout(s, l, Exchange(t)))
  {
    Pointers(s, l, t);
    var s', l', p := Apply(s, Exchange(t)), NextLayout(s, l, Exchange(t)), l.pos[s.sorters[t].base];
    assert LinkAt(s, l, p) && LinkAt(s, l, p + 1) && LinkAt(s, l, p + 2);
    forall i | 0 <= i < |s'.next| ensures LinkAt(s', l', i) {
      assert LinkAt(s, l, i);
      if i + 1 < |s.next| {
        assert LinkAt(s, l, i + 1);
      }
    }
    forall x | 0 <= x < |s'.next| ensures PlaceOf(s', l', x) {
      assert PlaceOf(s, l, x);
    }
  }

  lemma PushKeepsChain(s: State, l: Layout, str: Str)
    requires Chain(s, l) && Enabled(s, PushFront(str))
    ensures Chain(Apply(s, PushFront(str)), NextLayout(s, l, PushFront(str)))
  {
    var e := PushFront(str);
    var s', l' := Apply(s, e), NextLayout(s, l, e);
    assert LinkAt(s, l, 0);
    forall i | 0 <= i < |s'.next| ensures LinkAt(s', l', i) {
      if i > 0 {
        assert LinkAt(s, l, i - 1);
      }
      if 0 < i < |s.next| {
        assert LinkAt(s, l, i);
      }
    }
    forall x | 0 <= x < |s'.next| ensures PlaceOf(s', l', x) {
      if x < |s.next| {
        assert PlaceOf(s, l, x);
      }
    }
  }

  lemma ChainStep(s: State, l: Layout, e: Event)
    requires Inv(s, l) && Enabled(s, e)
    ensures Chain(Apply(s, e), NextLayout(s, l, e))
  {
    if e.PushFront? {
      PushKeepsChain(s, l, e.str);
    } else if e.Exchange? && OutOfOrder(s, e.t) {
      assert Window(s, l, e.t);
      SwapKeepsChain(s, l, e.t);
    } else {
      var s' := Apply(s, e);
      forall i | 0 <= i < |s'.next| ensures LinkAt(s', l, i) { assert LinkAt(s, l, i); }
      forall x | 0 <= x < |s'.next| ensures PlaceOf(s', l, x) { assert PlaceOf(s, l, x); }
    }
  }

  // ----- The windows -----

  lemma OwnWindowLock(s: State, l: Layout, e: Event)
    requires Chain(s, l) && Enabled(s, e) && (e.LockTerm? || e.LockFirst? || e.LockSecond?) && Window(s, l, e.t)
    ensures Window(Apply(s, e), l, e.t)
  {
    assert LinkAt(s, l, 0);
    if !e.LockTerm? {
      Pointers(s, l, e.t);
    }
  }

  lemma OwnWindowExchange(s: State, l: Layout, t: nat)
    requires Chain(s, l) && Enabled(s, Exchange(t)) && Window(s, l, t)
    ensures Window(Apply(s, Exchange(t)), NextLayout(s, l, Exchange(t)), t)
    ensures NextLayout(s, l, Exchange(t)).pos[s.sorters[t].base] == l.pos[s.sorters[t].base]
  {
    Pointers(s, l, t);
  }

  lemma OwnWindowMove(s: State, l: Layout, e: Event)
    requires Chain(s, l) && Enabled(s, e) && (e.Advance? || e.Continue? || e.Stop?) && Window(s, l, e.t)
    ensures Window(Apply(s, e), l, e.t)
  {
    Pointers(s, l, e.t);
  }

  lemma OwnWindow(s: State, l: Layout, e: Event)
    requires Chain(s, l) && Enabled(s, e) && !e.PushFront? && Window(s, l, e.t)
    ensures Window(Apply(s, e), NextLayout(s, l, e), e.t)
  {
    match e
    case Exchange(t) => OwnWindowExchange(s, l, t);
    case Advance(_) => OwnWindowMove(s, l, e);
    case Continue(_) => OwnWindowMove(s, l, e);
    case Stop(_) => OwnWindowMove(s, l, e);
    case Enter(_) =>
    case Exit(_) =>
    case Finish(_) =>
    case _ => OwnWindowLock(s, l, e);
  }

  // What another sorter owns stays where it is, node for node.
  lemma OwnsKept(s: State, l: Layout, e: Event, i: int, u: nat)
    requires Chain(s, l) && Enabled(s, e) && !e.PushFront? && Window(s, l, e.t)
    requires u != e.t && Owns(s, l, i, u)
    ensures var l' := NextLayout(s, l, e);
      Owns(Apply(s, e), l', i, u) && |l'.pos| == |l.pos| && l'.order[i] == l.order[i] && l'.pos[l.order[i]] == i
  {
    assert LinkAt(s, l, i);
    if Inside(s.sorters[e.t]) {
      Pointers(s, l, e.t);
    }
  }

  lemma OthersWindow(s: State, l: Layout, e: Event, u: nat)
    requires Chain(s, l) && Enabled(s, e) && !e.PushFront? && Window(s, l, e.t)
    requires u < |s.sorters| && u != e.t && Window(s, l, u)
    ensures |NextLayout(s, l, e).pos| == |Apply(s, e).next| && Window(Apply(s, e), NextLayout(s, l, e), u)
    ensures Inside(s.sorters[u]) ==> NextLayout(s, l, e).pos[s.sorters[u].base] == l.pos[s.sorters[u].base]
  {
    var x := s.sorters[u];
    if Inside(x) {
      var p := l.pos[x.base];
      assert PlaceOf(s, l, x.base);
      OwnsKept(s, l, e, p, u);
      if Holds(x.phase) > 1 {
        OwnsKept(s, l, e, p + 1, u);
      }
      if Holds(x.phase) > 2 {
        OwnsKept(s, l, e, p + 2, u);
      }
    }
  }

  lemma OwnedByOther(s: State, l: Layout, e: Event, x: nat)
    requires Chain(s, l) && Enabled(s, e) && !e.PushFront? && Window(s, l, e.t)
    requires x < |s.next| && OwnedInWindow(s, l, x) && s.owner[x].Held? && s.owner[x].holder != e.t
    requires s.owner[x].holder < |s.sorters| && Window(s, l, s.owner[x].holder)
    ensures var l' := NextLayout(s, l, e);
      |l'.pos| == |s.next| == |Apply(s, e).next| == |Apply(s, e).owner| && OwnedInWindow(Apply(s, e), l', x)
  {
    var u := s.owner[x].holder;
    assert PlaceOf(s, l, x);
    OwnsKept(s, l, e, l.pos[x], u);
    OthersWindow(s, l, e, u);
  }

  lemma OwnedByExchanger(s: State, l: Layout, t: nat, x: nat)
    requires Chain(s, l) && Enabled(s, Exchange(t)) && Window(s, l, t)
    requires x < |s.next| && OwnedInWindow(s, l, x) && s.owner[x] == Held(t)
    ensures var s', l' := Apply(s, Exchange(t)), NextLayout(s, l, Exchange(t));
      |l'.pos| == |s.next| == |s'.next| == |s'.owner| && OwnedInWindow(s', l', x)
  {
    assert PlaceOf(s, l, x);
    Pointers(s, l, t);
  }

  lemma OwnedBySelf(s: State, l: Layout, e: Event, x: nat)
    requires Chain(s, l) && Enabled(s, e) && !e.PushFront? && !e.Exchange? && Window(s, l, e.t)
    requires x < |s.next| && OwnedInWindow(s, l, x) && Apply(s, e).owner[x] == Held(e.t)
    ensures var l' := NextLayout(s, l, e);
      |l'.pos| == |s.next| == |Apply(s, e).next| == |Apply(s, e).owner| && OwnedInWindow(Apply(s, e), l', x)
  {
    assert LinkAt(s, l, 0) && PlaceOf(s, l, x);
    if Inside(s.sorters[e.t]) {
      Pointers(s, l, e.t);
    }
  }

  lemma OwnedStep(s: State, l: Layout, e: Event, x: nat)
    requires Inv(s, l) && Enabled(s, e) && !e.PushFront? && x < |s.next|
    ensures Chain(Apply(s, e), NextLayout(s, l, e)) && |Apply(s, e).next| == |s.next| && OwnedInWindow(Apply(s, e), NextLayout(s, l, e), x)
  {
    ChainStep(s, l, e);
    assert Window(s, l, e.t) && OwnedInWindow(s, l, x);
    var h := Apply(s, e).owner[x];
    if e.Exchange? && h == Held(e.t) {
      OwnedByExchanger(s, l, e.t, x);
    } else if h == Held(e.t) {
      OwnedBySelf(s, l, e, x);
    } else if h.Held? {
      assert Window(s, l, h.holder);
      OwnedByOther(s, l, e, x);
    }
  }

  lemma PushStep(s: State, l: Layout, str: Str)
    requires Inv(s, l) && Enabled(s, PushFront(str))
    ensures Inv(Apply(s, PushFront(str)), NextLayout(s, l, PushFront(str)))
  {
    var s', l' := Apply(s, PushFront(str)), NextLayout(s, l, PushFront(str));
    PushKeepsChain(s, l, str);
    forall t | 0 <= t < |s'.sorters| ensures Window(s', l', t) { assert Window(s, l, t); }
    forall x | 0 <= x < |s'.next| ensures OwnedInWindow(s', l', x) {
      if x < |s.next| {
        assert OwnedInWindow(s, l, x);
      }
    }
  }

  lemma InvStep(s: State, l: Layout, e: Event)
    requires Inv(s, l) && Enabled(s, e)
    ensures Inv(Apply(s, e), NextLayout(s, l, e))
  {
    if e.PushFront? {
      PushStep(s, l, e.str);
    } else {
      var s', l' := Apply(s, e), NextLayout(s, l, e);
      ChainStep(s, l, e);
      assert Window(s, l, e.t);
      forall u | 0 <= u < |s'.sorters| ensures Window(s', l', u) {
        if u == e.t {
          OwnWindow(s, l, e);
        } else {
          assert Window(s, l, u);
          OthersWindow(s, l, e, u);
        }
      }
      forall x | 0 <= x < |s'.next| ensures OwnedInWindow(s', l', x) {
        OwnedStep(s, l, e, x);
      }
    }
  }
}
