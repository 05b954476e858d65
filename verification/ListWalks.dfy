// tasks17_20/task18.c:120-141: how far a walk goes, and what that means for the result.
// The loop condition at line 137 ends every walk after its first pair; a walk to the end of
// the list was meant. Both readings are runs of module ListSorter.
module ListWalks {
  import opened StrComp
  import opened ListSorter
  import opened ListSorting

  // ----- As written -----

  // is_end at line 133 is computed after the exchange, while the sorter holds three nodes; it
  // is then never true, so `while(is_end)` never repeats.
  lemma IsEndIsNeverTrue(s: State, l: Layout, t: nat)
    requires Inv(s, l) && t < |s.sorters| && s.sorters[t].phase == Advancing
    ensures Node(s, s.sorters[t].base) && Node(s, First(s, t)) && Second(s, t) != NULL
  {
    assert Window(s, l, t);
    Pointers(s, l, t);
  }

  predicate NoContinue(es: seq<Event>) {
    forall i :: 0 <= i < |es| ==> !es[i].Continue? && !es[i].PushFront?
  }

  predicate AtHead(s: State, t: nat)
    requires t < |s.sorters|
  {
    var x := s.sorters[t];
    x.phase.AtFirst? || x.phase.AtSecond? || x.phase.Comparing? || x.phase.Advancing? ==> x.base == 0
  }

  ghost predicate AllAtHead(s: State) {
    forall t :: 0 <= t < |s.sorters| ==> AtHead(s, t)
  }

  lemma AtHeadStep(s: State, e: Event)
    requires AllAtHead(s) && Enabled(s, e) && !e.Continue?
    ensures AllAtHead(Apply(s, e))
  {
    var s' := Apply(s, e);
    forall t | 0 <= t < |s'.sorters| ensures AtHead(s', t) { assert AtHead(s, t); }
  }

  // The list with its first two strings in order.
  function FirstPairInOrder(xs: seq<Str>): seq<Str> {
    if |xs| >= 2 && Compare(xs[0], xs[1]) == GREATER then Swapped(xs, 0) else xs
  }

  lemma OnceIsEnough(xs: seq<Str>)
    ensures FirstPairInOrder(FirstPairInOrder(xs)) == FirstPairInOrder(xs)
  {
    if |xs| >= 2 {
      Antisymmetric(xs[0], xs[1]);
    }
  }

  // Sorter x has compared in a list of n nodes since it came in.
  predicate HasCompared(x: Sorter, n: nat) {
    x.phase != Away && (x.passes + 2 < n || x.phase.Advancing? || x.phase.Deciding? || x.phase.Finishing?)
  }

  ghost predicate ComparedInOrder(s: State, xs: seq<Str>) {
    forall t :: 0 <= t < |s.sorters| && HasCompared(s.sorters[t], |s.next|) ==> FirstPairInOrder(xs) == xs
  }

  lemma ComparedStep(s: State, l: Layout, e: Event)
    requires Inv(s, l) && AllAtHead(s) && Enabled(s, e) && !e.PushFront? && ComparedInOrder(s, Listed(s, l))
    ensures Chain(Apply(s, e), NextLayout(s, l, e))
    ensures var xs' := Listed(Apply(s, e), NextLayout(s, l, e));
      && (xs' == Listed(s, l) || xs' == FirstPairInOrder(Listed(s, l)))
      && ComparedInOrder(Apply(s, e), xs')
  {
    var xs := Listed(s, l);
    ListedStep(s, l, e);
    OnceIsEnough(xs);
    assert AtHead(s, e.t) && LinkAt(s, l, 0) && Window(s, l, e.t);
    if e.Exchange? {
      Pointers(s, l, e.t);
    }
  }

  // As written, sorters only ever put the first two strings in order: at any time the list is
  // the one they found or that one with its first pair in order; the latter, if some sorter
  // has compared.
  lemma {:induction false} AsWrittenOnlyTheFirstPairMoves(s: State, l: Layout, es: seq<Event>)
    requires Inv(s, l) && AllAtHead(s) && ComparedInOrder(s, Listed(s, l)) && Legal(s, es) && NoContinue(es)
    ensures Chain(After(s, es), AfterLayout(s, l, es)) && |After(s, es).next| == |s.next|
    ensures var xs, xs' := Listed(s, l), Listed(After(s, es), AfterLayout(s, l, es));
      && (xs' == xs || xs' == FirstPairInOrder(xs))
      && ComparedInOrder(After(s, es), xs')
    decreases |es|
  {
    if |es| > 0 {
      InvStep(s, l, es[0]);
      ComparedStep(s, l, es[0]);
      AtHeadStep(s, es[0]);
      OnceIsEnough(Listed(s, l));
      AsWrittenOnlyTheFirstPairMoves(Apply(s, es[0]), NextLayout(s, l, es[0]), es[1..]);
    }
  }

  // What a call of sort_list leaves: whenever one is about to return, whatever others do, the
  // list is the one the sorters found with its first pair in order.
  lemma AsWrittenReturns(s: State, l: Layout, es: seq<Event>, t: nat)
    requires Inv(s, l) && NobodyInside(s) && Legal(s, es) && NoContinue(es) && Enabled(After(s, es), Exit(t))
    ensures Chain(After(s, es), AfterLayout(s, l, es))
    ensures Listed(After(s, es), AfterLayout(s, l, es)) == FirstPairInOrder(Listed(s, l))
  {
    forall u | 0 <= u < |s.sorters| ensures AtHead(s, u) {}
    AsWrittenOnlyTheFirstPairMoves(s, l, es);
    InvRun(s, l, es);
    assert Window(After(s, es), AfterLayout(s, l, es), t);
  }

  predicate OthersAway(s: State, t: nat) {
    t < |s.sorters| && forall u :: 0 <= u < |s.sorters| && u != t ==> s.sorters[u].phase == Away
  }

  lemma AloneSteps(s: State, l: Layout, t: nat)
    requires Inv(s, l) && OthersAway(s, t) && s.sorters[t].phase != Away && !Enabled(s, Exit(t))
    ensures Enabled(s, NextEvent(s, t)) && !NextEvent(s, t).Exit?
    ensures Inv(Apply(s, NextEvent(s, t)), NextLayout(s, l, NextEvent(s, t)))
  {
    if Inside(s.sorters[t]) {
      FrontMostSteps(s, l, t);
    } else {
      assert OwnedInWindow(s, l, 0);
    }
    InvStep(s, l, NextEvent(s, t));
  }

  // A sorter with the list to itself gets to its return.
  lemma {:induction false} AloneReturns(s: State, l: Layout, t: nat) returns (es: seq<Event>)
    requires Inv(s, l) && OthersAway(s, t) && s.sorters[t].phase != Away
    ensures Legal(s, es) && NoContinue(es) && Enabled(After(s, es), Exit(t))
    decreases s.sorters[t].passes, 8 - Place(s.sorters[t].phase)
  {
    if Enabled(s, Exit(t)) {
      es := [];
    } else {
      var e := NextEvent(s, t);
      AloneSteps(s, l, t);
      var rest := AloneReturns(Apply(s, e), NextLayout(s, l, e), t);
      es := [e] + rest;
      assert es[1..] == rest;
    }
  }

  function Place(phase: Phase): nat {
    match phase
    case Away => 0
    case AtTerm => 1
    case AtFirst => 2
    case AtSecond => 3
    case Comparing => 4
    case Advancing => 5
    case Deciding => 6
    case Finishing => 7
  }

  lemma CallReturns(s: State, l: Layout, t: nat) returns (es: seq<Event>)
    requires Inv(s, l) && NobodyInside(s) && t < |s.sorters| && |s.next| >= 2
    ensures Legal(s, es) && NoContinue(es) && Enabled(After(s, es), Exit(t))
  {
    InvStep(s, l, Enter(t));
    var rest := AloneReturns(Apply(s, Enter(t)), l, t);
    es := [Enter(t)] + rest;
    assert es[1..] == rest;
  }

  // The third string on is sorted and nothing in it is less than one of the first two.
  predicate OnlyFirstPairUnsorted(xs: seq<Str>) {
    forall i, j :: 0 <= i < j < |xs| && j >= 2 ==> Leq(xs[i], xs[j])
  }

  lemma FirstPairSorts(xs: seq<Str>)
    ensures Sorted(FirstPairInOrder(xs)) <==> OnlyFirstPairUnsorted(xs)
  {
    var ys := FirstPairInOrder(xs);
    if |xs| >= 2 {
      Antisymmetric(xs[0], xs[1]);
    }
    if OnlyFirstPairUnsorted(xs) {
      forall i, j | 0 <= i < j < |ys| ensures Leq(ys[i], ys[j]) {
        if j >= 2 {
          assert Leq(xs[i], xs[j]) && Leq(xs[if i == 0 then 1 else 0], xs[j]);
        }
      }
    }
    if Sorted(ys) {
      forall i, j | 0 <= i < j < |xs| && j >= 2 ensures Leq(xs[i], xs[j]) {
        assert Leq(ys[i], ys[j]) && Leq(ys[if i == 0 then 1 else 0], ys[j]);
      }
    }
  }

  ghost predicate ReturnsSorted(s: State, l: Layout, es: seq<Event>, t: nat)
    requires Inv(s, l)
  {
    Legal(s, es) && NoContinue(es) && Enabled(After(s, es), Exit(t)) ==>
      Chain(After(s, es), AfterLayout(s, l, es)) && Sorted(Listed(After(s, es), AfterLayout(s, l, es)))
  }

  // Exactly which lists sort_list sorts as written: those in which nothing but the first pair
  // may be out of order.
  lemma AsWrittenSortsIff(s: State, l: Layout)
    requires Inv(s, l) && NobodyInside(s) && |s.next| >= 2 && |s.sorters| > 0
    ensures (forall es, t: nat :: ReturnsSorted(s, l, es, t)) <==> OnlyFirstPairUnsorted(Listed(s, l))
  {
    FirstPairSorts(Listed(s, l));
    var es0 := CallReturns(s, l, 0);
    AsWrittenReturns(s, l, es0, 0);
    assert ReturnsSorted(s, l, es0, 0) ==> OnlyFirstPairUnsorted(Listed(s, l));
    forall es, t: nat | OnlyFirstPairUnsorted(Listed(s, l)) ensures ReturnsSorted(s, l, es, t) {
      if Legal(s, es) && NoContinue(es) && Enabled(After(s, es), Exit(t)) {
        AsWrittenReturns(s, l, es, t);
      }
    }
  }

  lemma PushedInFront(s: State, l: Layout, str: Str)
    requires Inv(s, l) && NobodyInside(s)
    ensures var s', l' := Apply(s, PushFront(str)), NextLayout(s, l, PushFront(str));
      Inv(s', l') && NobodyInside(s') && Listed(s', l') == [str] + Listed(s, l)
  {
    InvStep(s, l, PushFront(str));
    ListedStep(s, l, PushFront(str));
  }

  const DESCENDING: seq<Str> := [[3], [2], [1]]

  lemma DescendingIsReached(init: State) returns (s: State, l: Layout)
    requires Init(init)
    ensures var es := [PushFront([1]), PushFront([2]), PushFront([3])]; Legal(init, es) && s == After(init, es)
    ensures Inv(s, l) && NobodyInside(s) && Listed(s, l) == DESCENDING && |s.sorters| == |init.sorters|
  {
    InitInv(init);
    var l0 := Layout([0], [0]);
    PushedInFront(init, l0, [1]);
    var s1, l1 := Apply(init, PushFront([1])), NextLayout(init, l0, PushFront([1]));
    PushedInFront(s1, l1, [2]);
    var s2, l2 := Apply(s1, PushFront([2])), NextLayout(s1, l1, PushFront([2]));
    PushedInFront(s2, l2, [3]);
    s, l := Apply(s2, PushFront([3])), NextLayout(s2, l2, PushFront([3]));
    var es := [PushFront([1]), PushFront([2]), PushFront([3])];
    assert es[1..] == [PushFront([2]), PushFront([3])] && es[1..][1..] == [PushFront([3])] && es[1..][1..][1..] == [];
  }

  // From list_init, with three strings pushed in ascending order, sort_list returns with the
  // list unsorted.
  lemma DescendingStaysUnsorted(init: State) returns (s: State, es: seq<Event>, l: Layout)
    requires Init(init) && |init.sorters| > 0
    ensures var pushes := [PushFront([1]), PushFront([2]), PushFront([3])]; Legal(init, pushes) && s == After(init, pushes)
    ensures Legal(s, es) && NoContinue(es) && Enabled(After(s, es), Exit(0))
    ensures Chain(After(s, es), l) && Listed(After(s, es), l) == [[2], [3], [1]]
    ensures !Sorted(Listed(After(s, es), l))
  {
    var l0: Layout;
    s, l0 := DescendingIsReached(init);
    es := CallReturns(s, l0, 0);
    AsWrittenReturns(s, l0, es, 0);
    l := AfterLayout(s, l0, es);
    assert Compare([3], [2]) == GREATER && Compare([3], [1]) == GREATER;
    assert Listed(After(s, es), l) == Swapped(DESCENDING, 0) == [[2], [3], [1]];
    assert !Leq(Listed(After(s, es), l)[1], Listed(After(s, es), l)[2]);
  }

  // ----- As meant: every walk goes to the end -----

  predicate Thorough(s: State, e: Event) {
    Enabled(s, e) && (e.Stop? ==> Second(s, e.t) == NULL)
  }

  predicate ThoroughRun(s: State, es: seq<Event>)
    decreases |es|
  {
    |es| > 0 ==> Thorough(s, es[0]) && ThoroughRun(Apply(s, es[0]), es[1..])
  }

  // Nothing before place i exceeds what is there.
  predicate Top(xs: seq<Str>, i: nat)
    requires i < |xs|
  {
    forall j :: 0 <= j < i ==> Leq(xs[j], xs[i])
  }

  // The last k strings are in their final order, and nothing before them exceeds any of them.
  ghost predicate Settled(xs: seq<Str>, k: nat) {
    k <= |xs| && forall i :: |xs| - k <= i < |xs| ==> Top(xs, i)
  }

  lemma SettledIsSorted(xs: seq<Str>)
    requires |xs| > 0 && Settled(xs, |xs| - 1)
    ensures Sorted(xs)
  {
    forall i, j | 0 <= i < j < |xs| ensures Leq(xs[i], xs[j]) {
      assert Top(xs, j);
    }
  }

  lemma NotTop(xs: seq<Str>, p: nat)
    requires p + 1 < |xs| && Compare(xs[p], xs[p + 1]) == GREATER
    ensures !Top(xs, p + 1)
  {
    assert !Leq(xs[p], xs[p + 1]);
  }

  // A place is disturbed only by an exchange of what is there with its successor.
  lemma TopSurvives(xs: seq<Str>, p: nat, i: nat)
    requires p + 1 < |xs| && Compare(xs[p], xs[p + 1]) == GREATER && i < |xs| && i != p && Top(xs, i)
    ensures Top(Swapped(xs, p), i)
  {
    var ys := Swapped(xs, p);
    NotTop(xs, p);
    forall j | 0 <= j < i ensures Leq(ys[j], ys[i]) {
      assert Leq(xs[j], xs[i]);
      if p + 1 < i {
        assert Leq(xs[p], xs[i]) && Leq(xs[p + 1], xs[i]);
      }
    }
  }

  // The settled part survives every exchange, whoever makes it.
  lemma SettledSurvives(xs: seq<Str>, p: nat, k: nat)
    requires p + 1 < |xs| && Compare(xs[p], xs[p + 1]) == GREATER && Settled(xs, k)
    ensures Settled(Swapped(xs, p), k)
  {
    NotTop(xs, p);
    forall i | |xs| - k <= i < |xs| ensures Top(Swapped(xs, p), i) {
      assert Top(xs, i);
      TopSurvives(xs, p, i);
    }
  }

  // The walker carries the greatest string so far one place further.
  lemma Carry(xs: seq<Str>, p: nat)
    requires p + 1 < |xs| && Top(xs, p)
    ensures if Compare(xs[p], xs[p + 1]) == GREATER then Top(Swapped(xs, p), p + 1) else Top(xs, p + 1)
  {
    var ys := if Compare(xs[p], xs[p + 1]) == GREATER then Swapped(xs, p) else xs;
    Antisymmetric(xs[p], xs[p + 1]);
    forall j | 0 <= j < p + 1 ensures Leq(ys[j], ys[p + 1]) {
      if j < p {
        assert Leq(xs[j], xs[p]);
        if ys == xs {
          Transitive(xs[j], xs[p], xs[p + 1]);
        }
      }
    }
  }

  lemma SettleOneMore(xs: seq<Str>, k: nat)
    requires k < |xs| && Settled(xs, k) && Top(xs, |xs| - 1 - k)
    ensures Settled(xs, k + 1)
  {
  }

  // Passes completed, for a sorter in a list of n strings.
  function Completed(n: nat, x: Sorter): int {
    n - 1 - x.passes
  }

  // The place of the string the sorter carries.
  function Carried(l: Layout, x: Sorter): int {
    if x.base < |l.pos| then l.pos[x.base] + if x.phase.Advancing? then 1 else 0 else -1
  }

  // What sorter x, carrying the string at place c, has achieved: each pass settles one more.
  ghost predicate Achieves(xs: seq<Str>, x: Sorter, c: int) {
    x.phase != Away ==>
      && 0 <= Completed(|xs|, x) && Settled(xs, Completed(|xs|, x))
      && (Inside(x) ==>
            && Completed(|xs|, x) < |xs| - 1
            && if x.phase.Finishing? then Settled(xs, Completed(|xs|, x) + 1)
               else
                 && 0 <= c < |xs| && Top(xs, c)
                 && (c >= |xs| - 1 - Completed(|xs|, x) ==> Settled(xs, Completed(|xs|, x) + 1)))
  }

  ghost predicate Achieved(s: State, l: Layout, xs: seq<Str>, t: nat)
    requires t < |s.sorters|
  {
    Achieves(xs, s.sorters[t], Carried(l, s.sorters[t]))
  }

  lemma AchievesSurvives(xs: seq<Str>, p: nat, x: Sorter, c: int)
    requires p + 1 < |xs| && Compare(xs[p], xs[p + 1]) == GREATER && Achieves(xs, x, c)
    requires Inside(x) && !x.phase.Finishing? ==> c != p
    ensures Achieves(Swapped(xs, p), x, c)
  {
    if x.phase != Away {
      var done := Completed(|xs|, x);
      SettledSurvives(xs, p, done);
      if Settled(xs, done + 1) {
        SettledSurvives(xs, p, done + 1);
      }
      if Inside(x) && !x.phase.Finishing? {
        TopSurvives(xs, p, c);
      }
    }
  }

  // By whoever's step, what another sorter has achieved stays.
  lemma AchievedByOthers(s: State, l: Layout, e: Event, u: nat)
    requires Inv(s, l) && Enabled(s, e) && !e.PushFront? && u < |s.sorters| && u != e.t
    requires Achieved(s, l, Listed(s, l), u)
    ensures Chain(Apply(s, e), NextLayout(s, l, e))
    ensures Achieved(Apply(s, e), NextLayout(s, l, e), Listed(Apply(s, e), NextLayout(s, l, e)), u)
  {
    var x, xs := s.sorters[u], Listed(s, l);
    ListedStep(s, l, e);
    CarriedStays(s, l, e, u);
    if Exchanges(s, e) {
      AchievesSurvives(xs, l.pos[s.sorters[e.t].base], x, Carried(l, x));
    }
    assert Achieves(Listed(Apply(s, e), NextLayout(s, l, e)), x, Carried(l, x));
    if !Inside(x) {
      assert Achieves(Listed(Apply(s, e), NextLayout(s, l, e)), x, Carried(NextLayout(s, l, e), x));
    }
  }

  // Another sorter's string stays at its place, which is not where the exchange happens.
  lemma CarriedStays(s: State, l: Layout, e: Event, u: nat)
    requires Inv(s, l) && Enabled(s, e) && !e.PushFront? && u < |s.sorters| && u != e.t
    ensures |NextLayout(s, l, e).pos| == |l.pos| && Apply(s, e).sorters[u] == s.sorters[u]
    ensures Inside(s.sorters[u]) ==> Carried(NextLayout(s, l, e), s.sorters[u]) == Carried(l, s.sorters[u])
    ensures Inside(s.sorters[u]) && e.Exchange? ==> s.sorters[e.t].base < |l.pos| && Carried(l, s.sorters[u]) != l.pos[s.sorters[e.t].base]
  {
    assert Window(s, l, e.t) && Window(s, l, u);
    OthersWindow(s, l, e, u);
    if Inside(s.sorters[u]) && e.Exchange? {
      WindowsAreOrdered(s, l, e.t, u);
    }
  }

  // A comparison takes the carried string one place on, and may settle it.
  lemma AchievesMore(xs: seq<Str>, p: nat, x: Sorter)
    requires x.phase.Comparing? && p + 1 < |xs| && Achieves(xs, x, p)
    ensures Achieves(if Compare(xs[p], xs[p + 1]) == GREATER then Swapped(xs, p) else xs, x.(phase := Advancing), p + 1)
  {
    var ys := if Compare(xs[p], xs[p + 1]) == GREATER then Swapped(xs, p) else xs;
    var done := Completed(|xs|, x);
    Carry(xs, p);
    if ys != xs {
      SettledSurvives(xs, p, done);
      if Settled(xs, done + 1) {
        SettledSurvives(xs, p, done + 1);
      }
    }
    if p + 1 == |xs| - 1 - done {
      SettleOneMore(ys, done);
    }
  }

  // An exchange step, seen on the strings: one step of bubble sort at the sorter's place.
  lemma ExchangeOnStrings(s: State, l: Layout, t: nat)
    requires Inv(s, l) && Enabled(s, Exchange(t))
    ensures var s', l', xs, p := Apply(s, Exchange(t)), NextLayout(s, l, Exchange(t)), Listed(s, l), Carried(l, s.sorters[t]);
      && Chain(s', l') && 0 <= p && p + 1 < |xs|
      && Listed(s', l') == (if Compare(xs[p], xs[p + 1]) == GREATER then Swapped(xs, p) else xs)
      && Carried(l', s'.sorters[t]) == p + 1
  {
    ListedStep(s, l, Exchange(t));
    assert Window(s, l, t);
    Pointers(s, l, t);
    PlaceAfter(s, l, Exchange(t), t);
  }

  lemma AchievedByExchange(s: State, l: Layout, t: nat)
    requires Inv(s, l) && Enabled(s, Exchange(t)) && Achieved(s, l, Listed(s, l), t)
    ensures var s', l' := Apply(s, Exchange(t)), NextLayout(s, l, Exchange(t));
      Chain(s', l') && Achieved(s', l', Listed(s', l'), t)
  {
    ExchangeOnStrings(s, l, t);
    AchievesMore(Listed(s, l), Carried(l, s.sorters[t]), s.sorters[t]);
  }

  lemma AchievedByMove(s: State, l: Layout, e: Event)
    requires Inv(s, l) && Thorough(s, e) && !e.PushFront? && !e.Exchange? && Achieved(s, l, Listed(s, l), e.t)
    ensures Chain(Apply(s, e), l) && NextLayout(s, l, e) == l && Achieved(Apply(s, e), l, Listed(Apply(s, e), l), e.t)
  {
    ListedStep(s, l, e);
    PlaceByMove(s, l, e);
    assert Window(s, l, e.t);
    assert Achieves(Listed(s, l), s.sorters[e.t], Carried(l, s.sorters[e.t]));
  }

  // Where the carried string is after a step that exchanges nothing.
  lemma PlaceByMove(s: State, l: Layout, e: Event)
    requires Inv(s, l) && Thorough(s, e) && !e.PushFront? && !e.Exchange?
    ensures var x, x' := s.sorters[e.t], Apply(s, e).sorters[e.t];
      && (Inside(x) && Inside(x') ==> Carried(l, x') == Carried(l, x))
      && (e.LockTerm? ==> Carried(l, x') == 0)
      && (e.Stop? ==> Carried(l, x) == |s.next| - 2)
  {
    assert Window(s, l, e.t) && LinkAt(s, l, 0);
    if Inside(s.sorters[e.t]) {
      Pointers(s, l, e.t);
    }
  }

  ghost predicate AllAchieved(s: State, l: Layout)
    requires Chain(s, l)
  {
    forall t :: 0 <= t < |s.sorters| ==> Achieved(s, l, Listed(s, l), t)
  }

  lemma AchievedStep(s: State, l: Layout, e: Event)
    requires Inv(s, l) && Thorough(s, e) && AllAchieved(s, l)
    ensures Inv(Apply(s, e), NextLayout(s, l, e)) && AllAchieved(Apply(s, e), NextLayout(s, l, e))
  {
    var s', l' := Apply(s, e), NextLayout(s, l, e);
    InvStep(s, l, e);
    forall u | 0 <= u < |s'.sorters| ensures Achieved(s', l', Listed(s', l'), u) {
      assert Achieved(s, l, Listed(s, l), u);
      if e.PushFront? {
        assert s'.sorters[u].phase == Away;
      } else if u != e.t {
        AchievedByOthers(s, l, e, u);
      } else if e.Exchange? {
        AchievedByExchange(s, l, u);
      } else {
        AchievedByMove(s, l, e);
      }
    }
  }

  lemma {:induction false} AchievedRun(s: State, l: Layout, es: seq<Event>) returns (l': Layout)
    requires Inv(s, l) && AllAchieved(s, l) && Legal(s, es) && ThoroughRun(s, es)
    ensures Inv(After(s, es), l') && AllAchieved(After(s, es), l')
    decreases |es|
  {
    l' := l;
    if |es| > 0 {
      AchievedStep(s, l, es[0]);
      l' := AchievedRun(Apply(s, es[0]), NextLayout(s, l, es[0]), es[1..]);
    }
  }

  lemma NobodyHasAchieved(s: State, l: Layout)
    requires Chain(s, l) && NobodyInside(s)
    ensures AllAchieved(s, l)
  {
    forall t | 0 <= t < |s.sorters| ensures Achieved(s, l, Listed(s, l), t) {}
  }

  // A sorter through with its passes has sorted the list.
  lemma ExitIsSorted(s: State, l: Layout, t: nat)
    requires Inv(s, l) && AllAchieved(s, l) && Enabled(s, Exit(t))
    ensures Sorted(Listed(s, l))
  {
    assert Achieved(s, l, Listed(s, l), t) && Window(s, l, t);
    SettledIsSorted(Listed(s, l));
  }

  // If every walk goes to the end, then whenever any sort_list call is about to
  // return, the list is sorted, however many sorters are at work on it.
  lemma ReturningSorterLeavesSorted(init: State, es: seq<Event>, t: nat) returns (l: Layout)
    requires Init(init) && Legal(init, es) && ThoroughRun(init, es) && Enabled(After(init, es), Exit(t))
    ensures Chain(After(init, es), l) && Sorted(Listed(After(init, es), l))
  {
    InitInv(init);
    NobodyHasAchieved(init, Layout([0], [0]));
    l := AchievedRun(init, Layout([0], [0]), es);
    ExitIsSorted(After(init, es), l, t);
  }
}
