// task10.c, task22.c: who sits between which forks.
module Table {
  import opened Locks

  // The fork philosopher p of n takes first, and the one taken second.
  function First(n: nat, p: nat): (f: nat)
    requires 2 <= n && p < n
    ensures f < Second(n, p)
  {
    if p == n - 1 then 0 else p
  }

  function Second(n: nat, p: nat): (f: nat)
    requires 2 <= n && p < n
    ensures f < n
  {
    if p == n - 1 then n - 1 else p + 1
  }

  // The forks of philosopher p are those with the numbers p and p + 1, round the table.
  lemma ForksAreBeside(n: nat, p: nat)
    requires 2 <= n && p < n
    ensures {First(n, p), Second(n, p)} == {p, (p + 1) % n}
  {
  }

  predicate Neighbours(n: nat, p: nat, q: nat)
    requires 2 <= n
  {
    q == (p + 1) % n || p == (q + 1) % n
  }

  // No two of them sit side by side.
  ghost predicate Apart(n: nat, ps: set<nat>)
    requires 2 <= n
  {
    forall p, q :: p in ps && q in ps && p != q ==> !Neighbours(n, p, q)
  }

  // Exactly neighbours share a fork.
  lemma SharedForkIffNeighbours(n: nat, p: nat, q: nat)
    requires 2 <= n && p < n && q < n && p != q
    ensures Neighbours(n, p, q) <==> {First(n, p), Second(n, p)} * {First(n, q), Second(n, q)} != {}
  {
    ForksAreBeside(n, p);
    ForksAreBeside(n, q);
    var shared := {p, (p + 1) % n} * {q, (q + 1) % n};
    if q == (p + 1) % n {
      assert q in shared;
    } else if p == (q + 1) % n {
      assert p in shared;
    }
  }

  predicate Beside(n: nat, p: nat, f: nat)
    requires 2 <= n && p < n
  {
    f == First(n, p) || f == Second(n, p)
  }

  lemma SharersAreNeighbours(n: nat, p: nat, q: nat, f: nat)
    requires 2 <= n && p < n && q < n && p != q && Beside(n, p, f) && Beside(n, q, f)
    ensures Neighbours(n, p, q)
  {
    assert f in {First(n, p), Second(n, p)} * {First(n, q), Second(n, q)};
    SharedForkIffNeighbours(n, p, q);
  }

  type Forks = seq<Lock>

  predicate HasBoth(forks: Forks, p: nat)
    requires 2 <= |forks| && p < |forks|
  {
    forks[First(|forks|, p)] == Held(p) && forks[Second(|forks|, p)] == Held(p)
  }

  lemma TwoMore(used: set<nat>, a: nat, b: nat)
    requires a !in used && b !in used && a != b
    ensures |used + {a, b}| == |used| + 2
  {
    assert used + {a, b} == used + {a} + {b};
  }

  // The forks of the philosophers in `eaters`, two for each.
  lemma {:induction false} ForksInUse(forks: Forks, eaters: set<nat>) returns (used: set<nat>)
    requires 2 <= |forks|
    requires forall p :: p in eaters ==> p < |forks| && HasBoth(forks, p)
    ensures |used| == 2 * |eaters|
    ensures forall f :: f in used ==> f < |forks| && forks[f].Held? && forks[f].holder in eaters
  {
    if eaters == {} {
      used := {};
    } else {
      var p :| p in eaters;
      var rest := ForksInUse(forks, eaters - {p});
      var a, b := First(|forks|, p), Second(|forks|, p);
      assert HasBoth(forks, p);
      TwoMore(rest, a, b);
      used := rest + {a, b};
    }
  }

  lemma {:induction false} SetBelow(n: nat, xs: set<nat>)
    requires forall x :: x in xs ==> x < n
    ensures |xs| <= n
  {
    if n > 0 {
      SetBelow(n - 1, xs - {n - 1});
    } else {
      assert xs == {};
    }
  }

  // However the forks came to be held, no two neighbours eat.
  lemma EatersAreApart(forks: Forks, eaters: set<nat>)
    requires 2 <= |forks|
    requires forall p :: p in eaters ==> p < |forks| && HasBoth(forks, p)
    ensures Apart(|forks|, eaters)
  {
    forall p, q | p in eaters && q in eaters && p != q ensures !Neighbours(|forks|, p, q) {
      SharedForkIffNeighbours(|forks|, p, q);
      assert HasBoth(forks, p) && HasBoth(forks, q);
    }
  }

  // However the forks came to be held, at most half the table eats.
  lemma AtMostHalf(forks: Forks, eaters: set<nat>)
    requires 2 <= |forks|
    requires forall p :: p in eaters ==> p < |forks| && HasBoth(forks, p)
    ensures 2 * |eaters| <= |forks|
  {
    var used := ForksInUse(forks, eaters);
    SetBelow(|forks|, used);
  }
}
