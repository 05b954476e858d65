// tasks17_20/task18.c: str_comp, and what it means for a list to be out of order.
module StrComp {

  // A C string without its terminator: bytes 1 .. 255, compared as unsigned char.
  type Letter = x: int | 0 < x < 256 witness 1
  type Str = seq<Letter>

  datatype Order = LESS | EQ | GREATER

  // Lexicographic comparison.
  function Compare(a: Str, b: Str): Order {
    if |a| == 0 && |b| == 0 then EQ
    else if |a| == 0 then LESS
    else if |b| == 0 then GREATER
    else if a[0] > b[0] then GREATER
    else if a[0] < b[0] then LESS
    else Compare(a[1..], b[1..])
  }

  // The byte at index i of the stored string; the terminator at its end.
  function Byte(s: Str, i: nat): int
    requires i <= |s|
  {
    if i < |s| then s[i] else 0
  }

  method StringCompare(s1: Str, s2: Str) returns (r: Order)
    ensures r == Compare(s1, s2)
  {
    var i := 0;
    while Byte(s1, i) != 0 && Byte(s2, i) != 0
      invariant i <= |s1| && i <= |s2|
      invariant Compare(s1[i..], s2[i..]) == Compare(s1, s2)
      decreases |s1| - i
    {
      if Byte(s1, i) > Byte(s2, i) {
        return GREATER;
      }
      if Byte(s2, i) > Byte(s1, i) {
        return LESS;
      }
      assert s1[i..][1..] == s1[i + 1..] && s2[i..][1..] == s2[i + 1..];
      i := i + 1;
    }
    if Byte(s1, i) == 0 && Byte(s2, i) == 0 {
      return EQ;
    }
    if Byte(s1, i) != 0 {
      return GREATER;
    }
    return LESS;
  }

  predicate Leq(a: Str, b: Str) {
    Compare(a, b) != GREATER
  }

  // ----- What the comparison means -----

  // The strings agree before place k, and there a's byte is the greater.
  predicate ExceedsAt(a: Str, b: Str, k: int) {
    0 <= k < |a| && k < |b| && a[..k] == b[..k] && a[k] > b[k]
  }

  lemma ExceedsFrom(a: Str, b: Str, k: int)
    requires |a| > 0 && |b| > 0 && a[0] == b[0]
    ensures ExceedsAt(a, b, k + 1) <==> ExceedsAt(a[1..], b[1..], k)
  {
    if 0 <= k < |a| - 1 && k < |b| - 1 {
      assert a[..k + 1] == [a[0]] + a[1..][..k] && b[..k + 1] == [b[0]] + b[1..][..k];
      assert a[1..][..k] == a[..k + 1][1..] && b[1..][..k] == b[..k + 1][1..];
    }
  }

  lemma TailExceeds(a: Str, b: Str)
    requires |a| > 0 && |b| > 0 && a[0] == b[0]
    ensures (exists k :: ExceedsAt(a, b, k)) <==> exists k :: ExceedsAt(a[1..], b[1..], k)
  {
    if k :| ExceedsAt(a, b, k) {
      ExceedsFrom(a, b, k - 1);
    }
    if k :| ExceedsAt(a[1..], b[1..], k) {
      ExceedsFrom(a, b, k);
      assert ExceedsAt(a, b, k + 1);
    }
  }

  // GREATER exactly if b is a proper prefix of a, or at the first place where they differ a has
  // the greater byte, as unsigned char; dually LESS.
  lemma {:induction false} CompareMeans(a: Str, b: Str)
    ensures Compare(a, b) == GREATER <==> b < a || exists k :: ExceedsAt(a, b, k)
    ensures Compare(a, b) == LESS <==> a < b || exists k :: ExceedsAt(b, a, k)
  {
    if |a| > 0 && |b| > 0 {
      if a[0] == b[0] {
        CompareMeans(a[1..], b[1..]);
        assert a == [a[0]] + a[1..] && b == [b[0]] + b[1..];
        TailExceeds(a, b);
        TailExceeds(b, a);
      } else {
        assert a[0] > b[0] ==> ExceedsAt(a, b, 0);
        assert b[0] > a[0] ==> ExceedsAt(b, a, 0);
      }
    }
  }

  // ----- str_comp is a total order -----

  lemma {:induction false} EqualIffSame(a: Str, b: Str)
    ensures Compare(a, b) == EQ <==> a == b
  {
    if |a| > 0 && |b| > 0 {
      EqualIffSame(a[1..], b[1..]);
      assert a == [a[0]] + a[1..] && b == [b[0]] + b[1..];
    }
  }

  lemma {:induction false} Antisymmetric(a: Str, b: Str)
    ensures Compare(a, b) == GREATER <==> Compare(b, a) == LESS
  {
    if |a| > 0 && |b| > 0 {
      Antisymmetric(a[1..], b[1..]);
    }
  }

  lemma {:induction false} Transitive(a: Str, b: Str, c: Str)
    requires Leq(a, b) && Leq(b, c)
    ensures Leq(a, c)
  {
    if |a| > 0 && |b| > 0 && |c| > 0 && a[0] == b[0] == c[0] {
      Transitive(a[1..], b[1..], c[1..]);
    }
  }

  lemma Total(a: Str, b: Str)
    ensures Leq(a, b) || Leq(b, a)
    ensures Leq(a, b) && Leq(b, a) ==> a == b
  {
    Antisymmetric(a, b);
    Antisymmetric(b, a);
    EqualIffSame(a, b);
  }

  // ----- Inversions -----

  // How many entries of xs are less than a.
  function CountLess(a: Str, xs: seq<Str>): nat {
    if |xs| == 0 then 0 else (if Compare(a, xs[0]) == GREATER then 1 else 0) + CountLess(a, xs[1..])
  }

  function Inversions(xs: seq<Str>): nat {
    if |xs| == 0 then 0 else CountLess(xs[0], xs[1..]) + Inversions(xs[1..])
  }

  predicate Sorted(xs: seq<Str>) {
    forall i, j :: 0 <= i < j < |xs| ==> Leq(xs[i], xs[j])
  }

  function Swapped(xs: seq<Str>, i: nat): seq<Str>
    requires i + 1 < |xs|
  {
    xs[i := xs[i + 1]][i + 1 := xs[i]]
  }

  lemma {:induction false} CountLessSwapped(a: Str, xs: seq<Str>, i: nat)
    requires i + 1 < |xs|
    ensures CountLess(a, Swapped(xs, i)) == CountLess(a, xs)
  {
    if i == 0 {
      assert Swapped(xs, 0)[1..][1..] == xs[1..][1..];
    } else {
      assert Swapped(xs, i)[1..] == Swapped(xs[1..], i - 1);
      CountLessSwapped(a, xs[1..], i - 1);
    }
  }

  // Exchanging two neighbours that are out of order removes exactly one inversion.
  lemma {:induction false} SwapRemovesOne(xs: seq<Str>, i: nat)
    requires i + 1 < |xs| && Compare(xs[i], xs[i + 1]) == GREATER
    ensures Inversions(Swapped(xs, i)) + 1 == Inversions(xs)
  {
    var ys := Swapped(xs, i);
    if i == 0 {
      Antisymmetric(xs[0], xs[1]);
      assert ys[1..][1..] == xs[1..][1..];
      assert ys[1..][0] == xs[0] && xs[1..][0] == xs[1];
    } else {
      assert ys[1..] == Swapped(xs[1..], i - 1);
      SwapRemovesOne(xs[1..], i - 1);
      CountLessSwapped(xs[0], xs[1..], i - 1);
    }
  }

  lemma {:induction false} CountLessZero(a: Str, xs: seq<Str>)
    ensures CountLess(a, xs) == 0 <==> forall j :: 0 <= j < |xs| ==> Leq(a, xs[j])
  {
    if |xs| > 0 {
      CountLessZero(a, xs[1..]);
      assert forall j :: 0 < j < |xs| ==> xs[j] == xs[1..][j - 1];
    }
  }

  // No inversions, no disorder.
  lemma {:induction false} NoInversionsIffSorted(xs: seq<Str>)
    ensures Inversions(xs) == 0 <==> Sorted(xs)
  {
    if |xs| > 0 {
      NoInversionsIffSorted(xs[1..]);
      CountLessZero(xs[0], xs[1..]);
      assert forall j :: 0 < j < |xs| ==> xs[j] == xs[1..][j - 1];
    }
  }
}
