// proxy/hash_map.c: a fixed number of buckets, each a vector of pairs searched from the front.
// The specification is the history of puts; `equals` need not even be reflexive.
module HashMap {
  import opened Wrappers

  const BUCKETS_SIZE := 1000
  const INT_MIN := -0x8000_0000

  datatype Pair<K, V> = Pair(key: K, value: V)

  // A bucket is allocated by the first put that needs it.
  datatype Bucket<K, V> = Absent | Present(pairs: seq<Pair<K, V>>)

  type Equals<!K> = (K, K) -> bool
  type Hash<!K> = K -> int

  // A partial equivalence, and a hash that respects it and avoids the one int without an
  // absolute value.
  ghost predicate Respects<K(!new)>(hash: Hash<K>, equals: Equals<K>) {
    && (forall a: K, b: K :: equals(a, b) ==> equals(b, a))
    && (forall a: K, b: K, c: K :: equals(a, b) && equals(b, c) ==> equals(a, c))
    && (forall a: K, b: K :: equals(a, b) ==> hash(a) == hash(b))
    && (forall a: K :: INT_MIN < hash(a))
  }

  function Index(hash: int): (i: nat)
    ensures i < BUCKETS_SIZE
  {
    (if hash > 0 then hash else -hash) % BUCKETS_SIZE
  }

  // ----- The history of puts -----

  // The value last put under an equal key.
  function Last<K, V>(equals: Equals<K>, history: seq<Pair<K, V>>, key: K): Option<V> {
    if |history| == 0 then None
    else
      var p := history[|history| - 1];
      if equals(p.key, key) then Some(p.value) else Last(equals, history[..|history| - 1], key)
  }

  lemma LastOfPut<K, V>(equals: Equals<K>, history: seq<Pair<K, V>>, p: Pair<K, V>, key: K)
    ensures Last(equals, history + [p], key) == if equals(p.key, key) then Some(p.value) else Last(equals, history, key)
  {
    assert (history + [p])[..|history|] == history;
  }

  function AsMap<K, V>(history: seq<Pair<K, V>>): map<K, V> {
    if |history| == 0 then map[]
    else AsMap(history[..|history| - 1])[history[|history| - 1].key := history[|history| - 1].value]
  }

  // For equality proper the history is a finite map.
  lemma {:induction false} LastIsMap<K, V>(equals: Equals<K>, history: seq<Pair<K, V>>, key: K)
    requires forall a: K, b: K :: equals(a, b) == (a == b)
    ensures Last(equals, history, key) == if key in AsMap(history) then Some(AsMap(history)[key]) else None
    decreases |history|
  {
    if |history| > 0 {
      LastIsMap(equals, history[..|history| - 1], key);
    }
  }

  // ----- One bucket -----

  function FirstMatch<K, V>(equals: Equals<K>, pairs: seq<Pair<K, V>>, key: K): (i: nat)
    ensures i <= |pairs|
    ensures i < |pairs| ==> equals(pairs[i].key, key)
    ensures forall k :: 0 <= k < i ==> !equals(pairs[k].key, key)
  {
    if |pairs| == 0 || equals(pairs[0].key, key) then 0 else 1 + FirstMatch(equals, pairs[1..], key)
  }

  function Lookup<K, V>(equals: Equals<K>, pairs: seq<Pair<K, V>>, key: K): Option<V> {
    var i := FirstMatch(equals, pairs, key);
    if i < |pairs| then Some(pairs[i].value) else None
  }

  function Stored<K, V>(equals: Equals<K>, pairs: seq<Pair<K, V>>, p: Pair<K, V>): seq<Pair<K, V>> {
    var i := FirstMatch(equals, pairs, p.key);
    if i < |pairs| then pairs[i := p] else pairs + [p]
  }

  ghost predicate NoTwoEqual<K, V>(equals: Equals<K>, pairs: seq<Pair<K, V>>) {
    forall j, k :: 0 <= j < k < |pairs| ==> !equals(pairs[j].key, pairs[k].key)
  }

  lemma MatchIsFirst<K, V>(equals: Equals<K>, pairs: seq<Pair<K, V>>, key: K, i: nat)
    requires i <= |pairs| && (forall k :: 0 <= k < i ==> !equals(pairs[k].key, key))
    requires i < |pairs| ==> equals(pairs[i].key, key)
    ensures FirstMatch(equals, pairs, key) == i
  {
  }

  // Storing changes what an equal key finds, and nothing else.
  lemma StoredIsFound<K(!new), V>(hash: Hash<K>, equals: Equals<K>, pairs: seq<Pair<K, V>>, p: Pair<K, V>, key: K)
    requires Respects(hash, equals)
    ensures Lookup(equals, Stored(equals, pairs, p), key) == if equals(p.key, key) then Some(p.value) else Lookup(equals, pairs, key)
  {
    var i, j := FirstMatch(equals, pairs, p.key), FirstMatch(equals, pairs, key);
    var stored := Stored(equals, pairs, p);
    if equals(p.key, key) {
      assert equals(key, p.key);
      MatchIsFirst(equals, stored, key, i);
    } else if i < |pairs| {
      assert equals(p.key, pairs[i].key);
      MatchIsFirst(equals, stored, key, j);
    } else {
      MatchIsFirst(equals, stored, key, if j < |pairs| then j else |stored|);
    }
  }

  lemma StoredHasNoTwoEqual<K(!new), V>(hash: Hash<K>, equals: Equals<K>, pairs: seq<Pair<K, V>>, p: Pair<K, V>)
    requires Respects(hash, equals) && NoTwoEqual(equals, pairs)
    ensures NoTwoEqual(equals, Stored(equals, pairs, p))
  {
    var i, stored := FirstMatch(equals, pairs, p.key), Stored(equals, pairs, p);
    forall j, k | 0 <= j < k < |stored| ensures !equals(stored[j].key, stored[k].key) {
      if i < |pairs| {
        assert !equals(pairs[j].key, pairs[k].key);
      }
    }
  }

  // ----- All buckets -----

  function PairsOf<K, V>(b: Bucket<K, V>): seq<Pair<K, V>> {
    if b.Present? then b.pairs else []
  }

  ghost predicate Agrees<K, V>(hash: Hash<K>, equals: Equals<K>, bs: seq<Bucket<K, V>>, history: seq<Pair<K, V>>, key: K)
    requires |bs| == BUCKETS_SIZE
  {
    Lookup(equals, PairsOf(bs[Index(hash(key))]), key) == Last(equals, history, key)
  }

  // The buckets answer as the history does, and no bucket holds two equal keys.
  ghost predicate Represents<K(!new), V>(hash: Hash<K>, equals: Equals<K>, bs: seq<Bucket<K, V>>, history: seq<Pair<K, V>>) {
    && |bs| == BUCKETS_SIZE
    && (forall key: K :: Agrees(hash, equals, bs, history, key))
    && (forall i :: 0 <= i < |bs| ==> NoTwoEqual(equals, PairsOf(bs[i])))
  }

  function Placed<K, V>(hash: Hash<K>, equals: Equals<K>, bs: seq<Bucket<K, V>>, p: Pair<K, V>): seq<Bucket<K, V>>
    requires |bs| == BUCKETS_SIZE
  {
    var ind := Index(hash(p.key));
    bs[ind := Present(Stored(equals, PairsOf(bs[ind]), p))]
  }

  lemma PlacedAgrees<K(!new), V>(hash: Hash<K>, equals: Equals<K>, bs: seq<Bucket<K, V>>, history: seq<Pair<K, V>>, p: Pair<K, V>, key: K)
    requires Respects(hash, equals) && |bs| == BUCKETS_SIZE && Agrees(hash, equals, bs, history, key)
    ensures Agrees(hash, equals, Placed(hash, equals, bs, p), history + [p], key)
  {
    LastOfPut(equals, history, p, key);
    StoredIsFound(hash, equals, PairsOf(bs[Index(hash(p.key))]), p, key);
  }

  lemma PlacedRepresents<K(!new), V>(hash: Hash<K>, equals: Equals<K>, bs: seq<Bucket<K, V>>, history: seq<Pair<K, V>>, p: Pair<K, V>)
    requires Respects(hash, equals) && Represents(hash, equals, bs, history)
    ensures Represents(hash, equals, Placed(hash, equals, bs, p), history + [p])
  {
    forall key: K ensures Agrees(hash, equals, Placed(hash, equals, bs, p), history + [p], key) {
      PlacedAgrees(hash, equals, bs, history, p, key);
    }
    StoredHasNoTwoEqual(hash, equals, PairsOf(bs[Index(hash(p.key))]), p);
  }

  // ----- The map -----

  class Map<K(!new), V> {
    const hash: Hash<K>
    const equals: Equals<K>
    const buckets: array<Bucket<K, V>>
    ghost var history: seq<Pair<K, V>>

    ghost predicate Valid()
      reads this, buckets
    {
      Respects(hash, equals) && Represents(hash, equals, buckets[..], history)
    }

    // hash_map_init
    constructor (hash: Hash<K>, equals: Equals<K>)
      requires Respects(hash, equals)
      ensures Valid() && fresh(buckets) && buckets.Length == 1000 && history == [] && this.hash == hash && this.equals == equals
    {
      this.hash := hash;
      this.equals := equals;
      buckets := new Bucket<K, V>[BUCKETS_SIZE](_ => Absent);
      history := [];
    }

    // The loop of both operations.
    method Search(pairs: seq<Pair<K, V>>, key: K) returns (i: nat)
      ensures i == FirstMatch(equals, pairs, key)
    {
      i := 0;
      while i < |pairs|
        invariant i <= |pairs| && forall k :: 0 <= k < i ==> !equals(pairs[k].key, key)
      {
        if equals(pairs[i].key, key) {
          break;
        }
        i := i + 1;
      }
      MatchIsFirst(equals, pairs, key, i);
    }

    // hash_map_put. The pointer it returns for a known key is to the value's storage, which has
    // just been overwritten: what the caller reads there is the new value.
    method Put(key: K, value: V) returns (r: Option<V>)
      requires Valid()
      modifies this`history, buckets
      ensures Valid() && history == old(history) + [Pair(key, value)]
      ensures r == if Last(equals, old(history), key) == None then None else Some(value)
    {
      ghost var p := Pair(key, value);
      assert Agrees(hash, equals, buckets[..], history, key);
      PlacedRepresents(hash, equals, buckets[..], history, p);
      r := Place(key, value);
      history := history + [p];
    }

    method Place(key: K, value: V) returns (r: Option<V>)
      requires buckets.Length == BUCKETS_SIZE
      modifies buckets
      ensures buckets[..] == Placed(hash, equals, old(buckets[..]), Pair(key, value))
      ensures r == if Lookup(equals, PairsOf(old(buckets[Index(hash(key))])), key) == None then None else Some(value)
    {
      var ind := Index(hash(key));
      if buckets[ind].Absent? {
        buckets[ind] := Present([]);
      }
      var i := Search(buckets[ind].pairs, key);
      if i < |buckets[ind].pairs| {
        buckets[ind] := Present(buckets[ind].pairs[i := Pair(key, value)]);
        r := Some(value);
      } else {
        buckets[ind] := Present(buckets[ind].pairs + [Pair(key, value)]);
        r := None;
      }
    }

    // hash_map_get
    method Get(key: K) returns (r: Option<V>)
      requires Valid()
      ensures r == Last(equals, history, key)
    {
      assert Agrees(hash, equals, buckets[..], history, key);
      var ind := Index(hash(key));
      if buckets[ind].Absent? {
        return None;
      }
      var i := Search(buckets[ind].pairs, key);
      r := if i < |buckets[ind].pairs| then Some(buckets[ind].pairs[i].value) else None;
    }
  }
}
