// task25_26/task26: the ring buffer behind the bounded blocking queue.
// `Ring` is the value of the struct's data fields; `Contents` is the FIFO it stands for.
module BlockingQueue {
  import opened Wrappers

  datatype Ring<T> = Ring(items: seq<T>, takeIndex: nat, putIndex: nat, count: nat)
  {
    function Capacity(): nat {
      |items|
    }

    // The slot that lies k places after takeIndex.
    function Slot(k: nat): int {
      if takeIndex + k < Capacity() then takeIndex + k else takeIndex + k - Capacity()
    }

    // put_index lies count slots after take_index, through every wrap (see SlotIsModular).
    predicate WellFormed() {
      && count <= Capacity()
      && if Capacity() == 0 then takeIndex == putIndex == 0
         else takeIndex < Capacity() && putIndex < Capacity() && putIndex == Slot(count)
    }

    // The queued items, oldest first.
    function Contents(): seq<T>
      requires WellFormed()
    {
      seq(count, k requires 0 <= k < count => items[Slot(k)])
    }

    function Stored(item: T): Ring<T>
      requires WellFormed() && count < Capacity()
    {
      Ring(items[putIndex := item], takeIndex, if putIndex + 1 == Capacity() then 0 else putIndex + 1, count + 1)
    }

    function Removed(): Ring<T>
      requires WellFormed() && count > 0
    {
      Ring(items, if takeIndex + 1 == Capacity() then 0 else takeIndex + 1, putIndex, count - 1)
    }
  }

  lemma SlotIsModular<T>(r: Ring<T>, k: nat)
    requires r.WellFormed() && r.Capacity() > 0 && k <= r.Capacity()
    ensures r.Slot(k) == (r.takeIndex + k) % r.Capacity()
    ensures r.putIndex == (r.takeIndex + r.count) % r.Capacity()
  {
    WrapOnce(r.takeIndex + k, r.Capacity());
    WrapOnce(r.takeIndex + r.count, r.Capacity());
  }

  lemma WrapOnce(x: nat, n: nat)
    requires x < 2 * n
    ensures x % n == if x < n then x else x - n
  {
    var k := x / n;
    ProductGrows(n, if k < 2 then k else 2, k);
    assert k == 0 || k == 1;
  }

  lemma {:induction false} ProductGrows(n: nat, a: int, b: int)
    requires a <= b
    ensures n * a <= n * b
    decreases b - a
  {
    if a < b {
      ProductGrows(n, a, b - 1);
    }
  }

  lemma StoreAppends<T>(r: Ring<T>, item: T)
    requires r.WellFormed() && r.count < r.Capacity()
    ensures r.Stored(item).WellFormed()
    ensures r.Stored(item).Contents() == r.Contents() + [item]
  {
    var s := r.Stored(item);
    forall k | 0 <= k < r.count
      ensures s.Contents()[k] == r.Contents()[k]
    {
      assert s.Slot(k) == r.Slot(k) != r.putIndex;
    }
  }

  lemma RemoveTakesOldest<T>(r: Ring<T>)
    requires r.WellFormed() && r.count > 0
    ensures r.Removed().WellFormed()
    ensures r.Contents() == [r.items[r.takeIndex]] + r.Removed().Contents()
  {
    var s := r.Removed();
    forall k | 0 <= k < s.count
      ensures s.Contents()[k] == r.Contents()[k + 1]
    {
      assert s.Slot(k) == r.Slot(k + 1);
    }
  }

  // The struct with its operations. Blocking belongs to the protocol (module QueueProtocol);
  // here `waits` says that the caller found the wait loop's condition true.
  class BoundedQueue<T(0)> {
    var items: array<T>
    var count: nat
    var capacity: nat
    var takeIndex: nat
    var putIndex: nat

    ghost function View(): Ring<T>
      reads this, items
    {
      Ring(items[..], takeIndex, putIndex, count)
    }

    ghost predicate Valid()
      reads this, items
    {
      items.Length == capacity && View().WellFormed()
    }

    constructor (capacity: nat)
      ensures Valid() && fresh(items)
      ensures this.capacity == capacity && View().Contents() == []
    {
      items := new T[capacity];
      count := 0;
      this.capacity := capacity;
      takeIndex := 0;
      putIndex := 0;
    }

    method Put(item: T) returns (waits: bool)
      requires Valid()
      modifies this`count, this`putIndex, items
      ensures Valid() && waits == (|old(View().Contents())| == capacity)
      ensures View().Contents() == if waits then old(View().Contents()) else old(View().Contents()) + [item]
      ensures !waits ==> View() == old(View()).Stored(item)
    {
      if count == capacity {
        return true;
      }
      StoreAppends(View(), item);
      items[putIndex] := item;
      putIndex := putIndex + 1;
      if putIndex == capacity {
        putIndex := 0;
      }
      count := count + 1;
      assert View() == old(View()).Stored(item);
      waits := false;
    }

    method Take() returns (item: Option<T>)
      requires Valid()
      modifies this`count, this`takeIndex
      ensures Valid() && item.None? == (old(View().Contents()) == [])
      ensures item.None? ==> View() == old(View())
      ensures item.Some? ==> old(View().Contents()) == [item.value] + View().Contents()
      ensures item.Some? ==> View() == old(View()).Removed()
    {
      if count == 0 {
        return None;
      }
      RemoveTakesOldest(View());
      item := Some(items[takeIndex]);
      takeIndex := takeIndex + 1;
      if takeIndex == capacity {
        takeIndex := 0;
      }
      count := count - 1;
      assert View() == old(View()).Removed();
    }
  }
}
