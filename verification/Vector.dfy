// proxy/cvector_impl.h: the growable vector, and read_to_vchar (proxy/connection_handler.c)
// which fills one from a socket.
module Vector {
  import opened CStrings

  const REALLOC_RATIO := 2
  const MIN_READ_BUFF_SIZE := 10000

  // The capacity after growing until there is room for need elements.
  function GrownTo(capacity: nat, need: nat): nat
    decreases need - capacity
  {
    if capacity >= need then capacity else GrownTo(capacity * REALLOC_RATIO + 1, need)
  }

  // Growth leaves room, and stays within a factor of two of what was needed.
  lemma {:induction false} GrownToIsEnough(capacity: nat, need: nat)
    ensures need <= GrownTo(capacity, need)
    ensures GrownTo(capacity, need) == capacity || GrownTo(capacity, need) <= 2 * need - 1
    decreases need - capacity
  {
    if capacity < need {
      GrownToIsEnough(capacity * REALLOC_RATIO + 1, need);
    }
  }

  class Vector<T(0)> {
    var ptr: array<T>
    var cnt: nat
    var capacity: nat

    ghost predicate Valid()
      reads this
    {
      capacity == ptr.Length && cnt <= capacity
    }

    ghost function Contents(): seq<T>
      reads this, ptr
      requires Valid()
    {
      ptr[..cnt]
    }

    // _init
    constructor ()
      ensures Valid() && fresh(ptr) && Contents() == [] && capacity == 0
    {
      ptr := new T[0];
      cnt := 0;
      capacity := 0;
    }

    // _forced_alloc: realloc moves what was there.
    method ForcedAlloc()
      requires Valid()
      modifies this`ptr, this`capacity
      ensures Valid() && fresh(ptr)
      ensures capacity == 2 * old(capacity) + 1
      ensures Contents() == old(Contents())
    {
      var tmp := new T[capacity * REALLOC_RATIO + 1];
      forall i | 0 <= i < capacity {
        tmp[i] := ptr[i];
      }
      ptr := tmp;
      capacity := capacity * REALLOC_RATIO + 1;
    }

    // _alloc
    method Alloc()
      requires Valid()
      modifies this`ptr, this`capacity
      ensures Valid() && cnt < capacity && Contents() == old(Contents())
      ensures ptr == old(ptr) || fresh(ptr)
      ensures capacity == GrownTo(old(capacity), cnt + 1)
    {
      if cnt == capacity {
        ForcedAlloc();
      }
    }

    // _alloc2
    method Alloc2(n: nat)
      requires Valid()
      modifies this`ptr, this`capacity
      ensures Valid() && capacity - cnt >= n && Contents() == old(Contents())
      ensures ptr == old(ptr) || fresh(ptr)
      ensures capacity == GrownTo(old(capacity), cnt + n)
    {
      while capacity - cnt < n
        invariant Valid() && Contents() == old(Contents())
        invariant ptr == old(ptr) || fresh(ptr)
        invariant GrownTo(capacity, cnt + n) == GrownTo(old(capacity), cnt + n)
        decreases cnt + n - capacity
      {
        ForcedAlloc();
      }
    }

    // _push_back
    method PushBack(el: T)
      requires Valid()
      modifies this, ptr
      ensures Valid() && Contents() == old(Contents()) + [el]
      ensures ptr == old(ptr) || fresh(ptr)
      ensures capacity == GrownTo(old(capacity), old(cnt) + 1)
    {
      Alloc();
      ptr[cnt] := el;
      cnt := cnt + 1;
    }

    // _get
    method Get(ind: nat) returns (el: T)
      requires Valid() && ind < cnt
      ensures el == Contents()[ind]
    {
      el := ptr[ind];
    }
  }

  // ----- Filling a buffer from a socket -----

  // The bytes behind the contents are terminated.
  ghost predicate Terminated(v: Vector<char>)
    reads v, v.ptr
    requires v.Valid()
  {
    v.cnt < v.capacity && v.ptr[v.cnt] == '\0'
  }

  // read_to_vchar; data is what read() delivers, nothing at the end of the stream or on an error.
  method ReadToVchar(buff: Vector<char>, data: string) returns (ok: bool)
    requires buff.Valid() && |data| <= MIN_READ_BUFF_SIZE
    modifies buff, buff.ptr
    ensures buff.Valid() && ok == (data != "")
    ensures buff.Contents() == old(buff.Contents()) + data
    ensures ok ==> Terminated(buff)
    ensures buff.capacity == GrownTo(old(buff.capacity), old(buff.cnt) + MIN_READ_BUFF_SIZE + 1)
  {
    buff.Alloc2(MIN_READ_BUFF_SIZE + 1);
    if data == "" {
      return false;
    }
    ghost var before := buff.Contents();
    forall i | 0 <= i < |data| {
      buff.ptr[buff.cnt + i] := data[i];
    }
    buff.cnt := buff.cnt + |data|;
    buff.ptr[buff.cnt] := '\0';
    assert buff.Contents() == before + data;
    ok := true;
  }

  // What a char* into a buffer sees ends at the first NUL, wherever the array ends.
  lemma {:induction false} TerminatorHides(s: string, t: string)
    ensures CStr(s + "\0" + t) == CStr(s)
  {
    var all := s + "\0" + t;
    if |s| == 0 {
      assert all[0] == '\0';
    } else if s[0] != '\0' {
      assert all[1..] == s[1..] + "\0" + t;
      TerminatorHides(s[1..], t);
    }
  }

  // So a pointer into a terminated buffer sees its contents and nothing of the spare room.
  lemma PointerSeesContents(v: Vector<char>, pos: nat)
    requires v.Valid() && Terminated(v) && pos <= v.cnt
    ensures CStr(v.ptr[pos..]) == CStr(v.Contents()[pos..])
  {
    var s, t := v.Contents()[pos..], v.ptr[v.cnt + 1..];
    assert v.ptr[pos..] == s + "\0" + t;
    TerminatorHides(s, t);
  }
}
