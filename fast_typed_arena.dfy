// FastTypedArena<T>: the TypedArena view for trivially copyable elements. It
// copies raw bytes instead of constructing, and its clear only forgets the
// count: the arena keeps its used bytes.
module FastTypedArenas {
  import TypedArenas

  class FastTypedArena<T(0)> {
    /** The backing arena has a block. */
    var created: bool
    /** The elements held in the arena's used bytes, in push order. */
    var store: seq<T>
    /** m_size. */
    var size: nat
    /** m_capacity. */
    var capacity: nat

    ghost predicate Valid()
      reads this
    {
      (created <==> capacity > 0) && size <= capacity && size <= |store|
    }

    /** No element is left in the arena beyond the counted ones: the state in
        which data() and the arena's next free slot agree. */
    ghost predicate Compact()
      reads this
    {
      |store| == size
    }

    /** data(): `size` elements read from the start of the block. */
    function Data(): (d: seq<T>)
      reads this
      requires Valid()
      ensures |d| == size
    {
      store[..size]
    }

    /** get(index) / operator[] assert index < size. */
    function Get(index: nat): (x: T)
      reads this
      requires Valid() && index < size
      ensures x == Data()[index]
    {
      store[index]
    }

    function Empty(): (b: bool)
      reads this
      ensures b <==> size == 0
      ensures Valid() ==> (b <==> Data() == [])
    {
      size == 0
    }

    constructor ()
      ensures Valid() && Compact() && !created && store == [] && capacity == 0
    {
      created, store, size, capacity := false, [], 0, 0;
    }

    /** FastTypedArena(n) asserts that create succeeds, which needs n > 0. */
    constructor Sized(n: nat)
      requires n > 0
      ensures Valid() && Compact() && created && store == [] && capacity == n
    {
      created, store, size, capacity := true, [], 0, n;
    }

    /** create(n): as TypedArena::create. */
    method Create(n: nat) returns (ok: bool)
      requires Valid()
      modifies this
      ensures Valid()
      ensures ok <==> n > 0
      ensures ok ==> created && capacity == n && size == 0 && store == (if old(created) then old(store) else [])
      ensures !ok ==> created == old(created) && store == old(store) && size == old(size) && capacity == old(capacity)
    {
      if n == 0 {
        return false;
      }
      if !created {
        created, store := true, [];
      }
      capacity, size := n, 0;
      return true;
    }

    /** destroy releases the block and zeroes both counters. */
    method Destroy()
      requires Valid()
      modifies this
      ensures Valid() && Compact() && !created && store == [] && capacity == 0
    {
      created, store, capacity, size := false, [], 0, 0;
    }

    /** reserve_space(n) asserts the arena is created and adds n to capacity. */
    method ReserveSpace(n: nat)
      requires Valid() && capacity > 0
      modifies this`capacity
      ensures Valid() && capacity == old(capacity) + n
    {
      capacity := capacity + n;
    }

    /** push_back(t), push_back(move(t)) and emplace_back(args): grow if full,
        then copy the element's bytes into the arena's next slot. */
    method PushBack(x: T) returns (index: nat)
      requires Valid() && capacity > 0
      modifies this
      ensures Valid() && created && Compact() == old(Compact())
      ensures index == old(|store|) && store == old(store) + [x] && size == old(size) + 1
      ensures capacity == TypedArenas.Reserved(old(capacity), old(size), 1)
    {
      if size + 1 > capacity {
        ReserveSpace(1 + capacity / 4);
      }
      index := |store|;
      store := store + [x];
      size := size + 1;
    }

    /** push_back(): takes the next slot without writing it; it holds whatever
        bytes the block had there. */
    method PushBackUninitialised() returns (index: nat)
      requires Valid() && capacity > 0
      modifies this
      ensures Valid() && created && Compact() == old(Compact())
      ensures index == old(|store|) && |store| == old(|store|) + 1 && store[..index] == old(store)
      ensures size == old(size) + 1
      ensures capacity == TypedArenas.Reserved(old(capacity), old(size), 1)
    {
      if size + 1 > capacity {
        ReserveSpace(1 + capacity / 4);
      }
      var junk: T :| true;
      index := |store|;
      store := store + [junk];
      size := size + 1;
    }

    /** push_array(count) asserts count > 0 and takes `count` slots without
        writing them. */
    method PushArray(count: nat) returns (index: nat)
      requires Valid() && count > 0 && capacity > 0
      modifies this
      ensures Valid() && Compact() == old(Compact())
      ensures index == old(|store|) && |store| == old(|store|) + count && store[..index] == old(store)
      ensures size == old(size) + count
      ensures capacity == TypedArenas.Reserved(old(capacity), old(size), count)
    {
      if size + count > capacity {
        ReserveSpace(count + capacity / 4);
      }
      var junk: T :| true;
      index := |store|;
      store := store + seq(count, _ => junk);
      size := size + count;
    }

    /** Memory::copy_memory into slots handed out by a push. */
    method Write(index: nat, values: seq<T>)
      requires Valid() && index + |values| <= |store|
      modifies this`store
      ensures Valid() && Compact() == old(Compact())
      ensures |store| == old(|store|)
      ensures store == old(store)[..index] + values + old(store)[index + |values|..]
    {
      store := store[..index] + values + store[index + |values|..];
    }

    /** pop_back asserts a created, non-empty arena and gives back one slot. */
    method PopBack()
      requires Valid() && capacity > 0 && size > 0
      modifies this
      ensures Valid() && capacity == old(capacity) && Compact() == old(Compact())
      ensures size == old(size) - 1 && store == old(store)[..|old(store)| - 1]
    {
      size := size - 1;
      store := store[..|store| - 1];
    }

    /** pop_array_back(count) gives back `count` slots. */
    method PopArrayBack(count: nat)
      requires Valid() && capacity > 0 && size > 0 && count <= size
      modifies this
      ensures Valid() && capacity == old(capacity) && Compact() == old(Compact())
      ensures size == old(size) - count && store == old(store)[..|old(store)| - count]
    {
      size := size - count;
      store := store[..|store| - count];
    }

    /** clear, as written: only the count is reset. The arena keeps its used
        bytes, so the next push lands after them while data() starts at the
        beginning of the block. */
    method Clear()
      requires Valid()
      modifies this`size
      ensures Valid() && size == 0 && store == old(store)
    {
      size := 0;
    }

    /** clear as TypedArena::clear does it: the count and the arena's used
        bytes are both reset. */
    method ClearCorrected()
      requires Valid()
      modifies this`size, this`store
      ensures Valid() && Compact() && size == 0 && store == []
    {
      size, store := 0, [];
    }

    /** Copy construction copies the arena (block bytes and used count) and
        both counters. */
    constructor Copy(source: FastTypedArena<T>)
      requires source.Valid()
      ensures Valid() && created == source.created && store == source.store
      ensures size == source.size && capacity == source.capacity
    {
      created, store, size, capacity := source.created, source.store, source.size, source.capacity;
    }

    /** Copy assignment: destroy, then copy the arena and both counters. An
        assignment to itself destroys the arena first and so ends empty. */
    method CopyAssign(source: FastTypedArena<T>)
      requires Valid() && source.Valid()
      modifies this
      ensures Valid()
      ensures source != this ==> created == old(source.created) && store == old(source.store) &&
                                 size == old(source.size) && capacity == old(source.capacity)
      ensures source == this ==> !created && store == [] && size == 0 && capacity == 0
    {
      Destroy();
      created, store, size, capacity := source.created, source.store, source.size, source.capacity;
    }

    /** Move construction takes the arena and both counters and leaves the
        source with capacity 0 and size 0. */
    constructor Move(source: FastTypedArena<T>)
      requires source.Valid()
      modifies source
      ensures Valid() && source.Valid()
      ensures created == old(source.created) && store == old(source.store)
      ensures size == old(source.size) && capacity == old(source.capacity)
      ensures !source.created && source.store == [] && source.size == 0 && source.capacity == 0
    {
      created, store, size, capacity := source.created, source.store, source.size, source.capacity;
      new;
      source.created, source.store, source.size, source.capacity := false, [], 0, 0;
    }

    /** Move assignment: destroy, take the source's arena and counters, zero the
        source. */
    method MoveAssign(source: FastTypedArena<T>)
      requires Valid() && source.Valid()
      modifies this, source
      ensures Valid() && source.Valid()
      ensures source != this ==> store == old(source.store) && size == old(source.size) && capacity == old(source.capacity)
      ensures !source.created && source.store == [] && source.size == 0 && source.capacity == 0
    {
      Destroy();
      created, store, size, capacity := source.created, source.store, source.size, source.capacity;
      source.created, source.store, source.size, source.capacity := false, [], 0, 0;
    }
  }

  /** While nothing stale is left in the arena, a push appends to data(). */
  method PushAppendsToData<T(0)>(a: FastTypedArena<T>, x: T)
    requires a.Valid() && a.Compact() && a.capacity > 0
    modifies a
    ensures a.Valid() && a.Compact() && a.Data() == old(a.Data()) + [x]
  {
    var _ := a.PushBack(x);
  }

  /** As written: push 1, clear, push 2, and data() reads the stale 1. */
  method StaleDataAfterClear() returns (data: seq<int>)
    ensures data == [1]
  {
    var a := new FastTypedArena<int>.Sized(4);
    var _ := a.PushBack(1);
    a.Clear();
    var _ := a.PushBack(2);
    data := a.Data();
  }

  /** With the corrected clear, any arena that is cleared and then pushed `x`
      holds exactly [x]. */
  method ClearCorrectedThenPush<T(0)>(a: FastTypedArena<T>, x: T)
    requires a.Valid() && a.capacity > 0
    modifies a
    ensures a.Valid() && a.Compact() && a.Data() == [x]
  {
    a.ClearCorrected();
    var _ := a.PushBack(x);
  }
}
