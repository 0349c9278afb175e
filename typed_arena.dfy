// TypedArena<T>: an element-count view over an Arena. Elements are constructed
// in place at the arena's next free bytes; the view's size counts them and its
// capacity grows by "1 + 25%" when a push does not fit.
module TypedArenas {

  /** The capacity after making room for `count` more elements: when they do
      not fit, reserve_space adds count + capacity / 4 (integer division). */
  function Reserved(capacity: nat, size: nat, count: nat): (r: nat)
  {
    if size + count > capacity then capacity + count + capacity / 4 else capacity
  }

  /** The growth rule always makes room, never shrinks, and only grows a full
      arena. */
  lemma ReservedMakesRoom(capacity: nat, size: nat, count: nat)
    requires size <= capacity
    ensures size + count <= Reserved(capacity, size, count)
    ensures capacity <= Reserved(capacity, size, count)
    ensures Reserved(capacity, size, count) > capacity <==> size + count > capacity
  {
  }

  class TypedArena<T> {
    /** The backing arena has a block. */
    var created: bool
    /** The elements held in the arena's used bytes, in push order. */
    var store: seq<T>
    /** m_size. */
    var size: nat
    /** m_capacity. */
    var capacity: nat

    /** The view is created exactly when it has capacity, never counts more
        than its capacity, and counts only elements the arena holds. */
    ghost predicate Valid()
      reads this
    {
      (created <==> capacity > 0) && size <= capacity && size <= |store|
    }

    /** data(): the first `size` elements from the start of the block. */
    function Data(): (d: seq<T>)
      reads this
      requires Valid()
      ensures |d| == size
    {
      store[..size]
    }

    /** get(index) / operator[] assert index < size. */
    function Get(index: nat): (x: T)
      reads this
      requires Valid() && index < size
      ensures x == Data()[index]
    {
      store[index]
    }

    function Empty(): (b: bool)
      reads this
      ensures b <==> size == 0
      ensures Valid() ==> (b <==> Data() == [])
    {
      size == 0
    }

    constructor ()
      ensures Valid() && !created && store == [] && size == 0 && capacity == 0
    {
      created, store, size, capacity := false, [], 0, 0;
    }

    /** TypedArena(n) asserts that create succeeds, which needs n > 0. */
    constructor Sized(n: nat)
      requires n > 0
      ensures Valid() && created && store == [] && size == 0 && capacity == n
    {
      created, store, size, capacity := true, [], 0, n;
    }

    /** create(n): fails for n = 0; otherwise the capacity becomes n and the
        size 0. On an arena that already has a block, Arena::create keeps the
        block and its used bytes. */
    method Create(n: nat) returns (ok: bool)
      requires Valid()
      modifies this
      ensures Valid()
      ensures ok <==> n > 0
      ensures ok ==> created && capacity == n && size == 0 && store == (if old(created) then old(store) else [])
      ensures !ok ==> created == old(created) && store == old(store) && size == old(size) && capacity == old(capacity)
    {
      if n == 0 {
        return false;
      }
      if !created {
        created, store := true, [];
      }
      capacity, size := n, 0;
      return true;
    }

    /** destroy: clears, releases the block and zeroes both counters. */
    method Destroy()
      requires Valid()
      modifies this
      ensures Valid() && !created && store == [] && size == 0 && capacity == 0
    {
      Clear();
      created, store, capacity, size := false, [], 0, 0;
    }

    /** reserve_space(n) asserts the arena is created and adds n to capacity. */
    method ReserveSpace(n: nat)
      requires Valid() && capacity > 0
      modifies this`capacity
      ensures Valid() && capacity == old(capacity) + n
    {
      capacity := capacity + n;
    }

    /** push_back(t), push_back(move(t)) and emplace_back(args): grow if full,
        then construct the element at the arena's next slot. Returns that slot. */
    method PushBack(x: T) returns (index: nat)
      requires Valid() && capacity > 0
      modifies this
      ensures Valid() && created
      ensures index == old(|store|) && store == old(store) + [x] && size == old(size) + 1
      ensures capacity == Reserved(old(capacity), old(size), 1)
    {
      if size + 1 > capacity {
        ReserveSpace(1 + capacity / 4);
      }
      index := |store|;
      store := store + [x];
      size := size + 1;
    }

    /** push_array(count) asserts count > 0, grows if needed and default
        constructs `count` elements one by one. */
    method PushArray(count: nat, default: T) returns (index: nat)
      requires Valid() && count > 0 && capacity > 0
      modifies this
      ensures Valid()
      ensures index == old(|store|) && store == old(store) + seq(count, _ => default)
      ensures size == old(size) + count
      ensures capacity == Reserved(old(capacity), old(size), count)
    {
      if size + count > capacity {
        ReserveSpace(count + capacity / 4);
      }
      index := |store|;
      var i := 0;
      while i < count
        invariant 0 <= i <= count
        invariant store == old(store) + seq(i, _ => default)
        invariant size == old(size) && capacity == Reserved(old(capacity), old(size), count)
        invariant created == old(created)
      {
        store := store + [default];
        i := i + 1;
      }
      size := size + count;
    }

    /** pop_back asserts a created, non-empty arena and destroys the last
        element. */
    method PopBack()
      requires Valid() && capacity > 0 && size > 0
      modifies this
      ensures Valid() && capacity == old(capacity)
      ensures size == old(size) - 1 && store == old(store)[..|old(store)| - 1]
    {
      size := size - 1;
      store := store[..|store| - 1];
    }

    /** pop_array_back(count) asserts size >= count and destroys the last
        `count` elements one by one. */
    method PopArrayBack(count: nat)
      requires Valid() && capacity > 0 && size > 0 && size >= count
      modifies this
      ensures Valid() && capacity == old(capacity)
      ensures size == old(size) - count && store == old(store)[..|old(store)| - count]
    {
      var i := 0;
      while i < count
        invariant 0 <= i <= count && size == old(size) - i
        invariant store == old(store) && capacity == old(capacity) && created == old(created)
      {
        size := size - 1;
        i := i + 1;
      }
      store := store[..|store| - count];
    }

    /** clear destroys every element and resets the arena: nothing is left,
        and the capacity stays. */
    method Clear()
      requires Valid()
      modifies this`store, this`size
      ensures Valid() && store == [] && size == 0
    {
      store, size := [], 0;
    }

    /** Copy construction: create(source size), which the source asserts,
        then push every element; so the copy's capacity is the source's size. */
    constructor Copy(source: TypedArena<T>)
      requires source.Valid() && source.size > 0
      ensures Valid() && Data() == source.Data() && capacity == source.size && store == source.Data()
    {
      created, store, size, capacity := true, [], 0, source.size;
      new;
      CopyElements(source);
    }

    /** The push loop shared by copy construction and copy assignment. */
    method CopyElements(source: TypedArena<T>)
      requires Valid() && source.Valid() && source != this
      requires store == [] && size == 0 && capacity == source.size && capacity > 0
      modifies this
      ensures Valid() && store == source.Data() && size == source.size && capacity == source.size
    {
      var i := 0;
      while i < source.size
        invariant 0 <= i <= source.size
        invariant Valid() && store == source.store[..i] && size == i && capacity == source.size
      {
        var x := source.Get(i);
        var _ := PushBack(x);
        assert source.store[..i + 1] == source.store[..i] + [x];
        i := i + 1;
      }
    }

    /** Copy assignment: destroy, then create(source size) (asserted, so the
        source must be another, non-empty arena) and push every element. */
    method CopyAssign(source: TypedArena<T>)
      requires Valid() && source.Valid() && source != this && source.size > 0
      modifies this
      ensures Valid() && Data() == old(source.Data()) && capacity == old(source.size)
    {
      Destroy();
      var ok := Create(source.size);
      CopyElements(source);
    }

    /** Move construction takes the arena and the counters; the source is left
        without a block and with capacity and size 0. */
    constructor Move(source: TypedArena<T>)
      requires source.Valid()
      modifies source
      ensures Valid() && source.Valid()
      ensures created == old(source.created) && store == old(source.store)
      ensures size == old(source.size) && capacity == old(source.capacity)
      ensures !source.created && source.store == [] && source.size == 0 && source.capacity == 0
    {
      created, store, size, capacity := source.created, source.store, source.size, source.capacity;
      new;
      source.created, source.store, source.size, source.capacity := false, [], 0, 0;
    }

    /** Move assignment: destroy, take the source's arena and counters, zero the
        source. */
    method MoveAssign(source: TypedArena<T>)
      requires Valid() && source.Valid()
      modifies this, source
      ensures Valid() && source.Valid()
      ensures source != this ==> store == old(source.store) && size == old(source.size) && capacity == old(source.capacity)
      ensures !source.created && source.store == [] && source.size == 0 && source.capacity == 0
    {
      Destroy();
      created, store, size, capacity := source.created, source.store, source.size, source.capacity;
      source.created, source.store, source.size, source.capacity := false, [], 0, 0;
    }
  }

  /** A freshly created TypedArena of capacity n holds n pushes without
      growing, and they come back in push order. */
  method FillToCapacity(n: nat) returns (capacity: nat, data: seq<int>)
    requires n > 0
    ensures capacity == n && data == seq(n, i => i)
  {
    var a := new TypedArena<int>.Sized(n);
    var i := 0;
    while i < n
      invariant 0 <= i <= n
      invariant a.Valid() && a.capacity == n && a.size == i && a.store == seq(i, k => k)
    {
      var _ := a.PushBack(i);
      i := i + 1;
    }
    capacity, data := a.capacity, a.Data();
  }
}
