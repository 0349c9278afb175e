// The HandleList<T> and FastHandleList<T> objects: the two arenas and the
// four counters as fields that emplace, remove and reset update in place.
// Each method is proved to leave the state the matching function of
// HandleLists computes, so the properties proved there carry over. The two
// classes differ only in the arena remove pops: a FastHandleList zero-fills
// the vacated tail element, given here as `scrub`.
module HandleListObjects {
  import opened Common
  import opened HandleLists

  class HandleList<T(0)> {
    /** None for a HandleList; Some(the all-zero value) for a FastHandleList. */
    const scrub: Option<T>
    /** m_resources: its elements and its size. */
    var resources: seq<T>
    var size: nat
    /** m_slots: its elements and its size. */
    var slots: seq<Slot>
    var count: nat
    var freeCount: int
    var freeStart: int
    var last: int
    var penultimate: int
    /** The occupied slots in resource order, then the free list in order. */
    ghost var all: seq<nat>

    function State(): Table<T>
      reads this
    {
      Table(resources, size, slots, count, freeCount, freeStart, last, penultimate)
    }

    ghost predicate Valid()
      reads this
    {
      Chained(State(), all)
    }

    /** HandleList(capacity, usage): both arenas empty, no free slot, no chain. */
    constructor ()
      ensures Valid() && State() == Empty() && scrub == None
    {
      scrub := None;
      resources, size, slots, count := [], 0, [], 0;
      freeCount, freeStart, last, penultimate := 0, -1, -1, -1;
      all := [];
      new;
      EmptyChained<T>(State());
    }

    /** FastHandleList(capacity, usage), with `zero` the all-zero value of T. */
    constructor Fast(zero: T)
      ensures Valid() && State() == Empty() && scrub == Some(zero)
    {
      scrub := Some(zero);
      resources, size, slots, count := [], 0, [], 0;
      freeCount, freeStart, last, penultimate := 0, -1, -1, -1;
      all := [];
      new;
      EmptyChained<T>(State());
    }

    /** HandleList(other&&): take other's arenas and counters and leave other
        an empty list. */
    constructor Moved(other: HandleList<T>)
      requires other.Valid()
      modifies other
      ensures Valid() && other.Valid() && scrub == other.scrub
      ensures State() == old(other.State()) && other.State() == Empty()
    {
      scrub := other.scrub;
      resources, size, slots, count := other.resources, other.size, other.slots, other.count;
      freeCount, freeStart, last, penultimate := other.freeCount, other.freeStart, other.last, other.penultimate;
      all := other.all;
      new;
      other.Reset();
    }

    /** emplace(args): reuse the most recently freed slot or push a new one,
        append the resource and put the slot at the end of the chain. */
    method Emplace(x: T) returns (h: Handle)
      requires Valid()
      modifies this
      ensures Valid()
      ensures HandleLists.Emplace(old(State()), x) == Ok((State(), h))
      ensures HandleLists.Data(State()) == old(HandleLists.Data(State())) + [x]
      ensures HandleLists.Get(State(), h) == Ok(Some(x))
    {
      ghost var t0, all0 := State(), all;
      EmplaceResolves(t0, all0, x);
      ChainedEmplaceable(t0, all0);
      h := Place(x);
      all := AfterEmplace(t0, all0);
    }

    /** The stores of emplace, on a table whose free start and last slot are
        in range. */
    method Place(x: T) returns (h: Handle)
      requires Stores(State())
      requires freeCount > 0 ==> SlotIndex(freeStart, count)
      requires last != penultimate ==> SlotIndex(last, count)
      modifies this
      ensures HandleLists.Emplace(old(State()), x) == Ok((State(), h))
      ensures all == old(all)
    {
      ghost var t0 := State();
      var k := TakeSlot();
      ghost var t1 := State();
      var s := slots[k := slots[k].(next := -1, back := -1)];
      s := s[k := s[k].(resourceIndex := size)];
      var back, pen := -1, penultimate;
      if last != penultimate {
        pen := last;
        s := s[k := s[k].(back := pen)];
        back := pen;
      }
      if back >= 0 {
        s := s[back := s[back].(next := k)];
      }
      h := Handle(k, s[k].version);
      resources, size, slots, last, penultimate := resources + [x], size + 1, s, k, pen;
      EmplaceSteps(t0, x, t1, k, State(), h);
    }

    /** The first step of emplace: pop the free list when it is not empty,
        otherwise push a fresh slot of version 0. */
    method TakeSlot() returns (k: nat)
      requires Stores(State()) && (freeCount > 0 ==> SlotIndex(freeStart, count))
      modifies this
      ensures HandleLists.TakeSlot(old(State())) == Ok((State(), k))
      ensures all == old(all)
    {
      if freeCount > 0 {
        freeCount := freeCount - 1;
        k := freeStart;
        freeStart := slots[k].next;
      } else {
        k := |slots|;
        slots := slots + [Slot(0, 0, -1, -1)];
        count := count + 1;
      }
    }

    /** add(t). */
    method Add(x: T) returns (h: Handle)
      requires Valid()
      modifies this
      ensures Valid()
      ensures HandleLists.Emplace(old(State()), x) == Ok((State(), h))
      ensures HandleLists.Data(State()) == old(HandleLists.Data(State())) + [x]
      ensures HandleLists.Get(State(), h) == Ok(Some(x))
    {
      h := Emplace(x);
    }

    /** remove(handle): nothing on an empty list or for a stale handle;
        otherwise the handle's slot is freed and the last resource fills its
        hole. A handle forged to name a free slot with its current version is
        excluded: the header would corrupt its chain. */
    method Remove(h: Handle)
      requires Valid() && Issued(State(), all, h)
      modifies this
      ensures Valid()
      ensures HandleLists.Remove(old(State()), h, scrub) == Ok(State())
      ensures HandleLists.Get(State(), h) == Ok(None)
      ensures old(HandleLists.Get(State(), h)) == Ok(None) ==> State() == old(State())
      ensures var found := old(HandleLists.Get(State(), h));
              found.Ok? && found.value.Some? ==>
                multiset(HandleLists.Data(State())) + multiset{found.value.value} == old(multiset(HandleLists.Data(State())))
    {
      ghost var t0 := State();
      ghost var all' := RemoveIssued(t0, all, h, scrub);
      RemoveSteps(h);
      all := all';
    }

    /** The stores of remove, on a table where they complete. */
    method RemoveSteps(h: Handle)
      requires Stores(State()) && HandleLists.Remove(State(), h, scrub).Ok?
      modifies this
      ensures HandleLists.Remove(old(State()), h, scrub) == Ok(State()) && all == old(all)
    {
      if last == -1 {
        return;
      }
      var found := HandleLists.Get(State(), h);
      if found.value.None? {
        return;
      }
      var k := h.index;
      SwapTail(k);
      if k == penultimate {
        DropPenultimate(k);
      } else {
        DropOther(k);
      }
      Release(k);
    }

    /** The resource half of remove: bump the slot's version; unless it is the
        last slot, move the last resource into its hole and point the last
        slot there; pop the resource arena. */
    method SwapTail(k: nat)
      requires Stores(State()) && k < count && SlotIndex(last, count) && slots[k].resourceIndex < size
      requires HandleLists.SwapTail(State(), k, scrub).Ok?
      modifies this
      ensures HandleLists.SwapTail(old(State()), k, scrub) == Ok(State()) && all == old(all)
    {
      var l := last;
      var s := slots[k := slots[k].(version := Bump(slots[k].version))];
      if l == k {
        resources, size, slots := resources[..|resources| - 1], size - 1, s;
      } else {
        var hole, tail := s[k].resourceIndex, s[l].resourceIndex;
        var moved := resources[hole := resources[tail]];
        if scrub.Some? {
          moved := moved[tail := scrub.value];
        }
        resources, size, slots := moved[..|moved| - 1], size - 1, s[l := s[l].(resourceIndex := hole)];
      }
    }

    /** The chain half of remove when the slot is the penultimate one. */
    method DropPenultimate(k: nat)
      requires Stores(State()) && k < count && SlotIndex(last, count)
      requires HandleLists.DropPenultimate(State(), k, true).Ok?
      modifies this
      ensures HandleLists.DropPenultimate(old(State()), k, true) == Ok(State()) && all == old(all)
    {
      var l, pen := last, slots[k].back;
      var s := slots[l := slots[l].(back := pen)];
      if pen >= 0 {
        s := s[pen := s[pen].(next := l)];
      }
      slots, penultimate := s, pen;
    }

    /** The chain half of remove otherwise: the last slot's back becomes the
        last slot and the old last slot takes the removed one's place. */
    method DropOther(k: nat)
      requires Stores(State()) && k < count && SlotIndex(last, count)
      requires HandleLists.DropOther(State(), k).Ok?
      modifies this
      ensures HandleLists.DropOther(old(State()), k) == Ok(State()) && all == old(all)
    {
      var l := last;
      var newLast := slots[l].back;
      ReplaceSlot(k, l);
      var pen := penultimate;
      if newLast >= 0 {
        pen := slots[newLast].back;
      }
      last, penultimate := newLast, pen;
    }

    /** replace_slot(o, n). */
    method ReplaceSlot(o: nat, n: nat)
      requires count <= |slots| && o < count && n < count
      requires HandleLists.ReplaceSlot(slots, count, o, n).Ok?
      modifies this
      ensures State() == old(State()).(slots := slots) && all == old(all)
      ensures HandleLists.ReplaceSlot(old(slots), count, o, n) == Ok(slots)
    {
      RemoveSlot(n);
      if o == n {
        return;
      }
      var previous := slots[o];
      var s := slots[n := slots[n].(next := previous.next, back := previous.back)];
      if previous.next != -1 {
        s := Link(s, n, previous.next);
      }
      if previous.back != -1 {
        s := Link(s, previous.back, n);
      }
      slots := s[o := s[o].(back := -1, next := -1)];
    }

    /** remove_slot(i). */
    method RemoveSlot(i: nat)
      requires count <= |slots| && i < count
      requires HandleLists.RemoveSlot(slots, count, i).Ok?
      modifies this
      ensures State() == old(State()).(slots := slots) && all == old(all)
      ensures HandleLists.RemoveSlot(old(slots), count, i) == Ok(slots)
    {
      var slot := slots[i];
      var s := slots;
      if slot.next != -1 && slot.back != -1 {
        s := Link(s, slot.back, slot.next);
      } else {
        if slot.next != -1 {
          s := s[slot.next := s[slot.next].(back := -1)];
        }
        if slot.back != -1 {
          s := s[slot.back := s[slot.back].(next := -1)];
        }
      }
      slots := s[i := s[i].(next := -1, back := -1)];
    }

    /** The end of remove: push the slot on the free list. */
    method Release(k: nat)
      requires k < |slots|
      modifies this
      ensures State() == HandleLists.Release(old(State()), k) && all == old(all)
    {
      slots, freeStart, freeCount := slots[k := slots[k].(next := freeStart, back := -1)], k, freeCount + 1;
    }

    /** get(handle): the resource of an occupied slot whose version the
        handle carries; null past the slot count or on a version mismatch. */
    function Get(h: Handle): (r: Option<T>)
      reads this
      requires Valid() && HandleLists.Get(State(), h).Ok?
      ensures HandleLists.Get(State(), h) == Ok(r)
      ensures h.index >= count || h.version != slots[h.index].version ==> r == None
      ensures forall ri :: 0 <= ri < size && h == Handle(all[ri], slots[all[ri]].version) ==> r == Some(resources[ri])
    {
      if h.index >= count || h.version != slots[h.index].version then None
      else Some(resources[slots[h.index].resourceIndex])
    }

    /** size(): the number of resources. */
    function Size(): (n: nat)
      reads this
      requires Valid()
      ensures n == |HandleLists.Data(State())| == |all| - freeCount
    {
      size
    }

    /** data(): the resources in chain order: position r holds what the
        handle of the r-th occupied slot resolves to. */
    function Data(): (d: seq<T>)
      reads this
      requires Valid()
      ensures |d| == size
      ensures forall r :: 0 <= r < size ==> Get(Handle(all[r], slots[all[r]].version)) == Some(d[r])
    {
      resources[..size]
    }

    /** reset(), with arenas whose clear forgets their contents. */
    method Reset()
      modifies this
      ensures Valid() && State() == HandleLists.Reset(old(State())) && State() == Empty()
    {
      resources, size, slots, count := [], 0, [], 0;
      freeCount, freeStart, last, penultimate := 0, -1, -1, -1;
      all := [];
      EmptyChained<T>(State());
    }

    /** operator=(other), with the two arenas moved: reset, take other's
        arenas and counters, and leave other an empty list. Moving a list
        onto itself leaves it empty. */
    method MoveAssign(other: HandleList<T>)
      requires Valid() && other.Valid() && other.scrub == scrub
      modifies this, other
      ensures Valid() && other.Valid()
      ensures other != this ==> State() == old(other.State())
      ensures other.State() == Empty()
    {
      Reset();
      resources, size, slots, count := other.resources, other.size, other.slots, other.count;
      freeCount, freeStart, last, penultimate := other.freeCount, other.freeStart, other.last, other.penultimate;
      all := other.all;
      other.Reset();
    }
  }
}
