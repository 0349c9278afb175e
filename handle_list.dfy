// HandleList<T> and FastHandleList<T>: generational slot maps. Resources are
// packed at the front of a resource arena; a slot arena maps stable handle
// indices to resource indices. Freed slots form a LIFO free list threaded
// through `next`, occupied slots a doubly linked chain (`next`/`back`) in
// resource order whose final two members are `last` and `penultimate`.
// Removing swaps the tail resource into the hole and re-points its slot.
//
// The operations are first given as functions over a `Table` value (the two
// arenas and the four counters), exactly as the header writes them, including
// the hit_asserts of the arenas' operator[] as `Abort`. The classes at the end
// of the file are proved to follow these functions.
module HandleLists {
  import opened Common

  /** Handle<T>: a slot index and the slot version it was issued with. */
  datatype Handle = Handle(index: nat, version: nat)
  {
    /** valid(): neither field is UINT32_MAX. */
    predicate Valid()
    {
      index != U32_MAX && version != U32_MAX
    }
  }

  /** compare_to as intended: both fields agree. (As written it names the
      member function `valid` without calling it, which does not compile once
      instantiated.) */
  function CompareTo(a: Handle, b: Handle): (r: bool)
    ensures r <==> a == b
  {
    a.index == b.index && a.version == b.version
  }

  /** A slot: where its resource sits, its generation, and its neighbours in
      the occupied chain (or, for a free slot, the next free slot). */
  datatype Slot = Slot(resourceIndex: nat, version: nat, next: int, back: int)

  /** The state of a handle list. `resources` holds the elements of the
      resource arena (data() is its first `size`), `slots` the elements of the
      slot arena (its m_size is `count`); slot indices are positions in the
      slot arena's block. */
  datatype Table<T> = Table(
    resources: seq<T>, size: nat,
    slots: seq<Slot>, count: nat,
    freeCount: int, freeStart: int, last: int, penultimate: int)

  /** What the two arenas guarantee on their own: they never count more
      elements than they hold. */
  predicate Stores<T>(t: Table<T>)
  {
    t.size <= |t.resources| && t.count <= |t.slots|
  }

  /** data(): the resources, packed. */
  function Data<T>(t: Table<T>): (d: seq<T>)
    requires Stores(t)
    ensures |d| == t.size
  {
    t.resources[..t.size]
  }

  /** The initial state of a list. */
  function Empty<T>(): (t: Table<T>)
    ensures Stores(t) && Data(t) == []
  {
    Table([], 0, [], 0, 0, -1, -1, -1)
  }

  /** version++ on a ui32. */
  function Bump(version: nat): (r: nat)
    ensures r < U32_LIMIT
    ensures version < U32_MAX ==> r == version + 1
  {
    (version + 1) % U32_LIMIT
  }

  /** Pointer access m_slots[i] with i an i32: the arena asserts the index,
      taken as unsigned, is below its size. */
  predicate SlotIndex(t: int, count: nat)
  {
    0 <= t < count
  }

  /** get(handle): null for an index past the slot count or a version
      mismatch; otherwise the resource the slot points at, whose index the
      resource arena asserts. */
  function Get<T>(t: Table<T>, h: Handle): Run<Option<T>>
    requires Stores(t)
  {
    if h.index >= t.count || h.version != t.slots[h.index].version then Ok(None)
    else
      var ri := t.slots[h.index].resourceIndex;
      var _ :- Check(ri < t.size);
      Ok(Some(t.resources[ri]))
  }

  /** The first half of emplace: reuse the most recently freed slot, or push
      a slot with version 0 at the end of the slot arena. Yields the state and
      the slot's index. */
  function TakeSlot<T>(t: Table<T>): (r: Run<(Table<T>, nat)>)
    requires Stores(t)
    ensures r.Ok? ==> Stores(r.value.0) && r.value.1 < |r.value.0.slots|
  {
    if t.freeCount > 0 then
      var _ :- Check(SlotIndex(t.freeStart, t.count));
      Ok((t.(freeCount := t.freeCount - 1, freeStart := t.slots[t.freeStart].next), t.freeStart))
    else
      Ok((t.(slots := t.slots + [Slot(0, 0, -1, -1)], count := t.count + 1), |t.slots|))
  }

  /** emplace(args) / add(t): take a slot, append the resource, point the slot
      at it, and make the slot the last of the chain, linked behind the old
      last one. Returns (slot index, slot version). */
  function Emplace<T>(t: Table<T>, x: T): (r: Run<(Table<T>, Handle)>)
    requires Stores(t)
    ensures r.Ok? ==> Stores(r.value.0)
  {
    var taken :- TakeSlot(t);
    var (u, k) := taken;
    var version := u.slots[k].version;
    var behind := u.last != u.penultimate;
    var _ :- Check(!behind || SlotIndex(u.last, u.count));
    Ok((u.(resources := u.resources + [x], size := u.size + 1,
           slots := Appended(u.slots, k, u.size, version, if behind then u.last else -1),
           penultimate := if behind then u.last else u.penultimate, last := k),
        Handle(k, version)))
  }

  /** emplace after the slot is taken, step by step as the header writes
      the stores: slot k is cleared, pointed at resource `size`, put behind
      the old last slot when there is a chain to join, and that slot's `next`
      set to k. */
  lemma EmplaceSteps<T>(t: Table<T>, x: T, u: Table<T>, k: nat, v: Table<T>, h: Handle)
    requires Stores(t) && TakeSlot(t) == Ok((u, k))
    requires u.last != u.penultimate ==> SlotIndex(u.last, u.count)
    requires var s2 := u.slots[k := u.slots[k].(next := -1, back := -1)];
            var s3 := s2[k := s2[k].(resourceIndex := u.size)];
            var behind := u.last != u.penultimate;
            var s4 := if behind then s3[k := s3[k].(back := u.last)] else s3;
            var s5 := if behind && u.last >= 0 then s4[u.last := s4[u.last].(next := k)] else s4;
            && v == u.(resources := u.resources + [x], size := u.size + 1, slots := s5,
                       last := k, penultimate := if behind then u.last else u.penultimate)
            && h == Handle(k, u.slots[k].version)
    ensures Emplace(t, x) == Ok((v, h))
  {
    var s2 := u.slots[k := u.slots[k].(next := -1, back := -1)];
    var s3 := s2[k := s2[k].(resourceIndex := u.size)];
    var behind := u.last != u.penultimate;
    var s4 := if behind then s3[k := s3[k].(back := u.last)] else s3;
    var back := if behind then u.last else -1;
    assert s4 == u.slots[k := Slot(u.size, u.slots[k].version, -1, back)];
  }

  /** On a chained table the slot indices emplace follows are in range. */
  lemma ChainedEmplaceable<T>(t: Table<T>, all: seq<nat>)
    requires Chained(t, all)
    ensures Stores(t)
    ensures t.freeCount > 0 ==> SlotIndex(t.freeStart, t.count)
    ensures t.last != t.penultimate ==> SlotIndex(t.last, t.count)
  {
  }

  /** The slots after emplace put resource n in slot k, behind `back` when
      that is a slot (its `next` then names k). */
  function Appended(slots: seq<Slot>, k: nat, n: nat, version: nat, back: int): (r: seq<Slot>)
    requires k < |slots| && back < |slots|
    ensures |r| == |slots|
    ensures r[k].resourceIndex == n && r[k].version == version
    ensures forall j :: 0 <= j < |r| && j != k ==>
              r[j].resourceIndex == slots[j].resourceIndex && r[j].version == slots[j].version
  {
    var placed := slots[k := Slot(n, version, -1, back)];
    if back >= 0 then placed[back := placed[back].(next := k)] else placed
  }

  /** link_slots(a, b). */
  function Link(slots: seq<Slot>, a: nat, b: nat): (r: seq<Slot>)
    requires a < |slots| && b < |slots|
    ensures |r| == |slots|
  {
    var s := slots[a := slots[a].(next := b)];
    s[b := s[b].(back := a)]
  }

  /** remove_slot(i): join the slot's neighbours to each other (or cut them
      loose) and clear the slot's own links. */
  function RemoveSlot(slots: seq<Slot>, count: nat, i: nat): (r: Run<seq<Slot>>)
    requires count <= |slots| && i < count
    ensures r.Ok? ==> |r.value| == |slots|
  {
    var s := slots[i];
    var _ :- Check(s.next == -1 || SlotIndex(s.next, count));
    var _ :- Check(s.back == -1 || SlotIndex(s.back, count));
    var joined :=
      if s.next != -1 && s.back != -1 then Link(slots, s.back, s.next)
      else
        var a := if s.next != -1 then slots[s.next := slots[s.next].(back := -1)] else slots;
        if s.back != -1 then a[s.back := a[s.back].(next := -1)] else a;
    Ok(joined[i := joined[i].(next := -1, back := -1)])
  }

  /** replace_slot(o, n): take n out of the chain and put it in o's place. */
  function ReplaceSlot(slots: seq<Slot>, count: nat, o: nat, n: nat): (r: Run<seq<Slot>>)
    requires count <= |slots| && o < count && n < count
    ensures r.Ok? ==> |r.value| == |slots|
  {
    var s :- RemoveSlot(slots, count, n);
    if o == n then Ok(s)
    else
      var previous := s[o];
      var _ :- Check(previous.next == -1 || SlotIndex(previous.next, count));
      var _ :- Check(previous.back == -1 || SlotIndex(previous.back, count));
      var moved := s[n := s[n].(next := previous.next, back := previous.back)];
      var front := if previous.next != -1 then Link(moved, n, previous.next) else moved;
      var both := if previous.back != -1 then Link(front, previous.back, n) else front;
      Ok(both[o := both[o].(back := -1, next := -1)])
  }

  /** The resource half of remove: with the removed resource at `hole` and the
      last slot's at `tail`, move the tail into the hole (a FastHandleList
      also zero-fills the tail, given as `scrub`) and pop the arena. */
  function SwapOut<T>(resources: seq<T>, hole: nat, tail: nat, scrub: Option<T>): (r: seq<T>)
    requires hole < |resources| && tail < |resources|
    ensures |r| == |resources| - 1
  {
    var moved := resources[hole := resources[tail]];
    var scrubbed := if scrub.Some? then moved[tail := scrub.value] else moved;
    scrubbed[..|scrubbed| - 1]
  }

  /** The end of remove: push the slot on the free list. */
  function Release<T>(t: Table<T>, k: nat): (r: Table<T>)
    requires k < |t.slots|
  {
    t.(slots := t.slots[k := t.slots[k].(next := t.freeStart, back := -1)],
       freeStart := k, freeCount := t.freeCount + 1)
  }

  /** The resource half of remove, for a resolving handle on slot k: bump
      k's version; unless k is the last slot, move the last slot's resource
      into k's hole and point the last slot at it; pop the resource arena. */
  function SwapTail<T>(t: Table<T>, k: nat, scrub: Option<T>): (r: Run<Table<T>>)
    requires Stores(t) && k < t.count && SlotIndex(t.last, t.count) && t.slots[k].resourceIndex < t.size
    ensures r.Ok? ==> Stores(r.value) && r.value.count == t.count && |r.value.slots| == |t.slots|
  {
    var l := t.last;
    var bumped := t.slots[k := t.slots[k].(version := Bump(t.slots[k].version))];
    var hole := bumped[k].resourceIndex;
    var _ :- Check(l == k || bumped[l].resourceIndex < t.size);
    if l == k then Ok(t.(slots := bumped, resources := t.resources[..|t.resources| - 1], size := t.size - 1))
    else Ok(t.(slots := bumped[l := bumped[l].(resourceIndex := hole)],
               resources := SwapOut(t.resources, hole, bumped[l].resourceIndex, scrub),
               size := t.size - 1))
  }

  /** The chain half of remove when k is the penultimate slot: k's back
      becomes the penultimate slot and the last slot's back. `relink` selects
      the corrected branch, which also points the new penultimate slot's
      `next` at the last slot; as written it keeps naming k. */
  function DropPenultimate<T>(t: Table<T>, k: nat, relink: bool): (r: Run<Table<T>>)
    requires Stores(t) && k < t.count && SlotIndex(t.last, t.count)
    ensures r.Ok? ==> Stores(r.value) && r.value.count == t.count && |r.value.slots| == |t.slots|
  {
    var l := t.last;
    var pen := t.slots[k].back;
    var backed := t.slots[l := t.slots[l].(back := pen)];
    var _ :- Check(!relink || pen < 0 || SlotIndex(pen, t.count));
    var linked := if relink && pen >= 0 then backed[pen := backed[pen].(next := l)] else backed;
    Ok(t.(slots := linked, penultimate := pen))
  }

  /** The chain half of remove otherwise: the last slot's back becomes the
      last slot, the old last slot replaces k in the chain, and the new last
      slot's back becomes the penultimate one. */
  function DropOther<T>(t: Table<T>, k: nat): (r: Run<Table<T>>)
    requires Stores(t) && k < t.count && SlotIndex(t.last, t.count)
    ensures r.Ok? ==> Stores(r.value) && r.value.count == t.count && |r.value.slots| == |t.slots|
  {
    var l := t.last;
    var last := t.slots[l].back;
    var replaced :- ReplaceSlot(t.slots, t.count, k, l);
    var _ :- Check(last < 0 || SlotIndex(last, t.count));
    var pen := if last >= 0 then replaced[last].back else t.penultimate;
    Ok(t.(slots := replaced, last := last, penultimate := pen))
  }

  /** remove(handle): nothing happens on an empty list or for a handle get
      does not resolve; otherwise swap the tail resource in, unlink the slot
      and push it on the free list. */
  function RemoveWith<T>(t: Table<T>, h: Handle, scrub: Option<T>, relink: bool): (r: Run<Table<T>>)
    requires Stores(t)
    ensures r.Ok? ==> Stores(r.value)
  {
    if t.last == -1 then Ok(t)
    else
      var found :- Get(t, h);
      if found.None? then Ok(t)
      else
        var _ :- Check(SlotIndex(t.last, t.count));
        var swapped :- SwapTail(t, h.index, scrub);
        var dropped :-
          if h.index == t.penultimate then DropPenultimate(swapped, h.index, relink)
          else DropOther(swapped, h.index);
        Ok(Release(dropped, h.index))
  }

  /** remove(handle) as the header writes it. */
  function RemoveAsWritten<T>(t: Table<T>, h: Handle, scrub: Option<T>): (r: Run<Table<T>>)
    requires Stores(t)
    ensures r.Ok? ==> Stores(r.value)
  {
    RemoveWith(t, h, scrub, false)
  }

  /** remove(handle) with the penultimate slot re-linked to the last one. */
  function Remove<T>(t: Table<T>, h: Handle, scrub: Option<T>): (r: Run<Table<T>>)
    requires Stores(t)
    ensures r.Ok? ==> Stores(r.value)
  {
    RemoveWith(t, h, scrub, true)
  }

  /** reset(): both arenas are cleared and the bookkeeping restored. The slot
      arena is a FastTypedArena, whose clear keeps its used bytes; so is a
      FastHandleList's resource arena (`fastResources`). */
  function ResetAsWritten<T>(t: Table<T>, fastResources: bool): (r: Table<T>)
  {
    Table(if fastResources then t.resources else [], 0, t.slots, 0, 0, -1, -1, -1)
  }

  /** reset() with arenas whose clear also forgets their used bytes. */
  function Reset<T>(t: Table<T>): (r: Table<T>)
    ensures Stores(r) && Data(r) == []
    ensures forall h :: Get(r, h) == Ok(None)
  {
    Table([], 0, [], 0, 0, -1, -1, -1)
  }

  /** As written, the first element added after a reset gets a handle that
      get cannot resolve: the slot arena hands out the slot behind its stale
      ones, whose index is past the arena's count. */
  lemma ResetAsWrittenLosesHandle<T>(t: Table<T>, fastResources: bool, x: T)
    requires Stores(t) && 1 <= |t.slots|
    ensures var u := ResetAsWritten(t, fastResources);
            Stores(u) && Emplace(u, x).Ok? && Get(Emplace(u, x).value.0, Emplace(u, x).value.1) == Ok(None)
  {
  }

  /** As written, the second element added after a reset of a list that had
      used two slots trips the slot arena's index assertion. */
  lemma ResetAsWrittenAborts<T>(t: Table<T>, fastResources: bool, x: T, y: T)
    requires Stores(t) && 2 <= |t.slots|
    ensures var u := ResetAsWritten(t, fastResources);
            Stores(u) && Emplace(u, x).Ok? && Emplace(Emplace(u, x).value.0, y) == Abort
  {
  }

  /** Field-wise equality of two states, which the solver checks one
      sequence at a time. */
  ghost predicate Same<T>(a: Table<T>, b: Table<T>)
  {
    a.resources == b.resources && a.size == b.size && a.slots == b.slots && a.count == b.count &&
    a.freeCount == b.freeCount && a.freeStart == b.freeStart && a.last == b.last && a.penultimate == b.penultimate
  }

  /** The chain neighbours of position r among the first n entries of `all`. */
  function Prev(all: seq<nat>, r: nat): int
    requires r <= |all|
  {
    if r == 0 then -1 else all[r - 1]
  }

  function Next(all: seq<nat>, n: nat, r: nat): int
    requires r < n <= |all|
  {
    if r + 1 < n then all[r + 1] else -1
  }

  /** `all` lists each of the slots 0 .. |all| - 1 once. */
  ghost predicate Permutation(all: seq<nat>)
  {
    && (forall i :: 0 <= i < |all| ==> all[i] < |all|)
    && (forall i, j :: 0 <= i < j < |all| ==> all[i] != all[j])
  }

  /** The first n entries of `all` are the occupied slots in resource order:
      the slot at position r holds resource r and is linked to the slots at
      positions r - 1 and r + 1 (or -1 at either end). */
  ghost predicate Linked(slots: seq<Slot>, all: seq<nat>, n: nat)
    requires n <= |all| && Permutation(all) && |all| == |slots|
  {
    && (forall r {:trigger slots[all[r]]} :: 0 <= r < n ==> slots[all[r]].resourceIndex == r)
    && (forall r {:trigger slots[all[r]]} :: 0 <= r < n ==> slots[all[r]].back == Prev(all, r))
    && (forall r {:trigger slots[all[r]]} :: 0 <= r < n ==> slots[all[r]].next == Next(all, n, r))
  }

  /** The entries of `all` from n on are the free slots in free-list order:
      each one's `next` names the following one. */
  ghost predicate FreeListed(slots: seq<Slot>, all: seq<nat>, n: nat)
    requires Permutation(all) && |all| == |slots|
  {
    forall i {:trigger slots[all[i]]} :: n <= i < |all| - 1 ==> slots[all[i]].next == all[i + 1]
  }

  /** The invariant of a handle list. `all` lists every slot index once, the
      occupied slots first, in resource order, then the free ones in free-list
      order. Both arenas are packed, `last` and `penultimate` are the final
      two occupied slots, and the free count and start describe the free
      list. */
  ghost predicate Chained<T>(t: Table<T>, all: seq<nat>)
  {
    && t.size == |t.resources| && t.size <= |all|
    && t.count == |t.slots| == |all|
    && Permutation(all)
    && Linked(t.slots, all, t.size)
    && FreeListed(t.slots, all, t.size)
    && Counters(t, all)
  }

  /** The four counters of a chained table. */
  ghost predicate Counters<T>(t: Table<T>, all: seq<nat>)
    requires t.size <= |all|
  {
    && t.freeCount == |all| - t.size
    && (t.size < |all| ==> t.freeStart == all[t.size])
    && t.last == Prev(all, t.size)
    && t.penultimate == (if t.size < 2 then -1 else all[t.size - 2])
  }

  /** A new or reset list is a chain over no slots. */
  lemma EmptyChained<T>(t: Table<T>)
    ensures Chained(Empty<T>(), []) && Reset(t) == Empty()
  {
  }

  /** On a chained table a handle to an occupied slot resolves to the
      resource of the slot's position, or to null on a version mismatch; it
      never trips the resource arena's assertion. */
  lemma GetOccupied<T>(t: Table<T>, all: seq<nat>, r: nat, version: nat)
    requires Chained(t, all) && r < t.size
    ensures Get(t, Handle(all[r], version)) ==
            if version == t.slots[all[r]].version then Ok(Some(t.resources[r])) else Ok(None)
  {
  }

  /** take a slot, unfolded on a chained table. */
  lemma TakeSlotChained<T>(t: Table<T>, all: seq<nat>)
    requires Chained(t, all)
    ensures TakeSlot(t) == if t.size < |all| then Ok((t.(freeCount := t.freeCount - 1, freeStart := t.slots[all[t.size]].next), all[t.size]))
                           else Ok((t.(slots := t.slots + [Slot(0, 0, -1, -1)], count := t.count + 1), |all|))
  {
  }

  /** Appending slot `all[n]` as the chain's position n extends the chain and
      leaves the free slots after it as they were. */
  lemma AppendedChain(slots: seq<Slot>, all: seq<nat>, n: nat, version: nat)
    requires n < |all| == |slots| && Permutation(all) && Linked(slots, all, n)
    ensures var s := Appended(slots, all[n], n, version, Prev(all, n));
      && Linked(s, all, n + 1)
      && (forall i :: n < i < |all| ==> s[all[i]] == slots[all[i]])
  {
    var s := Appended(slots, all[n], n, version, Prev(all, n));
    forall r | 0 <= r < n + 1
      ensures s[all[r]].resourceIndex == r && s[all[r]].back == Prev(all, r)
      ensures s[all[r]].next == Next(all, n + 1, r)
    {
      if r < n {
        assert all[r] != all[n];
      }
      if r + 1 < n {
        assert all[r] != all[n - 1];
      }
    }
    forall i | n < i < |all|
      ensures s[all[i]] == slots[all[i]]
    {
      assert all[i] != all[n];
      if n > 0 {
        assert all[i] != all[n - 1];
      }
    }
  }

  /** The order of slots after an emplace: a reused slot is already the first
      free entry, a pushed slot is new. */
  function AfterEmplace<T>(t: Table<T>, all: seq<nat>): seq<nat>
  {
    if t.size < |all| then all else all + [|all|]
  }

  /** The slot arena emplace works on: a new slot is pushed when none is free. */
  function SlotsForEmplace<T>(t: Table<T>, all: seq<nat>): seq<Slot>
  {
    if t.size < |all| then t.slots else t.slots + [Slot(0, 0, -1, -1)]
  }

  /** The table emplace builds on a chained table. */
  ghost function Emplaced<T>(t: Table<T>, all: seq<nat>, x: T): Table<T>
    requires Chained(t, all)
  {
    var all' := AfterEmplace(t, all);
    var slots := SlotsForEmplace(t, all);
    t.(resources := t.resources + [x], size := t.size + 1,
       slots := Appended(slots, all'[t.size], t.size, slots[all'[t.size]].version, t.last),
       count := |all'|,
       freeCount := t.freeCount - (if t.size < |all| then 1 else 0),
       freeStart := if t.size < |all| then t.slots[all[t.size]].next else t.freeStart,
       penultimate := if t.size > 0 then t.last else t.penultimate,
       last := all'[t.size])
  }

  /** emplace on a chained table succeeds with that table; the handle names
      the first free slot, or a new one with version 0. */
  lemma EmplaceChainedIs<T>(t: Table<T>, all: seq<nat>, x: T)
    requires Chained(t, all)
    ensures Emplace(t, x).Ok?
    ensures var all' := AfterEmplace(t, all);
            && Emplace(t, x).value.1 == Handle(all'[t.size], SlotsForEmplace(t, all)[all'[t.size]].version)
            && Same(Emplace(t, x).value.0, Emplaced(t, all, x))
  {
    TakeSlotChained(t, all);
  }

  lemma AfterEmplacePermutation<T>(t: Table<T>, all: seq<nat>)
    requires Chained(t, all)
    ensures Permutation(AfterEmplace(t, all))
  {
  }

  /** The table emplace builds on a chained table is chained. */
  /** The live part of the chain is untouched by taking a slot. */
  lemma EmplaceBaseLinked<T>(t: Table<T>, all: seq<nat>)
    requires Chained(t, all)
    ensures Permutation(AfterEmplace(t, all)) && t.size < |AfterEmplace(t, all)| == |SlotsForEmplace(t, all)|
    ensures Linked(SlotsForEmplace(t, all), AfterEmplace(t, all), t.size)
    ensures Prev(AfterEmplace(t, all), t.size) == t.last
  {
    var n := t.size;
    var all' := AfterEmplace(t, all);
    var slots := SlotsForEmplace(t, all);
    AfterEmplacePermutation(t, all);
    forall r | 0 <= r < n
      ensures slots[all'[r]].resourceIndex == r && slots[all'[r]].back == Prev(all', r)
      ensures slots[all'[r]].next == Next(all', n, r)
    {
      assert all'[r] == all[r] && slots[all[r]] == t.slots[all[r]];
      if r > 0 { assert all'[r - 1] == all[r - 1]; }
      if r + 1 < n { assert all'[r + 1] == all[r + 1]; }
    }
    LinkedFrom(slots, all', n);
    if n > 0 { assert all'[n - 1] == all[n - 1]; }
  }

  lemma EmplacedLinked<T>(t: Table<T>, all: seq<nat>, x: T)
    requires Chained(t, all)
    ensures Permutation(AfterEmplace(t, all))
    ensures var v := Emplaced(t, all, x);
            && |v.slots| == |AfterEmplace(t, all)| && v.size <= |AfterEmplace(t, all)|
            && Linked(v.slots, AfterEmplace(t, all), v.size)
  {
    var all' := AfterEmplace(t, all);
    var slots := SlotsForEmplace(t, all);
    EmplaceBaseLinked(t, all);
    AppendedChain(slots, all', t.size, slots[all'[t.size]].version);
  }

  lemma EmplacedFreeListed<T>(t: Table<T>, all: seq<nat>, x: T)
    requires Chained(t, all)
    ensures Permutation(AfterEmplace(t, all))
    ensures var v := Emplaced(t, all, x);
            && |v.slots| == |AfterEmplace(t, all)|
            && FreeListed(v.slots, AfterEmplace(t, all), v.size)
  {
    var n := t.size;
    var all' := AfterEmplace(t, all);
    var slots := SlotsForEmplace(t, all);
    var v := Emplaced(t, all, x);
    EmplaceBaseLinked(t, all);
    AppendedChain(slots, all', n, slots[all'[n]].version);
    assert forall i :: n < i < |all'| ==> v.slots[all'[i]] == t.slots[all[i]];
  }

  lemma EmplacedChained<T>(t: Table<T>, all: seq<nat>, x: T)
    requires Chained(t, all)
    ensures Chained(Emplaced(t, all, x), AfterEmplace(t, all))
  {
    EmplacedLinked(t, all, x);
    EmplacedFreeListed(t, all, x);
  }


  /** Emplace keeps the table chained. */
  lemma EmplaceKeepsChain<T>(t: Table<T>, all: seq<nat>, x: T)
    requires Chained(t, all)
    ensures Emplace(t, x).Ok?
    ensures Chained(Emplace(t, x).value.0, AfterEmplace(t, all))
  {
    EmplaceChainedIs(t, all, x);
    EmplacedChained(t, all, x);
  }

  /** What emplace promises on a chained table: data() gains x at the end;
      the handle names the most recently freed slot with that slot's version,
      or a new slot with version 0, and resolves to x; every handle to another
      slot that resolved before resolves as before; and a handle to the same
      slot with another version stays null. */
  lemma EmplaceResolves<T>(t: Table<T>, all: seq<nat>, x: T)
    requires Chained(t, all)
    ensures Emplace(t, x).Ok?
    ensures Chained(Emplace(t, x).value.0, AfterEmplace(t, all))
    ensures var (u, h) := Emplace(t, x).value;
      && Data(u) == Data(t) + [x]
      && Get(u, h) == Ok(Some(x))
      && (t.freeCount > 0 ==> h == Handle(t.freeStart, t.slots[t.freeStart].version))
      && (t.freeCount == 0 ==> h == Handle(t.count, 0))
      && (forall g: Handle :: g.index != h.index && Get(t, g).Ok? ==> Get(u, g) == Get(t, g))
      && (forall g: Handle :: g.index == h.index && g.version != h.version ==> Get(u, g) == Ok(None))
  {
    EmplaceChainedIs(t, all, x);
    EmplacedChained(t, all, x);
    var (u, h) := Emplace(t, x).value;
    assert u.resources == t.resources + [x];
    GetOccupied(u, AfterEmplace(t, all), t.size, h.version);
  }

  /** The slots after removing the resource of slot k from the middle of the
      chain: k is freed (its version bumped, its `next` the old free start),
      the last slot L takes over resource `hole` and k's neighbours `front`
      (k's next) and `behind` (k's back, or -1), and the old penultimate slot
      `pen` becomes the last of the chain. */
  function MiddleRemoved(slots: seq<Slot>, k: nat, l: nat, pen: nat, front: nat, behind: int, hole: nat, freeStart: int): (r: seq<Slot>)
    requires k < |slots| && l < |slots|
    ensures |r| == |slots|
    ensures r[k].version == Bump(slots[k].version)
    ensures forall j :: 0 <= j < |r| && j != k ==> r[j].version == slots[j].version
  {
    seq(|slots|, j requires 0 <= j < |slots| =>
      if j == k then Slot(slots[k].resourceIndex, Bump(slots[k].version), freeStart, -1)
      else if j == l then Slot(hole, slots[l].version, front, behind)
      else
        var cut := if j == pen then slots[j].(next := -1) else slots[j];
        var joined := if j == front then cut.(back := l) else cut;
        if j == behind then joined.(next := l) else joined)
  }

  /** remove_slot on the last slot of a chain of two or more. */
  lemma RemoveSlotTail(s: seq<Slot>, count: nat, l: nat, pen: nat)
    requires count <= |s| && l < count && pen < count && l != pen
    requires s[l].next == -1 && s[l].back == pen
    ensures var cut := s[pen := s[pen].(next := -1)];
            RemoveSlot(s, count, l) == Ok(cut[l := cut[l].(next := -1, back := -1)])
  {
  }

  /** The slots after replace_slot(k, l) for a middle slot k and the last
      slot l: l is cut off the end (pen becomes the end of the chain) and
      takes k's place between behind and front; k is unlinked. */
  function ReplacedMiddle(s: seq<Slot>, k: nat, l: nat, pen: nat, front: nat, behind: int): (r: seq<Slot>)
    requires k < |s| && l < |s| && pen < |s| && front < |s| && -1 <= behind < |s|
    ensures |r| == |s|
  {
    var cut := s[pen := s[pen].(next := -1)];
    var s2 := cut[l := cut[l].(next := -1, back := -1)];
    var moved := s2[l := s2[l].(next := front, back := behind)];
    var linkedFront := Link(moved, l, front);
    var both := if behind != -1 then Link(linkedFront, behind, l) else linkedFront;
    both[k := both[k].(back := -1, next := -1)]
  }

  /** replace_slot(k, l) for a middle slot k and the last slot l. */
  lemma ReplaceMiddle(s: seq<Slot>, count: nat, k: nat, l: nat, pen: nat, front: nat, behind: int)
    requires count <= |s| && k < count && l < count && pen < count && front < count && -1 <= behind < count
    requires k != l && k != pen && l != pen
    requires s[l].next == -1 && s[l].back == pen
    requires s[k].next == front && s[k].back == behind
    ensures ReplaceSlot(s, count, k, l) == Ok(ReplacedMiddle(s, k, l, pen, front, behind))
  {
    RemoveSlotTail(s, count, l, pen);
  }

  /** The slot updates of a middle removal, taken together. */
  lemma MiddleRemovedIs(slots: seq<Slot>, k: nat, l: nat, pen: nat, front: nat, behind: int, hole: nat, freeStart: int)
    requires k < |slots| && l < |slots| && pen < |slots| && front < |slots| && -1 <= behind < |slots|
    requires k != l && k != pen && l != pen
    requires front != k && front != l && behind != k && behind != l && behind != pen && behind != front
    ensures var bumped := slots[k := slots[k].(version := Bump(slots[k].version))];
            var replaced := ReplacedMiddle(bumped[l := bumped[l].(resourceIndex := hole)], k, l, pen, front, behind);
            && replaced[k := replaced[k].(next := freeStart, back := -1)] ==
                 MiddleRemoved(slots, k, l, pen, front, behind, hole, freeStart)
            && replaced[pen] == MiddleRemoved(slots, k, l, pen, front, behind, hole, freeStart)[pen]
  {
    var bumped := slots[k := slots[k].(version := Bump(slots[k].version))];
    var replaced := ReplacedMiddle(bumped[l := bumped[l].(resourceIndex := hole)], k, l, pen, front, behind);
    var freed := replaced[k := replaced[k].(next := freeStart, back := -1)];
    var m := MiddleRemoved(slots, k, l, pen, front, behind, hole, freeStart);
    forall j | 0 <= j < |slots|
      ensures freed[j] == m[j]
    {
      ReplacedMiddleAt(bumped[l := bumped[l].(resourceIndex := hole)], k, l, pen, front, behind, j);
    }
  }

  /** Entry j of the relinked slots. */
  lemma ReplacedMiddleAt(s: seq<Slot>, k: nat, l: nat, pen: nat, front: nat, behind: int, j: nat)
    requires k < |s| && l < |s| && pen < |s| && front < |s| && -1 <= behind < |s| && j < |s|
    requires k != l && k != pen && l != pen
    requires front != k && front != l && behind != k && behind != l && behind != pen && behind != front
    ensures ReplacedMiddle(s, k, l, pen, front, behind)[j] ==
              if j == k then s[k].(back := -1, next := -1)
              else if j == l then s[l].(next := front, back := behind)
              else
                var cut := if j == pen then s[j].(next := -1) else s[j];
                var joined := if j == front then cut.(back := l) else cut;
                if j == behind then joined.(next := l) else joined
  {
  }

  /** remove, unfolded down to its two halves, for a handle that resolves on
      a list whose last slot is in range. */
  /** RemoveWith on a live handle that is not the penultimate one. */
  lemma RemoveResolvingOther<T>(t: Table<T>, h: Handle, scrub: Option<T>, relink: bool)
    requires Stores(t) && h.index < t.count && h.version == t.slots[h.index].version
    requires t.slots[h.index].resourceIndex < t.size && SlotIndex(t.last, t.count) && h.index != t.penultimate
    requires SwapTail(t, h.index, scrub).Ok? && DropOther(SwapTail(t, h.index, scrub).value, h.index).Ok?
    ensures RemoveWith(t, h, scrub, relink) == Ok(Release(DropOther(SwapTail(t, h.index, scrub).value, h.index).value, h.index))
  {
  }

  /** RemoveWith on the live penultimate handle. */
  lemma RemoveResolvingPenultimate<T>(t: Table<T>, h: Handle, scrub: Option<T>, relink: bool)
    requires Stores(t) && h.index < t.count && h.version == t.slots[h.index].version
    requires t.slots[h.index].resourceIndex < t.size && SlotIndex(t.last, t.count) && h.index == t.penultimate
    requires SwapTail(t, h.index, scrub).Ok? && DropPenultimate(SwapTail(t, h.index, scrub).value, h.index, relink).Ok?
    ensures RemoveWith(t, h, scrub, relink) ==
              Ok(Release(DropPenultimate(SwapTail(t, h.index, scrub).value, h.index, relink).value, h.index))
  {
  }


  /** The halves of remove for a slot k that is neither the last nor the
      penultimate one. */
  /** The table after removing slot k from the middle of the chain: l, the
      last slot, takes k's resource position and its neighbours front and
      behind; pen becomes the last slot. */
  ghost function MiddleTable<T>(t: Table<T>, k: nat, l: nat, pen: nat, front: nat, behind: int,
                                hole: nat, tail: nat, scrub: Option<T>): Table<T>
    requires Stores(t) && k < t.count && l < t.count && pen < t.count && hole < t.size && tail < t.size
  {
    var slots := MiddleRemoved(t.slots, k, l, pen, front, behind, hole, t.freeStart);
    t.(resources := SwapOut(t.resources, hole, tail, scrub), size := t.size - 1,
       slots := slots, freeCount := t.freeCount + 1, freeStart := k,
       last := pen, penultimate := slots[pen].back)
  }


  /** SwapTail on a slot k other than the last slot l. */
  lemma SwapTailOther<T>(t: Table<T>, k: nat, scrub: Option<T>, l: nat, hole: nat, tail: nat)
    requires Stores(t) && k < t.count && t.last == l < t.count && k != l
    requires t.slots[k].resourceIndex == hole < t.size && t.slots[l].resourceIndex == tail < t.size
    ensures var bumped := t.slots[k := t.slots[k].(version := Bump(t.slots[k].version))];
            SwapTail(t, k, scrub) ==
              Ok(t.(slots := bumped[l := bumped[l].(resourceIndex := hole)],
                    resources := SwapOut(t.resources, hole, tail, scrub), size := t.size - 1))
  {
  }

  /** DropOther on a middle slot k of a table whose last slot is l. */
  lemma DropOtherMiddle<T>(u: Table<T>, k: nat, l: nat, pen: nat, front: nat, behind: int)
    requires Stores(u) && u.count == |u.slots| && k < u.count && u.last == l < u.count
    requires pen < u.count && front < u.count && -1 <= behind < u.count
    requires k != l && k != pen && l != pen
    requires u.slots[l].next == -1 && u.slots[l].back == pen
    requires u.slots[k].next == front && u.slots[k].back == behind
    ensures var replaced := ReplacedMiddle(u.slots, k, l, pen, front, behind);
            DropOther(u, k) == Ok(u.(slots := replaced, last := pen, penultimate := replaced[pen].back))
  {
    ReplaceMiddle(u.slots, u.count, k, l, pen, front, behind);
  }


  /** The chain half and the release of a middle removal, applied to the
      table SwapTail leaves, give the middle-removal table. */
  lemma DropReleaseMiddle<T>(t: Table<T>, k: nat, scrub: Option<T>, l: nat, pen: nat, front: nat, behind: int, hole: nat, tail: nat)
    requires Stores(t) && t.count == |t.slots| && k < t.count
    requires t.last == l < t.count && pen < t.count && front < t.count && -1 <= behind < t.count
    requires k != l && k != pen && l != pen && t.penultimate == pen
    requires hole < t.size && tail < t.size
    requires t.slots[l].next == -1 && t.slots[l].back == pen
    requires t.slots[k].next == front && t.slots[k].back == behind
    requires front != k && front != l && behind != k && behind != l && behind != pen && behind != front
    ensures var bumped := t.slots[k := t.slots[k].(version := Bump(t.slots[k].version))];
            var swapped := t.(slots := bumped[l := bumped[l].(resourceIndex := hole)],
                              resources := SwapOut(t.resources, hole, tail, scrub), size := t.size - 1);
            DropOther(swapped, k).Ok? &&
            Release(DropOther(swapped, k).value, k) == MiddleTable(t, k, l, pen, front, behind, hole, tail, scrub)
  {
    var bumped := t.slots[k := t.slots[k].(version := Bump(t.slots[k].version))];
    DropOtherMiddle(t.(slots := bumped[l := bumped[l].(resourceIndex := hole)],
                       resources := SwapOut(t.resources, hole, tail, scrub), size := t.size - 1),
                    k, l, pen, front, behind);
    MiddleRemovedIs(t.slots, k, l, pen, front, behind, hole, t.freeStart);
  }


  /** What removing the middle slot k needs: l is the last slot and pen the
      penultimate one, front and behind are k's neighbours, hole and tail the
      resource positions of k and l. */
  ghost predicate MiddleFacts<T>(t: Table<T>, k: nat, l: nat, pen: nat, front: nat, behind: int, hole: nat, tail: nat)
  {
    && Stores(t) && t.count == |t.slots| && k < t.count
    && t.last == l < t.count && pen < t.count && front < t.count && -1 <= behind < t.count
    && k != l && k != pen && l != pen && t.penultimate == pen
    && t.slots[k].resourceIndex == hole < t.size && t.slots[l].resourceIndex == tail < t.size
    && t.slots[l].next == -1 && t.slots[l].back == pen
    && t.slots[k].next == front && t.slots[k].back == behind
    && front != k && front != l && behind != k && behind != l && behind != pen && behind != front
  }

  lemma RemoveMiddle<T>(t: Table<T>, k: nat, scrub: Option<T>, l: nat, pen: nat, front: nat, behind: int, hole: nat, tail: nat)
    requires MiddleFacts(t, k, l, pen, front, behind, hole, tail)
    ensures var h := Handle(k, t.slots[k].version);
            Remove(t, h, scrub) == Ok(MiddleTable(t, k, l, pen, front, behind, hole, tail, scrub))
  {
    SwapTailOther(t, k, scrub, l, hole, tail);
    DropReleaseMiddle(t, k, scrub, l, pen, front, behind, hole, tail);
    RemoveResolvingOther(t, Handle(k, t.slots[k].version), scrub, true);
  }





  /** The slots after removing the last live slot k, whose predecessor is
      pred: pred closes the chain and k heads the free list. */
  function TailRemoved(slots: seq<Slot>, k: nat, pred: int, freeStart: int): (r: seq<Slot>)
    requires k < |slots| && -1 <= pred < |slots|
    ensures |r| == |slots|
    ensures r[k].version == Bump(slots[k].version)
    ensures forall j :: 0 <= j < |r| && j != k ==> r[j].version == slots[j].version
  {
    var cut := if pred >= 0 then slots[pred := slots[pred].(next := -1)] else slots;
    cut[k := Slot(slots[k].resourceIndex, Bump(slots[k].version), freeStart, -1)]
  }

  /** The slots after removing the penultimate slot k in front of the last
      slot l: l takes over k's resource position and predecessor pred. */
  function PenRemoved(slots: seq<Slot>, k: nat, l: nat, pred: int, hole: nat, freeStart: int): (r: seq<Slot>)
    requires k < |slots| && l < |slots| && -1 <= pred < |slots|
    ensures |r| == |slots|
    ensures r[k].version == Bump(slots[k].version)
    ensures forall j :: 0 <= j < |r| && j != k ==> r[j].version == slots[j].version
  {
    var moved := slots[l := slots[l].(resourceIndex := hole, back := pred)];
    var linked := if pred >= 0 then moved[pred := moved[pred].(next := l)] else moved;
    linked[k := Slot(slots[k].resourceIndex, Bump(slots[k].version), freeStart, -1)]
  }

  lemma RemoveLast<T>(t: Table<T>, k: nat, scrub: Option<T>, pred: int)
    requires Stores(t) && k < t.count && t.slots[k].resourceIndex < t.size && t.last == k
    requires t.slots[k].next == -1 && t.slots[k].back == pred && -1 <= pred < t.count && pred != k
    ensures SwapTail(t, k, scrub).Ok? && DropOther(SwapTail(t, k, scrub).value, k).Ok?
    ensures Release(DropOther(SwapTail(t, k, scrub).value, k).value, k) ==
                 t.(resources := t.resources[..|t.resources| - 1], size := t.size - 1,
                    slots := TailRemoved(t.slots, k, pred, t.freeStart), freeCount := t.freeCount + 1, freeStart := k,
                    last := pred, penultimate := if pred >= 0 then t.slots[pred].back else t.penultimate)
  {
    var bumped := t.slots[k := t.slots[k].(version := Bump(t.slots[k].version))];
    var swapped := SwapTail(t, k, scrub);
    assert swapped.Ok? && swapped.value.slots == bumped;
    var cut := if pred >= 0 then bumped[pred := bumped[pred].(next := -1)] else bumped;
    assert ReplaceSlot(bumped, t.count, k, k) == Ok(cut[k := cut[k].(next := -1, back := -1)]);
  }

  lemma RemovePenultimate<T>(t: Table<T>, k: nat, scrub: Option<T>, l: nat, pred: int)
    requires Stores(t) && k < t.count && t.slots[k].resourceIndex < t.size
    requires t.last == l < t.count && k != l && t.slots[l].resourceIndex < t.size
    requires t.slots[k].back == pred && -1 <= pred < t.count && pred != k && pred != l
    ensures SwapTail(t, k, scrub).Ok? && DropPenultimate(SwapTail(t, k, scrub).value, k, true).Ok?
    ensures var hole := t.slots[k].resourceIndex;
            Release(DropPenultimate(SwapTail(t, k, scrub).value, k, true).value, k) ==
                 t.(resources := SwapOut(t.resources, hole, t.slots[l].resourceIndex, scrub), size := t.size - 1,
                    slots := PenRemoved(t.slots, k, l, pred, hole, t.freeStart), freeCount := t.freeCount + 1,
                    freeStart := k, penultimate := pred)
  {
    var hole := t.slots[k].resourceIndex;
    var bumped := t.slots[k := t.slots[k].(version := Bump(t.slots[k].version))];
    var s := bumped[l := bumped[l].(resourceIndex := hole)];
    var swapped := SwapTail(t, k, scrub);
    assert swapped.Ok? && swapped.value.slots == s;
  }

  /** `all` with positions i and j exchanged. */
  function Swap(all: seq<nat>, i: nat, j: nat): (r: seq<nat>)
    requires i < |all| && j < |all|
    ensures |r| == |all|
  {
    all[i := all[j]][j := all[i]]
  }

  lemma SwapPermutation(all: seq<nat>, i: nat, j: nat)
    requires Permutation(all) && i < |all| && j < |all|
    ensures Permutation(Swap(all, i, j))
  {
    var s := Swap(all, i, j);
    forall a, b | 0 <= a < b < |s|
      ensures s[a] != s[b]
    {
      var a' := if a == i then j else if a == j then i else a;
      var b' := if b == i then j else if b == j then i else b;
      assert s[a] == all[a'] && s[b] == all[b'] && a' != b';
    }
  }

  /** Linked, from its three facts established position by position. */
  lemma LinkedFrom(slots: seq<Slot>, all: seq<nat>, n: nat)
    requires Permutation(all) && |all| == |slots| && n <= |all|
    requires forall r :: 0 <= r < n ==> slots[all[r]].resourceIndex == r
    requires forall r :: 0 <= r < n ==> slots[all[r]].back == Prev(all, r)
    requires forall r :: 0 <= r < n ==> slots[all[r]].next == Next(all, n, r)
    ensures Linked(slots, all, n)
  {
  }

  /** One position of the chain after a middle removal: the slot now at
      position r carries r, its predecessor and its successor. */
  lemma MiddleLinkedAt(slots: seq<Slot>, all: seq<nat>, n: nat, ri: nat, freeStart: int, r: nat)
    requires Permutation(all) && |all| == |slots| && n <= |all| && ri + 2 < n && r < n - 1
    requires r != ri ==> slots[all[r]].back == Prev(all, r) && slots[all[r]].next == Next(all, n, r)
    requires r != ri ==> slots[all[r]].resourceIndex == r
    ensures var s := MiddleRemoved(slots, all[ri], all[n - 1], all[n - 2], all[ri + 1], Prev(all, ri), ri, freeStart);
            var all' := Swap(all, ri, n - 1);
            && s[all'[r]].resourceIndex == r && s[all'[r]].back == Prev(all', r)
            && s[all'[r]].next == Next(all', n - 1, r)
  {
    var all' := Swap(all, ri, n - 1);
    if r == ri {
      assert all'[r] == all[n - 1];
    } else {
      var j := all[r];
      assert all'[r] == j && all'[ri] == all[n - 1];
      if r > 0 && r - 1 != ri { assert all'[r - 1] == all[r - 1]; }
      if r + 1 < n - 1 && r + 1 != ri { assert all'[r + 1] == all[r + 1]; }
      assert j != all[ri] && j != all[n - 1];
      assert j == all[ri + 1] <==> r == ri + 1;
      assert j == all[n - 2] <==> r == n - 2;
      assert j == Prev(all, ri) <==> r + 1 == ri;
      var s := MiddleRemoved(slots, all[ri], all[n - 1], all[n - 2], all[ri + 1], Prev(all, ri), ri, freeStart);
      assert s[j].resourceIndex == r;
      if r == ri + 1 {
        assert s[j].back == all[n - 1];
        assert Prev(all', r) == all'[ri];
      } else {
        assert s[j].back == slots[j].back;
        assert slots[j].back == Prev(all, r);
        assert Prev(all, r) == Prev(all', r);
      }
      if r + 1 == ri {
        assert s[j].next == all[n - 1];
      } else if r == n - 2 {
        assert s[j].next == -1;
      } else {
        assert s[j].next == slots[j].next;
        assert s[j].next == Next(all', n - 1, r);
      }
    }
  }

  /** After a middle removal the chain, with the last slot moved to
      position ri, is linked again. */
  lemma MiddleLinked(slots: seq<Slot>, all: seq<nat>, n: nat, ri: nat, freeStart: int)
    requires Permutation(all) && |all| == |slots| && n <= |all| && Linked(slots, all, n) && ri + 2 < n
    ensures Permutation(Swap(all, ri, n - 1))
    ensures var s := MiddleRemoved(slots, all[ri], all[n - 1], all[n - 2], all[ri + 1], Prev(all, ri), ri, freeStart);
            Linked(s, Swap(all, ri, n - 1), n - 1)
  {
    var s := MiddleRemoved(slots, all[ri], all[n - 1], all[n - 2], all[ri + 1], Prev(all, ri), ri, freeStart);
    var all' := Swap(all, ri, n - 1);
    SwapPermutation(all, ri, n - 1);
    forall r | 0 <= r < n - 1
      ensures s[all'[r]].resourceIndex == r && s[all'[r]].back == Prev(all', r)
      ensures s[all'[r]].next == Next(all', n - 1, r)
    {
      MiddleLinkedAt(slots, all, n, ri, freeStart, r);
    }
    LinkedFrom(s, all', n - 1);
  }

  /** After a middle removal the free list starts with the removed slot. */
  lemma MiddleFreeListed(slots: seq<Slot>, all: seq<nat>, n: nat, ri: nat, freeStart: int)
    requires Permutation(all) && |all| == |slots| && n <= |all| && FreeListed(slots, all, n) && ri + 2 < n
    requires n < |all| ==> freeStart == all[n]
    ensures Permutation(Swap(all, ri, n - 1))
    ensures var s := MiddleRemoved(slots, all[ri], all[n - 1], all[n - 2], all[ri + 1], Prev(all, ri), ri, freeStart);
            FreeListed(s, Swap(all, ri, n - 1), n - 1)
  {
    SwapPermutation(all, ri, n - 1);
    var k, l, pen, front, behind := all[ri], all[n - 1], all[n - 2], all[ri + 1], Prev(all, ri);
    var s := MiddleRemoved(slots, k, l, pen, front, behind, ri, freeStart);
    var all' := Swap(all, ri, n - 1);
    forall i | n - 1 <= i < |all'| - 1
      ensures s[all'[i]].next == all'[i + 1]
    {
      if i >= n {
        assert all[i] != k && all[i] != l && all[i] != pen && all[i] != front;
        assert ri > 0 ==> all[i] != behind;
      }
    }
  }

  lemma LastLinkedAt(slots: seq<Slot>, all: seq<nat>, n: nat, freeStart: int, r: nat)
    requires Permutation(all) && |all| == |slots| && 0 < n <= |all| && r < n - 1
    requires slots[all[r]].back == Prev(all, r) && slots[all[r]].next == Next(all, n, r)
    requires slots[all[r]].resourceIndex == r
    ensures var s := TailRemoved(slots, all[n - 1], Prev(all, n - 1), freeStart);
            && s[all[r]].resourceIndex == r && s[all[r]].back == Prev(all, r)
            && s[all[r]].next == Next(all, n - 1, r)
  {
    assert all[r] != all[n - 1];
    assert all[r] == Prev(all, n - 1) <==> r == n - 2;
  }

  /** Removing the last live slot keeps the rest of the chain linked. */
  lemma LastLinked(slots: seq<Slot>, all: seq<nat>, n: nat, freeStart: int)
    requires Permutation(all) && |all| == |slots| && 0 < n <= |all| && Linked(slots, all, n)
    ensures Linked(TailRemoved(slots, all[n - 1], Prev(all, n - 1), freeStart), all, n - 1)
  {
    var s := TailRemoved(slots, all[n - 1], Prev(all, n - 1), freeStart);
    forall r | 0 <= r < n - 1
      ensures s[all[r]].resourceIndex == r && s[all[r]].back == Prev(all, r)
      ensures s[all[r]].next == Next(all, n - 1, r)
    {
      LastLinkedAt(slots, all, n, freeStart, r);
    }
  }

  lemma LastFreeListed(slots: seq<Slot>, all: seq<nat>, n: nat, freeStart: int)
    requires Permutation(all) && |all| == |slots| && 0 < n <= |all| && FreeListed(slots, all, n)
    requires n < |all| ==> freeStart == all[n]
    ensures FreeListed(TailRemoved(slots, all[n - 1], Prev(all, n - 1), freeStart), all, n - 1)
  {
    var s := TailRemoved(slots, all[n - 1], Prev(all, n - 1), freeStart);
    forall i | n - 1 <= i < |all| - 1
      ensures s[all[i]].next == all[i + 1]
    {
      if i >= n {
        assert all[i] != all[n - 1];
        assert n > 1 ==> all[i] != all[n - 2];
      }
    }
  }

  lemma PenLinkedAt(slots: seq<Slot>, all: seq<nat>, n: nat, freeStart: int, r: nat)
    requires Permutation(all) && |all| == |slots| && 2 <= n <= |all| && r < n - 1
    requires slots[all[r]].back == Prev(all, r) && slots[all[r]].next == Next(all, n, r)
    requires slots[all[r]].resourceIndex == r && slots[all[n - 1]].next == -1
    ensures var s := PenRemoved(slots, all[n - 2], all[n - 1], Prev(all, n - 2), n - 2, freeStart);
            var all' := Swap(all, n - 2, n - 1);
            && s[all'[r]].resourceIndex == r && s[all'[r]].back == Prev(all', r)
            && s[all'[r]].next == Next(all', n - 1, r)
  {
    var all' := Swap(all, n - 2, n - 1);
    assert all'[n - 2] == all[n - 1];
    if n > 2 { assert all'[n - 3] == all[n - 3]; }
    if r < n - 2 {
      assert all'[r] == all[r] != all[n - 2] && all[r] != all[n - 1];
      assert all[r] == Prev(all, n - 2) <==> r == n - 3;
      if r > 0 { assert all'[r - 1] == all[r - 1]; }
      if r + 1 < n - 2 { assert all'[r + 1] == all[r + 1]; }
    }
  }

  /** Removing the penultimate slot moves the last slot into its place. */
  lemma PenLinked(slots: seq<Slot>, all: seq<nat>, n: nat, freeStart: int)
    requires Permutation(all) && |all| == |slots| && 2 <= n <= |all| && Linked(slots, all, n)
    ensures Permutation(Swap(all, n - 2, n - 1))
    ensures Linked(PenRemoved(slots, all[n - 2], all[n - 1], Prev(all, n - 2), n - 2, freeStart),
                   Swap(all, n - 2, n - 1), n - 1)
  {
    var s := PenRemoved(slots, all[n - 2], all[n - 1], Prev(all, n - 2), n - 2, freeStart);
    var all' := Swap(all, n - 2, n - 1);
    SwapPermutation(all, n - 2, n - 1);
    forall r | 0 <= r < n - 1
      ensures s[all'[r]].resourceIndex == r && s[all'[r]].back == Prev(all', r)
      ensures s[all'[r]].next == Next(all', n - 1, r)
    {
      PenLinkedAt(slots, all, n, freeStart, r);
    }
    LinkedFrom(s, all', n - 1);
  }

  lemma PenFreeListed(slots: seq<Slot>, all: seq<nat>, n: nat, freeStart: int)
    requires Permutation(all) && |all| == |slots| && 2 <= n <= |all| && FreeListed(slots, all, n)
    requires n < |all| ==> freeStart == all[n]
    ensures Permutation(Swap(all, n - 2, n - 1))
    ensures FreeListed(PenRemoved(slots, all[n - 2], all[n - 1], Prev(all, n - 2), n - 2, freeStart),
                       Swap(all, n - 2, n - 1), n - 1)
  {
    SwapPermutation(all, n - 2, n - 1);
    var s := PenRemoved(slots, all[n - 2], all[n - 1], Prev(all, n - 2), n - 2, freeStart);
    var all' := Swap(all, n - 2, n - 1);
    forall i | n - 1 <= i < |all'| - 1
      ensures s[all'[i]].next == all'[i + 1]
    {
      if i >= n {
        assert all[i] != all[n - 1] && all[i] != all[n - 2];
        assert n > 2 ==> all[i] != all[n - 3];
      }
    }
  }

  /** The shape facts of Chained without its links: `all` names every slot. */
  ghost predicate Positions<T>(t: Table<T>, all: seq<nat>)
  {
    && t.count == |t.slots| == |all| && t.size == |t.resources| <= |all|
    && forall i :: 0 <= i < |all| ==> all[i] < |all|
  }

  /** The table that removing the live resource at position ri of the chain
      `all` leaves behind: the last live slot moves into position ri, the
      removed slot, with its version bumped, heads the free list. */
  ghost function Removed<T>(t: Table<T>, all: seq<nat>, ri: nat, scrub: Option<T>): Table<T>
    requires Positions(t, all) && ri < t.size
  {
    if ri == t.size - 1 then RemovedLast(t, all)
    else if ri == t.size - 2 then RemovedPenultimate(t, all, scrub)
    else RemovedMiddle(t, all, ri, scrub)
  }

  ghost function RemovedLast<T>(t: Table<T>, all: seq<nat>): Table<T>
    requires Positions(t, all) && 0 < t.size
  {
    var n := t.size;
    var k, pred := all[n - 1], Prev(all, n - 1);
    t.(resources := t.resources[..n - 1], size := n - 1, slots := TailRemoved(t.slots, k, pred, t.freeStart),
       freeCount := t.freeCount + 1, freeStart := k,
       last := pred, penultimate := if pred >= 0 then t.slots[pred].back else t.penultimate)
  }

  ghost function RemovedPenultimate<T>(t: Table<T>, all: seq<nat>, scrub: Option<T>): Table<T>
    requires Positions(t, all) && 2 <= t.size
  {
    var n := t.size;
    t.(resources := SwapOut(t.resources, n - 2, n - 1, scrub), size := n - 1,
       slots := PenRemoved(t.slots, all[n - 2], all[n - 1], Prev(all, n - 2), n - 2, t.freeStart),
       freeCount := t.freeCount + 1, freeStart := all[n - 2], penultimate := Prev(all, n - 2))
  }

  ghost function RemovedMiddle<T>(t: Table<T>, all: seq<nat>, ri: nat, scrub: Option<T>): Table<T>
    requires Positions(t, all) && ri + 2 < t.size
  {
    var n := t.size;
    MiddleTable(t, all[ri], all[n - 1], all[n - 2], all[ri + 1], Prev(all, ri), ri, n - 1, scrub)
  }



  /** The slot at position r of the chain. */
  lemma SlotAt<T>(t: Table<T>, all: seq<nat>, r: nat)
    requires Chained(t, all) && r < t.size
    ensures t.slots[all[r]] == Slot(r, t.slots[all[r]].version, Next(all, t.size, r), Prev(all, r))
  {
  }

  /** The slot facts removal at position ri relies on, case by case: the
      last position, the penultimate one, or one further in front. */
  ghost predicate RemoveFacts<T>(t: Table<T>, all: seq<nat>, ri: nat)
    requires Positions(t, all) && ri < t.size
  {
    var n, k := t.size, all[ri];
    var l, pred := all[n - 1], Prev(all, ri);
    && t.last == l && t.slots[k].resourceIndex == ri && t.slots[l].resourceIndex == n - 1
    && t.slots[k].back == pred && t.slots[k].next == Next(all, n, ri) && pred != k
    && (ri == n - 1 ==> t.penultimate != k)
    && (ri == n - 2 ==> t.penultimate == k && k != l && pred != l)
    && (ri + 2 < n ==> MiddleFacts(t, all[ri], all[t.size - 1], all[t.size - 2], all[ri + 1], Prev(all, ri), ri, t.size - 1))
  }

  lemma ChainFacts<T>(t: Table<T>, all: seq<nat>, ri: nat)
    requires Chained(t, all) && ri < t.size
    ensures Positions(t, all) && RemoveFacts(t, all, ri)
  {
    var n, k := t.size, all[ri];
    var l := all[n - 1];
    SlotAt(t, all, ri);
    SlotAt(t, all, n - 1);
    if ri + 2 < n {
      assert all[ri + 1] != k && all[ri + 1] != l && all[n - 2] != l && all[n - 2] != k;
      assert Prev(all, ri) != all[n - 2] && Prev(all, ri) != all[ri + 1];
    }
  }

  /** Remove with the penultimate relink, on a live handle, is the table above. */
  lemma RemoveIs<T>(t: Table<T>, all: seq<nat>, ri: nat, scrub: Option<T>)
    requires Chained(t, all) && ri < t.size
    ensures var h := Handle(all[ri], t.slots[all[ri]].version);
            Remove(t, h, scrub) == Ok(Removed(t, all, ri, scrub))
  {
    ChainFacts(t, all, ri);
    RemoveIsFromFacts(t, all, ri, scrub);
  }

  lemma RemoveIsFromFacts<T>(t: Table<T>, all: seq<nat>, ri: nat, scrub: Option<T>)
    requires Positions(t, all) && ri < t.size && RemoveFacts(t, all, ri)
    ensures var h := Handle(all[ri], t.slots[all[ri]].version);
            Remove(t, h, scrub) == Ok(Removed(t, all, ri, scrub))
  {
    var n := t.size;
    if ri == n - 1 {
      RemoveIsLast(t, all, scrub);
    } else if ri == n - 2 {
      RemoveIsPen(t, all, scrub);
    } else {
      RemoveIsMiddle(t, all, ri, scrub);
      RemovedIsMiddle(t, all, ri, scrub);
    }
  }

  lemma RemovedIsMiddle<T>(t: Table<T>, all: seq<nat>, ri: nat, scrub: Option<T>)
    requires Positions(t, all) && ri + 2 < t.size
    ensures Removed(t, all, ri, scrub) ==
              MiddleTable(t, all[ri], all[t.size - 1], all[t.size - 2], all[ri + 1], Prev(all, ri), ri, t.size - 1, scrub)
  {
  }

  lemma RemoveIsLast<T>(t: Table<T>, all: seq<nat>, scrub: Option<T>)
    requires Positions(t, all) && 0 < t.size && RemoveFacts(t, all, t.size - 1)
    ensures var h := Handle(all[t.size - 1], t.slots[all[t.size - 1]].version);
            Remove(t, h, scrub) == Ok(RemovedLast(t, all))
  {
    RemoveLast(t, all[t.size - 1], scrub, Prev(all, t.size - 1));
    RemoveResolvingOther(t, Handle(all[t.size - 1], t.slots[all[t.size - 1]].version), scrub, true);
  }

  lemma RemoveIsPen<T>(t: Table<T>, all: seq<nat>, scrub: Option<T>)
    requires Positions(t, all) && 2 <= t.size && RemoveFacts(t, all, t.size - 2)
    ensures var h := Handle(all[t.size - 2], t.slots[all[t.size - 2]].version);
            Remove(t, h, scrub) == Ok(RemovedPenultimate(t, all, scrub))
  {
    var n := t.size;
    RemovePenultimate(t, all[n - 2], scrub, all[n - 1], Prev(all, n - 2));
    RemoveResolvingPenultimate(t, Handle(all[t.size - 2], t.slots[all[t.size - 2]].version), scrub, true);
  }

  lemma RemoveIsMiddle<T>(t: Table<T>, all: seq<nat>, ri: nat, scrub: Option<T>)
    requires Positions(t, all) && ri + 2 < t.size && RemoveFacts(t, all, ri)
    ensures var h := Handle(all[ri], t.slots[all[ri]].version);
            Remove(t, h, scrub) ==
              Ok(MiddleTable(t, all[ri], all[t.size - 1], all[t.size - 2], all[ri + 1], Prev(all, ri), ri, t.size - 1, scrub))
  {
    RemoveMiddle(t, all[ri], scrub, all[t.size - 1], all[t.size - 2], all[ri + 1], Prev(all, ri), ri, t.size - 1);
  }


  lemma LastChained<T>(t: Table<T>, all: seq<nat>, ri: nat, scrub: Option<T>)
    requires Chained(t, all) && ri == t.size - 1
    ensures Chained(Removed(t, all, ri, scrub), Swap(all, ri, t.size - 1))
  {
    var n := t.size;
    assert Swap(all, n - 1, n - 1) == all;
    var u := Removed(t, all, n - 1, scrub);
    LastLinked(t.slots, all, n, t.freeStart);
    LastFreeListed(t.slots, all, n, t.freeStart);
    if n >= 2 {
      assert t.slots[all[n - 2]].back == Prev(all, n - 2);
    }
  }

  lemma PenChained<T>(t: Table<T>, all: seq<nat>, ri: nat, scrub: Option<T>)
    requires Chained(t, all) && 2 <= t.size && ri == t.size - 2
    ensures Chained(Removed(t, all, ri, scrub), Swap(all, ri, t.size - 1))
  {
    var n := t.size;
    var all' := Swap(all, n - 2, n - 1);
    PenLinked(t.slots, all, n, t.freeStart);
    PenFreeListed(t.slots, all, n, t.freeStart);
    assert all'[n - 2] == all[n - 1] && all'[n - 1] == all[n - 2];
    if n > 2 { assert all'[n - 3] == all[n - 3]; }
  }

  lemma MiddleCounters<T>(t: Table<T>, all: seq<nat>, ri: nat, scrub: Option<T>)
    requires Chained(t, all) && ri + 2 < t.size
    ensures Removed(t, all, ri, scrub).size <= |Swap(all, ri, t.size - 1)|
    ensures Counters(Removed(t, all, ri, scrub), Swap(all, ri, t.size - 1))
  {
    var n := t.size;
    var all' := Swap(all, ri, n - 1);
    var u := Removed(t, all, ri, scrub);
    assert all'[n - 2] == all[n - 2] && all'[n - 1] == all[ri];
    assert u.slots[all[n - 2]].back == all'[n - 3] by {
      if n - 3 == ri {
        assert all[ri + 1] == all[n - 2];
      } else {
        assert all'[n - 3] == all[n - 3];
        SlotAt(t, all, n - 2);
      }
    }
  }

  lemma MiddleChained<T>(t: Table<T>, all: seq<nat>, ri: nat, scrub: Option<T>)
    requires Chained(t, all) && ri + 2 < t.size
    ensures Chained(Removed(t, all, ri, scrub), Swap(all, ri, t.size - 1))
  {
    ChainedPositions(t, all);
    MiddleLinkedRemoved(t, all, ri, scrub);
    MiddleFreeListedRemoved(t, all, ri, scrub);
    MiddleCounters(t, all, ri, scrub);
  }

  lemma MiddleLinkedRemoved<T>(t: Table<T>, all: seq<nat>, ri: nat, scrub: Option<T>)
    requires Positions(t, all) && ri + 2 < t.size && Permutation(all) && Linked(t.slots, all, t.size)
    ensures Permutation(Swap(all, ri, t.size - 1))
    ensures Removed(t, all, ri, scrub).size == |Removed(t, all, ri, scrub).resources| == t.size - 1
    ensures Removed(t, all, ri, scrub).count == |Removed(t, all, ri, scrub).slots| == |all|
    ensures Linked(Removed(t, all, ri, scrub).slots, Swap(all, ri, t.size - 1), t.size - 1)
  {
    RemovedMiddleFields(t, all, ri, scrub);
    MiddleLinkedNamed(t.slots, all, t.size, ri, t.freeStart, Removed(t, all, ri, scrub).slots);
  }

  /** MiddleLinked, for slots given by name. */
  lemma MiddleLinkedNamed(slots: seq<Slot>, all: seq<nat>, n: nat, ri: nat, freeStart: int, s: seq<Slot>)
    requires Permutation(all) && |all| == |slots| && n <= |all| && Linked(slots, all, n) && ri + 2 < n
    requires s == MiddleRemoved(slots, all[ri], all[n - 1], all[n - 2], all[ri + 1], Prev(all, ri), ri, freeStart)
    ensures Permutation(Swap(all, ri, n - 1))
    ensures Linked(s, Swap(all, ri, n - 1), n - 1)
  {
    MiddleLinked(slots, all, n, ri, freeStart);
  }

  lemma MiddleFreeListedRemoved<T>(t: Table<T>, all: seq<nat>, ri: nat, scrub: Option<T>)
    requires Positions(t, all) && ri + 2 < t.size && Permutation(all) && FreeListed(t.slots, all, t.size)
    requires t.size < |all| ==> t.freeStart == all[t.size]
    ensures FreeListed(Removed(t, all, ri, scrub).slots, Swap(all, ri, t.size - 1), Removed(t, all, ri, scrub).size)
  {
    RemovedMiddleFields(t, all, ri, scrub);
    MiddleFreeListed(t.slots, all, t.size, ri, t.freeStart);
  }

  lemma ChainedPositions<T>(t: Table<T>, all: seq<nat>)
    requires Chained(t, all)
    ensures Positions(t, all)
  {
  }

  /** The fields of the table a middle removal leaves. */
  lemma RemovedMiddleFields<T>(t: Table<T>, all: seq<nat>, ri: nat, scrub: Option<T>)
    requires Positions(t, all) && ri + 2 < t.size
    ensures var n, u := t.size, Removed(t, all, ri, scrub);
            var s := MiddleRemoved(t.slots, all[ri], all[n - 1], all[n - 2], all[ri + 1], Prev(all, ri), ri, t.freeStart);
            && u.slots == s && u.size == n - 1 == |u.resources| && u.count == t.count
            && u.freeCount == t.freeCount + 1 && u.freeStart == all[ri]
            && u.last == all[n - 2] && u.penultimate == s[all[n - 2]].back
  {
  }


  lemma RemovedChained<T>(t: Table<T>, all: seq<nat>, ri: nat, scrub: Option<T>)
    requires Chained(t, all) && ri < t.size
    ensures Chained(Removed(t, all, ri, scrub), Swap(all, ri, t.size - 1))
  {
    if ri == t.size - 1 {
      LastChained(t, all, ri, scrub);
    } else if ri == t.size - 2 {
      PenChained(t, all, ri, scrub);
    } else {
      MiddleChained(t, all, ri, scrub);
    }
  }

  lemma BumpChanges(v: nat)
    ensures Bump(v) != v
  {
  }

  /** Only the removed slot changes its version. */
  lemma RemovedVersions<T>(t: Table<T>, all: seq<nat>, ri: nat, scrub: Option<T>)
    requires Chained(t, all) && ri < t.size
    ensures var u := Removed(t, all, ri, scrub);
            && |u.slots| == |t.slots| && u.count == t.count
            && u.slots[all[ri]].version == Bump(t.slots[all[ri]].version)
            && forall j :: 0 <= j < |t.slots| && j != all[ri] ==> u.slots[j].version == t.slots[j].version
  {
    if ri + 2 < t.size {
      assert all[ri] != all[t.size - 1];
    }
  }

  lemma RemovedData<T>(t: Table<T>, all: seq<nat>, ri: nat, scrub: Option<T>)
    requires Chained(t, all) && ri < t.size
    ensures var n := t.size;
            Data(Removed(t, all, ri, scrub)) == Data(t)[ri := Data(t)[n - 1]][..n - 1]
  {
  }

  /** What removing a live handle does, as seen through Data and Get: the
      last resource fills the hole, the handle goes stale, every other live
      handle still finds its resource and every stale handle stays stale. */
  lemma RemoveResolves<T>(t: Table<T>, all: seq<nat>, ri: nat, scrub: Option<T>)
    requires Chained(t, all) && ri < t.size
    ensures var h := Handle(all[ri], t.slots[all[ri]].version);
            Remove(t, h, scrub).Ok?
    ensures var h := Handle(all[ri], t.slots[all[ri]].version);
            Chained(Remove(t, h, scrub).value, Swap(all, ri, t.size - 1))
    ensures var n, h := t.size, Handle(all[ri], t.slots[all[ri]].version);
            var u := Remove(t, h, scrub).value;
            && Data(u) == Data(t)[ri := Data(t)[n - 1]][..n - 1]
            && multiset(Data(u)) + multiset{Data(t)[ri]} == multiset(Data(t))
    ensures var h := Handle(all[ri], t.slots[all[ri]].version);
            var u := Remove(t, h, scrub).value;
            && Get(u, h) == Ok(None)
            && (forall g: Handle :: g.index != h.index && Get(t, g) == Ok(None) ==> Get(u, g) == Ok(None))
    ensures var h := Handle(all[ri], t.slots[all[ri]].version);
            var u := Remove(t, h, scrub).value;
            forall r :: 0 <= r < t.size && r != ri ==>
              Get(u, Handle(all[r], t.slots[all[r]].version)) == Ok(Some(Data(t)[r]))
  {
    RemoveIs(t, all, ri, scrub);
    RemovedResolves(t, all, ri, scrub);
  }

  /** The properties of remove, on the table it leaves. */
  lemma RemovedResolves<T>(t: Table<T>, all: seq<nat>, ri: nat, scrub: Option<T>)
    requires Chained(t, all) && ri < t.size
    ensures Positions(t, all)
    ensures Chained(Removed(t, all, ri, scrub), Swap(all, ri, t.size - 1))
    ensures var n, u := t.size, Removed(t, all, ri, scrub);
            && Data(u) == Data(t)[ri := Data(t)[n - 1]][..n - 1]
            && multiset(Data(u)) + multiset{Data(t)[ri]} == multiset(Data(t))
    ensures var h, u := Handle(all[ri], t.slots[all[ri]].version), Removed(t, all, ri, scrub);
            && Get(u, h) == Ok(None)
            && (forall g: Handle :: g.index != h.index && Get(t, g) == Ok(None) ==> Get(u, g) == Ok(None))
    ensures var u := Removed(t, all, ri, scrub);
            forall r :: 0 <= r < t.size && r != ri ==>
              Get(u, Handle(all[r], t.slots[all[r]].version)) == Ok(Some(Data(t)[r]))
  {
    ChainedPositions(t, all);
    RemovedChained(t, all, ri, scrub);
    RemovedPacks(t, all, ri, scrub);
    RemovedStale(t, all, ri, scrub);
    RemovedKeeps(t, all, ri, scrub);
  }

  lemma RemovedPacks<T>(t: Table<T>, all: seq<nat>, ri: nat, scrub: Option<T>)
    requires Chained(t, all) && ri < t.size
    ensures var n, u := t.size, Removed(t, all, ri, scrub);
            && Data(u) == Data(t)[ri := Data(t)[n - 1]][..n - 1]
            && multiset(Data(u)) + multiset{Data(t)[ri]} == multiset(Data(t))
  {
    RemovedData(t, all, ri, scrub);
    SwapMultiset(Data(t), ri);
  }

  lemma RemovedStale<T>(t: Table<T>, all: seq<nat>, ri: nat, scrub: Option<T>)
    requires Chained(t, all) && ri < t.size
    ensures var h, u := Handle(all[ri], t.slots[all[ri]].version), Removed(t, all, ri, scrub);
            && Get(u, h) == Ok(None)
            && (forall g: Handle :: g.index != h.index && Get(t, g) == Ok(None) ==> Get(u, g) == Ok(None))
  {
    RemovedVersions(t, all, ri, scrub);
    StaleStays(t, Removed(t, all, ri, scrub), Handle(all[ri], t.slots[all[ri]].version));
  }

  lemma RemovedKeeps<T>(t: Table<T>, all: seq<nat>, ri: nat, scrub: Option<T>)
    requires Chained(t, all) && ri < t.size
    ensures var u := Removed(t, all, ri, scrub);
            forall r :: 0 <= r < t.size && r != ri ==>
              Get(u, Handle(all[r], t.slots[all[r]].version)) == Ok(Some(Data(t)[r]))
  {
    RemovedChained(t, all, ri, scrub);
    RemovedVersions(t, all, ri, scrub);
    RemovedData(t, all, ri, scrub);
    RemoveKeepsOthers(t, all, ri, Removed(t, all, ri, scrub));
  }

  /** A table whose slots keep their versions except at h.index, where the
      version moves on, keeps every stale handle stale and makes h stale. */
  lemma StaleStays<T>(t: Table<T>, u: Table<T>, h: Handle)
    requires Stores(t) && Stores(u)
    requires h.index < |t.slots| == |u.slots| && t.count == u.count && h.version == t.slots[h.index].version
    requires u.slots[h.index].version == Bump(t.slots[h.index].version)
    requires forall j :: 0 <= j < |t.slots| && j != h.index ==> u.slots[j].version == t.slots[j].version
    ensures Get(u, h) == Ok(None)
    ensures forall g: Handle :: g.index != h.index && Get(t, g) == Ok(None) ==> Get(u, g) == Ok(None)
  {
    BumpChanges(h.version);
  }



  /** Every other live handle finds its resource in u, a table chained by
      `all` with positions ri and size - 1 swapped. */
  lemma RemoveKeepsOthers<T>(t: Table<T>, all: seq<nat>, ri: nat, u: Table<T>)
    requires Chained(t, all) && ri < t.size && Chained(u, Swap(all, ri, t.size - 1))
    requires Data(u) == Data(t)[ri := Data(t)[t.size - 1]][..t.size - 1]
    requires forall j :: 0 <= j < |t.slots| && j != all[ri] ==> u.slots[j].version == t.slots[j].version
    ensures forall r :: 0 <= r < t.size && r != ri ==>
              Get(u, Handle(all[r], t.slots[all[r]].version)) == Ok(Some(Data(t)[r]))
  {
    forall r | 0 <= r < t.size && r != ri
      ensures Get(u, Handle(all[r], t.slots[all[r]].version)) == Ok(Some(Data(t)[r]))
    {
      RemoveKeepsOne(t, all, ri, u, r);
    }
  }

  lemma RemoveKeepsOne<T>(t: Table<T>, all: seq<nat>, ri: nat, u: Table<T>, r: nat)
    requires Stores(t) && t.count == |t.slots| == |all| && Permutation(all)
    requires ri < t.size <= |all| && Chained(u, Swap(all, ri, t.size - 1))
    requires Data(u) == Data(t)[ri := Data(t)[t.size - 1]][..t.size - 1]
    requires forall j :: 0 <= j < |t.slots| && j != all[ri] ==> u.slots[j].version == t.slots[j].version
    requires r < t.size && r != ri
    ensures Get(u, Handle(all[r], t.slots[all[r]].version)) == Ok(Some(Data(t)[r]))
  {
    var r' := if r == t.size - 1 then ri else r;
    SlotAt(u, Swap(all, ri, t.size - 1), r');
    assert Swap(all, ri, t.size - 1)[r'] == all[r];
    assert all[r] != all[ri];
    assert Data(u)[r'] == Data(t)[r];
    GetLive(u, all[r], r', t.slots[all[r]].version, Data(t)[r]);
  }

  /** get on a slot whose version matches and whose resource is x. */
  lemma GetLive<T>(t: Table<T>, k: nat, ri: nat, version: nat, x: T)
    requires Stores(t) && k < t.count && t.slots[k].version == version
    requires t.slots[k].resourceIndex == ri < t.size && t.resources[ri] == x
    ensures Get(t, Handle(k, version)) == Ok(Some(x))
  {
  }

  /** Moving the last element into position i and dropping it removes
      exactly the element at i. */
  lemma SwapMultiset<T>(s: seq<T>, i: nat)
    requires i < |s|
    ensures multiset(s[i := s[|s| - 1]][..|s| - 1]) + multiset{s[i]} == multiset(s)
  {
    var n := |s|;
    var front, back := s[..n - 1], [s[n - 1]];
    assert s == front + back;
    if i < n - 1 {
      var moved := s[i := s[n - 1]][..n - 1];
      assert moved == front[i := s[n - 1]];
      assert multiset(moved) == multiset(front) - multiset{s[i]} + multiset{s[n - 1]} by {
        assert front[i] == s[i];
      }
    }
  }


  /** A handle the list could have issued: one get finds stale, or one naming
      an occupied slot with that slot's version. A handle made up to name a
      free slot with its current version is neither. */
  ghost predicate Issued<T>(t: Table<T>, all: seq<nat>, h: Handle)
    requires Chained(t, all)
  {
    Get(t, h) == Ok(None) || exists ri :: 0 <= ri < t.size && h == Handle(all[ri], t.slots[all[ri]].version)
  }

  /** remove(h) for an issued handle completes and keeps the table chained;
      the handle is stale afterwards, and the element it resolved to is the
      one element that leaves data(). Returns the new chain order. */
  lemma RemoveIssued<T>(t: Table<T>, all: seq<nat>, h: Handle, scrub: Option<T>) returns (all': seq<nat>)
    requires Chained(t, all) && Issued(t, all, h)
    ensures Remove(t, h, scrub).Ok? && Chained(Remove(t, h, scrub).value, all')
    ensures Get(Remove(t, h, scrub).value, h) == Ok(None)
    ensures Get(t, h) == Ok(None) ==> Remove(t, h, scrub) == Ok(t)
    ensures Get(t, h).Ok? && (Get(t, h).value.Some? ==>
              multiset(Data(Remove(t, h, scrub).value)) + multiset{Get(t, h).value.value} == multiset(Data(t)))
  {
    if Get(t, h) == Ok(None) {
      RemoveStale(t, h, scrub);
      all' := all;
    } else {
      var ri :| 0 <= ri < t.size && h == Handle(all[ri], t.slots[all[ri]].version);
      RemoveResolves(t, all, ri, scrub);
      GetOccupied(t, all, ri, h.version);
      all' := Swap(all, ri, t.size - 1);
    }
  }

  /** Removing a handle that does not resolve leaves the table as it is. */
  lemma RemoveStale<T>(t: Table<T>, h: Handle, scrub: Option<T>)
    requires Stores(t) && Get(t, h) == Ok(None)
    ensures Remove(t, h, scrub) == Ok(t)
  {
  }
}
