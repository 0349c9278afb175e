// FreelistCore: a first-fit style allocator of offsets inside a region of
// `size` units. The free ranges live in a std::map from offset to length,
// modelled here as the map's entries in key order.
module Freelists {
  import opened Common

  /** One entry of the free map: `length` free units starting at `offset`. */
  datatype Range = Range(offset: nat, length: nat)
  {
    function End(): nat { offset + length }

    /** What is left of the range once its first `n` units are handed out. */
    function Tail(n: nat): Range
      requires n <= length
    {
      Range(offset + n, length - n)
    }

    /** The range lengthened by `n` units at its end. */
    function Grow(n: nat): Range
    {
      Range(offset, length + n)
    }
  }

  /** The entries of a std::map come in strictly increasing key order. */
  predicate Sorted(e: seq<Range>)
  {
    forall i, j :: 0 <= i < j < |e| ==> e[i].offset < e[j].offset
  }

  predicate Positive(e: seq<Range>)
  {
    forall i :: 0 <= i < |e| ==> e[i].length > 0
  }

  /** Free ranges that neither overlap nor touch: every pair is separated by
      at least one used unit. */
  predicate Coalesced(e: seq<Range>)
  {
    forall i, j :: 0 <= i < j < |e| ==> e[i].End() < e[j].offset
  }

  predicate Within(e: seq<Range>, total: nat)
  {
    forall i :: 0 <= i < |e| ==> e[i].End() <= total
  }

  /** The shape a healthy free list keeps over a region of `total` units. */
  predicate Layout(e: seq<Range>, total: nat)
  {
    Positive(e) && Coalesced(e) && Within(e, total)
  }

  lemma CoalescedIsSorted(e: seq<Range>)
    requires Coalesced(e)
    ensures Sorted(e)
  {
    forall i, j | 0 <= i < j < |e| ensures e[i].offset < e[j].offset {
      assert e[i].End() < e[j].offset;
    }
  }

  /** The number of free units the entries describe. */
  function Free(e: seq<Range>): nat
  {
    if e == [] then 0 else e[0].length + Free(e[1..])
  }

  lemma {:induction false} FreeAppend(a: seq<Range>, b: seq<Range>)
    ensures Free(a + b) == Free(a) + Free(b)
  {
    if a == [] {
      assert a + b == b;
    } else {
      assert (a + b)[1..] == a[1..] + b;
      FreeAppend(a[1..], b);
    }
  }

  /** Free units of `e` split at `lo` and `hi`. */
  lemma FreeSplit(e: seq<Range>, lo: nat, hi: nat)
    requires lo <= hi <= |e|
    ensures Free(e) == Free(e[..lo]) + Free(e[lo..hi]) + Free(e[hi..])
  {
    var front := e[..hi];
    assert front == e[..lo] + e[lo..hi];
    FreeAppend(e[..lo], e[lo..hi]);
    assert e == front + e[hi..];
    FreeAppend(front, e[hi..]);
  }

  // ---------------------------------------------------------------------
  // std::map operations on the entries

  /** std::map::lower_bound(key): the first entry whose key is not below
      `key`, or the end. */
  function LowerBoundKey(e: seq<Range>, key: nat): (j: nat)
    ensures j <= |e|
    ensures forall i :: 0 <= i < j ==> e[i].offset < key
    ensures j < |e| ==> e[j].offset >= key
  {
    LowerBoundFrom(e, key, 0)
  }

  /** The scan behind LowerBoundKey, from index `i` on. */
  function LowerBoundFrom(e: seq<Range>, key: nat, i: nat): (j: nat)
    requires i <= |e|
    ensures i <= j <= |e|
    ensures forall k :: i <= k < j ==> e[k].offset < key
    ensures j < |e| ==> e[j].offset >= key
    decreases |e| - i
  {
    if i == |e| || e[i].offset >= key then i else LowerBoundFrom(e, key, i + 1)
  }

  /** The entries without the one at index `j` (map::erase of an iterator). */
  function EraseAt(e: seq<Range>, j: nat): (r: seq<Range>)
    requires j < |e|
    ensures |r| == |e| - 1
    ensures Sorted(e) ==> Sorted(r)
  {
    e[..j] + e[j + 1..]
  }

  /** map[key] = value. */
  function Assign(e: seq<Range>, key: nat, value: nat): (r: seq<Range>)
  {
    var j := LowerBoundKey(e, key);
    if j < |e| && e[j].offset == key then e[j := Range(key, value)]
    else e[..j] + [Range(key, value)] + e[j..]
  }

  /** Assign reads as a map update: the new entry is present and every
      entry under another key is kept. */
  lemma AssignIsMapUpdate(e: seq<Range>, key: nat, value: nat)
    requires Sorted(e)
    ensures Sorted(Assign(e, key, value))
    ensures forall r :: r in Assign(e, key, value) <==>
      r == Range(key, value) || (r in e && r.offset != key)
  {
    var j := LowerBoundKey(e, key);
    if j < |e| && e[j].offset == key {
      AssignReplaces(e, key, value, j);
    } else {
      AssignAddsKey(e, key, value, j);
    }
  }

  lemma AssignKeepsSorted(e: seq<Range>, key: nat, value: nat)
    requires Sorted(e)
    ensures Sorted(Assign(e, key, value))
  {
    AssignIsMapUpdate(e, key, value);
  }

  lemma AssignReplaces(e: seq<Range>, key: nat, value: nat, j: nat)
    requires Sorted(e)
    requires j < |e| && e[j].offset == key
    ensures Assign(e, key, value) == e[j := Range(key, value)]
    ensures Sorted(e[j := Range(key, value)])
    ensures forall r :: r in e[j := Range(key, value)] <==>
      r == Range(key, value) || (r in e && r.offset != key)
  {
    LowerBoundKeyIs(e, key, j);
    var a := e[j := Range(key, value)];
    assert a[j] == Range(key, value);
    forall r
      ensures r in a <==> r == Range(key, value) || (r in e && r.offset != key)
    {
      if r in e && r.offset != key {
        var i :| 0 <= i < |e| && e[i] == r;
        assert a[i] == r;
      }
      if r in a && r != Range(key, value) {
        var i :| 0 <= i < |a| && a[i] == r;
        assert i != j && e[i] == r;
        if i < j { assert e[i].offset < e[j].offset; } else { assert e[j].offset < e[i].offset; }
      }
    }
  }

  lemma AssignAddsKey(e: seq<Range>, key: nat, value: nat, j: nat)
    requires Sorted(e)
    requires j == LowerBoundKey(e, key)
    requires !(j < |e| && e[j].offset == key)
    ensures Assign(e, key, value) == e[..j] + [Range(key, value)] + e[j..]
    ensures Sorted(e[..j] + [Range(key, value)] + e[j..])
    ensures forall r :: r in e[..j] + [Range(key, value)] + e[j..] <==>
      r == Range(key, value) || (r in e && r.offset != key)
  {
    var x := Range(key, value);
    forall i | j <= i < |e| ensures e[i].offset > key {
      if i > j { assert e[j].offset < e[i].offset; }
    }
    InsertKeepsSorted(e, j, x);
    forall r | r in e ensures r.offset != key {
      var i :| 0 <= i < |e| && e[i] == r;
    }
    assert e == e[..j] + e[j..];
  }

  /** Inserting an entry whose key lies between its neighbours' keeps the
      keys increasing. */
  lemma InsertKeepsSorted(e: seq<Range>, j: nat, x: Range)
    requires Sorted(e) && j <= |e|
    requires forall i :: 0 <= i < j ==> e[i].offset < x.offset
    requires forall i :: j <= i < |e| ==> e[i].offset > x.offset
    ensures Sorted(e[..j] + [x] + e[j..])
  {
    var a := e[..j] + [x] + e[j..];
    assert |a| == |e| + 1 && a[j] == x;
    assert forall i :: 0 <= i < j ==> a[i] == e[i];
    assert forall i :: j < i < |a| ==> a[i] == e[i - 1];
    forall p, q | 0 <= p < q < |a| ensures a[p].offset < a[q].offset {
      if q < j { assert a[p] == e[p] && a[q] == e[q]; }
      else if q == j { assert a[p] == e[p]; }
      else if p > j { assert a[p] == e[p - 1] && a[q] == e[q - 1]; }
      else if p == j { assert a[q] == e[q - 1]; }
      else { assert a[p] == e[p] && a[q] == e[q - 1]; }
    }
  }

  /** When `key` lies strictly between the entries before `j` and those from
      `j` on, map[key] = value inserts at `j`. */
  lemma AssignInserts(e: seq<Range>, key: nat, value: nat, j: nat)
    requires j <= |e|
    requires forall i :: 0 <= i < j ==> e[i].offset < key
    requires forall i :: j <= i < |e| ==> e[i].offset > key
    ensures Assign(e, key, value) == e[..j] + [Range(key, value)] + e[j..]
  {
    LowerBoundKeyIs(e, key, j);
  }

  /** lower_bound is the one index with smaller keys before it and a key not
      below `key` at it. */
  lemma LowerBoundKeyIs(e: seq<Range>, key: nat, j: nat)
    requires j <= |e|
    requires forall i :: 0 <= i < j ==> e[i].offset < key
    requires j < |e| ==> e[j].offset >= key
    ensures LowerBoundKey(e, key) == j
  {
    LowerBoundFromIs(e, key, 0, j);
  }

  lemma {:induction false} LowerBoundFromIs(e: seq<Range>, key: nat, i: nat, j: nat)
    requires i <= j <= |e|
    requires forall k :: i <= k < j ==> e[k].offset < key
    requires j < |e| ==> e[j].offset >= key
    ensures LowerBoundFrom(e, key, i) == j
    decreases j - i
  {
    if i < j {
      LowerBoundFromIs(e, key, i + 1, j);
    }
  }

  // ---------------------------------------------------------------------
  // Searching for room

  /** libstdc++'s std::lower_bound over entries [first, first + count),
      with the comparison `entry.length < value` of push_size. */
  function SearchBySize(e: seq<Range>, first: nat, count: nat, value: nat): (r: nat)
    requires first + count <= |e|
    ensures first <= r <= first + count
    decreases count
  {
    if count == 0 then first
    else
      var s := SearchStep(e, first, count, value);
      SearchBySize(e, s.0, s.1, value)
  }

  /** One halving step of the search: probe the middle entry and keep the
      half after it when it is too short, else the half before it. */
  function SearchStep(e: seq<Range>, first: nat, count: nat, value: nat): (s: (nat, nat))
    requires 0 < count && first + count <= |e|
    ensures s.1 < count
    ensures var middle := first + count / 2;
      if e[middle].length < value then s.0 == middle + 1 && s.0 + s.1 == first + count
      else s.0 == first && s.0 + s.1 == middle
  {
    var half: nat := count / 2;
    var middle: nat := first + half;
    var after: nat := middle + 1;
    var left: nat := count - half - 1;
    if e[middle].length < value then (after, left) else (first, half)
  }

  function LowerBoundBySize(e: seq<Range>, value: nat): (i: nat)
    ensures i <= |e|
  {
    SearchBySize(e, 0, |e|, value)
  }

  /** The binary search only stops at an entry it has seen to be long
      enough, or at the end. */
  lemma {:induction false} SearchNeverShort(e: seq<Range>, first: nat, count: nat, value: nat)
    requires first + count <= |e|
    requires first + count == |e| || e[first + count].length >= value
    ensures var r := SearchBySize(e, first, count, value);
      r == |e| || e[r].length >= value
    decreases count
  {
    if count > 0 {
      var s := SearchStep(e, first, count, value);
      SearchNeverShort(e, s.0, s.1, value);
    }
  }

  /** The entry a first-fit search picks: the first one long enough. */
  function FirstFit(e: seq<Range>, value: nat): (i: nat)
    ensures i <= |e|
    ensures forall k :: 0 <= k < i ==> e[k].length < value
    ensures i < |e| ==> e[i].length >= value
  {
    FirstFitFrom(e, value, 0)
  }

  function FirstFitFrom(e: seq<Range>, value: nat, i: nat): (j: nat)
    requires i <= |e|
    ensures i <= j <= |e|
    ensures forall k :: i <= k < j ==> e[k].length < value
    ensures j < |e| ==> e[j].length >= value
    decreases |e| - i
  {
    if i == |e| || e[i].length >= value then i else FirstFitFrom(e, value, i + 1)
  }

  lemma FirstFitIs(e: seq<Range>, value: nat, i: nat)
    requires i <= |e|
    requires forall k :: 0 <= k < i ==> e[k].length < value
    requires i < |e| ==> e[i].length >= value
    ensures FirstFit(e, value) == i
  {
    FirstFitFromIs(e, value, 0, i);
  }

  lemma {:induction false} FirstFitFromIs(e: seq<Range>, value: nat, i: nat, j: nat)
    requires i <= j <= |e|
    requires forall k :: i <= k < j ==> e[k].length < value
    requires j < |e| ==> e[j].length >= value
    ensures FirstFitFrom(e, value, i) == j
    decreases j - i
  {
    if i < j {
      FirstFitFromIs(e, value, i + 1, j);
    }
  }

  /** Below an entry too short for `value`, a partitioned sequence has only
      entries too short. */
  lemma PartitionedBelow(e: seq<Range>, value: nat, m: nat)
    requires PartitionedBy(e, value)
    requires m < |e| && e[m].length < value
    ensures forall k :: 0 <= k <= m ==> e[k].length < value
  {
  }

  /** std::lower_bound's own precondition: the entries too short for `value`
      all come before the long enough ones. */
  predicate PartitionedBy(e: seq<Range>, value: nat)
  {
    forall i, j :: 0 <= i < j < |e| && e[i].length >= value ==> e[j].length >= value
  }

  lemma {:induction false} SearchFindsFirstFit(e: seq<Range>, first: nat, count: nat, value: nat)
    requires first + count <= |e|
    requires PartitionedBy(e, value)
    requires forall k :: 0 <= k < first ==> e[k].length < value
    requires first + count == |e| || e[first + count].length >= value
    ensures SearchBySize(e, first, count, value) == FirstFit(e, value)
    decreases count
  {
    if count == 0 {
      FirstFitIs(e, value, first);
    } else {
      var s := SearchStep(e, first, count, value);
      var middle: nat := first + count / 2;
      if e[middle].length < value {
        PartitionedBelow(e, value, middle);
      }
      SearchFindsFirstFit(e, s.0, s.1, value);
    }
  }

  /** On entries partitioned by length the binary search is a first-fit
      search; the free map, ordered by offset, is not partitioned in general. */
  lemma LowerBoundBySizeOnPartitioned(e: seq<Range>, value: nat)
    requires PartitionedBy(e, value)
    ensures LowerBoundBySize(e, value) == FirstFit(e, value)
  {
    SearchFindsFirstFit(e, 0, |e|, value);
  }

  // ---------------------------------------------------------------------
  // push_size

  /** Takes `size` units from the front of entry `i`; what is left of it
      becomes a new entry. */
  function Carve(e: seq<Range>, i: nat, size: nat): seq<Range>
    requires i < |e|
  {
    var rest := EraseAt(e, i);
    if e[i].length > size then
      var tail := e[i].Tail(size);
      Assign(rest, tail.offset, tail.length)
    else rest
  }

  datatype Pushed = Pushed(offset: nat, entries: seq<Range>)

  /** FreelistCore::push_size as written: the range is looked up with a
      binary search by length over entries ordered by offset. */
  function PushAsWritten(e: seq<Range>, size: nat): Option<Pushed>
  {
    var i := LowerBoundBySize(e, size);
    if i == |e| then None else Some(Pushed(e[i].offset, Carve(e, i, size)))
  }

  /** push_size with the first-fit search the lookup evidently intends. */
  function PushFirstFit(e: seq<Range>, size: nat): Option<Pushed>
  {
    var i := FirstFit(e, size);
    if i == |e| then None else Some(Pushed(e[i].offset, Carve(e, i, size)))
  }

  lemma FreeUpdate(e: seq<Range>, i: nat, x: Range)
    requires i < |e|
    ensures Free(e[i := x]) + e[i].length == Free(e) + x.length
  {
    var u := e[i := x];
    FreeSplit(e, i, i + 1);
    FreeSplit(u, i, i + 1);
    assert u[..i] == e[..i] && u[i + 1..] == e[i + 1..];
    assert e[i..i + 1] == [e[i]] && u[i..i + 1] == [x];
    assert Free([e[i]]) == e[i].length && Free([x]) == x.length;
  }

  lemma FreeErase(e: seq<Range>, i: nat)
    requires i < |e|
    ensures Free(EraseAt(e, i)) + e[i].length == Free(e)
  {
    FreeSplit(e, i, i + 1);
    FreeAppend(e[..i], e[i + 1..]);
    assert e[i..i + 1] == [e[i]];
    assert Free([e[i]]) == e[i].length;
  }

  lemma EraseKeepsLayout(e: seq<Range>, i: nat, total: nat)
    requires Layout(e, total) && i < |e|
    ensures Layout(EraseAt(e, i), total)
  {
  }

  /** Replacing a free range by a non-empty range inside it keeps the layout. */
  lemma ShrinkKeepsLayout(e: seq<Range>, i: nat, x: Range, total: nat)
    requires Layout(e, total) && i < |e|
    requires e[i].offset <= x.offset && x.End() <= e[i].End() && x.length > 0
    ensures Layout(e[i := x], total)
  {
    var u := e[i := x];
    forall p, q | 0 <= p < q < |u| ensures u[p].End() < u[q].offset {
      assert e[p].End() < e[q].offset;
    }
  }

  /** What carving leaves: the tail of range `i`, or nothing of it. */
  lemma CarveShape(e: seq<Range>, i: nat, size: nat)
    requires Coalesced(e)
    requires i < |e| && e[i].length >= size
    ensures e[i].length > size ==> Carve(e, i, size) == e[i := e[i].Tail(size)]
    ensures e[i].length == size ==> Carve(e, i, size) == EraseAt(e, i)
  {
    if e[i].length > size {
      var rest := EraseAt(e, i);
      var x := e[i].Tail(size);
      forall k | i <= k < |rest| ensures rest[k].offset > e[i].offset + size {
        assert rest[k] == e[k + 1] && e[i].End() < e[k + 1].offset;
      }
      forall k | 0 <= k < i ensures rest[k].offset < e[i].offset + size {
        assert rest[k] == e[k] && e[k].End() < e[i].offset;
      }
      AssignInserts(rest, x.offset, x.length, i);
      assert rest[..i] == e[..i] && rest[i..] == e[i + 1..];
      assert rest[..i] + [x] + rest[i..] == e[i := x];
    }
  }

  /** Carving keeps a healthy layout, hands out units that were free and no
      longer are, and lowers the free count by exactly `size`. */
  lemma CarveKeepsLayout(e: seq<Range>, i: nat, size: nat, total: nat)
    requires Layout(e, total)
    requires i < |e| && e[i].length >= size
    ensures var r := Carve(e, i, size);
      Layout(r, total) && Free(r) + size == Free(e)
      && (forall k :: 0 <= k < |r| ==> r[k].End() <= e[i].offset || e[i].offset + size <= r[k].offset)
  {
    CarveShape(e, i, size);
    var r := Carve(e, i, size);
    if e[i].length > size {
      var x := e[i].Tail(size);
      ShrinkKeepsLayout(e, i, x, total);
      FreeUpdate(e, i, x);
      forall k | 0 <= k < |r| ensures r[k].End() <= e[i].offset || e[i].offset + size <= r[k].offset {
        if k < i { assert e[k].End() < e[i].offset; }
        if k > i { assert e[i].End() < e[k].offset; }
      }
    } else {
      EraseKeepsLayout(e, i, total);
      FreeErase(e, i);
      forall k | 0 <= k < |r| ensures r[k].End() <= e[i].offset || e[i].offset + size <= r[k].offset {
        if k < i { assert r[k] == e[k] && e[k].End() < e[i].offset; }
        else { assert r[k] == e[k + 1] && e[i].End() < e[k + 1].offset; }
      }
    }
  }

  /** A successful push_size hands out a range that was free: the lookup
      never stops at an entry too short for the request. */
  lemma PushAsWrittenSound(e: seq<Range>, size: nat, total: nat)
    requires Layout(e, total)
    requires PushAsWritten(e, size).Some?
    ensures var p := PushAsWritten(e, size).value;
      Layout(p.entries, total) && Free(p.entries) + size == Free(e)
      && exists i :: 0 <= i < |e| && e[i].offset == p.offset && p.offset + size <= e[i].End()
  {
    var i := LowerBoundBySize(e, size);
    SearchNeverShort(e, 0, |e|, size);
    CarveKeepsLayout(e, i, size, total);
  }

  /** First-fit push succeeds exactly when some free range is long enough,
      and then hands out the start of the first such range. */
  lemma PushFirstFitMeaning(e: seq<Range>, size: nat, total: nat)
    requires Layout(e, total)
    ensures PushFirstFit(e, size).Some? <==> exists i :: 0 <= i < |e| && e[i].length >= size
    ensures PushFirstFit(e, size).Some? ==>
      var p := PushFirstFit(e, size).value;
      Layout(p.entries, total) && Free(p.entries) + size == Free(e)
      && exists i :: 0 <= i < |e| && e[i].offset == p.offset && e[i].length >= size
                     && forall k :: 0 <= k < i ==> e[k].length < size
  {
    var i := FirstFit(e, size);
    if i < |e| {
      CarveKeepsLayout(e, i, size, total);
    }
  }

  /** The binary search misses room a first-fit search finds: free ranges of
      10 units at 0 and 2 units at 20 cannot serve 5 units. */
  lemma LowerBoundMissesRoom()
    ensures PushAsWritten([Range(0, 10), Range(20, 2)], 5) == None
    ensures PushFirstFit([Range(0, 10), Range(20, 2)], 5).Some?
    ensures PushFirstFit([Range(0, 10), Range(20, 2)], 5).value.offset == 0
  {
    var e := [Range(0, 10), Range(20, 2)];
    assert SearchBySize(e, 2, 0, 5) == 2;
    assert SearchBySize(e, 0, 2, 5) == 2;
    assert FirstFit(e, 5) == 0;
  }

  // ---------------------------------------------------------------------
  // Splicing one range into the entries

  /** The entries with those in [lo, hi) replaced by the single range `x`. */
  function Splice(e: seq<Range>, lo: nat, hi: nat, x: Range): (r: seq<Range>)
    requires lo <= hi <= |e|
    ensures |r| == |e| - (hi - lo) + 1
  {
    e[..lo] + [x] + e[hi..]
  }

  lemma SpliceKeepsLayout(e: seq<Range>, lo: nat, hi: nat, x: Range, total: nat)
    requires Layout(e, total) && lo <= hi <= |e|
    requires x.length > 0 && x.End() <= total
    requires lo > 0 ==> e[lo - 1].End() < x.offset
    requires hi < |e| ==> x.End() < e[hi].offset
    ensures Layout(Splice(e, lo, hi, x), total)
  {
    var r := Splice(e, lo, hi, x);
    forall p | 0 <= p < |r| ensures r[p].length > 0 && r[p].End() <= total {
      SpliceAt(e, lo, hi, x, p);
    }
    forall p, q | 0 <= p < q < |r| ensures r[p].End() < r[q].offset {
      SpliceAt(e, lo, hi, x, p);
      SpliceAt(e, lo, hi, x, q);
      if q < lo {
      } else if q == lo {
        if p < lo - 1 { assert e[p].End() < e[lo - 1].offset; }
      } else if p < lo {
        assert e[p].End() < e[q + hi - lo - 1].offset;
      } else if p == lo {
        if q + hi - lo - 1 > hi { assert e[hi].End() < e[q + hi - lo - 1].offset; }
      } else {
        assert e[p + hi - lo - 1].End() < e[q + hi - lo - 1].offset;
      }
    }
  }

  /** The entry at index `p` after a splice. */
  lemma SpliceAt(e: seq<Range>, lo: nat, hi: nat, x: Range, p: nat)
    requires lo <= hi <= |e| && p < |e| - (hi - lo) + 1
    ensures Splice(e, lo, hi, x)[p] == if p < lo then e[p] else if p == lo then x else e[p + hi - lo - 1]
  {
  }

  lemma FreeSplice(e: seq<Range>, lo: nat, hi: nat, x: Range)
    requires lo <= hi <= |e|
    ensures Free(Splice(e, lo, hi, x)) + Free(e[lo..hi]) == Free(e) + x.length
  {
    FreeSplit(e, lo, hi);
    FreeAppend(e[..lo] + [x], e[hi..]);
    FreeAppend(e[..lo], [x]);
    assert Free([x]) == x.length;
    assert Splice(e, lo, hi, x) == e[..lo] + [x] + e[hi..];
  }

  // ---------------------------------------------------------------------
  // pop_size

  /** A block of `size` units at `offset` that shares no unit with a free
      range: what a caller hands back after a successful push_size. */
  predicate FreeBlock(e: seq<Range>, offset: nat, size: nat)
  {
    size > 0 && forall i :: 0 <= i < |e| ==> e[i].End() <= offset || offset + size <= e[i].offset
  }

  /** Which entries a freed block joins, and the range that replaces them. */
  datatype Join = Join(lo: nat, hi: nat, range: Range)

  function ReleaseJoin(e: seq<Range>, offset: nat, size: nat): (r: Join)
    ensures r.lo <= r.hi <= |e|
  {
    var j := LowerBoundKey(e, offset);
    var joinPrev := 0 < j && e[j - 1].End() == offset;
    var joinNext := j < |e| && e[j].offset == offset + size;
    var start := if joinPrev then e[j - 1].offset else offset;
    var finish := if joinNext then e[j].End() else offset + size;
    Join(if joinPrev then j - 1 else j, if joinNext then j + 1 else j, Range(start, finish - start))
  }

  /** ReleaseJoin in each of its four cases. */
  lemma ReleaseJoinCase(e: seq<Range>, offset: nat, size: nat, joinPrev: bool, joinNext: bool)
    requires var j := LowerBoundKey(e, offset);
      (joinPrev <==> 0 < j && e[j - 1].End() == offset)
      && (joinNext <==> j < |e| && e[j].offset == offset + size)
    ensures var j := LowerBoundKey(e, offset);
      ReleaseJoin(e, offset, size) ==
        Join(if joinPrev then j - 1 else j, if joinNext then j + 1 else j,
             Range(if joinPrev then e[j - 1].offset else offset,
                   (if joinPrev then e[j - 1].length else 0) + size + (if joinNext then e[j].length else 0)))
  {
  }

  /** Reference definition of freeing a block: the block becomes free and is
      joined with a free range ending where it starts and with one starting
      where it ends. */
  function Released(e: seq<Range>, offset: nat, size: nat): seq<Range>
  {
    var jn := ReleaseJoin(e, offset, size);
    Splice(e, jn.lo, jn.hi, jn.range)
  }

  lemma ReleasedJoinBoth(e: seq<Range>, offset: nat, size: nat, j: nat, popping: nat)
    requires j == LowerBoundKey(e, offset) && 0 < j < |e|
    requires e[j - 1].End() == offset && e[j].offset == offset + size
    requires popping == size + e[j].length
    ensures Released(e, offset, size) == Splice(e, j - 1, j + 1, Range(e[j - 1].offset, e[j - 1].length + popping))
  {
    ReleaseJoinCase(e, offset, size, true, true);
  }

  lemma ReleasedJoinNextOnly(e: seq<Range>, offset: nat, size: nat, j: nat, popping: nat)
    requires j == LowerBoundKey(e, offset) && j < |e|
    requires !(0 < j && e[j - 1].End() == offset) && e[j].offset == offset + size
    requires popping == size + e[j].length
    ensures Released(e, offset, size) == Splice(e, j, j + 1, Range(offset, popping))
  {
    ReleaseJoinCase(e, offset, size, false, true);
  }

  /** Freeing a block keeps a healthy layout and raises the free count by
      exactly the block's size. */
  lemma ReleasedKeepsLayout(e: seq<Range>, offset: nat, size: nat, total: nat)
    requires Layout(e, total) && FreeBlock(e, offset, size) && offset + size <= total
    ensures Layout(Released(e, offset, size), total)
    ensures Free(Released(e, offset, size)) == Free(e) + size
  {
    ReleasedLayout(e, offset, size, total);
    ReleasedFree(e, offset, size);
  }

  lemma ReleasedLayout(e: seq<Range>, offset: nat, size: nat, total: nat)
    requires Layout(e, total) && FreeBlock(e, offset, size) && offset + size <= total
    ensures Layout(Released(e, offset, size), total)
  {
    var j := LowerBoundKey(e, offset);
    var jn := ReleaseJoin(e, offset, size);
    var joinPrev := 0 < j && e[j - 1].End() == offset;
    var joinNext := j < |e| && e[j].offset == offset + size;
    if jn.lo > 0 {
      if joinPrev { assert e[jn.lo - 1].End() < e[j - 1].offset; }
      else { assert e[j - 1].offset < offset; }
    }
    if jn.hi < |e| {
      if joinNext { assert e[j].End() < e[jn.hi].offset; }
      else { assert e[j].offset >= offset; }
    }
    SpliceKeepsLayout(e, jn.lo, jn.hi, jn.range, total);
  }

  lemma ReleasedFree(e: seq<Range>, offset: nat, size: nat)
    ensures Free(Released(e, offset, size)) == Free(e) + size
  {
    var j := LowerBoundKey(e, offset);
    var joinPrev := 0 < j && e[j - 1].End() == offset;
    var joinNext := j < |e| && e[j].offset == offset + size;
    ReleaseJoinCase(e, offset, size, joinPrev, joinNext);
    var jn := ReleaseJoin(e, offset, size);
    FreeSplice(e, jn.lo, jn.hi, jn.range);
    FreeShortSlice(e, jn.lo, jn.hi);
  }

  /** The free count of a run of at most two entries. */
  lemma FreeShortSlice(e: seq<Range>, lo: nat, hi: nat)
    requires lo <= hi <= |e| && hi <= lo + 2
    ensures Free(e[lo..hi]) ==
      (if lo < hi then e[lo].length else 0) + (if lo + 1 < hi then e[lo + 1].length else 0)
  {
    var s := e[lo..hi];
    if lo < hi {
      assert s[1..] == e[lo + 1..hi];
      if lo + 1 < hi {
        var t := s[1..];
        assert t[0] == e[lo + 1] && t[1..] == [];
        assert Free(t) == t[0].length + Free(t[1..]);
      } else {
        assert s[1..] == [];
      }
    } else {
      assert s == [];
    }
  }

  /** The do-while of pop_size: erase the range found at lower_bound(offset),
      add its length, and go on while the next range found starts inside or
      right after the one just erased. */
  function MergeFollowing(e: seq<Range>, offset: nat, popping: nat): (r: (seq<Range>, nat))
    requires LowerBoundKey(e, offset) < |e|
    ensures LowerBoundKey(e, offset) <= |r.0| < |e|
    ensures Sorted(e) ==> Sorted(r.0)
    decreases |e|
  {
    var j := LowerBoundKey(e, offset);
    var next := e[j];
    var rest := EraseAt(e, j);
    var total: nat := popping + next.length;
    var k := LowerBoundKey(rest, offset);
    if k < |rest| && next.End() >= rest[k].offset && next.End() < rest[k].End() then
      MergeFollowing(rest, offset, total)
    else
      (rest, total)
  }

  /** One turn of the do-while. */
  lemma MergeFollowingStep(e: seq<Range>, offset: nat, popping: nat, j: nat, last: Range,
                           rest: seq<Range>, total: nat, k: nat, more: bool)
    requires j == LowerBoundKey(e, offset) && j < |e| && last == e[j]
    requires rest == EraseAt(e, j) && total == popping + last.length
    requires k == LowerBoundKey(rest, offset)
    requires more == (k < |rest| && last.End() >= rest[k].offset && last.End() < rest[k].End())
    ensures MergeFollowing(e, offset, popping) == if more then MergeFollowing(rest, offset, total) else (rest, total)
  {
    var r := MergeFollowing(e, offset, popping);
    if more {
      assert r == MergeFollowing(rest, offset, total);
    } else {
      assert r == (rest, total);
    }
  }

  /** Replacing an entry by one under the same key keeps the keys. */
  lemma ReplaceKeepsSorted(e: seq<Range>, k: nat, x: Range)
    requires Sorted(e) && k < |e| && x.offset == e[k].offset
    ensures Sorted(e[k := x])
  {
    var g := e[k := x];
    assert forall i :: 0 <= i < |e| ==> g[i].offset == e[i].offset;
  }

  lemma GrowLastKeepsSorted(e: seq<Range>, x: Range)
    requires Sorted(e) && e != [] && x.offset == e[|e| - 1].offset
    ensures Sorted(e[|e| - 1 := x])
  {
    ReplaceKeepsSorted(e, |e| - 1, x);
  }

  lemma GrowBeforeKeepsSorted(e: seq<Range>, j: nat, x: Range)
    requires Sorted(e) && 0 < j <= |e| && x.offset == e[j - 1].offset
    ensures Sorted(e[j - 1 := x])
  {
    ReplaceKeepsSorted(e, j - 1, x);
  }

  /** Lines 56-74 of pop_size: the free range right after the block is
      absorbed when the block's end falls inside it. */
  function Absorbed(e: seq<Range>, offset: nat, size: nat): (r: (seq<Range>, nat))
    requires LowerBoundKey(e, offset) < |e|
    ensures LowerBoundKey(e, offset) <= |r.0|
    ensures Sorted(e) ==> Sorted(r.0)
  {
    var j := LowerBoundKey(e, offset);
    if offset + size >= e[j].offset && offset + size < e[j].End() then MergeFollowing(e, offset, size)
    else (e, size)
  }

  /** Lines 76-88 of pop_size: grow the predecessor when it ends at the
      block, else record a free range at the block. */
  function Settle(rest: seq<Range>, j: nat, offset: nat, popping: nat): seq<Range>
    requires j <= |rest|
  {
    if j > 0 && rest[j - 1].End() == offset then
      rest[j - 1 := rest[j - 1].Grow(popping)]
    else
      Assign(rest, offset, popping)
  }

  /** FreelistCore::pop_size as written. Without a free range after the block,
      line 50 leaves no predecessor, so the block is never joined with the
      range before it (lines 93-102 cannot run). */
  function PopAsWritten(e: seq<Range>, size: nat, offset: nat): seq<Range>
  {
    var j := LowerBoundKey(e, offset);
    if j < |e| then
      var m := Absorbed(e, offset, size);
      Settle(m.0, j, offset, m.1)
    else
      Assign(e, offset, size)
  }

  /** pop_size with the predecessor looked up whether or not a next range
      exists. */
  function PopCoalescing(e: seq<Range>, size: nat, offset: nat): seq<Range>
  {
    var j := LowerBoundKey(e, offset);
    if j < |e| then
      var m := Absorbed(e, offset, size);
      Settle(m.0, j, offset, m.1)
    else
      Settle(e, j, offset, size)
  }

  /** On coalesced entries the do-while runs once. */
  lemma MergeOnce(e: seq<Range>, offset: nat, popping: nat, total: nat)
    requires Layout(e, total)
    requires LowerBoundKey(e, offset) < |e|
    ensures var j := LowerBoundKey(e, offset);
      MergeFollowing(e, offset, popping) == (EraseAt(e, j), popping + e[j].length)
  {
    var j := LowerBoundKey(e, offset);
    var rest := EraseAt(e, j);
    forall i | j <= i < |rest| ensures rest[i].offset > offset {
      assert rest[i] == e[i + 1] && e[j].End() < e[i + 1].offset;
    }
    LowerBoundKeyIs(rest, offset, j);
    if j < |rest| {
      assert e[j].End() < e[j + 1].offset;
    }
  }

  /** Settling into entries that leave room for the block. */
  lemma SettleShape(rest: seq<Range>, j: nat, offset: nat, popping: nat)
    requires Sorted(rest) && j <= |rest|
    requires forall i :: 0 <= i < j ==> rest[i].offset < offset
    requires forall i :: j <= i < |rest| ==> rest[i].offset > offset
    ensures j > 0 && rest[j - 1].End() == offset ==>
      Settle(rest, j, offset, popping) == Splice(rest, j - 1, j, Range(rest[j - 1].offset, rest[j - 1].length + popping))
    ensures !(j > 0 && rest[j - 1].End() == offset) ==>
      Settle(rest, j, offset, popping) == Splice(rest, j, j, Range(offset, popping))
  {
    if !(j > 0 && rest[j - 1].End() == offset) {
      AssignInserts(rest, offset, popping, j);
    }
  }

  lemma SpliceErase(e: seq<Range>, lo: nat, j: nat, x: Range)
    requires lo <= j < |e|
    ensures Splice(EraseAt(e, j), lo, j, x) == Splice(e, lo, j + 1, x)
  {
    assert EraseAt(e, j)[..lo] == e[..lo];
    assert EraseAt(e, j)[j..] == e[j + 1..];
  }

  /** What the absorbing step and the predecessor lookup leave on a healthy
      layout: the entries before the block, and the block with the range
      after it when that range starts right at the block's end. */
  lemma AbsorbedOnLayout(e: seq<Range>, offset: nat, size: nat, total: nat)
    requires Layout(e, total) && FreeBlock(e, offset, size) && offset + size <= total
    requires LowerBoundKey(e, offset) < |e|
    ensures e[LowerBoundKey(e, offset)].offset >= offset + size
    ensures var j := LowerBoundKey(e, offset);
      if e[j].offset == offset + size then Absorbed(e, offset, size) == (EraseAt(e, j), size + e[j].length)
      else Absorbed(e, offset, size) == (e, size)
  {
    var j := LowerBoundKey(e, offset);
    assert e[j].offset >= offset + size;
    if e[j].offset == offset + size {
      MergeOnce(e, offset, size, total);
    }
  }

  /** With the predecessor lookup repaired, pop_size is the reference
      definition on every healthy layout. */
  lemma PopCoalescingIsReleased(e: seq<Range>, offset: nat, size: nat, total: nat)
    requires Layout(e, total) && FreeBlock(e, offset, size) && offset + size <= total
    ensures PopCoalescing(e, size, offset) == Released(e, offset, size)
  {
    var j := LowerBoundKey(e, offset);
    CoalescedIsSorted(e);
    if j < |e| {
      AbsorbedOnLayout(e, offset, size, total);
    }
    if j < |e| && e[j].offset == offset + size {
      var rest := EraseAt(e, j);
      var popping: nat := size + e[j].length;
      PopCoalescingMerged(e, size, offset, j, rest, popping);
      SettleJoinNext(e, offset, size, j, rest, popping);
    } else {
      PopCoalescingUnmerged(e, size, offset, j);
      SettleAlone(e, offset, size, j);
    }
  }

  /** pop_size when the do-while ran and left `rest`, `popping`. */
  lemma PopCoalescingMerged(e: seq<Range>, size: nat, offset: nat, j: nat, rest: seq<Range>, popping: nat)
    requires j == LowerBoundKey(e, offset) && j < |e| && Absorbed(e, offset, size) == (rest, popping)
    ensures PopCoalescing(e, size, offset) == Settle(rest, j, offset, popping)
  {
  }

  /** pop_size when the do-while left the entries as they were. */
  lemma PopCoalescingUnmerged(e: seq<Range>, size: nat, offset: nat, j: nat)
    requires j == LowerBoundKey(e, offset) && (j < |e| ==> Absorbed(e, offset, size) == (e, size))
    ensures PopCoalescing(e, size, offset) == Settle(e, j, offset, size)
  {
  }

  lemma SettleJoinNext(e: seq<Range>, offset: nat, size: nat, j: nat, rest: seq<Range>, popping: nat)
    requires Coalesced(e)
    requires j == LowerBoundKey(e, offset) && j < |e| && e[j].offset == offset + size
    requires rest == EraseAt(e, j) && popping == size + e[j].length
    ensures Settle(rest, j, offset, popping) == Released(e, offset, size)
  {
    CoalescedIsSorted(e);
    SettleAfterErase(e, j, offset, popping);
    if 0 < j && e[j - 1].End() == offset {
      ReleasedJoinBoth(e, offset, size, j, popping);
    } else {
      ReleasedJoinNextOnly(e, offset, size, j, popping);
    }
  }

  /** Settling after the range following the block was erased. */
  lemma SettleAfterErase(e: seq<Range>, j: nat, offset: nat, popping: nat)
    requires Sorted(e) && j < |e|
    requires forall i :: 0 <= i < j ==> e[i].offset < offset
    requires e[j].offset >= offset
    ensures j > 0 && e[j - 1].End() == offset ==>
      Settle(EraseAt(e, j), j, offset, popping) == Splice(e, j - 1, j + 1, Range(e[j - 1].offset, e[j - 1].length + popping))
    ensures !(j > 0 && e[j - 1].End() == offset) ==>
      Settle(EraseAt(e, j), j, offset, popping) == Splice(e, j, j + 1, Range(offset, popping))
  {
    var rest := EraseAt(e, j);
    forall i | j <= i < |rest| ensures rest[i].offset > offset {
      assert rest[i] == e[i + 1] && e[j].offset < e[i + 1].offset;
    }
    SettleShape(rest, j, offset, popping);
    if j > 0 && e[j - 1].End() == offset {
      assert rest[j - 1] == e[j - 1];
      SpliceErase(e, j - 1, j, Range(e[j - 1].offset, e[j - 1].length + popping));
    } else {
      SpliceErase(e, j, j, Range(offset, popping));
    }
  }

  lemma SettleAlone(e: seq<Range>, offset: nat, size: nat, j: nat)
    requires Sorted(e) && j == LowerBoundKey(e, offset)
    requires j < |e| ==> e[j].offset > offset + size
    ensures Settle(e, j, offset, size) == Released(e, offset, size)
  {
    forall i | j <= i < |e| ensures e[i].offset > offset {
      if i > j { assert e[j].offset < e[i].offset; }
    }
    SettleShape(e, j, offset, size);
    ReleaseJoinCase(e, offset, size, 0 < j && e[j - 1].End() == offset, false);
  }

  /** The defect of pop_size as written: a block freed right after the last
      free range stays a separate range, so the entries are no longer
      coalesced although the free count is right. */
  lemma PopAsWrittenSplitsAtEnd(e: seq<Range>, offset: nat, size: nat, total: nat)
    requires Layout(e, total) && FreeBlock(e, offset, size) && offset + size <= total
    requires e != [] && e[|e| - 1].End() == offset
    ensures PopAsWritten(e, size, offset) == e + [Range(offset, size)]
    ensures !Coalesced(PopAsWritten(e, size, offset))
    ensures Free(PopAsWritten(e, size, offset)) == Free(e) + size
    ensures Coalesced(PopCoalescing(e, size, offset))
  {
    var x := Range(offset, size);
    PopAsWrittenAppends(e, offset, size, total);
    var r := e + [x];
    assert r[|e| - 1].End() == r[|e|].offset;
    FreeAppend(e, [x]);
    assert Free([x]) == size;
    PopCoalescingIsReleased(e, offset, size, total);
    ReleasedKeepsLayout(e, offset, size, total);
  }

  /** Without a range after the block, pop_size as written appends it. */
  lemma PopAsWrittenAppends(e: seq<Range>, offset: nat, size: nat, total: nat)
    requires Layout(e, total) && e != [] && e[|e| - 1].End() == offset
    ensures PopAsWritten(e, size, offset) == e + [Range(offset, size)]
  {
    LowerBoundKeyIs(e, offset, |e|);
    AssignInserts(e, offset, size, |e|);
    assert e[..|e|] + [Range(offset, size)] + e[|e|..] == e + [Range(offset, size)];
  }

  /** Freeing two halves of a region in address order: the as-written
      result keeps them apart, the repaired one joins them. */
  lemma AddressOrderFrees()
    ensures PopAsWritten(PopAsWritten([], 5, 0), 5, 5) == [Range(0, 5), Range(5, 5)]
    ensures PopCoalescing(PopCoalescing([], 5, 0), 5, 5) == [Range(0, 10)]
  {
    assert PopAsWritten([], 5, 0) == [Range(0, 5)];
    assert PopCoalescing([], 5, 0) == [Range(0, 5)];
    LowerBoundKeyIs([Range(0, 5)], 5, 1);
    AssignInserts([Range(0, 5)], 5, 5, 1);
    assert [Range(0, 5)][..1] + [Range(5, 5)] + [Range(0, 5)][1..] == [Range(0, 5), Range(5, 5)];
  }

  // ---------------------------------------------------------------------
  // resize

  /** FreelistCore::resize to a larger region: the last free range grows
      when it reaches the old end, else the new units become a free range. */
  function Resized(e: seq<Range>, size: nat, newSize: nat): seq<Range>
    requires newSize > size
  {
    if e != [] && e[|e| - 1].length == size then
      e[|e| - 1 := Range(e[|e| - 1].offset, newSize)]
    else if e != [] && e[|e| - 1].End() == size then
      e[|e| - 1 := e[|e| - 1].Grow(newSize - size)]
    else
      var added := Range(size, newSize - size);
      Assign(e, added.offset, added.length)
  }

  lemma ResizedKeepsLayout(e: seq<Range>, size: nat, newSize: nat)
    requires Layout(e, size) && newSize > size
    ensures Layout(Resized(e, size, newSize), newSize)
    ensures Free(Resized(e, size, newSize)) == Free(e) + (newSize - size)
  {
    var n := |e|;
    if e != [] && (e[n - 1].length == size || e[n - 1].End() == size) {
      ResizedGrowsLast(e, size, newSize);
    } else {
      ResizedAppends(e, size, newSize);
    }
  }

  lemma ResizedGrowsLast(e: seq<Range>, size: nat, newSize: nat)
    requires Layout(e, size) && newSize > size
    requires e != [] && (e[|e| - 1].length == size || e[|e| - 1].End() == size)
    ensures Layout(Resized(e, size, newSize), newSize)
    ensures Free(Resized(e, size, newSize)) == Free(e) + (newSize - size)
  {
    var x := e[|e| - 1].Grow(newSize - size);
    assert e[|e| - 1].End() <= size;
    ResizedGrowsLastShape(e, size, newSize);
    GrowLastKeepsLayout(e, size, newSize, x);
    FreeUpdateLast(e, x);
  }

  lemma ResizedGrowsLastShape(e: seq<Range>, size: nat, newSize: nat)
    requires newSize > size && e != [] && e[|e| - 1].End() <= size
    requires e[|e| - 1].length == size || e[|e| - 1].End() == size
    ensures Resized(e, size, newSize) == e[|e| - 1 := e[|e| - 1].Grow(newSize - size)]
  {
  }

  lemma FreeUpdateLast(e: seq<Range>, x: Range)
    requires e != []
    ensures Free(e[|e| - 1 := x]) + e[|e| - 1].length == Free(e) + x.length
  {
    FreeUpdate(e, |e| - 1, x);
  }

  /** Lengthening the last range up to a new region end keeps the layout. */
  lemma GrowLastKeepsLayout(e: seq<Range>, total: nat, newTotal: nat, x: Range)
    requires Layout(e, total) && e != [] && total <= newTotal
    requires x.offset == e[|e| - 1].offset && x.length >= e[|e| - 1].length && x.End() <= newTotal
    ensures Layout(e[|e| - 1 := x], newTotal)
  {
    var n := |e|;
    var r := e[n - 1 := x];
    forall p, q | 0 <= p < q < n ensures r[p].End() < r[q].offset {
      assert r[p] == e[p];
      assert e[p].End() < e[q].offset;
    }
  }

  lemma ResizedAppends(e: seq<Range>, size: nat, newSize: nat)
    requires Layout(e, size) && newSize > size
    requires !(e != [] && (e[|e| - 1].length == size || e[|e| - 1].End() == size))
    ensures Layout(Resized(e, size, newSize), newSize)
    ensures Free(Resized(e, size, newSize)) == Free(e) + (newSize - size)
  {
    var x := Range(size, newSize - size);
    forall i | 0 <= i < |e| ensures e[i].offset < size {
      assert e[i].End() <= size;
    }
    ResizedAppendsShape(e, size, newSize);
    AppendKeepsLayout(e, size, newSize, x);
  }

  lemma ResizedAppendsShape(e: seq<Range>, size: nat, newSize: nat)
    requires newSize > size
    requires !(e != [] && (e[|e| - 1].length == size || e[|e| - 1].End() == size))
    requires forall i :: 0 <= i < |e| ==> e[i].offset < size
    ensures Resized(e, size, newSize) == Splice(e, |e|, |e|, Range(size, newSize - size))
  {
    AssignInserts(e, size, newSize - size, |e|);
  }

  /** A range placed after the end of the region extends a healthy layout. */
  lemma AppendKeepsLayout(e: seq<Range>, size: nat, newSize: nat, x: Range)
    requires Layout(e, size) && x.offset == size && x.length > 0 && x.End() == newSize
    requires e != [] ==> e[|e| - 1].End() < size
    ensures Layout(Splice(e, |e|, |e|, x), newSize)
    ensures Free(Splice(e, |e|, |e|, x)) == Free(e) + x.length
  {
    var n := |e|;
    SpliceKeepsLayout(e, n, n, x, newSize);
    FreeSplice(e, n, n, x);
    assert e[n..n] == [];
  }

  // ---------------------------------------------------------------------
  // The allocator object

  /** FreelistCore: the free map, the region size and the units in use. */
  class FreelistCore {
    var entries: seq<Range>
    var size: u64
    var used: u64

    predicate Valid()
      reads this
    {
      Sorted(entries)
    }

    /** get_free_space: region size minus units in use, in unsigned 64-bit
        arithmetic. */
    function FreeSpace(): (r: u64)
      reads this
      ensures used <= size ==> r == size - used
    {
      Wrap64(size - used)
    }

    constructor (initialSize: u64)
      ensures Valid()
      ensures entries == [Range(0, initialSize)] && size == initialSize && used == 0
    {
      entries := [Range(0, initialSize)];
      size := initialSize;
      used := 0;
    }

    /** The default region of eight units (the size of one ui64). */
    constructor Default()
      ensures Valid()
      ensures entries == [Range(0, 8)] && size == 8 && used == 0
    {
      entries := [Range(0, 8)];
      size := 8;
      used := 0;
    }

    /** push_size, with the lookup of lines 16-20 done as the first-fit
        scan it is meant to be (see PushAsWritten for the lookup as
        written). */
    method PushSize(request: u64) returns (ok: bool, offset: nat)
      requires Valid()
      modifies this
      ensures Valid() && size == old(size)
      ensures PushFirstFit(old(entries), request) == if ok then Some(Pushed(offset, entries)) else None
      ensures used == if ok then Wrap64(old(used) + request) else old(used)
      ensures !ok ==> unchanged(this)
    {
      var want: nat := request;
      var i := 0;
      while i < |entries| && entries[i].length < want
        invariant i <= |entries|
        invariant forall k :: 0 <= k < i ==> entries[k].length < want
      {
        i := i + 1;
      }
      FirstFitIs(entries, want, i);
      if i == |entries| {
        return false, 0;
      }
      var found := entries[i];
      offset := found.offset;
      var rest := EraseAt(entries, i);
      if found.length > want {
        var tail := found.Tail(want);
        AssignKeepsSorted(rest, tail.offset, tail.length);
        rest := Assign(rest, tail.offset, tail.length);
      }
      entries := rest;
      used := Wrap64(used + request);
      ok := true;
    }

    /** Lines 56-74 of pop_size: absorb the free ranges that the released
        block runs into. */
    method AbsorbFollowing(offset: nat, request: nat) returns (popping: nat)
      requires Valid() && LowerBoundKey(entries, offset) < |entries|
      modifies this
      ensures Valid() && size == old(size) && used == old(used)
      ensures (entries, popping) == Absorbed(old(entries), offset, request)
    {
      var rest := entries;
      var next := LowerBoundKey(rest, offset);
      popping := request;
      if offset + request >= rest[next].offset && offset + request < rest[next].End() {
        ghost var target := MergeFollowing(rest, offset, request);
        var more := true;
        while more
          invariant Sorted(rest) && unchanged(this)
          invariant more ==> next == LowerBoundKey(rest, offset) && next < |rest|
                             && MergeFollowing(rest, offset, popping) == target
          invariant !more ==> (rest, popping) == target
          decreases |rest|
        {
          ghost var before, poppingBefore, last := rest, popping, rest[next];
          ghost var j: nat := next;
          var nextOffset := rest[next].offset;
          var nextSize := rest[next].length;
          rest := EraseAt(rest, next);
          popping := popping + nextSize;
          next := LowerBoundKey(rest, offset);
          more := next < |rest| && nextOffset + nextSize >= rest[next].offset
                  && nextOffset + nextSize < rest[next].End();
          MergeFollowingStep(before, offset, poppingBefore, j, last, rest, popping, next, more);
        }
      }
      entries := rest;
    }

    /** pop_size, with the predecessor of lines 76-85 and 93-102 looked up
        whether or not a free range follows the block (see PopAsWritten for
        the lookup as written). */
    method PopSize(request: u64, offset: u64) returns (ok: bool)
      requires Valid()
      requires used > 0 && offset + request <= size
      modifies this
      ensures Valid() && ok && size == old(size)
      ensures entries == PopCoalescing(old(entries), request, offset)
      ensures used == Wrap64(old(used) - request)
    {
      ghost var e0 := entries;
      var first := LowerBoundKey(entries, offset);
      var popping: nat := request;
      if first < |entries| {
        popping := AbsorbFollowing(offset, request);
        PopCoalescingMerged(e0, request, offset, first, entries, popping);
      } else {
        PopCoalescingUnmerged(e0, request, offset, first);
      }
      ghost var settled := Settle(entries, first, offset, popping);
      if first > 0 && entries[first - 1].End() == offset {
        var grown := entries[first - 1].Grow(popping);
        GrowBeforeKeepsSorted(entries, first, grown);
        entries := entries[first - 1 := grown];
      } else {
        AssignKeepsSorted(entries, offset, popping);
        entries := Assign(entries, offset, popping);
      }
      assert entries == settled;
      used := Wrap64(used - request);
      ok := true;
    }

    method Resize(newSize: u64) returns (ok: bool)
      requires Valid()
      modifies this
      ensures Valid() && used == old(used)
      ensures newSize <= old(size) ==> ok == (newSize == old(size)) && unchanged(this)
      ensures newSize > old(size) ==> ok && size == newSize
                                      && entries == Resized(old(entries), old(size), newSize)
    {
      if newSize < size {
        return false;
      }
      if newSize == size {
        return true;
      }
      if |entries| > 0 && entries[|entries| - 1].length == size {
        var grown := Range(entries[|entries| - 1].offset, newSize);
        GrowLastKeepsSorted(entries, grown);
        entries := entries[|entries| - 1 := grown];
      } else if |entries| > 0 && entries[|entries| - 1].End() == size {
        var grown := entries[|entries| - 1].Grow(newSize - size);
        GrowLastKeepsSorted(entries, grown);
        entries := entries[|entries| - 1 := grown];
      } else {
        var added := Range(size, newSize - size);
        AssignKeepsSorted(entries, added.offset, added.length);
        entries := Assign(entries, added.offset, added.length);
      }
      size := newSize;
      ok := true;
    }

    method Clear()
      requires Valid()
      modifies this
      ensures Valid() && size == old(size)
      ensures entries == [Range(0, size)] && used == 0
    {
      entries := [Range(0, size)];
      used := 0;
    }
  }
}
