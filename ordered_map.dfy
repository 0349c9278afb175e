// std::map<std::string, V> as the configuration file uses it: entries kept
// in increasing key order under std::less<std::string>, one entry per key,
// and operator[] assignment replacing the value of a key already present.
module OrderedMaps {
  import opened Common

  /** std::less<std::string>: lexicographic order, a proper prefix first,
      characters compared as unsigned. */
  predicate Below(a: CString, b: CString)
    decreases |a|
  {
    b != [] && (a == [] || a[0] < b[0] || (a[0] == b[0] && Below(a[1..], b[1..])))
  }

  lemma {:induction false} BelowIrreflexive(a: CString)
    ensures !Below(a, a)
    decreases |a|
  {
    if a != [] {
      BelowIrreflexive(a[1..]);
    }
  }

  lemma {:induction false} BelowTransitive(a: CString, b: CString, c: CString)
    requires Below(a, b) && Below(b, c)
    ensures Below(a, c)
    decreases |a|
  {
    if a != [] && a[0] == b[0] && b[0] == c[0] {
      BelowTransitive(a[1..], b[1..], c[1..]);
    }
  }

  /** Any two different keys are ordered one way or the other. */
  lemma {:induction false} BelowTotal(a: CString, b: CString)
    ensures a == b || Below(a, b) || Below(b, a)
    decreases |a|
  {
    if a != [] && b != [] && a[0] == b[0] {
      BelowTotal(a[1..], b[1..]);
      if a[1..] == b[1..] {
        assert a == [a[0]] + a[1..] && b == [b[0]] + b[1..];
      }
    }
  }

  lemma BelowAsymmetric(a: CString, b: CString)
    requires Below(a, b)
    ensures !Below(b, a)
  {
    if Below(b, a) {
      BelowTransitive(a, b, a);
      BelowIrreflexive(a);
    }
  }

  /** The entries of a map, in iteration order. */
  type Entries<V> = seq<(CString, V)>

  /** Keys strictly increase, so no key repeats. */
  predicate Ordered<V>(es: Entries<V>)
  {
    forall i, j :: 0 <= i < j < |es| ==> Below(es[i].0, es[j].0)
  }

  /** The keys, in iteration order. */
  function Keys<V>(es: Entries<V>): (r: seq<CString>)
    ensures |r| == |es| && forall i :: 0 <= i < |es| ==> r[i] == es[i].0
  {
    if es == [] then [] else [es[0].0] + Keys(es[1..])
  }

  /** find(key): the value stored under the key. */
  function Lookup<V>(es: Entries<V>, key: CString): (r: Option<V>)
    ensures r.None? <==> key !in Keys(es)
    ensures r.Some? ==> exists i :: 0 <= i < |es| && es[i] == (key, r.value)
  {
    if es == [] then None
    else if es[0].0 == key then Some(es[0].1)
    else
      var r := Lookup(es[1..], key);
      assert r.Some? ==> exists i :: 0 <= i < |es[1..]| && es[1..][i] == (key, r.value);
      r
  }

  /** In an ordered map, the entry holding a key is the one Lookup finds. */
  lemma {:induction false} LookupAt<V>(es: Entries<V>, i: nat)
    requires Ordered(es) && i < |es|
    ensures Lookup(es, es[i].0) == Some(es[i].1)
  {
    if i > 0 {
      BelowIrreflexive(es[0].0);
      assert Below(es[0].0, es[i].0);
      assert es[1..][i - 1] == es[i];
      LookupAt(es[1..], i - 1);
    }
  }

  /** Looking up in a map extended at its end. */
  lemma {:induction false} LookupSnoc<V>(es: Entries<V>, key: CString, value: V, k: CString)
    ensures Lookup(es + [(key, value)], k) ==
      if k in Keys(es) then Lookup(es, k) else if k == key then Some(value) else None
  {
    if es != [] {
      assert (es + [(key, value)])[1..] == es[1..] + [(key, value)];
      LookupSnoc(es[1..], key, value, k);
    }
  }

  /** In an ordered map, the last entry's key is new to the entries before
      it, and so is every key above it. */
  lemma LookupLast<V>(es: Entries<V>, k: CString)
    requires Ordered(es) && es != []
    ensures var front, last := es[..|es| - 1], es[|es| - 1];
      && (k == last.0 ==> Lookup(es, k) == Some(last.1) && Lookup(front, k) == None)
      && (k != last.0 ==> Lookup(es, k) == Lookup(front, k))
      && (Below(last.0, k) ==> Lookup(front, k) == None)
  {
    var front, last := es[..|es| - 1], es[|es| - 1];
    assert es == front + [(last.0, last.1)];
    LookupSnoc(front, last.0, last.1, k);
    if k in Keys(front) {
      var i :| 0 <= i < |front| && front[i].0 == k;
      assert Below(es[i].0, es[|front|].0);
      BelowIrreflexive(k);
      if Below(last.0, k) {
        BelowAsymmetric(last.0, k);
      }
    }
  }

  /** m[key] = value: replaces the value of a present key in place, or adds
      the key at its place in the order. */
  function Insert<V>(es: Entries<V>, key: CString, value: V): (r: Entries<V>)
    requires Ordered(es)
    ensures Ordered(r)
    ensures Lookup(r, key) == Some(value)
    ensures forall k :: k != key ==> Lookup(r, k) == Lookup(es, k)
    ensures |r| == if key in Keys(es) then |es| else |es| + 1
    ensures forall i :: 0 <= i < |r| ==> r[i].0 == key || r[i].0 in Keys(es)
  {
    if es == [] then [(key, value)]
    else if es[0].0 == key then
      ReplaceFirst(es, value);
      [(key, value)] + es[1..]
    else if Below(key, es[0].0) then
      InsertFirst(es, key, value);
      [(key, value)] + es
    else
      var rest := Insert(es[1..], key, value);
      InsertLater(es, key, rest);
      [es[0]] + rest
  }

  lemma ReplaceFirst<V>(es: Entries<V>, value: V)
    requires Ordered(es) && es != []
    ensures Ordered([(es[0].0, value)] + es[1..])
    ensures Keys([(es[0].0, value)] + es[1..]) == Keys(es)
  {
    var r := [(es[0].0, value)] + es[1..];
    assert forall i :: 0 < i < |r| ==> r[i] == es[i];
  }

  lemma InsertFirst<V>(es: Entries<V>, key: CString, value: V)
    requires Ordered(es) && es != [] && Below(key, es[0].0)
    ensures Ordered([(key, value)] + es)
    ensures key !in Keys(es)
  {
    var r := [(key, value)] + es;
    forall i, j | 0 <= i < j < |r|
      ensures Below(r[i].0, r[j].0)
    {
      if i == 0 && j > 1 {
        BelowTransitive(key, es[0].0, es[j - 1].0);
      }
    }
    forall i | 0 <= i < |es|
      ensures es[i].0 != key
    {
      if i > 0 {
        BelowTransitive(key, es[0].0, es[i].0);
      }
      BelowIrreflexive(key);
    }
  }

  lemma InsertLater<V>(es: Entries<V>, key: CString, rest: Entries<V>)
    requires Ordered(es) && es != [] && es[0].0 != key && !Below(key, es[0].0)
    requires Ordered(rest) && forall i :: 0 <= i < |rest| ==> rest[i].0 == key || rest[i].0 in Keys(es[1..])
    ensures Ordered([es[0]] + rest)
    ensures key in Keys(es) <==> key in Keys(es[1..])
  {
    BelowTotal(key, es[0].0);
    forall i | 0 <= i < |rest|
      ensures Below(es[0].0, rest[i].0)
    {
      if rest[i].0 != key {
        var j :| 0 <= j < |es[1..]| && Keys(es[1..])[j] == rest[i].0;
        assert es[1..][j] == es[j + 1];
      }
    }
    var r := [es[0]] + rest;
    assert forall i :: 0 < i < |r| ==> r[i] == rest[i - 1];
  }
}
