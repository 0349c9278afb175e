/** The relink scenario of the handle list, replayed on concrete tables. */
module HandleListScenario {
  import opened Common
  import opened HandleLists

  /** add 10, 20, 30, 40; remove the third; add 50; remove the second, the
      fourth and the first; then look up the handle of 50. */
  function RelinkScenario(relink: bool): Run<Option<int>>
  {
    var a :- Emplace(Empty(), 10);
    var b :- Emplace(a.0, 20);
    var c :- Emplace(b.0, 30);
    var d :- Emplace(c.0, 40);
    var t5 :- RemoveWith(d.0, c.1, None, relink);
    var e :- Emplace(t5, 50);
    var t7 :- RemoveWith(e.0, b.1, None, relink);
    var t8 :- RemoveWith(t7, d.1, None, relink);
    var t9 :- RemoveWith(t8, a.1, None, relink);
    Get(t9, e.1)
  }

  // The states the as-written scenario passes through.
  const Trace1: Table<int> := Table([10], 1, [Slot(0, 0, -1, -1)], 1, 0, -1, 0, -1)
  const Trace2: Table<int> := Table([10, 20], 2, [Slot(0, 0, 1, -1), Slot(1, 0, -1, 0)], 2, 0, -1, 1, 0)
  const Trace3: Table<int> := Table([10, 20, 30], 3, [Slot(0, 0, 1, -1), Slot(1, 0, 2, 0), Slot(2, 0, -1, 1)], 3, 0, -1, 2, 1)
  const Trace4: Table<int> := Table([10, 20, 30, 40], 4, [Slot(0, 0, 1, -1), Slot(1, 0, 2, 0), Slot(2, 0, 3, 1), Slot(3, 0, -1, 2)], 4, 0, -1, 3, 2)
  const Trace5: Table<int> := Table([10, 20, 40], 3, [Slot(0, 0, 1, -1), Slot(1, 0, 2, 0), Slot(2, 1, -1, -1), Slot(2, 0, -1, 1)], 4, 1, 2, 3, 1)
  const Trace6: Table<int> := Table([10, 20, 40, 50], 4, [Slot(0, 0, 1, -1), Slot(1, 0, 2, 0), Slot(3, 1, -1, 3), Slot(2, 0, 2, 1)], 4, 0, -1, 2, 3)
  const Trace7: Table<int> := Table([10, 50, 40], 3, [Slot(0, 0, 2, -1), Slot(1, 1, -1, -1), Slot(1, 1, 2, 0), Slot(2, 0, -1, 1)], 4, 1, 1, 3, 1)
  const Trace8: Table<int> := Table([10, 50], 2, [Slot(0, 0, 2, -1), Slot(1, 1, -1, -1), Slot(1, 1, 2, 0), Slot(2, 1, 1, -1)], 4, 2, 3, 1, -1)
  const Trace9: Table<int> := Table([50], 1, [Slot(0, 1, 3, -1), Slot(0, 1, 2, -1), Slot(1, 1, 2, 1), Slot(2, 1, 1, -1)], 4, 3, 0, -1, -1)

  lemma TraceStep1()
    ensures Emplace(Empty(), 10) == Ok((Trace1, Handle(0, 0)))
  {
    var r := Emplace(Empty(), 10);
    assert r.Ok? && Same(r.value.0, Trace1) && r.value.1 == Handle(0, 0);
  }

  lemma TraceStep2()
    ensures Emplace(Trace1, 20) == Ok((Trace2, Handle(1, 0)))
  {
    var r := Emplace(Trace1, 20);
    assert r.Ok? && Same(r.value.0, Trace2) && r.value.1 == Handle(1, 0);
  }

  lemma TraceStep3()
    ensures Emplace(Trace2, 30) == Ok((Trace3, Handle(2, 0)))
  {
    var r := Emplace(Trace2, 30);
    assert r.Ok? && Same(r.value.0, Trace3) && r.value.1 == Handle(2, 0);
  }

  lemma TraceStep4()
    ensures Emplace(Trace3, 40) == Ok((Trace4, Handle(3, 0)))
  {
    var r := Emplace(Trace3, 40);
    assert r.Ok? && Same(r.value.0, Trace4) && r.value.1 == Handle(3, 0);
  }

  lemma TraceStep5()
    ensures RemoveWith(Trace4, Handle(2, 0), None, false) == Ok(Trace5)
  {
    var r := RemoveWith(Trace4, Handle(2, 0), None, false);
    assert r.Ok? && Same(r.value, Trace5);
  }

  lemma TraceStep6()
    ensures Emplace(Trace5, 50) == Ok((Trace6, Handle(2, 1)))
  {
    var r := Emplace(Trace5, 50);
    assert r.Ok? && Same(r.value.0, Trace6) && r.value.1 == Handle(2, 1);
  }

  lemma TraceStep7()
    ensures RemoveWith(Trace6, Handle(1, 0), None, false) == Ok(Trace7)
  {
    var r := RemoveWith(Trace6, Handle(1, 0), None, false);
    assert r.Ok? && Same(r.value, Trace7);
  }

  lemma TraceStep8()
    ensures RemoveWith(Trace7, Handle(3, 0), None, false) == Ok(Trace8)
  {
    var r := RemoveWith(Trace7, Handle(3, 0), None, false);
    assert r.Ok? && Same(r.value, Trace8);
  }

  lemma TraceStep9()
    ensures RemoveWith(Trace8, Handle(0, 0), None, false) == Ok(Trace9)
  {
    var r := RemoveWith(Trace8, Handle(0, 0), None, false);
    assert r.Ok? && Same(r.value, Trace9);
  }

  /** As written, the scenario ends with 50 as the only resource while the
      slot of its handle still points at resource index 1: get trips the
      resource arena's index assertion. */
  lemma {:induction false} RelinkScenarioAsWritten()
    ensures RelinkScenario(false) == Abort
  {
    TraceStep1(); TraceStep2(); TraceStep3(); TraceStep4(); TraceStep5();
    TraceStep6(); TraceStep7(); TraceStep8(); TraceStep9();
    assert Get(Trace9, Handle(2, 1)) == Abort;
  }
}
