// ModulePipeline: the engine's ordered registry of modules. Modules are added
// under unique names, initialised and executed in insertion order with an
// early stop at the first failure, and all shut down together. A module's
// initialize/execute/shutdown overrides are outside the model: a module is
// its identity and what its overrides return, and the pipeline records the
// calls it makes.
module ModulePipelines {
  import opened Common

  /** A registered module: its identity and the results of its overrides. */
  datatype Module = Module(id: nat, initializes: bool, executes: bool)

  /** The three passes the pipeline makes over its modules. */
  datatype Phase = Initializing | Executing | ShuttingDown

  /** A call the pipeline makes to a module. Initialisation first hands the
      module the pipeline's engine. */
  datatype Call = Initialize(id: nat, engine: Option<nat>) | Execute(id: nat) | Shutdown(id: nat)

  /** What a module's override returns in a phase; shutdown returns nothing. */
  predicate Succeeds(m: Module, phase: Phase)
  {
    match phase
    case Initializing => m.initializes
    case Executing => m.executes
    case ShuttingDown => true
  }

  function CallOf(m: Module, phase: Phase, engine: Option<nat>): Call
  {
    match phase
    case Initializing => Initialize(m.id, engine)
    case Executing => Execute(m.id)
    case ShuttingDown => Shutdown(m.id)
  }

  /** One call per module, in order. */
  function Calls(ms: seq<Module>, phase: Phase, engine: Option<nat>): (r: seq<Call>)
    ensures |r| == |ms|
    ensures forall j :: 0 <= j < |ms| ==> r[j] == CallOf(ms[j], phase, engine)
  {
    if ms == [] then [] else Calls(ms[..|ms| - 1], phase, engine) + [CallOf(ms[|ms| - 1], phase, engine)]
  }

  /** The first module from position i on whose override fails. */
  function FirstFailing(ms: seq<Module>, phase: Phase, i: nat): (r: Option<nat>)
    requires i <= |ms|
    decreases |ms| - i
    ensures r.Some? ==> i <= r.value < |ms| && !Succeeds(ms[r.value], phase)
    ensures r.Some? ==> forall j :: i <= j < r.value ==> Succeeds(ms[j], phase)
    ensures r.None? <==> forall j :: i <= j < |ms| ==> Succeeds(ms[j], phase)
  {
    if i == |ms| then None
    else if !Succeeds(ms[i], phase) then Some(i)
    else FirstFailing(ms, phase, i + 1)
  }

  /** How many modules a pass calls: up to and including the first failure. */
  function Reached(ms: seq<Module>, phase: Phase): (n: nat)
    ensures n <= |ms|
  {
    var first := FirstFailing(ms, phase, 0);
    if first.Some? then first.value + 1 else |ms|
  }

  /** A pass calls every module before the first failing one and the failing
      one itself, and none after it. */
  lemma ReachedStopsAtFailure(ms: seq<Module>, phase: Phase)
    ensures forall j :: 0 <= j < Reached(ms, phase) - 1 ==> Succeeds(ms[j], phase)
    ensures Reached(ms, phase) < |ms| ==> !Succeeds(ms[Reached(ms, phase) - 1], phase)
    ensures Reached(ms, phase) == |ms| ==> ms == [] || forall j :: 0 <= j < |ms| - 1 ==> Succeeds(ms[j], phase)
  {
  }

  class ModulePipeline {
    /** m_engine; None until an engine is set. */
    var engine: Option<nat>
    /** m_modules, in insertion order. */
    var modules: seq<Module>
    /** m_modules_search_map: name to index in `modules`. */
    var names: map<CString, nat>
    /** Every override call made so far, in order. */
    var calls: seq<Call>

    /** Each name indexes its own module, and each module has one name. */
    ghost predicate Valid()
      reads this
    {
      && (forall n :: n in names ==> names[n] < |modules|)
      && (forall a, b :: a in names && b in names && a != b ==> names[a] != names[b])
      && |names| == |modules|
    }

    /** ModulePipeline(). */
    constructor ()
      ensures Valid() && engine.None? && modules == [] && names == map[] && calls == []
    {
      engine, modules, names, calls := None, [], map[], [];
    }

    /** set_engine(engine): a non-null engine, which any id is. */
    method SetEngine(e: nat)
      modifies this`engine
      ensures engine == Some(e)
    {
      engine := Some(e);
    }

    /** has_module(name). */
    function HasModule(name: CString): (r: bool)
      reads this
      ensures r <==> name in names
    {
      name in names
    }

    /** get_module(name): the module registered under the name, or null. */
    function GetModule(name: CString): (r: Option<Module>)
      reads this
      requires Valid()
      ensures r.Some? <==> HasModule(name)
      ensures r.Some? ==> r.value == modules[names[name]]
    {
      if HasModule(name) then Some(modules[names[name]]) else None
    }

    /** add_module(name, module): a name already present is refused;
        otherwise the module is appended and the name points at it. */
    method AddModule(name: CString, m: Module) returns (ok: bool)
      requires Valid()
      modifies this`modules, this`names
      ensures Valid()
      ensures ok <==> name !in old(names)
      ensures ok ==> modules == old(modules) + [m] && names == old(names)[name := |old(modules)|]
      ensures !ok ==> modules == old(modules) && names == old(names)
      ensures ok ==> GetModule(name) == Some(m)
      ensures forall n :: n != name ==> GetModule(n) == old(GetModule(n))
    {
      if HasModule(name) {
        return false;
      }
      modules := modules + [m];
      names := names[name := |modules| - 1];
      return true;
    }

    /** initialize_pipeline(): hand each module the engine and initialise it,
        in order, stopping at the first that fails. */
    method InitializePipeline() returns (ok: bool)
      modifies this`calls
      ensures ok <==> FirstFailing(modules, Initializing, 0).None?
      ensures calls == old(calls) + Calls(modules[..Reached(modules, Initializing)], Initializing, engine)
    {
      ok := RunPhase(Initializing);
    }

    /** execute_modules(): execute each module in order, stopping at the first
        that returns false. */
    method ExecuteModules() returns (ok: bool)
      modifies this`calls
      ensures ok <==> FirstFailing(modules, Executing, 0).None?
      ensures calls == old(calls) + Calls(modules[..Reached(modules, Executing)], Executing, engine)
    {
      ok := RunPhase(Executing);
    }

    /** The loop both passes share. */
    method RunPhase(phase: Phase) returns (ok: bool)
      modifies this`calls
      ensures ok <==> FirstFailing(modules, phase, 0).None?
      ensures calls == old(calls) + Calls(modules[..Reached(modules, phase)], phase, engine)
    {
      var i: nat := 0;
      while i < |modules|
        invariant i <= |modules|
        invariant forall j :: 0 <= j < i ==> Succeeds(modules[j], phase)
        invariant calls == old(calls) + Calls(modules[..i], phase, engine)
      {
        CallsSnoc(modules, i, phase, engine);
        AppendAssoc(old(calls), Calls(modules[..i], phase, engine), [CallOf(modules[i], phase, engine)]);
        calls := calls + [CallOf(modules[i], phase, engine)];
        if !Succeeds(modules[i], phase) {
          FirstFailingAt(modules, phase, i);
          return false;
        }
        i := i + 1;
      }
      assert modules[..i] == modules;
      return true;
    }

    /** shutdown_pipeline(): shut every module down, then forget the engine,
        the modules and the names. */
    method ShutdownPipeline()
      modifies this`calls, this`engine, this`modules, this`names
      ensures Valid()
      ensures calls == old(calls) + Calls(old(modules), ShuttingDown, old(engine))
      ensures engine.None? && modules == [] && names == map[]
    {
      var i: nat := 0;
      while i < |modules|
        invariant i <= |modules| && modules == old(modules) && engine == old(engine)
        invariant calls == old(calls) + Calls(modules[..i], ShuttingDown, engine)
      {
        CallsSnoc(modules, i, ShuttingDown, engine);
        AppendAssoc(old(calls), Calls(modules[..i], ShuttingDown, engine), [Shutdown(modules[i].id)]);
        calls := calls + [Shutdown(modules[i].id)];
        i := i + 1;
      }
      assert modules[..i] == modules;
      engine, modules, names := None, [], map[];
    }
  }

  /** The calls over one module more. */
  lemma CallsSnoc(ms: seq<Module>, i: nat, phase: Phase, engine: Option<nat>)
    requires i < |ms|
    ensures Calls(ms[..i + 1], phase, engine) == Calls(ms[..i], phase, engine) + [CallOf(ms[i], phase, engine)]
  {
    assert ms[..i + 1][..i] == ms[..i];
  }

  /** When the first i modules succeed and module i fails, module i is the
      first failure and the pass has called i + 1 modules. */
  lemma FirstFailingAt(ms: seq<Module>, phase: Phase, i: nat)
    requires i < |ms| && !Succeeds(ms[i], phase)
    requires forall j :: 0 <= j < i ==> Succeeds(ms[j], phase)
    ensures FirstFailing(ms, phase, 0) == Some(i) && Reached(ms, phase) == i + 1
  {
    FirstFailingFrom(ms, phase, 0, i);
  }

  lemma {:induction false} FirstFailingFrom(ms: seq<Module>, phase: Phase, k: nat, i: nat)
    requires k <= i < |ms| && !Succeeds(ms[i], phase)
    requires forall j :: k <= j < i ==> Succeeds(ms[j], phase)
    ensures FirstFailing(ms, phase, k) == Some(i)
    decreases i - k
  {
    if k < i {
      FirstFailingFrom(ms, phase, k + 1, i);
    }
  }

  /** Two modules under one name: the second add is refused and the first
      stays reachable. */
  method DuplicateName(name: CString, first: Module, second: Module) returns (added: bool, found: Option<Module>)
    ensures !added && found == Some(first)
  {
    var pipeline := new ModulePipeline();
    var ok := pipeline.AddModule(name, first);
    added := pipeline.AddModule(name, second);
    found := pipeline.GetModule(name);
  }
}
