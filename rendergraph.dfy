// Rendergraph: passes are registered by name on an UnbakedRendergraph, then
// Rendergraph::initialize generates each pass's resources, links global and
// pass-to-pass dependencies into them, picks the present pass and creates one
// renderpass per pass. Textures are abstract ids; a pass's overrides and the
// renderer's renderpass creation are outside the model and are given as the
// results they return.
module Rendergraphs {
  import opened Common

  /** RendergraphResource::Type. */
  datatype ResourceType = Color | Depth

  /** RendergraphResource::Origin. */
  datatype Origin = Global | External | Self

  /** RendergraphResource: a name, a type, an origin and its textures. */
  datatype Resource = Resource(name: CString, kind: ResourceType, origin: Origin, textures: seq<nat>)

  /** RendergraphGlobalDependency::BufferType. */
  datatype GlobalBuffer = GlobalColorBuffer | GlobalDepthBuffer

  datatype GlobalDependency = GlobalDependency(source: GlobalBuffer, dest: CString)

  datatype PassDependency = PassDependency(dest: CString, sourcePass: CString, sourceResource: CString)

  /** A RendergraphPass: its identity, its resources, what generate_resources
      leaves in them (None when it returns false), whether the renderpass
      acquired for it accepts its configuration, and what initialize returns. */
  datatype RenderPass = RenderPass(id: nat, resources: seq<Resource>, generated: Option<seq<Resource>>,
                                   renderpassCreates: bool, initializes: bool)

  /** UnbakedPass, without its depth, stencil, render area and clear colour. */
  datatype UnbakedPass = UnbakedPass(clearColor: bool, clearDepth: bool, clearStencil: bool, loadLastPass: bool,
                                     pass: RenderPass, globals: seq<GlobalDependency>,
                                     dependencies: seq<PassDependency>)

  /** The renderer as initialize sees it: its swapchain images. */
  datatype Renderer = Renderer(swapchain: seq<nat>)

  /** Attachment::LoadOperation and Attachment::StoreOperation. */
  datatype LoadOp = Load | Clear | DontCare
  datatype StoreOp = Store | StoreDontCare

  /** Attachment; `format` is the texture whose format it takes. */
  datatype Attachment = Attachment(kind: ResourceType, load: LoadOp, store: StoreOp, format: nat, textures: seq<nat>)

  /** RenderpassConfig, without the fields copied from the UnbakedPass. */
  datatype RenderpassConfig = RenderpassConfig(clearFlag: nat, presentAfter: bool, attachments: seq<Attachment>)

  /** A pass of the baked graph with the configuration of its renderpass. */
  datatype BakedPass = BakedPass(pass: RenderPass, config: RenderpassConfig)

  /** How a call ends: true, false, an escaping std::out_of_range, or
      undefined behaviour (an uninitialised pointer or an index past the end). */
  datatype Status = Succeeded | Refused | Throws | Undefined

  /** A step of initialize: a value, or one of the three ways it can end. */
  datatype Outcome<T> = Done(value: T) | Failed | Thrown | Faulted
  {
    predicate IsFailure() { !Done? }
    function PropagateFailure<U>(): (r: Outcome<U>)
      requires IsFailure()
      ensures !r.Done? && r.Status() == Status()
    {
      if Failed? then Failed else if Thrown? then Thrown else Faulted
    }
    function Extract(): T
      requires Done?
    {
      value
    }
    function Status(): Status
    {
      match this
      case Done(_) => Succeeded
      case Failed => Refused
      case Thrown => Throws
      case Faulted => Undefined
    }
  }

  // ---- Resource lookup ----

  /** The first resource named `name` from position i on. */
  function FindResource(rs: seq<Resource>, name: CString, i: nat): (r: Option<nat>)
    requires i <= |rs|
    decreases |rs| - i
    ensures r.Some? ==> i <= r.value < |rs| && rs[r.value].name == name
    ensures r.Some? ==> forall j :: i <= j < r.value ==> rs[j].name != name
    ensures r.None? <==> forall j :: i <= j < |rs| ==> rs[j].name != name
  {
    if i == |rs| then None
    else if rs[i].name == name then Some(i)
    else FindResource(rs, name, i + 1)
  }

  /** RendergraphPass::has_resource(name). */
  function HasResource(rs: seq<Resource>, name: CString): (r: bool)
    ensures r <==> exists j :: 0 <= j < |rs| && rs[j].name == name
  {
    FindResource(rs, name, 0).Some?
  }

  // ---- Unbaked graph ----

  /** The distinct values of a list. */
  function Elements(names: seq<CString>): set<CString>
  {
    set n | n in names
  }

  predicate Distinct(names: seq<CString>)
  {
    forall i, j :: 0 <= i < j < |names| ==> names[i] != names[j]
  }

  /** The names of the resources, in order. */
  function Names(rs: seq<Resource>): (r: seq<CString>)
    ensures |r| == |rs| && forall j :: 0 <= j < |rs| ==> r[j] == rs[j].name
  {
    if rs == [] then [] else Names(rs[..|rs| - 1]) + [rs[|rs| - 1].name]
  }

  /** A list has as many distinct values as entries exactly when no value
      repeats; it never has more. */
  lemma {:induction false} DistinctIffSetSize(names: seq<CString>)
    ensures |Elements(names)| <= |names|
    ensures |Elements(names)| == |names| <==> Distinct(names)
  {
    if names != [] {
      var init, last := names[..|names| - 1], names[|names| - 1];
      DistinctIffSetSize(init);
      assert Elements(names) == Elements(init) + {last};
      if last in Elements(init) {
        var j :| 0 <= j < |init| && init[j] == last;
        assert names[j] == names[|names| - 1];
      } else {
        assert !Distinct(init) ==> !Distinct(names);
      }
    }
  }

  class UnbakedRendergraph {
    /** m_passes. */
    var passes: seq<UnbakedPass>
    /** m_passes_name_locator. */
    var locator: map<CString, nat>

    ghost predicate Valid()
      reads this
    {
      Locates(locator, |passes|)
    }

    constructor ()
      ensures Valid() && passes == [] && locator == map[]
    {
      passes, locator := [], map[];
    }

    /** has_pass(name). */
    function HasPass(name: CString): (r: bool)
      reads this
      ensures r <==> name in locator
    {
      name in locator
    }

    /** has_pass_resource(pass, resource): the pass is registered and has a
        resource of that name. */
    function HasPassResource(passName: CString, resourceName: CString): (r: bool)
      reads this
      requires Valid()
      ensures r <==> passName in locator && FindResource(passes[locator[passName]].pass.resources, resourceName, 0).Some?
    {
      HasPass(passName) && HasResource(passes[locator[passName]].pass.resources, resourceName)
    }

    /** add_pass(name, pass): refused for a name already registered or for
        resources whose names repeat; otherwise appended under the name. */
    method AddPass(name: CString, p: UnbakedPass) returns (ok: bool)
      requires Valid()
      modifies this
      ensures Valid()
      ensures ok <==> name !in old(locator) && Distinct(Names(p.pass.resources))
      ensures ok ==> passes == old(passes) + [p] && locator == old(locator)[name := |old(passes)|]
      ensures !ok ==> passes == old(passes) && locator == old(locator)
    {
      if HasPass(name) {
        return false;
      }
      var resources := p.pass.resources;
      var names: seq<CString> := [];
      var i: nat := 0;
      while i < |resources|
        invariant i <= |resources| && names == Names(resources[..i])
      {
        assert resources[..i + 1][..i] == resources[..i];
        names := names + [resources[i].name];
        i := i + 1;
      }
      assert resources[..i] == resources;
      var unique := Elements(names);
      DistinctIffSetSize(names);
      if |unique| != |names| {
        return false;
      }
      passes := passes + [p];
      locator := locator[name := |passes| - 1];
      return true;
    }
  }

  /** Every name points at one of n passes. */
  predicate Locates(locator: map<CString, nat>, n: nat)
  {
    forall name :: name in locator ==> locator[name] < n
  }

  // ---- Generating the resources ----

  /** Generate each pass's resources in order: false as soon as one fails or
      leaves its resources empty. `t` holds the lists generated so far. */
  function Generate(ups: seq<UnbakedPass>, i: nat, t: seq<seq<Resource>>): (r: Outcome<seq<seq<Resource>>>)
    requires i <= |ups| && |t| == i
    decreases |ups| - i
    ensures r.Done? || r.Failed?
    ensures r.Done? <==> forall k :: i <= k < |ups| ==> ups[k].pass.generated.Some? && ups[k].pass.generated.value != []
    ensures r.Done? ==> |r.value| == |ups| && r.value[..i] == t
    ensures r.Done? ==> forall k :: i <= k < |ups| ==> r.value[k] == ups[k].pass.generated.value
  {
    if i == |ups| then Done(t)
    else
      var g := ups[i].pass.generated;
      if g.None? || g.value == [] then Failed
      else
        var r := Generate(ups, i + 1, t + [g.value]);
        assert r.Done? ==> r.value[..i] == r.value[..i + 1][..i];
        r
  }

  // ---- Linking the dependencies ----

  /** A resource without its textures: what linking never changes. */
  function Skeleton(r: Resource): Resource
  {
    r.(textures := [])
  }

  /** Two lists of resources that differ at most in their textures. */
  predicate Kept(rs: seq<Resource>, us: seq<Resource>)
  {
    |rs| == |us| && forall d :: 0 <= d < |rs| ==> Skeleton(rs[d]) == Skeleton(us[d])
  }

  predicate SameShape(t: seq<seq<Resource>>, u: seq<seq<Resource>>)
  {
    |t| == |u| && forall k :: 0 <= k < |t| ==> Kept(t[k], u[k])
  }

  /** dest_resource->attachments = textures. */
  function SetTextures(t: seq<seq<Resource>>, k: nat, d: nat, textures: seq<nat>): (u: seq<seq<Resource>>)
    requires k < |t| && d < |t[k]|
    ensures SameShape(t, u) && u[k][d].textures == textures
    ensures forall j :: 0 <= j < |t| && j != k ==> u[j] == t[j]
    ensures forall e :: 0 <= e < |t[k]| && e != d ==> u[k][e] == t[k][e]
  {
    t[k := t[k][d := t[k][d].(textures := textures)]]
  }

  /** m_global_resources[GlobalColorBuffer] as initialize fills it. */
  function ColorBuffer(renderer: Renderer): Resource
  {
    Resource("GlobalColorBuffer", Color, Self, renderer.swapchain)
  }

  /** m_global_resources[global_src]: the global buffer a dependency reads. */
  function GlobalSource(g: GlobalDependency, color: Resource, depth: Resource): Resource
  {
    if g.source == GlobalColorBuffer then color else depth
  }

  /** The checks a global dependency must pass against a pass's resources:
      its destination exists, has the Global origin and the buffer's type. */
  predicate GlobalFits(rs: seq<Resource>, g: GlobalDependency, color: Resource, depth: Resource)
  {
    && HasResource(rs, g.dest)
    && rs[FindResource(rs, g.dest, 0).value].origin == Global
    && rs[FindResource(rs, g.dest, 0).value].kind == GlobalSource(g, color, depth).kind
  }

  /** One global dependency of pass k: its destination must exist, have the
      Global origin and the global buffer's type; it then takes the buffer's
      textures. The flag says whether the buffer is a colour buffer. */
  function LinkGlobal(t: seq<seq<Resource>>, k: nat, g: GlobalDependency, color: Resource, depth: Resource): (r: Outcome<(seq<seq<Resource>>, bool)>)
    requires k < |t|
    ensures r.Done? || r.Failed?
    ensures r.Done? <==> GlobalFits(t[k], g, color, depth)
    ensures r.Done? ==> r.value.0 == SetTextures(t, k, FindResource(t[k], g.dest, 0).value, GlobalSource(g, color, depth).textures)
    ensures r.Done? ==> r.value.1 == (GlobalSource(g, color, depth).kind == Color)
  {
    if !HasResource(t[k], g.dest) then Failed
    else
      var d := FindResource(t[k], g.dest, 0).value;
      var global := GlobalSource(g, color, depth);
      if t[k][d].origin != Global then Failed
      else if t[k][d].kind != global.kind then Failed
      else Done((SetTextures(t, k, d, global.textures), global.kind == Color))
  }

  /** The global dependencies of pass k from the i-th on, in order. */
  function LinkGlobals(t: seq<seq<Resource>>, k: nat, gs: seq<GlobalDependency>, i: nat, linked: bool,
                       color: Resource, depth: Resource): (r: Outcome<(seq<seq<Resource>>, bool)>)
    requires k < |t| && i <= |gs|
    decreases |gs| - i
    ensures r.Done? || r.Failed?
    ensures r.Done? ==> SameShape(t, r.value.0)
  {
    if i == |gs| then Done((t, linked))
    else
      var (u, colored) :- LinkGlobal(t, k, gs[i], color, depth);
      var r := LinkGlobals(u, k, gs, i + 1, linked || colored, color, depth);
      SameShapeTrans(t, u, if r.Done? then r.value.0 else u);
      r
  }

  /** The source resource of a pass dependency, looked up through `graph`:
      none when the name map lacks the pass, points past the passes, or the
      pass has no resource of that name. */
  function DependencySource(t: seq<seq<Resource>>, dep: PassDependency, graph: map<CString, nat>): Option<Resource>
  {
    if dep.sourcePass !in graph || graph[dep.sourcePass] >= |t| then None
    else
      var found := FindResource(t[graph[dep.sourcePass]], dep.sourceResource, 0);
      if found.None? then None else Some(t[graph[dep.sourcePass]][found.value])
  }

  /** The checks a pass dependency of pass k must pass: its destination
      exists, the unbaked graph has the source, the lookup through `graph`
      finds it, and the destination is External and of the source's type. */
  predicate DependencyFits(t: seq<seq<Resource>>, k: nat, dep: PassDependency,
                           unbaked: map<CString, nat>, graph: map<CString, nat>)
    requires k < |t| && Locates(unbaked, |t|)
  {
    && HasResource(t[k], dep.dest)
    && SourceRegistered(t, dep, unbaked)
    && DependencySource(t, dep, graph).Some?
    && ExternalOfKind(t[k], dep.dest, DependencySource(t, dep, graph).value.kind)
  }

  /** has_pass_resource(source pass, source resource) on the unbaked graph. */
  predicate SourceRegistered(t: seq<seq<Resource>>, dep: PassDependency, unbaked: map<CString, nat>)
    requires Locates(unbaked, |t|)
  {
    dep.sourcePass in unbaked && HasResource(t[unbaked[dep.sourcePass]], dep.sourceResource)
  }

  /** The resource named `name` is External and of the given type. */
  predicate ExternalOfKind(rs: seq<Resource>, name: CString, kind: ResourceType)
    requires HasResource(rs, name)
  {
    var d := FindResource(rs, name, 0).value;
    rs[d].origin == External && rs[d].kind == kind
  }

  /** One pass dependency of pass k, as written: its destination must exist
      and the source pass must have the source resource; the source pass is
      then looked up with `.at` in `graph`, the baked graph's own name map,
      and the source resource searched for there. The destination must have
      the External origin; only then is the source resource dereferenced,
      and the destination must have its type and takes its textures. */
  function LinkDependency(t: seq<seq<Resource>>, k: nat, dep: PassDependency,
                          unbaked: map<CString, nat>, graph: map<CString, nat>): (r: Outcome<seq<seq<Resource>>>)
    requires k < |t| && Locates(unbaked, |t|)
    ensures r.Done? <==> DependencyFits(t, k, dep, unbaked, graph)
    ensures r.Done? ==> r.value == SetTextures(t, k, FindResource(t[k], dep.dest, 0).value, DependencySource(t, dep, graph).value.textures)
    ensures r.Thrown? <==>
      && HasResource(t[k], dep.dest)
      && dep.sourcePass in unbaked && HasResource(t[unbaked[dep.sourcePass]], dep.sourceResource)
      && dep.sourcePass !in graph
  {
    if !HasResource(t[k], dep.dest) then Failed
    else if !(dep.sourcePass in unbaked && HasResource(t[unbaked[dep.sourcePass]], dep.sourceResource)) then Failed
    else
      var d := FindResource(t[k], dep.dest, 0).value;
      if dep.sourcePass !in graph then Thrown
      else
        var s := graph[dep.sourcePass];
        if s >= |t| then Faulted
        else
          var found := FindResource(t[s], dep.sourceResource, 0);
          if t[k][d].origin != External then Failed
          else if found.None? then Faulted
          else
            var source := t[s][found.value];
            if t[k][d].kind != source.kind then Failed
            else Done(SetTextures(t, k, d, source.textures))
  }

  /** The pass dependencies of pass k from the i-th on, in order. */
  function LinkDependencies(t: seq<seq<Resource>>, k: nat, deps: seq<PassDependency>, i: nat,
                            unbaked: map<CString, nat>, graph: map<CString, nat>): (r: Outcome<seq<seq<Resource>>>)
    requires k < |t| && i <= |deps| && Locates(unbaked, |t|)
    decreases |deps| - i
    ensures r.Done? ==> SameShape(t, r.value)
  {
    if i == |deps| then Done(t)
    else
      var u :- LinkDependency(t, k, deps[i], unbaked, graph);
      var r := LinkDependencies(u, k, deps, i + 1, unbaked, graph);
      SameShapeTrans(t, u, if r.Done? then r.value else u);
      r
  }

  /** Pass k's global dependencies, then its pass dependencies. */
  function LinkPass(t: seq<seq<Resource>>, k: nat, up: UnbakedPass, linked: bool,
                    unbaked: map<CString, nat>, graph: map<CString, nat>,
                    color: Resource, depth: Resource): (r: Outcome<(seq<seq<Resource>>, bool)>)
    requires k < |t| && Locates(unbaked, |t|)
    ensures r.Done? ==> SameShape(t, r.value.0)
  {
    var globals := LinkGlobals(t, k, up.globals, 0, linked, color, depth);
    if !globals.Done? then globals
    else
      var deps := LinkDependencies(globals.value.0, k, up.dependencies, 0, unbaked, graph);
      if !deps.Done? then deps.PropagateFailure()
      else
        SameShapeTrans(t, globals.value.0, deps.value);
        Done((deps.value, globals.value.1))
  }

  /** Every pass from the k-th on, in order. */
  function LinkPasses(t: seq<seq<Resource>>, ups: seq<UnbakedPass>, k: nat, linked: bool,
                      unbaked: map<CString, nat>, graph: map<CString, nat>,
                      color: Resource, depth: Resource): (r: Outcome<(seq<seq<Resource>>, bool)>)
    requires |t| == |ups| && k <= |ups| && Locates(unbaked, |t|)
    decreases |ups| - k
    ensures r.Done? ==> SameShape(t, r.value.0)
  {
    if k == |ups| then Done((t, linked))
    else
      var (u, now) :- LinkPass(t, k, ups[k], linked, unbaked, graph, color, depth);
      var r := LinkPasses(u, ups, k + 1, now, unbaked, graph, color, depth);
      SameShapeTrans(t, u, if r.Done? then r.value.0 else u);
      r
  }

  lemma SameShapeTrans(t: seq<seq<Resource>>, u: seq<seq<Resource>>, v: seq<seq<Resource>>)
    requires SameShape(t, u) && SameShape(u, v)
    ensures SameShape(t, v)
  {
    forall k | 0 <= k < |t|
      ensures Kept(t[k], v[k])
    {
      assert Kept(t[k], u[k]) && Kept(u[k], v[k]);
    }
  }

  // ---- What linking computes ----

  /** Linking changes only textures, so a name finds the same resource before and after. */
  lemma KeptFind(rs: seq<Resource>, us: seq<Resource>, name: CString, i: nat)
    requires Kept(rs, us) && i <= |rs|
    ensures FindResource(rs, name, i) == FindResource(us, name, i)
  {
    forall j | 0 <= j < |rs|
      ensures rs[j].name == us[j].name
    {
      assert Skeleton(rs[j]) == Skeleton(us[j]);
    }
    var a, b := FindResource(rs, name, i), FindResource(us, name, i);
    if a.Some? {
      assert b.Some? && b.value == a.value;
    }
  }

  /** ... and a global dependency fits before exactly when it fits after. */
  lemma KeptGlobalFits(rs: seq<Resource>, us: seq<Resource>, g: GlobalDependency, color: Resource, depth: Resource)
    requires Kept(rs, us)
    ensures GlobalFits(rs, g, color, depth) == GlobalFits(us, g, color, depth)
  {
    KeptFind(rs, us, g.dest, 0);
    var found := FindResource(rs, g.dest, 0);
    if found.Some? {
      assert Skeleton(rs[found.value]) == Skeleton(us[found.value]);
    }
  }

  /** The destinations of a list of global dependencies. */
  function GlobalDests(gs: seq<GlobalDependency>): (r: seq<CString>)
    ensures |r| == |gs| && forall j :: 0 <= j < |gs| ==> r[j] == gs[j].dest
  {
    seq(|gs|, j requires 0 <= j < |gs| => gs[j].dest)
  }

  /** The last of the destinations from the i-th on that names resource e. */
  function LastTo(rs: seq<Resource>, dests: seq<CString>, i: nat, e: nat): (r: Option<nat>)
    requires i <= |dests|
    decreases |dests| - i
    ensures r.Some? ==> i <= r.value < |dests| && FindResource(rs, dests[r.value], 0) == Some(e)
    ensures r.Some? ==> forall j :: r.value < j < |dests| ==> FindResource(rs, dests[j], 0) != Some(e)
    ensures r.None? <==> forall j :: i <= j < |dests| ==> FindResource(rs, dests[j], 0) != Some(e)
  {
    if i == |dests| then None
    else
      var later := LastTo(rs, dests, i + 1, e);
      if later.Some? then later
      else if FindResource(rs, dests[i], 0) == Some(e) then Some(i)
      else None
  }

  lemma {:induction false} KeptLastTo(rs: seq<Resource>, us: seq<Resource>, dests: seq<CString>, i: nat, e: nat)
    requires Kept(rs, us) && i <= |dests|
    ensures LastTo(rs, dests, i, e) == LastTo(us, dests, i, e)
    decreases |dests| - i
  {
    if i < |dests| {
      KeptFind(rs, us, dests[i], 0);
      KeptLastTo(rs, us, dests, i + 1, e);
    }
  }

  /** The textures resource e of pass k holds after the global dependencies
      from the i-th on: the buffer's of the last one whose destination it is,
      and its own when none is. */
  function GlobalTextures(rs: seq<Resource>, gs: seq<GlobalDependency>, i: nat, e: nat, color: Resource, depth: Resource): seq<nat>
    requires i <= |gs| && e < |rs|
  {
    var last := LastTo(rs, GlobalDests(gs), i, e);
    if last.None? then rs[e].textures else GlobalSource(gs[last.value], color, depth).textures
  }

  /** Some global dependency from the i-th on reads a colour buffer. */
  predicate ReadsColor(gs: seq<GlobalDependency>, i: nat, color: Resource, depth: Resource)
  {
    exists j :: i <= j < |gs| && GlobalSource(gs[j], color, depth).kind == Color
  }

  /** The global dependencies of a pass link exactly when each of them fits
      the pass's resources as they were before linking. */
  /** Every global dependency from the i-th on fits. */
  predicate GlobalsFit(rs: seq<Resource>, gs: seq<GlobalDependency>, i: nat, color: Resource, depth: Resource)
  {
    forall j :: i <= j < |gs| ==> GlobalFits(rs, gs[j], color, depth)
  }

  lemma GlobalsFitStep(rs: seq<Resource>, gs: seq<GlobalDependency>, i: nat, color: Resource, depth: Resource)
    requires i < |gs|
    ensures GlobalsFit(rs, gs, i, color, depth) == (GlobalFits(rs, gs[i], color, depth) && GlobalsFit(rs, gs, i + 1, color, depth))
  {
  }

  lemma KeptGlobalsFit(rs: seq<Resource>, us: seq<Resource>, gs: seq<GlobalDependency>, i: nat, color: Resource, depth: Resource)
    requires Kept(rs, us)
    ensures GlobalsFit(rs, gs, i, color, depth) == GlobalsFit(us, gs, i, color, depth)
  {
    forall j | i <= j < |gs|
      ensures GlobalFits(rs, gs[j], color, depth) == GlobalFits(us, gs[j], color, depth)
    {
      KeptGlobalFits(rs, us, gs[j], color, depth);
    }
  }

  lemma {:induction false} LinkGlobalsDone(t: seq<seq<Resource>>, k: nat, gs: seq<GlobalDependency>, i: nat, linked: bool,
                                           color: Resource, depth: Resource)
    requires k < |t| && i <= |gs|
    ensures LinkGlobals(t, k, gs, i, linked, color, depth).Done? <==> GlobalsFit(t[k], gs, i, color, depth)
    decreases |gs| - i
  {
    if i < |gs| {
      GlobalsFitStep(t[k], gs, i, color, depth);
      var step := LinkGlobal(t, k, gs[i], color, depth);
      if step.Done? {
        var (u, colored) := step.value;
        assert LinkGlobals(t, k, gs, i, linked, color, depth) == LinkGlobals(u, k, gs, i + 1, linked || colored, color, depth);
        LinkGlobalsDone(u, k, gs, i + 1, linked || colored, color, depth);
        KeptGlobalsFit(t[k], u[k], gs, i + 1, color, depth);
      }
    }
  }

  /** Once they link, the flag says whether it was already raised or some
      dependency reads a colour buffer. */
  lemma {:induction false} LinkGlobalsFlag(t: seq<seq<Resource>>, k: nat, gs: seq<GlobalDependency>, i: nat, linked: bool,
                                           color: Resource, depth: Resource)
    requires k < |t| && i <= |gs| && LinkGlobals(t, k, gs, i, linked, color, depth).Done?
    ensures LinkGlobals(t, k, gs, i, linked, color, depth).value.1 == (linked || ReadsColor(gs, i, color, depth))
    decreases |gs| - i
  {
    if i < |gs| {
      var (u, colored) := LinkGlobal(t, k, gs[i], color, depth).value;
      assert LinkGlobals(t, k, gs, i, linked, color, depth) == LinkGlobals(u, k, gs, i + 1, linked || colored, color, depth);
      LinkGlobalsFlag(u, k, gs, i + 1, linked || colored, color, depth);
      ReadsColorStep(gs, i, color, depth);
    }
  }

  lemma ReadsColorStep(gs: seq<GlobalDependency>, i: nat, color: Resource, depth: Resource)
    requires i < |gs|
    ensures ReadsColor(gs, i, color, depth) <==> GlobalSource(gs[i], color, depth).kind == Color || ReadsColor(gs, i + 1, color, depth)
  {
    if ReadsColor(gs, i, color, depth) {
      var j :| i <= j < |gs| && GlobalSource(gs[j], color, depth).kind == Color;
      assert j == i || i + 1 <= j;
    }
  }

  /** Linking a pass's global dependencies changes only that pass, and leaves
      each of its resources the textures GlobalTextures names. */
  lemma {:induction false} LinkGlobalsTextures(t: seq<seq<Resource>>, k: nat, gs: seq<GlobalDependency>, i: nat, linked: bool,
                                               color: Resource, depth: Resource)
    requires k < |t| && i <= |gs| && LinkGlobals(t, k, gs, i, linked, color, depth).Done?
    ensures var u := LinkGlobals(t, k, gs, i, linked, color, depth).value.0;
            && (forall p :: 0 <= p < |t| && p != k ==> u[p] == t[p])
            && (forall e :: 0 <= e < |t[k]| ==> u[k][e].textures == GlobalTextures(t[k], gs, i, e, color, depth))
    decreases |gs| - i
  {
    if i < |gs| {
      var (u, colored) := LinkGlobal(t, k, gs[i], color, depth).value;
      var d := FindResource(t[k], gs[i].dest, 0).value;
      assert LinkGlobals(t, k, gs, i, linked, color, depth) == LinkGlobals(u, k, gs, i + 1, linked || colored, color, depth);
      LinkGlobalsTextures(u, k, gs, i + 1, linked || colored, color, depth);
      forall e | 0 <= e < |t[k]|
        ensures LinkGlobals(u, k, gs, i + 1, linked || colored, color, depth).value.0[k][e].textures == GlobalTextures(t[k], gs, i, e, color, depth)
      {
        KeptLastTo(t[k], u[k], GlobalDests(gs), i + 1, e);
      }
    }
  }

  /** Linking changes only textures, so a name finds a resource of the same
      origin and type before and after. */
  lemma KeptLookup(rs: seq<Resource>, us: seq<Resource>, name: CString)
    requires Kept(rs, us)
    ensures HasResource(rs, name) == HasResource(us, name)
    ensures FindResource(rs, name, 0) == FindResource(us, name, 0)
    ensures FindResource(rs, name, 0).Some? ==>
              var d := FindResource(rs, name, 0).value;
              rs[d].origin == us[d].origin && rs[d].kind == us[d].kind
  {
    KeptFind(rs, us, name, 0);
    var found := FindResource(rs, name, 0);
    if found.Some? {
      assert Skeleton(rs[found.value]) == Skeleton(us[found.value]);
    }
  }

  /** A pass dependency fits before linking exactly when it fits after. */
  lemma ShapeKeepsDependencyFits(t: seq<seq<Resource>>, u: seq<seq<Resource>>, k: nat, dep: PassDependency,
                                 unbaked: map<CString, nat>, graph: map<CString, nat>)
    requires SameShape(t, u) && k < |t| && Locates(unbaked, |t|)
    ensures DependencyFits(t, k, dep, unbaked, graph) == DependencyFits(u, k, dep, unbaked, graph)
  {
    assert Kept(t[k], u[k]);
    KeptLookup(t[k], u[k], dep.dest);
    ShapeKeepsSourceRegistered(t, u, dep, unbaked);
    ShapeKeepsSourceKind(t, u, dep, graph);
  }

  lemma ShapeKeepsSourceRegistered(t: seq<seq<Resource>>, u: seq<seq<Resource>>, dep: PassDependency, unbaked: map<CString, nat>)
    requires SameShape(t, u) && Locates(unbaked, |t|)
    ensures SourceRegistered(t, dep, unbaked) == SourceRegistered(u, dep, unbaked)
  {
    if dep.sourcePass in unbaked {
      var s := unbaked[dep.sourcePass];
      assert Kept(t[s], u[s]);
      KeptLookup(t[s], u[s], dep.sourceResource);
    }
  }

  lemma ShapeKeepsSourceKind(t: seq<seq<Resource>>, u: seq<seq<Resource>>, dep: PassDependency, graph: map<CString, nat>)
    requires SameShape(t, u)
    ensures DependencySource(t, dep, graph).Some? == DependencySource(u, dep, graph).Some?
    ensures DependencySource(t, dep, graph).Some? ==> DependencySource(t, dep, graph).value.kind == DependencySource(u, dep, graph).value.kind
  {
    if dep.sourcePass in graph && graph[dep.sourcePass] < |t| {
      var s := graph[dep.sourcePass];
      assert Kept(t[s], u[s]);
      KeptLookup(t[s], u[s], dep.sourceResource);
    }
  }

  /** Every pass dependency from the i-th on fits. */
  predicate DependenciesFit(t: seq<seq<Resource>>, k: nat, deps: seq<PassDependency>, i: nat,
                            unbaked: map<CString, nat>, graph: map<CString, nat>)
    requires k < |t| && Locates(unbaked, |t|)
  {
    forall j :: i <= j < |deps| ==> DependencyFits(t, k, deps[j], unbaked, graph)
  }

  lemma DependenciesFitStep(t: seq<seq<Resource>>, k: nat, deps: seq<PassDependency>, i: nat,
                            unbaked: map<CString, nat>, graph: map<CString, nat>)
    requires k < |t| && Locates(unbaked, |t|) && i < |deps|
    ensures DependenciesFit(t, k, deps, i, unbaked, graph)
         == (DependencyFits(t, k, deps[i], unbaked, graph) && DependenciesFit(t, k, deps, i + 1, unbaked, graph))
  {
  }

  lemma ShapeKeepsDependenciesFit(t: seq<seq<Resource>>, u: seq<seq<Resource>>, k: nat, deps: seq<PassDependency>, i: nat,
                                  unbaked: map<CString, nat>, graph: map<CString, nat>)
    requires SameShape(t, u) && k < |t| && Locates(unbaked, |t|)
    ensures DependenciesFit(t, k, deps, i, unbaked, graph) == DependenciesFit(u, k, deps, i, unbaked, graph)
  {
    forall j | i <= j < |deps|
      ensures DependencyFits(t, k, deps[j], unbaked, graph) == DependencyFits(u, k, deps[j], unbaked, graph)
    {
      ShapeKeepsDependencyFits(t, u, k, deps[j], unbaked, graph);
    }
  }

  /** The destinations of a list of pass dependencies. */
  function DependencyDests(deps: seq<PassDependency>): (r: seq<CString>)
    ensures |r| == |deps| && forall j :: 0 <= j < |deps| ==> r[j] == deps[j].dest
  {
    seq(|deps|, j requires 0 <= j < |deps| => deps[j].dest)
  }

  /** The pass dependencies of a pass link exactly when each of them fits the
      resources as they were before linking. */
  lemma {:induction false} LinkDependenciesDone(t: seq<seq<Resource>>, k: nat, deps: seq<PassDependency>, i: nat,
                                                unbaked: map<CString, nat>, graph: map<CString, nat>)
    requires k < |t| && i <= |deps| && Locates(unbaked, |t|)
    ensures LinkDependencies(t, k, deps, i, unbaked, graph).Done? <==> DependenciesFit(t, k, deps, i, unbaked, graph)
    decreases |deps| - i
  {
    if i < |deps| {
      DependenciesFitStep(t, k, deps, i, unbaked, graph);
      var step := LinkDependency(t, k, deps[i], unbaked, graph);
      if step.Done? {
        var u := step.value;
        assert LinkDependencies(t, k, deps, i, unbaked, graph) == LinkDependencies(u, k, deps, i + 1, unbaked, graph);
        LinkDependenciesDone(u, k, deps, i + 1, unbaked, graph);
        ShapeKeepsDependenciesFit(t, u, k, deps, i + 1, unbaked, graph);
      }
    }
  }

  /** Linking a pass's dependencies changes no other pass. */
  lemma {:induction false} LinkDependenciesFrame(t: seq<seq<Resource>>, k: nat, deps: seq<PassDependency>, i: nat,
                                                 unbaked: map<CString, nat>, graph: map<CString, nat>)
    requires k < |t| && i <= |deps| && Locates(unbaked, |t|) && LinkDependencies(t, k, deps, i, unbaked, graph).Done?
    ensures var u := LinkDependencies(t, k, deps, i, unbaked, graph).value;
            forall p :: 0 <= p < |t| && p != k ==> u[p] == t[p]
    decreases |deps| - i
  {
    if i < |deps| {
      var u := LinkDependency(t, k, deps[i], unbaked, graph).value;
      assert LinkDependencies(t, k, deps, i, unbaked, graph) == LinkDependencies(u, k, deps, i + 1, unbaked, graph);
      LinkDependenciesFrame(u, k, deps, i + 1, unbaked, graph);
    }
  }

  /** The textures a pass dependency of pass k hands over when its source
      lies in another pass: those of the source resource. */
  function OtherPassTextures(t: seq<seq<Resource>>, k: nat, dep: PassDependency, graph: map<CString, nat>): Option<seq<nat>>
  {
    if dep.sourcePass in graph && graph[dep.sourcePass] != k && DependencySource(t, dep, graph).Some?
    then Some(DependencySource(t, dep, graph).value.textures)
    else None
  }

  /** ... which a change confined to pass k leaves alone. */
  lemma OtherPassTexturesKept(t: seq<seq<Resource>>, u: seq<seq<Resource>>, k: nat, dep: PassDependency, graph: map<CString, nat>)
    requires |t| == |u| && forall p :: 0 <= p < |t| && p != k ==> u[p] == t[p]
    ensures OtherPassTextures(t, k, dep, graph) == OtherPassTextures(u, k, dep, graph)
  {
    if dep.sourcePass in graph && graph[dep.sourcePass] < |t| && graph[dep.sourcePass] != k {
      assert u[graph[dep.sourcePass]] == t[graph[dep.sourcePass]];
    }
  }

  /** What resource e of pass k holds after the pass dependencies from the
      i-th on, when `textures` are its textures: its own when no dependency
      names it, and the source resource's when the last one naming it reads
      another pass. */
  predicate DependencyTextures(t: seq<seq<Resource>>, k: nat, deps: seq<PassDependency>, i: nat,
                               graph: map<CString, nat>, e: nat, textures: seq<nat>)
    requires k < |t| && i <= |deps| && e < |t[k]|
  {
    var last := LastTo(t[k], DependencyDests(deps), i, e);
    if last.None? then textures == t[k][e].textures
    else
      var other := OtherPassTextures(t, k, deps[last.value], graph);
      other.Some? ==> textures == other.value
  }

  /** One dependency step keeps what the later dependencies say about resource e. */
  lemma DependencyTexturesStep(t: seq<seq<Resource>>, u: seq<seq<Resource>>, k: nat, deps: seq<PassDependency>, i: nat,
                               graph: map<CString, nat>, d: nat, e: nat, textures: seq<nat>)
    requires k < |t| && i < |deps| && d < |t[k]| && e < |t[k]|
    requires FindResource(t[k], deps[i].dest, 0) == Some(d)
    requires SameShape(t, u) && (forall p :: 0 <= p < |t| && p != k ==> u[p] == t[p])
    requires forall f :: 0 <= f < |t[k]| && f != d ==> u[k][f] == t[k][f]
    requires OtherPassTextures(t, k, deps[i], graph).Some? ==> u[k][d].textures == OtherPassTextures(t, k, deps[i], graph).value
    requires DependencyTextures(u, k, deps, i + 1, graph, e, textures)
    ensures DependencyTextures(t, k, deps, i, graph, e, textures)
  {
    var dests := DependencyDests(deps);
    assert Kept(t[k], u[k]);
    KeptLastTo(t[k], u[k], dests, i + 1, e);
    var later := LastTo(t[k], dests, i + 1, e);
    var last := LastTo(t[k], dests, i, e);
    if later.Some? {
      assert last == later;
      OtherPassTexturesKept(t, u, k, deps[later.value], graph);
    } else if e != d {
      assert last.None?;
      assert u[k][e] == t[k][e];
    } else {
      assert last == Some(i);
    }
  }

  /** One step of LinkDependencies that links. */
  lemma LinkDependenciesUnfold(t: seq<seq<Resource>>, k: nat, deps: seq<PassDependency>, i: nat,
                               unbaked: map<CString, nat>, graph: map<CString, nat>)
    requires k < |t| && i < |deps| && Locates(unbaked, |t|) && LinkDependencies(t, k, deps, i, unbaked, graph).Done?
    ensures LinkDependency(t, k, deps[i], unbaked, graph).Done?
    ensures LinkDependencies(t, k, deps, i, unbaked, graph)
         == LinkDependencies(LinkDependency(t, k, deps[i], unbaked, graph).value, k, deps, i + 1, unbaked, graph)
  {
  }

  /** Linking a pass's dependencies sets each of its resources' textures as
      DependencyTextures says. */
  lemma {:induction false} LinkDependenciesTextures(t: seq<seq<Resource>>, k: nat, deps: seq<PassDependency>, i: nat,
                                                    unbaked: map<CString, nat>, graph: map<CString, nat>)
    requires k < |t| && i <= |deps| && Locates(unbaked, |t|) && LinkDependencies(t, k, deps, i, unbaked, graph).Done?
    ensures var u := LinkDependencies(t, k, deps, i, unbaked, graph).value;
            forall e :: 0 <= e < |t[k]| ==> DependencyTextures(t, k, deps, i, graph, e, u[k][e].textures)
    decreases |deps| - i
  {
    if i < |deps| {
      LinkDependenciesUnfold(t, k, deps, i, unbaked, graph);
      var u := LinkDependency(t, k, deps[i], unbaked, graph).value;
      var d := FindResource(t[k], deps[i].dest, 0).value;
      var r: seq<seq<Resource>> := LinkDependencies(u, k, deps, i + 1, unbaked, graph).value;
      LinkDependenciesTextures(u, k, deps, i + 1, unbaked, graph);
      forall e | 0 <= e < |t[k]|
        ensures DependencyTextures(t, k, deps, i, graph, e, r[k][e].textures)
      {
        DependencyTexturesStep(t, u, k, deps, i, graph, d, e, r[k][e].textures);
      }
    }
  }

  /** The checks every dependency of pass k makes. */
  predicate PassFits(t: seq<seq<Resource>>, k: nat, up: UnbakedPass, unbaked: map<CString, nat>, graph: map<CString, nat>,
                     color: Resource, depth: Resource)
    requires k < |t| && Locates(unbaked, |t|)
  {
    GlobalsFit(t[k], up.globals, 0, color, depth) && DependenciesFit(t, k, up.dependencies, 0, unbaked, graph)
  }

  lemma ShapeKeepsPassFits(t: seq<seq<Resource>>, u: seq<seq<Resource>>, k: nat, up: UnbakedPass,
                           unbaked: map<CString, nat>, graph: map<CString, nat>, color: Resource, depth: Resource)
    requires SameShape(t, u) && k < |t| && Locates(unbaked, |t|)
    ensures PassFits(t, k, up, unbaked, graph, color, depth) == PassFits(u, k, up, unbaked, graph, color, depth)
  {
    assert Kept(t[k], u[k]);
    KeptGlobalsFit(t[k], u[k], up.globals, 0, color, depth);
    ShapeKeepsDependenciesFit(t, u, k, up.dependencies, 0, unbaked, graph);
  }

  /** A pass links exactly when all its dependencies fit the resources as
      they were before the pass. */
  lemma LinkPassDone(t: seq<seq<Resource>>, k: nat, up: UnbakedPass, linked: bool,
                     unbaked: map<CString, nat>, graph: map<CString, nat>, color: Resource, depth: Resource)
    requires k < |t| && Locates(unbaked, |t|)
    ensures LinkPass(t, k, up, linked, unbaked, graph, color, depth).Done? <==> PassFits(t, k, up, unbaked, graph, color, depth)
  {
    var globals := LinkGlobals(t, k, up.globals, 0, linked, color, depth);
    LinkGlobalsDone(t, k, up.globals, 0, linked, color, depth);
    if globals.Done? {
      var u := globals.value.0;
      LinkDependenciesDone(u, k, up.dependencies, 0, unbaked, graph);
      ShapeKeepsDependenciesFit(t, u, k, up.dependencies, 0, unbaked, graph);
    }
  }

  /** A linked pass raises the flag exactly when it was already raised or one
      of its global dependencies reads a colour buffer, and changes no other pass. */
  lemma LinkPassEffect(t: seq<seq<Resource>>, k: nat, up: UnbakedPass, linked: bool,
                       unbaked: map<CString, nat>, graph: map<CString, nat>, color: Resource, depth: Resource)
    requires k < |t| && Locates(unbaked, |t|) && LinkPass(t, k, up, linked, unbaked, graph, color, depth).Done?
    ensures var r := LinkPass(t, k, up, linked, unbaked, graph, color, depth).value;
            && r.1 == (linked || ReadsColor(up.globals, 0, color, depth))
            && forall p :: 0 <= p < |t| && p != k ==> r.0[p] == t[p]
  {
    var globals := LinkGlobals(t, k, up.globals, 0, linked, color, depth);
    assert globals.Done?;
    var u := globals.value.0;
    LinkGlobalsFlag(t, k, up.globals, 0, linked, color, depth);
    LinkGlobalsTextures(t, k, up.globals, 0, linked, color, depth);
    LinkDependenciesFrame(u, k, up.dependencies, 0, unbaked, graph);
  }

  /** Some pass from the k-th on has a global dependency reading a colour buffer. */
  predicate AnyReadsColor(ups: seq<UnbakedPass>, k: nat, color: Resource, depth: Resource)
  {
    exists q :: k <= q < |ups| && ReadsColor(ups[q].globals, 0, color, depth)
  }

  /** Every pass from the k-th on fits. */
  predicate PassesFit(t: seq<seq<Resource>>, ups: seq<UnbakedPass>, k: nat,
                      unbaked: map<CString, nat>, graph: map<CString, nat>, color: Resource, depth: Resource)
    requires |t| == |ups| && Locates(unbaked, |t|)
  {
    forall q :: k <= q < |ups| ==> PassFits(t, q, ups[q], unbaked, graph, color, depth)
  }

  lemma PassesFitStep(t: seq<seq<Resource>>, ups: seq<UnbakedPass>, k: nat,
                      unbaked: map<CString, nat>, graph: map<CString, nat>, color: Resource, depth: Resource)
    requires |t| == |ups| && k < |ups| && Locates(unbaked, |t|)
    ensures PassesFit(t, ups, k, unbaked, graph, color, depth)
         == (PassFits(t, k, ups[k], unbaked, graph, color, depth) && PassesFit(t, ups, k + 1, unbaked, graph, color, depth))
  {
  }

  lemma ShapeKeepsPassesFit(t: seq<seq<Resource>>, u: seq<seq<Resource>>, ups: seq<UnbakedPass>, k: nat,
                            unbaked: map<CString, nat>, graph: map<CString, nat>, color: Resource, depth: Resource)
    requires SameShape(t, u) && |t| == |ups| && Locates(unbaked, |t|)
    ensures PassesFit(t, ups, k, unbaked, graph, color, depth) == PassesFit(u, ups, k, unbaked, graph, color, depth)
  {
    forall q | k <= q < |ups|
      ensures PassFits(t, q, ups[q], unbaked, graph, color, depth) == PassFits(u, q, ups[q], unbaked, graph, color, depth)
    {
      ShapeKeepsPassFits(t, u, q, ups[q], unbaked, graph, color, depth);
    }
  }

  /** One step of LinkPasses that links. */
  lemma LinkPassesUnfold(t: seq<seq<Resource>>, ups: seq<UnbakedPass>, k: nat, linked: bool,
                         unbaked: map<CString, nat>, graph: map<CString, nat>, color: Resource, depth: Resource)
    requires |t| == |ups| && k < |ups| && Locates(unbaked, |t|)
    requires LinkPass(t, k, ups[k], linked, unbaked, graph, color, depth).Done?
    ensures var (u, now) := LinkPass(t, k, ups[k], linked, unbaked, graph, color, depth).value;
            LinkPasses(t, ups, k, linked, unbaked, graph, color, depth) == LinkPasses(u, ups, k + 1, now, unbaked, graph, color, depth)
  {
  }

  /** The passes link only when the first of them links. */
  lemma LinkPassesLinksFirst(t: seq<seq<Resource>>, ups: seq<UnbakedPass>, k: nat, linked: bool,
                             unbaked: map<CString, nat>, graph: map<CString, nat>, color: Resource, depth: Resource)
    requires |t| == |ups| && k < |ups| && Locates(unbaked, |t|)
    requires LinkPasses(t, ups, k, linked, unbaked, graph, color, depth).Done?
    ensures LinkPass(t, k, ups[k], linked, unbaked, graph, color, depth).Done?
  {
  }

  /** The passes from the k-th on link exactly when every one of their
      dependencies fits the resources as they were before linking. */
  lemma {:induction false} LinkPassesDone(t: seq<seq<Resource>>, ups: seq<UnbakedPass>, k: nat, linked: bool,
                                          unbaked: map<CString, nat>, graph: map<CString, nat>,
                                          color: Resource, depth: Resource)
    requires |t| == |ups| && k <= |ups| && Locates(unbaked, |t|)
    ensures LinkPasses(t, ups, k, linked, unbaked, graph, color, depth).Done? <==> PassesFit(t, ups, k, unbaked, graph, color, depth)
    decreases |ups| - k
  {
    if k < |ups| {
      PassesFitStep(t, ups, k, unbaked, graph, color, depth);
      LinkPassDone(t, k, ups[k], linked, unbaked, graph, color, depth);
      var step := LinkPass(t, k, ups[k], linked, unbaked, graph, color, depth);
      if step.Done? {
        var (u, now) := step.value;
        LinkPassesUnfold(t, ups, k, linked, unbaked, graph, color, depth);
        LinkPassesDone(u, ups, k + 1, now, unbaked, graph, color, depth);
        ShapeKeepsPassesFit(t, u, ups, k + 1, unbaked, graph, color, depth);
      }
    }
  }

  /** Once they link, the flag says whether it was already raised or some
      pass from the k-th on reads a colour buffer. */
  lemma {:induction false} LinkPassesFlag(t: seq<seq<Resource>>, ups: seq<UnbakedPass>, k: nat, linked: bool,
                                          unbaked: map<CString, nat>, graph: map<CString, nat>,
                                          color: Resource, depth: Resource)
    requires |t| == |ups| && k <= |ups| && Locates(unbaked, |t|)
    requires LinkPasses(t, ups, k, linked, unbaked, graph, color, depth).Done?
    ensures LinkPasses(t, ups, k, linked, unbaked, graph, color, depth).value.1 == (linked || AnyReadsColor(ups, k, color, depth))
    decreases |ups| - k
  {
    if k < |ups| {
      LinkPassesLinksFirst(t, ups, k, linked, unbaked, graph, color, depth);
      LinkPassesUnfold(t, ups, k, linked, unbaked, graph, color, depth);
      LinkPassEffect(t, k, ups[k], linked, unbaked, graph, color, depth);
      var step := LinkPass(t, k, ups[k], linked, unbaked, graph, color, depth).value;
      LinkPassesFlag(step.0, ups, k + 1, step.1, unbaked, graph, color, depth);
      AnyReadsColorStep(ups, k, color, depth);
    }
  }

  /** Linking the passes from the k-th on leaves the earlier ones alone. */
  lemma {:induction false} LinkPassesFrame(t: seq<seq<Resource>>, ups: seq<UnbakedPass>, k: nat, linked: bool,
                                           unbaked: map<CString, nat>, graph: map<CString, nat>,
                                           color: Resource, depth: Resource)
    requires |t| == |ups| && k <= |ups| && Locates(unbaked, |t|)
    requires LinkPasses(t, ups, k, linked, unbaked, graph, color, depth).Done?
    ensures LinkPasses(t, ups, k, linked, unbaked, graph, color, depth).value.0[..k] == t[..k]
    decreases |ups| - k
  {
    if k < |ups| {
      LinkPassesLinksFirst(t, ups, k, linked, unbaked, graph, color, depth);
      LinkPassesUnfold(t, ups, k, linked, unbaked, graph, color, depth);
      LinkPassEffect(t, k, ups[k], linked, unbaked, graph, color, depth);
      var step := LinkPass(t, k, ups[k], linked, unbaked, graph, color, depth).value;
      LinkPassesFrame(step.0, ups, k + 1, step.1, unbaked, graph, color, depth);
      var r := LinkPasses(step.0, ups, k + 1, step.1, unbaked, graph, color, depth).value.0;
      assert step.0[..k] == t[..k];
      assert r[..k] == r[..k + 1][..k];
    }
  }

  lemma AnyReadsColorStep(ups: seq<UnbakedPass>, k: nat, color: Resource, depth: Resource)
    requires k < |ups|
    ensures AnyReadsColor(ups, k, color, depth) <==> ReadsColor(ups[k].globals, 0, color, depth) || AnyReadsColor(ups, k + 1, color, depth)
  {
    if AnyReadsColor(ups, k, color, depth) {
      var q :| k <= q < |ups| && ReadsColor(ups[q].globals, 0, color, depth);
      assert q == k || k + 1 <= q;
    }
  }

  /** initialize succeeds only when every pass's resources were generated,
      every dependency of every pass fits, and some pass has a global
      dependency that reads a colour buffer: otherwise no pass is linked to
      the global colour buffer and it refuses. */
  lemma BakeNeedsColorLink(renderer: Option<Renderer>, ups: seq<UnbakedPass>, unbaked: map<CString, nat>,
                           graph: map<CString, nat>, depth: Resource, baked: seq<BakedPass>)
    requires Locates(unbaked, |ups|)
    ensures Bake(renderer, ups, unbaked, graph, depth, baked).status == Succeeded ==>
              && renderer.Some? && Generate(ups, 0, []).Done?
              && PassesFit(Generate(ups, 0, []).value, ups, 0, unbaked, graph, ColorBuffer(renderer.value), depth)
              && AnyReadsColor(ups, 0, ColorBuffer(renderer.value), depth)
  {
    if renderer.Some? && ups != [] {
      var generated := Generate(ups, 0, []);
      if generated.Done? {
        var color := ColorBuffer(renderer.value);
        LinkPassesDone(generated.value, ups, 0, false, unbaked, graph, color, depth);
        if LinkPasses(generated.value, ups, 0, false, unbaked, graph, color, depth).Done? {
          LinkPassesFlag(generated.value, ups, 0, false, unbaked, graph, color, depth);
        }
      }
    }
  }

  // ---- The present pass ----

  /** A pass presents when it owns a Global-origin colour resource. */
  predicate Presents(rs: seq<Resource>)
  {
    exists d :: 0 <= d < |rs| && rs[d].origin == Global && rs[d].kind == Color
  }

  /** The last of the first k passes that presents. */
  function LastPresenting(t: seq<seq<Resource>>, k: nat): (r: Option<nat>)
    requires k <= |t|
    ensures r.Some? ==> r.value < k && Presents(t[r.value])
    ensures r.Some? ==> forall j :: r.value < j < k ==> !Presents(t[j])
    ensures r.None? <==> forall j :: 0 <= j < k ==> !Presents(t[j])
  {
    if k == 0 then None
    else if Presents(t[k - 1]) then Some(k - 1)
    else LastPresenting(t, k - 1)
  }

  // ---- Renderpass configurations ----

  /** RenderpassConfig::clear_flag: ClearColor, ClearDepth and ClearStencil
      are the bits 1, 2 and 4. */
  function ClearFlag(up: UnbakedPass): (f: nat)
    ensures f < 8
    ensures f > 0 <==> up.clearColor || up.clearDepth || up.clearStencil
  {
    (if up.clearColor then 1 else 0) + (if up.clearDepth then 2 else 0) + (if up.clearStencil then 4 else 0)
  }

  /** The load operation of every attachment of a pass. */
  function LoadOpOf(up: UnbakedPass): (op: LoadOp)
    ensures op == Clear <==> up.clearColor || up.clearDepth || up.clearStencil
    ensures op == Load <==> !(up.clearColor || up.clearDepth || up.clearStencil) && up.loadLastPass
  {
    if ClearFlag(up) > 0 then Clear else if up.loadLastPass then Load else DontCare
  }

  /** The attachments of the resources from the i-th on, appended to `acc`:
      one per resource, of its type, with the pass's load operation, always
      stored, taking its textures and the format of the first; a resource
      without textures reads past the end of its texture list. */
  function Attachments(rs: seq<Resource>, op: LoadOp, i: nat, acc: seq<Attachment>): (r: Outcome<seq<Attachment>>)
    requires i <= |rs| && |acc| == i
    decreases |rs| - i
    ensures r.Done? || r.Faulted?
    ensures r.Done? <==> forall d :: i <= d < |rs| ==> rs[d].textures != []
    ensures r.Done? ==> |r.value| == |rs| && r.value[..i] == acc
    ensures r.Done? ==> forall d :: i <= d < |rs| ==>
              && r.value[d].kind == rs[d].kind && r.value[d].load == op && r.value[d].store == Store
              && r.value[d].textures == rs[d].textures && r.value[d].format == rs[d].textures[0]
  {
    if i == |rs| then Done(acc)
    else if rs[i].textures == [] then Faulted
    else
      var r := Attachments(rs, op, i + 1, acc + [Attachment(rs[i].kind, op, Store, rs[i].textures[0], rs[i].textures)]);
      assert r.Done? ==> r.value[..i] == r.value[..i + 1][..i];
      r
  }

  /** The configuration of a pass's renderpass; only the present pass is
      presented after. */
  function ConfigOf(up: UnbakedPass, rs: seq<Resource>, present: nat): (r: Outcome<RenderpassConfig>)
    ensures r.Done? || r.Faulted?
    ensures r.Done? ==> (r.value.presentAfter <==> up.pass.id == present)
    ensures r.Done? ==> r.value.clearFlag == ClearFlag(up) && |r.value.attachments| == |rs|
  {
    var attachments :- Attachments(rs, LoadOpOf(up), 0, []);
    Done(RenderpassConfig(ClearFlag(up), up.pass.id == present, attachments))
  }

  /** Create the renderpasses from the i-th pass on, appending each baked
      pass to `built`; stops at a renderpass that refuses its configuration. */
  function Build(t: seq<seq<Resource>>, ups: seq<UnbakedPass>, present: nat, i: nat, built: seq<BakedPass>): (r: (Status, seq<BakedPass>))
    requires |t| == |ups| && i <= |ups|
    decreases |ups| - i
    ensures r.0 != Throws
    ensures |built| <= |r.1| <= |built| + |ups| - i && r.1[..|built|] == built
    ensures r.0 == Succeeded ==> |r.1| == |built| + |ups| - i
  {
    if i == |ups| then (Succeeded, built)
    else
      var config := ConfigOf(ups[i], t[i], present);
      if config.Faulted? then (Undefined, built)
      else if !ups[i].pass.renderpassCreates then (Refused, built)
      else
        var next := built + [BakedPass(ups[i].pass.(resources := t[i]), config.value)];
        var r := Build(t, ups, present, i + 1, next);
        assert r.1[..|built|] == r.1[..|next|][..|built|];
        r
  }

  /** Whether every pass of the graph initialises, in order. */
  function InitializeAll(passes: seq<BakedPass>, i: nat): (ok: bool)
    requires i <= |passes|
    decreases |passes| - i
    ensures ok <==> forall j :: i <= j < |passes| ==> passes[j].pass.initializes
  {
    i == |passes| || (passes[i].pass.initializes && InitializeAll(passes, i + 1))
  }

  /** What initialize ends with: how it ends, the passes it appended to the
      graph, and whether it copied the unbaked name map. */
  datatype Baking = Baking(status: Status, pushed: seq<BakedPass>, copied: bool)

  /** Rendergraph::initialize(renderer, unbaked) on a graph whose name map is
      `graph`, whose depth slot holds `depth` and which already holds the
      passes `baked`. */
  function Bake(renderer: Option<Renderer>, ups: seq<UnbakedPass>, unbaked: map<CString, nat>,
                graph: map<CString, nat>, depth: Resource, baked: seq<BakedPass>): (b: Baking)
    requires Locates(unbaked, |ups|)
    ensures renderer.None? || ups == [] ==> b == Baking(Refused, [], false)
    ensures b.status == Succeeded ==> b.copied && |b.pushed| == |ups|
  {
    if renderer.None? || ups == [] then Baking(Refused, [], false)
    else
      var generated := Generate(ups, 0, []);
      if !generated.Done? then Baking(generated.Status(), [], false)
      else
        var linking := LinkPasses(generated.value, ups, 0, false, unbaked, graph, ColorBuffer(renderer.value), depth);
        if !linking.Done? then Baking(linking.Status(), [], false)
        else if !linking.value.1 then Baking(Refused, [], false)
        else
          Present(linking.value.0, ups, baked)
  }

  /** The rest of initialize once every dependency is linked to the colour
      buffer: find the present pass, create the renderpasses, then
      initialise every pass of the graph. */
  function Present(t: seq<seq<Resource>>, ups: seq<UnbakedPass>, baked: seq<BakedPass>): (b: Baking)
    requires |t| == |ups|
    ensures b.status == Succeeded ==> b.copied && |b.pushed| == |ups|
  {
    var present := LastPresenting(t, |t|);
    if present.None? then Baking(Refused, [], false)
    else
      var (status, pushed) := Build(t, ups, ups[present.value].pass.id, 0, []);
      if status != Succeeded then Baking(status, pushed, false)
      else Baking(if InitializeAll(baked + pushed, 0) then Succeeded else Refused, pushed, true)
  }

  // ---- The loops of initialize ----

  /** Generate every pass's resources, in order. */
  method GenerateResources(ups: seq<UnbakedPass>) returns (r: Outcome<seq<seq<Resource>>>)
    ensures r == Generate(ups, 0, [])
  {
    var t: seq<seq<Resource>> := [];
    var i: nat := 0;
    while i < |ups|
      invariant i <= |ups| && |t| == i
      invariant Generate(ups, i, t) == Generate(ups, 0, [])
    {
      var g := ups[i].pass.generated;
      if g.None? || g.value == [] {
        return Failed;
      }
      t := t + [g.value];
      i := i + 1;
    }
    return Done(t);
  }

  /** Link every pass's dependencies, in order, noting whether any links a
      colour buffer. */
  method LinkResources(t0: seq<seq<Resource>>, ups: seq<UnbakedPass>, unbaked: map<CString, nat>,
                       graph: map<CString, nat>, color: Resource, depth: Resource)
    returns (r: Outcome<(seq<seq<Resource>>, bool)>)
    requires |t0| == |ups| && Locates(unbaked, |t0|)
    ensures r == LinkPasses(t0, ups, 0, false, unbaked, graph, color, depth)
  {
    var t, linked := t0, false;
    var k: nat := 0;
    while k < |ups|
      invariant k <= |ups| && SameShape(t0, t)
      invariant LinkPasses(t, ups, k, linked, unbaked, graph, color, depth)
                == LinkPasses(t0, ups, 0, false, unbaked, graph, color, depth)
    {
      var step := LinkPass(t, k, ups[k], linked, unbaked, graph, color, depth);
      if !step.Done? {
        return step;
      }
      SameShapeTrans(t0, t, step.value.0);
      t, linked := step.value.0, step.value.1;
      k := k + 1;
    }
    return Done((t, linked));
  }

  /** Search the passes from the last for one that presents. */
  method FindPresentPass(t: seq<seq<Resource>>) returns (present: Option<nat>)
    ensures present == LastPresenting(t, |t|)
  {
    var k: nat := |t|;
    while k > 0
      invariant k <= |t| && LastPresenting(t, k) == LastPresenting(t, |t|)
    {
      if Presents(t[k - 1]) {
        return Some(k - 1);
      }
      k := k - 1;
    }
    return None;
  }

  /** The attachments of a pass's resources, one per resource. */
  method BuildAttachments(rs: seq<Resource>, op: LoadOp) returns (r: Outcome<seq<Attachment>>)
    ensures r == Attachments(rs, op, 0, [])
  {
    var acc: seq<Attachment> := [];
    var d: nat := 0;
    while d < |rs|
      invariant d <= |rs| && |acc| == d
      invariant Attachments(rs, op, d, acc) == Attachments(rs, op, 0, [])
    {
      if rs[d].textures == [] {
        return Faulted;
      }
      acc := acc + [Attachment(rs[d].kind, op, Store, rs[d].textures[0], rs[d].textures)];
      d := d + 1;
    }
    return Done(acc);
  }

  /** The configuration of one pass's renderpass. */
  method Configure(up: UnbakedPass, rs: seq<Resource>, present: nat) returns (r: Outcome<RenderpassConfig>)
    ensures r == ConfigOf(up, rs, present)
  {
    var attachments := BuildAttachments(rs, LoadOpOf(up));
    if !attachments.Done? {
      return Faulted;
    }
    return Done(RenderpassConfig(ClearFlag(up), up.pass.id == present, attachments.value));
  }

  class Rendergraph {
    /** m_global_resources[GlobalColorBuffer]. */
    var color: Resource
    /** m_global_resources[GlobalDepthBuffer], which initialize never fills. */
    var depth: Resource
    /** m_passes, each with the configuration of its renderpass. */
    var passes: seq<BakedPass>
    /** m_passes_name_locator. */
    var locator: map<CString, nat>

    /** A new graph; `unset` is whatever its default global resources hold. */
    constructor (unset: Resource)
      ensures color == unset && depth == unset && passes == [] && locator == map[]
    {
      color, depth, passes, locator := unset, unset, [], map[];
    }

    /** has_pass(name). */
    function HasPass(name: CString): (r: bool)
      reads this
      ensures r <==> !GetPass(name).Thrown?
    {
      name in locator
    }

    /** get_pass(name): `.at` throws for an unknown name, and an index the
        name map holds past the passes reads out of bounds. */
    function GetPass(name: CString): (r: Outcome<BakedPass>)
      reads this
      ensures r.Done? || r.Thrown? || r.Faulted?
      ensures r.Thrown? <==> name !in locator
      ensures r.Done? <==> name in locator && locator[name] < |passes|
      ensures r.Done? ==> r.value == passes[locator[name]]
    {
      if name !in locator then Thrown
      else if locator[name] >= |passes| then Faulted
      else Done(passes[locator[name]])
    }

    /** initialize(renderer, unbaked). */
    method Initialize(renderer: Option<Renderer>, unbaked: UnbakedRendergraph) returns (status: Status)
      requires unbaked.Valid()
      modifies this
      ensures var b := Bake(renderer, unbaked.passes, unbaked.locator, old(locator), old(depth), old(passes));
              && status == b.status && passes == old(passes) + b.pushed
              && locator == (if b.copied then unbaked.locator else old(locator))
      ensures color == (if renderer.Some? && unbaked.passes != [] then ColorBuffer(renderer.value) else old(color))
      ensures depth == old(depth)
    {
      var ups := unbaked.passes;
      if renderer.None? || ups == [] {
        return Refused;
      }
      color := ColorBuffer(renderer.value);
      var generated := GenerateResources(ups);
      if !generated.Done? {
        return generated.Status();
      }
      var linking := LinkResources(generated.value, ups, unbaked.locator, locator, color, depth);
      if !linking.Done? {
        return linking.Status();
      }
      if !linking.value.1 {
        return Refused;
      }
      status := Finish(linking.value.0, ups, unbaked.locator);
    }

    /** Find the present pass, create the renderpasses, copy the name map
        and initialise every pass of the graph. */
    method Finish(t: seq<seq<Resource>>, ups: seq<UnbakedPass>, unbaked: map<CString, nat>) returns (status: Status)
      requires |t| == |ups|
      modifies this`passes, this`locator
      ensures var b := Present(t, ups, old(passes));
              && status == b.status && passes == old(passes) + b.pushed
              && locator == (if b.copied then unbaked else old(locator))
    {
      var present := FindPresentPass(t);
      if present.None? {
        return Refused;
      }
      var built := CreateRenderpasses(t, ups, ups[present.value].pass.id);
      if built != Succeeded {
        return built;
      }
      locator := unbaked;
      var j: nat := 0;
      while j < |passes|
        invariant j <= |passes| && InitializeAll(passes, j) == InitializeAll(passes, 0)
      {
        if !passes[j].pass.initializes {
          return Refused;
        }
        j := j + 1;
      }
      return Succeeded;
    }

    /** Create one renderpass per pass, in order, appending each pass to the
        graph; stops at a renderpass that refuses its configuration. */
    method CreateRenderpasses(t: seq<seq<Resource>>, ups: seq<UnbakedPass>, present: nat) returns (status: Status)
      requires |t| == |ups|
      modifies this`passes
      ensures (status, passes) == (Build(t, ups, present, 0, []).0, old(passes) + Build(t, ups, present, 0, []).1)
    {
      var pushed: seq<BakedPass> := [];
      var i: nat := 0;
      while i < |ups|
        invariant i <= |ups| && |pushed| == i
        invariant Build(t, ups, present, i, pushed) == Build(t, ups, present, 0, [])
        invariant passes == old(passes) + pushed
      {
        var config := Configure(ups[i], t[i], present);
        if !config.Done? {
          return Undefined;
        }
        if !ups[i].pass.renderpassCreates {
          return Refused;
        }
        var baked := BakedPass(ups[i].pass.(resources := t[i]), config.value);
        passes := passes + [baked];
        pushed := pushed + [baked];
        i := i + 1;
      }
      return Succeeded;
    }
  }

  // ---- The present pass exists once the colour buffer is linked ----

  /** Some pass presents. */
  predicate AnyPresents(t: seq<seq<Resource>>)
  {
    exists k :: 0 <= k < |t| && Presents(t[k])
  }

  /** Linking keeps every name, type and origin, so it keeps presenting. */
  lemma ShapeKeepsPresenting(t: seq<seq<Resource>>, u: seq<seq<Resource>>)
    requires SameShape(t, u) && AnyPresents(t)
    ensures AnyPresents(u)
  {
    var k :| 0 <= k < |t| && Presents(t[k]);
    var d :| 0 <= d < |t[k]| && t[k][d].origin == Global && t[k][d].kind == Color;
    assert Skeleton(t[k][d]) == Skeleton(u[k][d]);
    assert u[k][d].origin == Global && u[k][d].kind == Color;
  }

  /** A global dependency that links a colour buffer links it into a
      Global-origin colour resource, which then presents. */
  lemma {:induction false} LinkGlobalsPresents(t: seq<seq<Resource>>, k: nat, gs: seq<GlobalDependency>, i: nat, linked: bool,
                                               color: Resource, depth: Resource)
    requires k < |t| && i <= |gs| && (linked ==> AnyPresents(t))
    requires LinkGlobals(t, k, gs, i, linked, color, depth).Done?
    ensures LinkGlobals(t, k, gs, i, linked, color, depth).value.1 ==> AnyPresents(LinkGlobals(t, k, gs, i, linked, color, depth).value.0)
    decreases |gs| - i
  {
    if i < |gs| {
      var step := LinkGlobal(t, k, gs[i], color, depth);
      var (u, colored) := step.value;
      if colored {
        var d := FindResource(t[k], gs[i].dest, 0).value;
        assert Skeleton(t[k][d]) == Skeleton(u[k][d]);
        assert Presents(u[k]);
      } else if linked {
        ShapeKeepsPresenting(t, u);
      }
      LinkGlobalsPresents(u, k, gs, i + 1, linked || colored, color, depth);
    }
  }

  lemma LinkPassPresents(t: seq<seq<Resource>>, k: nat, up: UnbakedPass, linked: bool,
                          unbaked: map<CString, nat>, graph: map<CString, nat>, color: Resource, depth: Resource)
    requires k < |t| && Locates(unbaked, |t|) && (linked ==> AnyPresents(t))
    requires LinkPass(t, k, up, linked, unbaked, graph, color, depth).Done?
    ensures LinkPass(t, k, up, linked, unbaked, graph, color, depth).value.1 ==>
              AnyPresents(LinkPass(t, k, up, linked, unbaked, graph, color, depth).value.0)
  {
    var globals := LinkGlobals(t, k, up.globals, 0, linked, color, depth);
    LinkGlobalsPresents(t, k, up.globals, 0, linked, color, depth);
    var u, colored := globals.value.0, globals.value.1;
    var deps := LinkDependencies(u, k, up.dependencies, 0, unbaked, graph);
    var r := LinkPass(t, k, up, linked, unbaked, graph, color, depth);
    assert r == if !deps.Done? then deps.PropagateFailure() else Done((deps.value, colored));
    if colored {
      ShapeKeepsPresenting(u, deps.value);
    }
  }

  lemma {:induction false} LinkPassesPresents(t: seq<seq<Resource>>, ups: seq<UnbakedPass>, k: nat, linked: bool,
                                              unbaked: map<CString, nat>, graph: map<CString, nat>,
                                              color: Resource, depth: Resource)
    requires |t| == |ups| && k <= |ups| && Locates(unbaked, |t|) && (linked ==> AnyPresents(t))
    requires LinkPasses(t, ups, k, linked, unbaked, graph, color, depth).Done?
    ensures LinkPasses(t, ups, k, linked, unbaked, graph, color, depth).value.1 ==>
              AnyPresents(LinkPasses(t, ups, k, linked, unbaked, graph, color, depth).value.0)
    decreases |ups| - k
  {
    if k < |ups| {
      var step := LinkPass(t, k, ups[k], linked, unbaked, graph, color, depth);
      LinkPassPresents(t, k, ups[k], linked, unbaked, graph, color, depth);
      LinkPassesPresents(step.value.0, ups, k + 1, step.value.1, unbaked, graph, color, depth);
    }
  }

  /** Once some pass is linked to a colour buffer a present pass exists, so
      initialize's "no present pass" refusal cannot happen. */
  lemma PresentPassFound(t: seq<seq<Resource>>, ups: seq<UnbakedPass>, unbaked: map<CString, nat>,
                         graph: map<CString, nat>, color: Resource, depth: Resource)
    requires |t| == |ups| && Locates(unbaked, |t|)
    requires LinkPasses(t, ups, 0, false, unbaked, graph, color, depth).Done?
    requires LinkPasses(t, ups, 0, false, unbaked, graph, color, depth).value.1
    ensures var u := LinkPasses(t, ups, 0, false, unbaked, graph, color, depth).value.0;
            LastPresenting(u, |u|).Some?
  {
    LinkPassesPresents(t, ups, 0, false, unbaked, graph, color, depth);
  }

  // ---- Pass dependencies look the source pass up in the wrong map ----

  /** As written, a graph that has never been initialised has an empty name
      map, so every pass dependency either fails its checks or throws from
      `.at`: none can be linked. */
  lemma {:induction false} FreshLinkDependencies(t: seq<seq<Resource>>, k: nat, deps: seq<PassDependency>, i: nat,
                                                 unbaked: map<CString, nat>)
    requires k < |t| && i < |deps| && Locates(unbaked, |t|)
    ensures var r := LinkDependencies(t, k, deps, i, unbaked, map[]); r.Failed? || r.Thrown?
  {
  }

  lemma {:induction false} FreshLinkPasses(t: seq<seq<Resource>>, ups: seq<UnbakedPass>, k: nat, linked: bool,
                                           unbaked: map<CString, nat>, color: Resource, depth: Resource, j: nat)
    requires |t| == |ups| && k <= j < |ups| && ups[j].dependencies != [] && Locates(unbaked, |t|)
    ensures var r := LinkPasses(t, ups, k, linked, unbaked, map[], color, depth); r.Failed? || r.Thrown?
    decreases j - k
  {
    var globals := LinkGlobals(t, k, ups[k].globals, 0, linked, color, depth);
    if globals.Done? {
      var (u, colored) := globals.value;
      var deps := LinkDependencies(u, k, ups[k].dependencies, 0, unbaked, map[]);
      if k == j {
        FreshLinkDependencies(u, k, ups[k].dependencies, 0, unbaked);
      } else if deps.Done? {
        FreshLinkPasses(deps.value, ups, k + 1, colored, unbaked, color, depth, j);
      }
    }
  }

  /** Initialising a fresh graph whose passes have any pass dependency never
      succeeds and never creates a renderpass. */
  lemma FreshGraphRejectsDependencies(renderer: Option<Renderer>, ups: seq<UnbakedPass>, unbaked: map<CString, nat>,
                                      depth: Resource, baked: seq<BakedPass>, j: nat)
    requires Locates(unbaked, |ups|) && j < |ups| && ups[j].dependencies != []
    ensures var b := Bake(renderer, ups, unbaked, map[], depth, baked);
            (b.status == Refused || b.status == Throws) && b.pushed == []
  {
    if renderer.Some? {
      var generated := Generate(ups, 0, []);
      if generated.Done? {
        FreshLinkPasses(generated.value, ups, 0, false, unbaked, ColorBuffer(renderer.value), depth, j);
      }
    }
  }

  /** Initialisation as intended: the source pass is looked up in the
      unbaked graph's name map, the one has_pass_resource has just checked. */
  function BakeCorrected(renderer: Option<Renderer>, ups: seq<UnbakedPass>, unbaked: map<CString, nat>,
                         depth: Resource, baked: seq<BakedPass>): (b: Baking)
    requires Locates(unbaked, |ups|)
    ensures renderer.None? || ups == [] ==> b == Baking(Refused, [], false)
  {
    Bake(renderer, ups, unbaked, unbaked, depth, baked)
  }

  /** Looked up in the unbaked map, a pass dependency that passes the checks
      is linked exactly when its destination is External and of the source's
      type, and nothing throws or reads out of bounds. */
  lemma CorrectedLinkDependency(t: seq<seq<Resource>>, k: nat, dep: PassDependency, unbaked: map<CString, nat>)
    requires k < |t| && Locates(unbaked, |t|)
    ensures var r := LinkDependency(t, k, dep, unbaked, unbaked); r.Done? || r.Failed?
    ensures var r := LinkDependency(t, k, dep, unbaked, unbaked);
            r.Done? <==>
              && HasResource(t[k], dep.dest) && dep.sourcePass in unbaked
              && HasResource(t[unbaked[dep.sourcePass]], dep.sourceResource)
              && t[k][FindResource(t[k], dep.dest, 0).value].origin == External
              && t[k][FindResource(t[k], dep.dest, 0).value].kind
                 == t[unbaked[dep.sourcePass]][FindResource(t[unbaked[dep.sourcePass]], dep.sourceResource, 0).value].kind
  {
  }

  lemma {:induction false} CorrectedLinkDependencies(t: seq<seq<Resource>>, k: nat, deps: seq<PassDependency>, i: nat,
                                                     unbaked: map<CString, nat>)
    requires k < |t| && i <= |deps| && Locates(unbaked, |t|)
    ensures var r := LinkDependencies(t, k, deps, i, unbaked, unbaked); r.Done? || r.Failed?
    decreases |deps| - i
  {
    if i < |deps| {
      CorrectedLinkDependency(t, k, deps[i], unbaked);
      var step := LinkDependency(t, k, deps[i], unbaked, unbaked);
      if step.Done? {
        CorrectedLinkDependencies(step.value, k, deps, i + 1, unbaked);
      }
    }
  }

  /** With the unbaked map, linking only ever succeeds or refuses. */
  lemma {:induction false} CorrectedLinkPasses(t: seq<seq<Resource>>, ups: seq<UnbakedPass>, k: nat, linked: bool,
                                               unbaked: map<CString, nat>, color: Resource, depth: Resource)
    requires |t| == |ups| && k <= |ups| && Locates(unbaked, |t|)
    ensures var r := LinkPasses(t, ups, k, linked, unbaked, unbaked, color, depth); r.Done? || r.Failed?
    decreases |ups| - k
  {
    if k < |ups| {
      var globals := LinkGlobals(t, k, ups[k].globals, 0, linked, color, depth);
      if globals.Done? {
        var (u, colored) := globals.value;
        CorrectedLinkDependencies(u, k, ups[k].dependencies, 0, unbaked);
        var deps := LinkDependencies(u, k, ups[k].dependencies, 0, unbaked, unbaked);
        if deps.Done? {
          CorrectedLinkPasses(deps.value, ups, k + 1, colored, unbaked, color, depth);
        }
      }
    }
  }

  /** The corrected initialisation never throws. */
  lemma CorrectedNeverThrows(renderer: Option<Renderer>, ups: seq<UnbakedPass>, unbaked: map<CString, nat>,
                             depth: Resource, baked: seq<BakedPass>)
    requires Locates(unbaked, |ups|)
    ensures BakeCorrected(renderer, ups, unbaked, depth, baked).status != Throws
  {
    if renderer.Some? && ups != [] {
      var generated := Generate(ups, 0, []);
      if generated.Done? {
        CorrectedLinkPasses(generated.value, ups, 0, false, unbaked, ColorBuffer(renderer.value), depth);
      }
    }
  }
}
