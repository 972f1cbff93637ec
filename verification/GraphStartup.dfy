/** Start-up of the worker over buffer identities: warm-up, graph capture, in-place cleanup. */
module GraphStartup {
  /** A device buffer. Contents are opaque numbers; garbage left by warm-up is a number too. */
  class Tensor {
    var data: seq<int>

    constructor (data: seq<int>)
      ensures this.data == data
    {
      this.data := data;
    }

    predicate Filled(v: int)
      reads this
    {
      forall i :: 0 <= i < |data| ==> data[i] == v
    }

    /** `zero_()` and `fill_()`: the object and its shape stay. */
    method Fill(v: int)
      modifies this
      ensures Filled(v) && |data| == |old(data)|
    {
      data := seq(|data|, _ => v);
    }
  }

  /** A model module as the cleanup sees it: whether it is an n-gram hash state, its `_cache`, its
      `staged_rows`. */
  datatype Module = Module(ngram: bool, cache: Tensor?, staged: Tensor?)

  datatype Role = Kv(i: nat) | Cache(m: nat) | Staged(m: nat) | Window

  /** What warm-up, kernel tuning, capture and dummy runs may do, in any order and number. */
  datatype Env =
    | Replace(role: Role, data: seq<int>)   // a resize: a new object takes the buffer's place
    | Scribble(role: Role, data: seq<int>)  // dummy values in place
    | Throw

  /** A step of start-up: one graph is captured over the buffers as they are, or anything else. */
  datatype Step = Record | Do(env: Env)

  function Plain(env: seq<Env>): (r: seq<Step>)
    ensures |r| == |env| && forall i :: 0 <= i < |r| ==> r[i] == Do(env[i])
  {
    seq(|env|, i requires 0 <= i < |env| => Do(env[i]))
  }

  /** How many KV tensors and modules there are. Start-up does not change it. */
  datatype Shape = Shape(kvs: nat, mods: nat) {
    predicate Has(role: Role) {
      match role
      case Kv(i) => i < kvs
      case Cache(m) => m < mods
      case Staged(m) => m < mods
      case Window => true
    }

    predicate Moves(s: Step) {
      s.Do? && s.env.Replace? && Has(s.env.role)
    }
  }

  /** Some step puts a new object in a buffer's place. */
  predicate Replaces(sh: Shape, steps: seq<Step>) {
    exists j :: 0 <= j < |steps| && sh.Moves(steps[j])
  }

  /** Some step does so after a graph was captured. */
  predicate ReplacesLate(sh: Shape, steps: seq<Step>) {
    exists j :: 0 <= j < |steps| && sh.Moves(steps[j]) && Record in steps[..j]
  }

  /** How many graphs the steps capture. */
  function Records(steps: seq<Step>): nat {
    if steps == [] then 0
    else Records(steps[..|steps| - 1]) + if steps[|steps| - 1] == Record then 1 else 0
  }

  lemma {:induction false} PrefixOne(steps: seq<Step>, i: nat)
    requires i < |steps|
    ensures steps[..i + 1] == steps[..i] + [steps[i]] && steps[..i + 1][..i] == steps[..i]
    ensures Record in steps[..i + 1] <==> Record in steps[..i] || steps[i] == Record
    ensures Do(Throw) in steps[..i + 1] <==> Do(Throw) in steps[..i] || steps[i] == Do(Throw)
    ensures Records(steps[..i + 1]) == Records(steps[..i]) + if steps[i] == Record then 1 else 0
  {
  }

  lemma {:induction false} ReplacesOne(sh: Shape, steps: seq<Step>, i: nat)
    requires i < |steps|
    ensures Replaces(sh, steps[..i + 1]) <==> Replaces(sh, steps[..i]) || sh.Moves(steps[i])
  {
    var a, b := steps[..i], steps[..i + 1];
    assert forall j :: 0 <= j < i ==> a[j] == b[j];
    assert b[i] == steps[i];
  }

  lemma {:induction false} ReplacesLateOne(sh: Shape, steps: seq<Step>, i: nat)
    requires i < |steps|
    ensures ReplacesLate(sh, steps[..i + 1]) <==>
            ReplacesLate(sh, steps[..i]) || (sh.Moves(steps[i]) && Record in steps[..i])
  {
    var a, b := steps[..i], steps[..i + 1];
    assert forall j :: 0 <= j < i ==> a[j] == b[j] && a[..j] == b[..j];
    assert b[..i] == a && b[i] == steps[i];
  }

  /** The graphs are safe after the steps; `had` and `safe` say whether there were any before, and safe. */
  predicate SafeAfter(sh: Shape, steps: seq<Step>, had: bool, safe: bool) {
    !ReplacesLate(sh, steps) && (had ==> safe && !Replaces(sh, steps))
  }

  lemma {:induction false} SafeAfterOne(sh: Shape, steps: seq<Step>, i: nat, had: bool, safe: bool)
    requires i < |steps|
    ensures SafeAfter(sh, steps[..i + 1], had, safe) <==>
            if sh.Moves(steps[i]) then !had && Record !in steps[..i] else SafeAfter(sh, steps[..i], had, safe)
    ensures Record in steps[..i + 1] <==> Record in steps[..i] || steps[i] == Record
    ensures Records(steps[..i + 1]) == Records(steps[..i]) + if steps[i] == Record then 1 else 0
    ensures Do(Throw) in steps[..i + 1] <==> Do(Throw) in steps[..i] || steps[i] == Do(Throw)
  {
    PrefixOne(steps, i);
    ReplacesOne(sh, steps, i);
    ReplacesLateOne(sh, steps, i);
    if ReplacesLate(sh, steps[..i]) {
      var j :| 0 <= j < i && sh.Moves(steps[..i][j]) && Record in steps[..i][..j];
      assert steps[..i][..j] == steps[..j];
      assert steps[..i] == steps[..j] + steps[j..i];
    }
  }

  lemma {:induction false} PlainRecordsNothing(sh: Shape, env: seq<Env>)
    ensures Record !in Plain(env) && !ReplacesLate(sh, Plain(env))
    ensures Do(Throw) in Plain(env) <==> Throw in env
    ensures Records(Plain(env)) == 0
  {
    NoRecords(Plain(env));
    forall j | 0 <= j < |env|
      ensures Record !in Plain(env)[..j]
    {
    }
    if Throw in env {
      var j :| 0 <= j < |env| && env[j] == Throw;
      assert Plain(env)[j] == Do(Throw);
    }
  }

  lemma {:induction false} NoRecords(steps: seq<Step>)
    requires Record !in steps
    ensures Records(steps) == 0
  {
    if steps != [] { NoRecords(steps[..|steps| - 1]); }
  }

  /** A set of buffer objects: the ones in place, or the ones a captured graph points at. */
  datatype Graph = Graph(kv: seq<Tensor>, modules: seq<Module>, window: Tensor?) {
    function Layout(): Shape {
      Shape(|kv|, |modules|)
    }

    function At(role: Role): Tensor?
      requires Layout().Has(role)
    {
      match role
      case Kv(i) => kv[i]
      case Cache(m) => modules[m].cache
      case Staged(m) => modules[m].staged
      case Window => window
    }

    ghost function Tensors(): set<Tensor> {
      (set t | t in kv)
      + (set m | m in modules && m.cache != null :: m.cache)
      + (set m | m in modules && m.staged != null :: m.staged)
      + (if window == null then {} else {window})
    }

    /** Object `t` in the place of `role`. */
    function With(role: Role, t: Tensor): Graph
      requires Layout().Has(role)
    {
      match role
      case Kv(i) => this.(kv := kv[i := t])
      case Cache(m) => this.(modules := modules[m := modules[m].(cache := t)])
      case Staged(m) => this.(modules := modules[m := modules[m].(staged := t)])
      case Window => this.(window := t)
    }

    lemma {:induction false} WithTensors(role: Role, t: Tensor)
      requires Layout().Has(role)
      ensures With(role, t).Layout() == Layout() && With(role, t).At(role) == t
      ensures With(role, t).Tensors() <= Tensors() + {t}
    {
      var g := With(role, t);
      assert forall x :: x in g.kv ==> x in kv || x == t;
      forall m | m in g.modules
        ensures m.cache == null || m.cache == t || m.cache in Tensors()
        ensures m.staged == null || m.staged == t || m.staged in Tensors()
      {
        var i :| 0 <= i < |g.modules| && g.modules[i] == m;
        assert modules[i] in modules;
      }
    }
  }

  /** Switches of one start-up. */
  datatype Setup = Setup(useV2: bool, eager: bool, clear: bool, lastRank: bool)

  class Runner {
    var kvCaches: seq<Tensor>
    var modules: seq<Module>
    var window: Tensor?
    var graphs: seq<Graph>

    constructor (kvCaches: seq<Tensor>, modules: seq<Module>, window: Tensor?)
      ensures this.kvCaches == kvCaches && this.modules == modules && this.window == window && graphs == []
    {
      this.kvCaches, this.modules, this.window, graphs := kvCaches, modules, window, [];
    }

    ghost function Tensors(): set<Tensor>
      reads this
    {
      Live().Tensors()
    }

    function Live(): Graph
      reads this
    {
      Graph(kvCaches, modules, window)
    }

    /** Every buffer any captured graph points at is the live buffer of its role. */
    ghost predicate GraphSafe()
      reads this
    {
      forall g :: g in graphs ==> g == Live()
    }

    /** A resize: no graph captured so far points at the live buffers any more. */
    method Resize(role: Role, data: seq<int>)
      requires Live().Layout().Has(role)
      modifies this`kvCaches, this`modules, this`window
      ensures Live().Layout() == old(Live().Layout())
      ensures fresh(Tensors() - old(Tensors()))
      ensures GraphSafe() <==> graphs == []
    {
      ghost var before := graphs;
      var t := new Tensor(data);
      assert forall g :: g in graphs && g.Layout().Has(role) ==> g.At(role) != t;
      Live().WithTensors(role, t);
      var g := Live().With(role, t);
      kvCaches, modules, window := g.kv, g.modules, g.window;
      assert forall g :: g in graphs ==> g != Live();
      assert graphs != [] ==> graphs[0] in graphs;
    }

    method Capture()
      modifies this`graphs
      ensures graphs == old(graphs) + [Live()] && (GraphSafe() <==> old(GraphSafe()))
    {
      ghost var before := graphs;
      graphs := graphs + [Graph(kvCaches, modules, window)];
      assert forall g :: g in graphs <==> g in before || g == Live();
    }

    /** One step of start-up; false if it raised. */
    method Take(step: Step) returns (ok: bool)
      modifies this, Tensors()
      ensures Live().Layout() == old(Live().Layout())
      ensures fresh(Tensors() - old(Tensors()))
      ensures ok <==> step != Do(Throw)
      ensures ok ==> graphs == if step == Record then old(graphs) + [Live()] else old(graphs)
      ensures ok ==> (GraphSafe() <==> if Live().Layout().Moves(step) then graphs == [] else old(GraphSafe()))
    {
      ok := true;
      match step {
        case Record => Capture();
        case Do(Throw) => ok := false;
        case Do(Replace(role, data)) =>
          if Live().Layout().Has(role) { Resize(role, data); }
        case Do(Scribble(role, data)) =>
          if Live().Layout().Has(role) && Live().At(role) != null {
            Bound(role);
            Live().At(role).data := data;
          }
      }
    }

    /** A phase of start-up; false if it raised. The graphs end up safe exactly when nothing was
        replaced after the first of them was captured. */
    method Phase(steps: seq<Step>) returns (ok: bool)
      modifies this, Tensors()
      ensures Live().Layout() == old(Live().Layout())
      ensures fresh(Tensors() - old(Tensors()))
      ensures ok <==> Do(Throw) !in steps
      ensures ok ==> (graphs == [] <==> old(graphs) == [] && Record !in steps)
      ensures ok ==> old(graphs) <= graphs && |graphs| == |old(graphs)| + Records(steps)
      ensures ok ==> (GraphSafe() <==>
                      && !ReplacesLate(Live().Layout(), steps)
                      && (old(graphs) != [] ==> old(GraphSafe()) && !Replaces(Live().Layout(), steps)))
    {
      var i := 0;
      ghost var sh := Live().Layout();
      while i < |steps|
        invariant 0 <= i <= |steps| && Do(Throw) !in steps[..i]
        invariant Live().Layout() == sh
        invariant fresh(Tensors() - old(Tensors()))
        invariant graphs == [] <==> old(graphs) == [] && Record !in steps[..i]
        invariant old(graphs) <= graphs && |graphs| == |old(graphs)| + Records(steps[..i])
        invariant GraphSafe() <==> SafeAfter(sh, steps[..i], old(graphs) != [], old(GraphSafe()))
      {
        SafeAfterOne(sh, steps, i, old(graphs) != [], old(GraphSafe()));
        ok := Take(steps[i]);
        if !ok { return; }
        i := i + 1;
      }
      assert steps[..i] == steps;
      ok := true;
    }

    /** A phase that captures nothing. */
    method WarmUp(env: seq<Env>) returns (ok: bool)
      modifies this, Tensors()
      ensures Live().Layout() == old(Live().Layout())
      ensures fresh(Tensors() - old(Tensors()))
      ensures ok <==> Throw !in env
      ensures ok ==> graphs == old(graphs)
      ensures ok ==> (GraphSafe() <==> graphs == [] || (old(GraphSafe()) && !Replaces(Live().Layout(), Plain(env))))
    {
      PlainRecordsNothing(Live().Layout(), env);
      ok := Phase(Plain(env));
    }

    lemma {:induction false} Bound(role: Role)
      requires Live().Layout().Has(role) && Live().At(role) != null
      ensures Live().At(role) in Tensors()
    {
      match role
      case Kv(i) => assert kvCaches[i] in kvCaches;
      case Cache(m) => assert modules[m] in modules;
      case Staged(m) => assert modules[m] in modules;
      case Window =>
    }

    /** Contents after the cleanup: zero everywhere, -1 in the lookback window. A buffer that is the
        window object itself ends as the window. */
    ghost predicate Clean()
      reads this, Tensors()
    {
      && (forall t :: t in kvCaches && t != window ==> t.Filled(0))
      && (forall m :: m in modules && m.ngram && m.cache != null && m.cache != window ==> m.cache.Filled(0))
      && (forall m :: m in modules && m.staged != null && m.staged != window ==> m.staged.Filled(0))
      && (window != null ==> window.Filled(-1))
    }

    /** The cleanup zeroes this buffer of the module. */
    predicate Zeroed(m: Module, t: Tensor) {
      (m.ngram && m.cache == t) || m.staged == t
    }

    /** One of the first n modules has it zeroed. */
    predicate ClearedBy(n: nat, t: Tensor)
      requires n <= |modules|
      reads this
    {
      exists j :: 0 <= j < n && Zeroed(modules[j], t)
    }

    predicate Cleared(t: Tensor)
      reads this
    {
      ClearedBy(|modules|, t)
    }

    /** `cache.zero_()` for every KV tensor. */
    method ZeroCaches()
      modifies Tensors()
      ensures forall t :: t in Tensors() ==>
                |t.data| == |old(t.data)| && if t in kvCaches then t.Filled(0) else t.data == old(t.data)
    {
      var i := 0;
      while i < |kvCaches|
        invariant 0 <= i <= |kvCaches|
        invariant forall t :: t in Tensors() ==>
                    |t.data| == |old(t.data)| && if t in kvCaches[..i] then t.Filled(0) else t.data == old(t.data)
      {
        Bound(Kv(i));
        assert kvCaches[..i + 1] == kvCaches[..i] + [kvCaches[i]];
        kvCaches[i].Fill(0);
        i := i + 1;
      }
      assert kvCaches[..i] == kvCaches;
    }

    method ZeroModule(i: nat)
      requires i < |modules|
      modifies Tensors()
      ensures forall t :: t in Tensors() ==>
                |t.data| == |old(t.data)| && if Zeroed(modules[i], t) then t.Filled(0) else t.data == old(t.data)
    {
      var m := modules[i];
      if m.ngram && m.cache != null {
        Bound(Cache(i));
        m.cache.Fill(0);
      }
      if m.staged != null {
        Bound(Staged(i));
        m.staged.Fill(0);
      }
    }

    lemma {:induction false} OneMoreModule(i: nat)
      requires i < |modules|
      ensures forall t :: ClearedBy(i + 1, t) <==> ClearedBy(i, t) || Zeroed(modules[i], t)
    {
    }

    /** The walk over the modules. */
    method ZeroModules()
      modifies Tensors()
      ensures forall t :: t in Tensors() ==>
                |t.data| == |old(t.data)| && if Cleared(t) then t.Filled(0) else t.data == old(t.data)
    {
      var i := 0;
      while i < |modules|
        invariant 0 <= i <= |modules|
        invariant forall t :: t in Tensors() ==>
                    |t.data| == |old(t.data)| && if ClearedBy(i, t) then t.Filled(0) else t.data == old(t.data)
      {
        OneMoreModule(i);
        ZeroModule(i);
        i := i + 1;
      }
    }

    /** Every buffer of a module that the cleanup is to zero is among the buffers, and cleared. */
    lemma {:induction false} ModulesCleared()
      ensures forall m :: m in modules && m.ngram && m.cache != null ==> m.cache in Tensors() && Cleared(m.cache)
      ensures forall m :: m in modules && m.staged != null ==> m.staged in Tensors() && Cleared(m.staged)
    {
      forall m | m in modules
        ensures m.ngram && m.cache != null ==> Cleared(m.cache)
        ensures m.staged != null ==> Cleared(m.staged)
      {
        var j :| 0 <= j < |modules| && modules[j] == m;
        assert m.ngram && m.cache != null ==> Zeroed(modules[j], m.cache);
        assert m.staged != null ==> Zeroed(modules[j], m.staged);
      }
    }

    /** The start-up cleanup: no object changes place, no shape changes, and a buffer that is none of those
        to be cleared keeps its contents. */
    method Cleanup()
      modifies Tensors()
      ensures Clean()
      ensures forall t :: t in Tensors() && t !in kvCaches && t != window && !Cleared(t) ==> t.data == old(t.data)
      ensures forall t :: t in Tensors() ==> |t.data| == |old(t.data)|
    {
      ZeroCaches();
      ZeroModules();
      ModulesCleared();
      if window != null {
        window.Fill(-1);
      }
    }

    /** `compile_or_warm_up_model` from the first dummy run to the cleanup. On the V2 path nothing the
        warm-up phases replace can hurt a graph, because they all come before the first capture: only a
        replacement between two captures can. On the V1 path the late sampler warm-up can too. */
    method CompileOrWarmUp(s: Setup, dummyRuns: seq<Env>, kernels: seq<Env>, v2Kernels: seq<Env>,
                           capture: seq<Step>, v1Sampler: seq<Env>)
      returns (ok: bool)
      requires graphs == []
      modifies this, Tensors()
      ensures ok <==>
              && Throw !in dummyRuns && Throw !in kernels && (s.useV2 ==> Throw !in v2Kernels)
              && (!s.eager ==> Do(Throw) !in capture)
              && (!s.useV2 && s.lastRank ==> Throw !in v1Sampler)
              && (s.clear ==> s.useV2)
      ensures Live().Layout() == old(Live().Layout())
      ensures ok ==> (graphs == [] <==> s.eager || Record !in capture)
      ensures ok ==> |graphs| == if s.eager then 0 else Records(capture)
      ensures ok && s.useV2 && !s.eager ==> (GraphSafe() <==> !ReplacesLate(Live().Layout(), capture))
      ensures ok && !s.useV2 && !s.eager ==>
                (GraphSafe() <==>
                 && !ReplacesLate(Live().Layout(), capture)
                 && (s.lastRank && Record in capture ==> !Replaces(Live().Layout(), Plain(v1Sampler))))
      ensures ok && s.clear ==> s.useV2 && Clean()
    {
      ok := WarmUp(dummyRuns);
      if !ok { return; }
      ok := WarmUp(kernels);
      if !ok { return; }
      if s.useV2 {
        ok := WarmUp(v2Kernels);
        if !ok { return; }
      }
      if !s.eager {
        ok := Phase(capture);
        if !ok { return; }
      }
      if !s.useV2 && s.lastRank {
        ok := WarmUp(v1Sampler);
        if !ok { return; }
      }
      if s.clear {
        if !s.useV2 { return false; }
        Cleanup();
      }
    }

    /** The old order, kernels warmed up after capture: once a graph was captured, the graphs stay good
        exactly when nothing is replaced from then on, by that warm-up included. */
    method CaptureThenWarmUp(capture: seq<Step>, v2Kernels: seq<Env>) returns (ok: bool)
      requires graphs == []
      modifies this, Tensors()
      ensures ok <==> Do(Throw) !in capture && Throw !in v2Kernels
      ensures Live().Layout() == old(Live().Layout())
      ensures ok ==> (graphs == [] <==> Record !in capture)
      ensures ok ==> (GraphSafe() <==>
                      && !ReplacesLate(Live().Layout(), capture)
                      && (Record in capture ==> !Replaces(Live().Layout(), Plain(v2Kernels))))
    {
      ok := Phase(capture);
      if ok { ok := WarmUp(v2Kernels); }
    }
  }

  /** A run of the old order that ends without an error and with a graph on a replaced KV buffer; the
      new order with the same phases ends safe. */
  method OldOrderDangles() returns (r: Runner, ok: bool, n: Runner, okNew: bool)
    ensures ok && !r.GraphSafe()
    ensures okNew && n.graphs != [] && n.GraphSafe()
  {
    var t := new Tensor([7]);
    r := new Runner([t], [], null);
    var resize := [Replace(Kv(0), [0, 0])];
    assert Plain(resize)[0] == Do(resize[0]);
    ok := r.CaptureThenWarmUp([Record], resize);
    var u := new Tensor([7]);
    n := new Runner([u], [], null);
    okNew := n.CompileOrWarmUp(Setup(true, false, false, true), [], [], resize, [Record], []);
  }

  /** A resize between two captures leaves the first graph dangling in the new order too. */
  method ResizeBetweenCaptures() returns (r: Runner, ok: bool)
    ensures ok && |r.graphs| > 0 && !r.GraphSafe()
  {
    var t := new Tensor([7]);
    r := new Runner([t], [], null);
    var steps := [Record, Do(Replace(Kv(0), [0, 0])), Record];
    assert steps[..1] == [Record] && steps[1] == Do(Replace(Kv(0), [0, 0]));
    ok := r.CompileOrWarmUp(Setup(true, false, false, true), [], [], [], steps, []);
    assert r.Live().Layout().Moves(steps[1]) && Record in steps[..1];
  }
}
