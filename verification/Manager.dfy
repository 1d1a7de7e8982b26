/**
 * The resource manager: one cache for the manager's lifetime, one for the current resolution scope, and the
 * chain of names being resolved. One caller at a time.
 */
module Manager {
  import opened Options
  import opened Resources

  function RemoveFirst(names: seq<string>, name: string): seq<string> {
    if names == [] then [] else if names[0] == name then names[1..] else [names[0]] + RemoveFirst(names[1..], name)
  }

  lemma {:induction false} RemovePushed(names: seq<string>, name: string)
    requires name !in names
    ensures RemoveFirst(names + [name], name) == names
  {
    if names != [] {
      assert (names + [name])[1..] == names[1..] + [name];
      RemovePushed(names[1..], name);
    }
  }

  ghost predicate Distinct(names: seq<string>) {
    forall i, j :: 0 <= i < j < |names| ==> names[i] != names[j]
  }

  /** Evaluation on top of `base`, along some chain, gives this value. */
  ghost predicate Known<V>(g: Graph<V>, base: map<string, V>, n: string, v: V) {
    Closed(g) && n in g && !Cut(g, base, n) && exists stack :: Eval(g, base, stack, n) == Ok(v)
  }

  /** The two caches, the factories called in this scope, and the factories that ever returned a value. */
  datatype Caches<!V> = Caches(
    resources: map<string, V>, resolution: map<string, V>, called: seq<string>, completed: multiset<string>)

  /** A cached resource whose factory has completed is materialised, and it completed once. */
  ghost predicate CompletedOnce<V>(g: Graph<V>, c: Caches<V>) {
    forall n :: n in g && g[n].cache ==> c.completed[n] <= 1 && (n in c.completed ==> n in c.resources)
  }

  /** What the caches say of n is what evaluation on top of `base` gives. */
  ghost predicate EntrySound<V>(g: Graph<V>, base: map<string, V>, c: Caches<V>, n: string) {
    && (n in base ==> n in c.resources && c.resources[n] == base[n])
    && (n in c.resources && n !in base ==> n in g && g[n].cache && Known(g, base, n, c.resources[n]))
    && (n in c.resolution ==> Known(g, base, n, c.resolution[n]) && (g[n].cache ==> n in c.resources))
  }

  /** The two caches agree on n, and n is cached if and only if its factory was called. */
  ghost predicate EntryAgrees<V>(base: map<string, V>, c: Caches<V>, n: string) {
    && (n in c.resources && n !in base ==> n in c.resolution && c.resolution[n] == c.resources[n])
    && (n in c.called <==> n in c.resolution)
  }

  /** What is true in a scope on top of `base`, whether or not an error is on its way out. */
  ghost predicate Sound<V>(g: Graph<V>, base: map<string, V>, c: Caches<V>) {
    && Closed(g) && CompletedOnce(g, c) && Distinct(c.called)
    && forall n :: EntrySound(g, base, c, n)
  }

  /** And while none is. */
  ghost predicate InScope<V>(g: Graph<V>, base: map<string, V>, c: Caches<V>) {
    Sound(g, base, c) && forall n :: EntryAgrees(base, c, n)
  }

  /** The value of n stays at hand: it was there before, or it is in the scope's cache. */
  ghost predicate AtHand<V>(g: Graph<V>, base: map<string, V>, c: Caches<V>, n: string) {
    n in g && (Cut(g, base, n) || n in c.resolution)
  }

  ghost predicate AllAtHand<V>(g: Graph<V>, base: map<string, V>, c: Caches<V>, names: seq<string>) {
    forall j :: 0 <= j < |names| ==> AtHand(g, base, c, names[j])
  }

  /** No cache loses a name. */
  ghost predicate Grows<V>(c: Caches<V>, d: Caches<V>) {
    c.resolution.Keys <= d.resolution.Keys && c.resources.Keys <= d.resources.Keys
  }

  lemma OneMoreAtHand<V>(g: Graph<V>, base: map<string, V>, c: Caches<V>, d: Caches<V>, names: seq<string>, k: nat)
    requires k < |names| && Grows(c, d) && AllAtHand(g, base, c, names[..k]) && AtHand(g, base, d, names[k])
    ensures AllAtHand(g, base, d, names[..k + 1])
  {
    var more := names[..k + 1];
    forall j | 0 <= j < |more|
      ensures AtHand(g, base, d, more[j])
    {
      if j < k {
        assert AtHand(g, base, c, names[..k][j]);
      }
    }
  }

  lemma AtHandIsKept<V>(g: Graph<V>, base: map<string, V>, c: Caches<V>, n: string)
    requires Sound(g, base, c) && AtHand(g, base, c, n) && g[n].cache
    ensures n in c.resources
  {
    assert EntrySound(g, base, c, n);
  }

  /** The caches after the factory of `name` has returned `val`. */
  ghost function Stored<V>(g: Graph<V>, c: Caches<V>, name: string, val: V): Caches<V>
    requires name in g
  {
    Caches(if g[name].cache then c.resources[name := val] else c.resources,
           c.resolution[name := val], c.called + [name], c.completed + multiset{name})
  }

  lemma StoredInScope<V>(g: Graph<V>, base: map<string, V>, c: Caches<V>, name: string, val: V)
    requires InScope(g, base, c) && Known(g, base, name, val) && name !in c.resolution
    ensures InScope(g, base, Stored(g, c, name, val))
  {
    var t := Stored(g, c, name, val);
    assert EntryAgrees(base, c, name);
    forall n
      ensures EntrySound(g, base, t, n) && EntryAgrees(base, t, n)
    {
      assert EntrySound(g, base, c, n) && EntryAgrees(base, c, n);
      assert EntrySound(g, base, c, name);
    }
  }

  /** A factory that fails has been called once all the same. */
  lemma FailedCallIsSound<V>(g: Graph<V>, base: map<string, V>, c: Caches<V>, name: string)
    requires InScope(g, base, c) && name !in c.resolution
    ensures Sound(g, base, c.(called := c.called + [name]))
  {
    assert EntryAgrees(base, c, name);
    forall n
      ensures EntrySound(g, base, c.(called := c.called + [name]), n)
    {
      assert EntrySound(g, base, c, n);
    }
  }

  lemma StaysHonest<V>(g: Graph<V>, base: map<string, V>, resources: map<string, V>)
    requires Closed(g) && Honest(g, base)
    requires forall n :: n in base ==> n in resources && resources[n] == base[n]
    requires forall n :: n in resources && n !in base ==> Known(g, base, n, resources[n])
    ensures Honest(g, resources)
  {
    forall m | m in resources && m in g && g[m].cache
      ensures Within(g, map[], |g|, m) == Some(resources[m])
    {
      if m !in base {
        var stack :| Eval(g, base, stack, m) == Ok(resources[m]);
        HonestValue(g, base, stack, m);
      }
    }
  }

  /** Whatever a scope leaves behind was there before or is a cached resource with its value. */
  lemma LeftBehind<V>(g: Graph<V>, base: map<string, V>, c: Caches<V>)
    requires Sound(g, base, c)
    ensures forall n :: n in base ==> n in c.resources && c.resources[n] == base[n]
    ensures forall n :: n in c.resources && n !in base ==> n in g && g[n].cache && Known(g, base, n, c.resources[n])
    ensures Honest(g, base) ==> Honest(g, c.resources)
  {
    forall n
      ensures n in base ==> n in c.resources && c.resources[n] == base[n]
      ensures n in c.resources && n !in base ==> n in g && g[n].cache && Known(g, base, n, c.resources[n])
    {
      assert EntrySound(g, base, c, n);
    }
    if Honest(g, base) {
      StaysHonest(g, base, c.resources);
    }
  }

  lemma FoundIsEval<V>(g: Graph<V>, base: map<string, V>, stack: seq<string>, n: string, v: V)
    requires Known(g, base, n, v) && LeadsTo(g, base, stack, n)
    ensures Eval(g, base, stack, n) == Ok(v)
  {
    var first :| Eval(g, base, first, n) == Ok(v);
    ChainIndependent(g, base, first, stack, n);
  }

  class ResourceManager<V> {
    const graph: Graph<V>
    var resources: map<string, V>
    var resolving: seq<string>
    var resolutionCache: map<string, V>
    var resolutionDepth: nat
    ghost var called: seq<string>
    ghost var completed: multiset<string>

    ghost function State(): Caches<V>
      reads this
    {
      Caches(resources, resolutionCache, called, completed)
    }

    ghost predicate Idle()
      reads this
    {
      && Closed(graph) && CompletedOnce(graph, State())
      && resolving == [] && resolutionCache == map[] && resolutionDepth == 0
    }

    constructor (graph: Graph<V>)
      requires Closed(graph)
      ensures this.graph == graph && resources == map[] && Idle()
    {
      this.graph := graph;
      resources, resolving, resolutionCache, resolutionDepth := map[], [], map[], 0;
      called, completed := [], multiset{};
    }

    method Set(name: string, val: V)
      modifies this`resources
      ensures resources == old(resources)[name := val]
    {
      resources := resources[name := val];
    }

    /** The lookup in the two caches. */
    method Lookup(name: string, ghost base: map<string, V>) returns (found: Option<V>)
      requires InScope(graph, base, State()) && name in graph && name !in resolving
      requires LeadsTo(graph, base, resolving, name)
      ensures found.Some? ==> Eval(graph, base, resolving, name) == Ok(found.value) && AtHand(graph, base, State(), name)
      ensures found.None? ==> !Cut(graph, base, name) && name !in resolutionCache
    {
      assert EntrySound(graph, base, State(), name) && EntryAgrees(base, State(), name);
      if graph[name].cache && name in resources {
        if name !in base {
          FoundIsEval(graph, base, resolving, name, resources[name]);
        }
        return Some(resources[name]);
      }
      if name in resolutionCache {
        FoundIsEval(graph, base, resolving, name, resolutionCache[name]);
        return Some(resolutionCache[name]);
      }
      return None;
    }

    /** Stores a value that the factory has just returned. */
    method Store(name: string, val: V)
      requires name in graph
      modifies this
      ensures State() == Stored(graph, old(State()), name, val)
      ensures resolving == old(resolving) && resolutionDepth == old(resolutionDepth)
    {
      called, completed := called + [name], completed + multiset{name};
      if graph[name].cache {
        Set(name, val);
      }
      resolutionCache := resolutionCache[name := val];
    }

    method GetInner(name: string, ghost base: map<string, V>) returns (r: Result<V>)
      requires InScope(graph, base, State()) && name in graph && LeadsTo(graph, base, resolving, name)
      modifies this
      ensures r == Eval(graph, base, old(resolving), name)
      ensures resolving == old(resolving) && resolutionDepth == old(resolutionDepth)
      ensures Sound(graph, base, State()) && (r.Ok? ==> InScope(graph, base, State()))
      ensures forall n :: n in resolutionCache && n in old(resolving) ==> n in old(resolutionCache)
      ensures Grows(old(State()), State()) && (r.Ok? ==> AtHand(graph, base, State(), name))
      ensures r.Ok? && old(AtHand(graph, base, State(), name)) ==> State() == old(State())
      decreases Outside(graph, resolving), 1
    {
      if name in resolving {
        return Circular(resolving + [name]);
      }
      var found := Lookup(name, base);
      if found.Some? {
        return Ok(found.value);
      }
      r := ProducePushed(name, base);
    }

    /** The name stands on the chain while its value is produced. */
    method ProducePushed(name: string, ghost base: map<string, V>) returns (r: Result<V>)
      requires InScope(graph, base, State()) && name in graph && !Cut(graph, base, name) && name !in resolutionCache
      requires LeadsTo(graph, base, resolving, name) && name !in resolving
      modifies this
      ensures r == Eval(graph, base, old(resolving), name)
      ensures resolving == old(resolving) && resolutionDepth == old(resolutionDepth)
      ensures Sound(graph, base, State()) && (r.Ok? ==> InScope(graph, base, State()))
      ensures forall n :: n in resolutionCache && n in old(resolving) ==> n in old(resolutionCache)
      ensures Grows(old(State()), State()) && (r.Ok? ==> AtHand(graph, base, State(), name))
      decreases Outside(graph, resolving), 0
    {
      PushShrinks(graph, resolving, name);
      RemovePushed(resolving, name);
      ghost var chain, entered := resolving, State();
      resolving := resolving + [name];
      assert State() == entered;
      r := Produce(name, chain, base);
      ghost var produced := State();
      assert resolving[|chain|] == name;
      if name in resolving {
        resolving := RemoveFirst(resolving, name);
      }
      assert State() == produced;
    }

    /** Resolves the dependencies, calls the factory and stores what it returns. */
    method Produce(name: string, ghost chain: seq<string>, ghost base: map<string, V>) returns (r: Result<V>)
      requires InScope(graph, base, State()) && name in graph && !Cut(graph, base, name) && name !in resolutionCache
      requires LeadsTo(graph, base, chain, name) && name !in chain && resolving == chain + [name]
      modifies this
      ensures r == Eval(graph, base, chain, name)
      ensures resolving == old(resolving) && resolutionDepth == old(resolutionDepth)
      ensures Sound(graph, base, State()) && (r.Ok? ==> InScope(graph, base, State()))
      ensures forall n :: n in resolutionCache && n in chain ==> n in old(resolutionCache)
      ensures Grows(old(State()), State()) && (r.Ok? ==> AtHand(graph, base, State(), name))
      decreases Outside(graph, resolving), 3
    {
      assert resolving[|chain|] == name;
      DependenciesReached(graph, base, chain, name);
      var args := ResolveAll(graph[name].deps, base);
      if !args.Ok? {
        return Failure(args);
      }
      assert name !in resolutionCache;
      var val := graph[name].make(args.value);
      if val.None? {
        FailedCallIsSound(graph, base, State(), name);
        called := called + [name];
        return FactoryFailed(name);
      }
      assert Eval(graph, base, chain, name) == Ok(val.value);
      StoredInScope(graph, base, State(), name, val.value);
      Store(name, val.value);
      return Ok(val.value);
    }

    /** Requests in order, each reached along the current chain; the first error ends the loop. */
    method ResolveAll(names: seq<string>, ghost base: map<string, V>) returns (args: Result<seq<V>>)
      requires InScope(graph, base, State()) && AllReached(graph, base, resolving, names)
      modifies this
      ensures args == EvalAll(graph, base, old(resolving), names)
      ensures resolving == old(resolving) && resolutionDepth == old(resolutionDepth)
      ensures Sound(graph, base, State()) && (args.Ok? ==> InScope(graph, base, State()))
      ensures forall n :: n in resolutionCache && n in old(resolving) ==> n in old(resolutionCache)
      ensures Grows(old(State()), State())
      ensures args.Ok? ==> AllAtHand(graph, base, State(), names)
      decreases Outside(graph, resolving), 2
    {
      var values := [];
      for k := 0 to |names|
        invariant InScope(graph, base, State()) && resolving == old(resolving) && resolutionDepth == old(resolutionDepth)
        invariant EvalAll(graph, base, resolving, names[..k]) == Ok(values)
        invariant forall n :: n in resolutionCache && n in old(resolving) ==> n in old(resolutionCache)
        invariant Grows(old(State()), State()) && AllAtHand(graph, base, State(), names[..k])
      {
        ghost var before := State();
        var r := GetInner(names[k], base);
        if !r.Ok? {
          EarlyError(graph, base, resolving, names, k);
          return Failure(r);
        }
        OneMore(graph, base, resolving, names, k);
        OneMoreAtHand(graph, base, before, State(), names, k);
        values := values + [r.value];
      }
      assert names[..|names|] == names;
      return Ok(values);
    }

    method OpenScope()
      requires Idle()
      modifies this
      ensures InScope(graph, old(resources), State()) && resolutionDepth == 1
      ensures resolving == [] && resources == old(resources) && called == []
    {
      resolutionDepth := resolutionDepth + 1;
      called := [];
      forall n
        ensures EntrySound(graph, resources, State(), n) && EntryAgrees(resources, State(), n)
      {
      }
    }

    method CloseScope()
      requires resolutionDepth == 1 && resolving == [] && Closed(graph) && CompletedOnce(graph, State())
      modifies this
      ensures Idle() && resources == old(resources) && called == old(called)
    {
      resolutionDepth := resolutionDepth - 1;
      if resolutionDepth == 0 {
        resolutionCache := map[];
      }
    }

    /** The resources of one step, requested in order inside one scope, so they share what they depend on. */
    method ResolveStep(names: seq<string>) returns (args: Result<seq<V>>)
      requires Idle() && forall k :: 0 <= k < |names| ==> names[k] in graph
      modifies this
      ensures args == EvalAll(graph, old(resources), [], names)
      ensures Idle() && Distinct(called)
      ensures args.Ok? ==> forall k :: 0 <= k < |names| && graph[names[k]].cache ==> names[k] in resources
      ensures forall n :: n in old(resources) ==> n in resources && resources[n] == old(resources)[n]
      ensures forall n :: n in resources && n !in old(resources) ==>
                n in graph && graph[n].cache && Known(graph, old(resources), n, resources[n])
      ensures old(Honest(graph, resources)) ==>
                && Honest(graph, resources)
                && (args.Ok? <==> EvalAll(graph, map[], [], names).Ok?)
                && (args.Ok? ==> args == EvalAll(graph, map[], [], names))
    {
      ghost var base := resources;
      OpenScope();
      args := ResolveAll(names, base);
      LeftBehind(graph, base, State());
      forall k | 0 <= k < |names| && args.Ok? && graph[names[k]].cache
        ensures names[k] in resources
      {
        AtHandIsKept(graph, base, State(), names[k]);
      }
      CloseScope();
      if Honest(graph, base) {
        AllTransparent(graph, base, names);
      }
    }

    /** A request from outside: opens the scope, resolves, and closes it whatever happened. */
    method Get(name: string) returns (r: Result<V>)
      requires Idle() && name in graph
      modifies this
      ensures r == Eval(graph, old(resources), [], name)
      ensures Idle() && Distinct(called)
      ensures r.Ok? && graph[name].cache ==> name in resources && resources[name] == r.value
      ensures graph[name].cache && name in old(resources) ==> called == [] && r == Ok(old(resources)[name])
      ensures forall n :: n in old(resources) ==> n in resources && resources[n] == old(resources)[n]
      ensures forall n :: n in resources && n !in old(resources) ==>
                n in graph && graph[n].cache && Known(graph, old(resources), n, resources[n])
      ensures old(Honest(graph, resources)) ==>
                && Honest(graph, resources)
                && (r.Ok? <==> Eval(graph, map[], [], name).Ok?)
                && (r.Ok? ==> r == Eval(graph, map[], [], name))
    {
      ghost var base := resources;
      OpenScope();
      r := GetInner(name, base);
      LeftBehind(graph, base, State());
      if r.Ok? && graph[name].cache {
        AtHandIsKept(graph, base, State(), name);
      }
      if r.Ok? && name in resources && name !in base {
        FoundIsEval(graph, base, [], name, resources[name]);
      }
      CloseScope();
      if Honest(graph, base) {
        CachedValuesAreTransparent(graph, base, name);
      }
    }
  }

  /** Honest cached values do not change what a list of requests gives. */
  lemma {:induction false} AllTransparent<V>(g: Graph<V>, base: map<string, V>, names: seq<string>)
    requires Closed(g) && Honest(g, base) && forall k :: 0 <= k < |names| ==> names[k] in g
    ensures EvalAll(g, base, [], names).Ok? <==> EvalAll(g, map[], [], names).Ok?
    ensures EvalAll(g, base, [], names).Ok? ==> EvalAll(g, base, [], names) == EvalAll(g, map[], [], names)
    decreases |names|
  {
    if names != [] {
      var k := |names| - 1;
      AllTransparent(g, base, names[..k]);
      CachedValuesAreTransparent(g, base, names[k]);
    }
  }

  /** Every name is in the graph and the chain leads to it. */
  ghost predicate AllReached<V>(g: Graph<V>, base: map<string, V>, stack: seq<string>, names: seq<string>) {
    forall k :: 0 <= k < |names| ==> names[k] in g && LeadsTo(g, base, stack, names[k])
  }

  lemma DependenciesReached<V>(g: Graph<V>, base: map<string, V>, chain: seq<string>, name: string)
    requires Closed(g) && name in g && !Cut(g, base, name) && LeadsTo(g, base, chain, name)
    ensures AllReached(g, base, chain + [name], g[name].deps)
  {
    forall k | 0 <= k < |g[name].deps|
      ensures LeadsTo(g, base, chain + [name], g[name].deps[k])
    {
      LeadsOn(g, base, chain, name, g[name].deps[k]);
    }
  }

  lemma OneMore<V>(g: Graph<V>, base: map<string, V>, stack: seq<string>, names: seq<string>, k: nat)
    requires Closed(g) && k < |names| && forall j :: 0 <= j < |names| ==> names[j] in g
    requires EvalAll(g, base, stack, names[..k]).Ok? && Eval(g, base, stack, names[k]).Ok?
    ensures EvalAll(g, base, stack, names[..k + 1]) ==
            Ok(EvalAll(g, base, stack, names[..k]).value + [Eval(g, base, stack, names[k]).value])
  {
    assert names[..k + 1][..k] == names[..k];
  }

  /** The first error in a list of dependencies is the error of the list. */
  lemma {:induction false} EarlyError<V>(g: Graph<V>, base: map<string, V>, stack: seq<string>, names: seq<string>, k: nat)
    requires Closed(g) && k < |names| && forall j :: 0 <= j < |names| ==> names[j] in g
    requires EvalAll(g, base, stack, names[..k]).Ok? && !Eval(g, base, stack, names[k]).Ok?
    ensures EvalAll(g, base, stack, names) == Failure(Eval(g, base, stack, names[k]))
    decreases |names|
  {
    if k + 1 < |names| {
      var before := names[..|names| - 1];
      assert before[..k] == names[..k];
      EarlyError(g, base, stack, before, k);
    }
  }
}
