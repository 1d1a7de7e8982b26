/**
 * What a resource is worth without any caching: its dependencies are evaluated in order, each time anew, then
 * its factory is called. `base` holds the values already materialised when the request comes in; a cached
 * resource found there is not evaluated.
 */
module Resources {
  import opened Options

  /** A factory may fail. A name stands for one descriptor. */
  datatype Resource<!V> = Resource(deps: seq<string>, cache: bool, make: seq<V> -> Option<V>)

  type Graph<!V> = map<string, Resource<V>>

  datatype Result<+T> = Ok(value: T) | Circular(chain: seq<string>) | FactoryFailed(name: string)

  function Failure<T, U>(r: Result<T>): Result<U>
    requires !r.Ok?
  {
    match r
    case Circular(chain) => Circular(chain)
    case FactoryFailed(name) => FactoryFailed(name)
  }

  ghost predicate Closed<V>(g: Graph<V>) {
    forall n, k :: n in g && 0 <= k < |g[n].deps| ==> g[n].deps[k] in g
  }

  ghost predicate Cut<V>(g: Graph<V>, base: map<string, V>, n: string)
    requires n in g
  {
    g[n].cache && n in base
  }

  // ----- evaluation with the chain of resources being resolved -----

  ghost function Outside<V>(g: Graph<V>, stack: seq<string>): nat { |g.Keys - set n | n in stack| }

  lemma PushShrinks<V>(g: Graph<V>, stack: seq<string>, n: string)
    requires n in g && n !in stack
    ensures Outside(g, stack + [n]) < Outside(g, stack)
  {
    assert g.Keys - (set m | m in stack) == (g.Keys - set m | m in stack + [n]) + {n};
  }

  ghost function Eval<V>(g: Graph<V>, base: map<string, V>, stack: seq<string>, n: string): Result<V>
    requires Closed(g) && n in g
    decreases Outside(g, stack), 1, 0
  {
    if n in stack then Circular(stack + [n])
    else if Cut(g, base, n) then Ok(base[n])
    else
      PushShrinks(g, stack, n);
      var args := EvalAll(g, base, stack + [n], g[n].deps);
      if !args.Ok? then Failure(args)
      else match g[n].make(args.value)
        case Some(v) => Ok(v)
        case None => FactoryFailed(n)
  }

  ghost function EvalAll<V>(g: Graph<V>, base: map<string, V>, stack: seq<string>, names: seq<string>): Result<seq<V>>
    requires Closed(g) && forall k :: 0 <= k < |names| ==> names[k] in g
    decreases Outside(g, stack), 2, |names|
  {
    if names == [] then Ok([])
    else
      var k := |names| - 1;
      var args := EvalAll(g, base, stack, names[..k]);
      if !args.Ok? then args
      else
        var r := Eval(g, base, stack, names[k]);
        if r.Ok? then Ok(args.value + [r.value]) else Failure(r)
  }

  /** A name on the chain is circular, whatever is cached, and the error shows the chain. */
  lemma OnChainIsCircular<V>(g: Graph<V>, base: map<string, V>, stack: seq<string>, n: string)
    requires Closed(g) && n in g && n in stack
    ensures Eval(g, base, stack, n) == Circular(stack + [n])
  {
  }

  // ----- evaluation by depth, without a chain -----

  /** The value of n if it can be had within k levels of dependencies. */
  ghost function Within<V>(g: Graph<V>, base: map<string, V>, k: nat, n: string): Option<V>
    requires Closed(g) && n in g
    decreases k, 0
  {
    if Cut(g, base, n) then Some(base[n])
    else if k == 0 then None
    else
      match AllWithin(g, base, k - 1, g[n].deps)
      case Some(args) => g[n].make(args)
      case None => None
  }

  ghost function AllWithin<V>(g: Graph<V>, base: map<string, V>, k: nat, names: seq<string>): Option<seq<V>>
    requires Closed(g) && forall j :: 0 <= j < |names| ==> names[j] in g
    decreases k, 1, |names|
  {
    if names == [] then Some([])
    else
      var last := |names| - 1;
      match (AllWithin(g, base, k, names[..last]), Within(g, base, k, names[last]))
      case (Some(args), Some(v)) => Some(args + [v])
      case _ => None
  }

  lemma {:induction false} DeeperIsSame<V>(g: Graph<V>, base: map<string, V>, k: nat, more: nat, n: string)
    requires Closed(g) && n in g && k <= more && Within(g, base, k, n).Some?
    ensures Within(g, base, more, n) == Within(g, base, k, n)
    decreases k, 0
  {
    if !Cut(g, base, n) {
      AllDeeperIsSame(g, base, k - 1, more - 1, g[n].deps);
    }
  }

  lemma {:induction false} AllDeeperIsSame<V>(g: Graph<V>, base: map<string, V>, k: nat, more: nat, names: seq<string>)
    requires Closed(g) && k <= more && forall j :: 0 <= j < |names| ==> names[j] in g
    requires AllWithin(g, base, k, names).Some?
    ensures AllWithin(g, base, more, names) == AllWithin(g, base, k, names)
    decreases k, 1, |names|
  {
    if names != [] {
      AllDeeperIsSame(g, base, k, more, names[..|names| - 1]);
      DeeperIsSame(g, base, k, more, names[|names| - 1]);
    }
  }

  lemma {:induction false} EachWithin<V>(g: Graph<V>, base: map<string, V>, k: nat, names: seq<string>)
    requires Closed(g) && forall j :: 0 <= j < |names| ==> names[j] in g
    requires AllWithin(g, base, k, names).Some?
    ensures forall j :: 0 <= j < |names| ==> Within(g, base, k, names[j]).Some?
    decreases |names|
  {
    if names != [] {
      EachWithin(g, base, k, names[..|names| - 1]);
      assert forall j :: 0 <= j < |names| - 1 ==> names[..|names| - 1][j] == names[j];
    }
  }

  /** The least depth at which n has a value. */
  lemma {:induction false} LeastDepth<V>(g: Graph<V>, base: map<string, V>, k: nat, n: string) returns (least: nat)
    requires Closed(g) && n in g && Within(g, base, k, n).Some?
    ensures least <= k && Within(g, base, least, n) == Within(g, base, k, n)
    ensures least > 0 ==> Within(g, base, least - 1, n).None?
    decreases k
  {
    least := k;
    if k > 0 && Within(g, base, k - 1, n).Some? {
      DeeperIsSame(g, base, k - 1, k, n);
      least := LeastDepth(g, base, k - 1, n);
    }
  }

  // ----- the two evaluations agree -----

  /** A value found along a chain is the value at some depth. */
  lemma {:induction false} EvalHasDepth<V>(g: Graph<V>, base: map<string, V>, stack: seq<string>, n: string)
    requires Closed(g) && n in g && Eval(g, base, stack, n).Ok?
    ensures Within(g, base, Outside(g, stack), n) == Some(Eval(g, base, stack, n).value)
    decreases Outside(g, stack), 1, 0
  {
    if !Cut(g, base, n) {
      PushShrinks(g, stack, n);
      EvalAllHasDepth(g, base, stack + [n], g[n].deps);
      AllDeeperIsSame(g, base, Outside(g, stack + [n]), Outside(g, stack) - 1, g[n].deps);
    }
  }

  lemma {:induction false} EvalAllHasDepth<V>(g: Graph<V>, base: map<string, V>, stack: seq<string>, names: seq<string>)
    requires Closed(g) && forall k :: 0 <= k < |names| ==> names[k] in g
    requires EvalAll(g, base, stack, names).Ok?
    ensures AllWithin(g, base, Outside(g, stack), names) == Some(EvalAll(g, base, stack, names).value)
    decreases Outside(g, stack), 2, |names|
  {
    if names != [] {
      EvalAllHasDepth(g, base, stack, names[..|names| - 1]);
      EvalHasDepth(g, base, stack, names[|names| - 1]);
    }
  }

  /** Nothing on the chain has a value within depth k. */
  ghost predicate Apart<V>(g: Graph<V>, base: map<string, V>, stack: seq<string>, k: nat)
    requires Closed(g)
  {
    forall j :: 0 <= j < |stack| ==> stack[j] in g && Within(g, base, k, stack[j]).None?
  }

  lemma ApartLower<V>(g: Graph<V>, base: map<string, V>, stack: seq<string>, k: nat, less: nat)
    requires Closed(g) && Apart(g, base, stack, k) && less <= k
    ensures Apart(g, base, stack, less)
  {
    forall j | 0 <= j < |stack|
      ensures Within(g, base, less, stack[j]).None?
    {
      if Within(g, base, less, stack[j]).Some? {
        DeeperIsSame(g, base, less, k, stack[j]);
      }
    }
  }

  /** A value at some depth is found along every chain that lies deeper. */
  lemma {:induction false} DepthIsEval<V>(g: Graph<V>, base: map<string, V>, k: nat, stack: seq<string>, n: string)
    requires Closed(g) && n in g && Within(g, base, k, n).Some?
    requires k > 0 ==> Within(g, base, k - 1, n).None?
    requires Apart(g, base, stack, k)
    ensures Eval(g, base, stack, n) == Ok(Within(g, base, k, n).value)
    decreases k, 0
  {
    if !Cut(g, base, n) {
      ApartLower(g, base, stack, k, k - 1);
      AllDepthsAreEval(g, base, k - 1, stack + [n], g[n].deps);
    }
  }

  lemma {:induction false} AllDepthsAreEval<V>(
    g: Graph<V>, base: map<string, V>, k: nat, stack: seq<string>, names: seq<string>)
    requires Closed(g) && forall j :: 0 <= j < |names| ==> names[j] in g
    requires AllWithin(g, base, k, names).Some? && Apart(g, base, stack, k)
    ensures EvalAll(g, base, stack, names) == Ok(AllWithin(g, base, k, names).value)
    decreases k, 1, |names|
  {
    if names != [] {
      var n := names[|names| - 1];
      AllDepthsAreEval(g, base, k, stack, names[..|names| - 1]);
      var least := LeastDepth(g, base, k, n);
      ApartLower(g, base, stack, k, least);
      DepthIsEval(g, base, least, stack, n);
    }
  }

  // ----- chains -----

  /** Resource a is evaluated, not taken from `base`, and depends on b. */
  ghost predicate Link<V>(g: Graph<V>, base: map<string, V>, a: string, b: string) {
    a in g && !Cut(g, base, a) && b in g[a].deps
  }

  /** Each name on the chain links to the next, and the last one to n. */
  ghost predicate LeadsTo<V>(g: Graph<V>, base: map<string, V>, stack: seq<string>, n: string) {
    stack == [] || (Link(g, base, stack[|stack| - 1], n) && LeadsTo(g, base, stack[..|stack| - 1], stack[|stack| - 1]))
  }

  lemma LeadsOn<V>(g: Graph<V>, base: map<string, V>, stack: seq<string>, n: string, next: string)
    requires LeadsTo(g, base, stack, n) && Link(g, base, n, next)
    ensures LeadsTo(g, base, stack + [n], next)
  {
    assert (stack + [n])[..|stack|] == stack;
  }

  lemma LinkLiesDeeper<V>(g: Graph<V>, base: map<string, V>, a: string, b: string, k: nat)
    requires Closed(g) && Link(g, base, a, b) && Within(g, base, k, a).Some?
    ensures k > 0 && b in g && Within(g, base, k - 1, b).Some?
  {
    EachWithin(g, base, k - 1, g[a].deps);
    var j :| 0 <= j < |g[a].deps| && g[a].deps[j] == b;
  }

  lemma {:induction false} ChainLiesDeeper<V>(g: Graph<V>, base: map<string, V>, stack: seq<string>, n: string, k: nat)
    requires Closed(g) && n in g && LeadsTo(g, base, stack, n)
    requires k > 0 ==> Within(g, base, k - 1, n).None?
    ensures Apart(g, base, stack, k)
    decreases |stack|
  {
    if stack != [] {
      var last := stack[|stack| - 1];
      if Within(g, base, k, last).Some? {
        LinkLiesDeeper(g, base, last, n, k);
        assert false;
      }
      if k > 0 && Within(g, base, k - 1, last).Some? {
        DeeperIsSame(g, base, k - 1, k, last);
      }
      ChainLiesDeeper(g, base, stack[..|stack| - 1], last, k);
    }
  }

  /** The value of a resource does not depend on the chain through which it was first asked for. */
  lemma ChainIndependent<V>(g: Graph<V>, base: map<string, V>, first: seq<string>, stack: seq<string>, n: string)
    requires Closed(g) && n in g && Eval(g, base, first, n).Ok? && LeadsTo(g, base, stack, n)
    ensures Eval(g, base, stack, n) == Eval(g, base, first, n)
  {
    EvalHasDepth(g, base, first, n);
    var k := LeastDepth(g, base, Outside(g, first), n);
    ChainLiesDeeper(g, base, stack, n, k);
    DepthIsEval(g, base, k, stack, n);
  }

  // ----- cycles -----

  ghost predicate Path<V>(g: Graph<V>, base: map<string, V>, path: seq<string>) {
    path != [] && forall j :: 0 <= j < |path| - 1 ==> Link(g, base, path[j], path[j + 1])
  }

  lemma {:induction false} ChainIsPath<V>(g: Graph<V>, base: map<string, V>, stack: seq<string>, n: string)
    requires LeadsTo(g, base, stack, n)
    ensures Path(g, base, stack + [n])
    decreases |stack|
  {
    if stack != [] {
      var before, last := stack[..|stack| - 1], stack[|stack| - 1];
      ChainIsPath(g, base, before, last);
      assert before + [last] == stack;
    }
  }

  /** From n, following dependencies of resources that are evaluated, some name comes up twice. */
  ghost predicate Cyclic<V>(g: Graph<V>, base: map<string, V>, n: string) {
    exists path, i, j :: Path(g, base, path) && path[0] == n && 0 <= i < j < |path| && path[i] == path[j]
  }

  /** The chain is a path from the request down to a name that is already on it. */
  ghost predicate Closes<V>(g: Graph<V>, base: map<string, V>, stack: seq<string>, chain: seq<string>) {
    stack <= chain && Path(g, base, chain) && exists i :: 0 <= i < |chain| - 1 && chain[i] == chain[|chain| - 1]
  }

  lemma ClosesEarlier<V>(g: Graph<V>, base: map<string, V>, stack: seq<string>, m: string, chain: seq<string>)
    requires Closes(g, base, stack + [m], chain)
    ensures Closes(g, base, stack, chain)
  {
    assert chain[..|stack|] == (stack + [m])[..|stack|] == stack;
  }

  lemma {:induction false} CircularIsCyclic<V>(g: Graph<V>, base: map<string, V>, stack: seq<string>, n: string)
    requires Closed(g) && n in g && LeadsTo(g, base, stack, n) && Eval(g, base, stack, n).Circular?
    ensures Closes(g, base, stack + [n], Eval(g, base, stack, n).chain)
    decreases Outside(g, stack), 1, 0
  {
    if n in stack {
      ChainIsPath(g, base, stack, n);
      var i :| 0 <= i < |stack| && stack[i] == n;
      assert (stack + [n])[i] == n;
    } else {
      PushShrinks(g, stack, n);
      AllCircularIsCyclic(g, base, stack, n, g[n].deps);
    }
  }

  lemma {:induction false} AllCircularIsCyclic<V>(
    g: Graph<V>, base: map<string, V>, stack: seq<string>, n: string, names: seq<string>)
    requires Closed(g) && n in g && !Cut(g, base, n) && names <= g[n].deps && LeadsTo(g, base, stack, n)
    requires forall k :: 0 <= k < |names| ==> names[k] in g
    requires EvalAll(g, base, stack + [n], names).Circular?
    ensures Closes(g, base, stack + [n], EvalAll(g, base, stack + [n], names).chain)
    decreases Outside(g, stack + [n]), 2, |names|
  {
    var k := |names| - 1;
    if EvalAll(g, base, stack + [n], names[..k]).Ok? {
      assert names[k] == g[n].deps[k];
      LeadsOn(g, base, stack, n, names[k]);
      CircularIsCyclic(g, base, stack + [n], names[k]);
      ClosesEarlier(g, base, stack + [n], names[k], Eval(g, base, stack + [n], names[k]).chain);
    } else {
      AllCircularIsCyclic(g, base, stack, n, names[..k]);
    }
  }

  /** Along a path the least depth falls, so a resource above a cycle has no value at any depth. */
  lemma {:induction false} PathLiesDeeper<V>(g: Graph<V>, base: map<string, V>, path: seq<string>, i: nat, j: nat, k: nat)
    requires Closed(g) && Path(g, base, path) && i < j < |path| && path[i] in g
    requires Within(g, base, k, path[i]).Some?
    ensures path[j] in g && k >= j - i && Within(g, base, k - (j - i), path[j]).Some?
    decreases j - i
  {
    assert Link(g, base, path[i], path[i + 1]);
    LinkLiesDeeper(g, base, path[i], path[i + 1], k);
    if i + 1 < j {
      PathLiesDeeper(g, base, path, i + 1, j, k - 1);
    }
  }

  lemma {:induction false} NoValueOnCycle<V>(g: Graph<V>, base: map<string, V>, path: seq<string>, i: nat, j: nat, k: nat)
    requires Closed(g) && Path(g, base, path) && i < j < |path| && path[i] == path[j] && path[i] in g
    ensures Within(g, base, k, path[i]).None?
    decreases k
  {
    if Within(g, base, k, path[i]).Some? {
      PathLiesDeeper(g, base, path, i, j, k);
      NoValueOnCycle(g, base, path, i, j, k - (j - i));
    }
  }

  lemma CyclicHasNoValue<V>(g: Graph<V>, base: map<string, V>, n: string, k: nat)
    requires Closed(g) && n in g && Cyclic(g, base, n)
    ensures Within(g, base, k, n).None?
  {
    var path, i, j :| Path(g, base, path) && path[0] == n && 0 <= i < j < |path| && path[i] == path[j];
    if Within(g, base, k, n).Some? {
      if i > 0 {
        PathLiesDeeper(g, base, path, 0, i, k);
      }
      NoValueOnCycle(g, base, path, i, j, k - i);
    }
  }

  ghost predicate NeverFails<V(!new)>(g: Graph<V>) {
    forall n, args :: n in g ==> g[n].make(args).Some?
  }

  /**
   * The circular-dependency error is raised only for a request above a cycle; above a cycle no value is
   * returned; and where no factory fails the error is raised exactly there.
   */
  lemma CircularExactly<V(!new)>(g: Graph<V>, base: map<string, V>, n: string)
    requires Closed(g) && n in g
    ensures Eval(g, base, [], n).Circular? ==> Cyclic(g, base, n)
    ensures Cyclic(g, base, n) ==> !Eval(g, base, [], n).Ok?
    ensures NeverFails(g) ==> (Eval(g, base, [], n).Circular? <==> Cyclic(g, base, n))
  {
    var r := Eval(g, base, [], n);
    if r.Circular? {
      CircularIsCyclic(g, base, [], n);
      var i :| 0 <= i < |r.chain| - 1 && r.chain[i] == r.chain[|r.chain| - 1];
      assert Path(g, base, r.chain) && r.chain[0] == n;
    }
    if Cyclic(g, base, n) && r.Ok? {
      EvalHasDepth(g, base, [], n);
      CyclicHasNoValue(g, base, n, Outside(g, []));
    }
    if NeverFails(g) {
      SoundFactories(g, base, [], n);
    }
  }

  lemma {:induction false} SoundFactories<V(!new)>(g: Graph<V>, base: map<string, V>, stack: seq<string>, n: string)
    requires Closed(g) && n in g && NeverFails(g)
    ensures !Eval(g, base, stack, n).FactoryFailed?
    decreases Outside(g, stack), 1, 0
  {
    if n !in stack && !Cut(g, base, n) {
      PushShrinks(g, stack, n);
      AllSoundFactories(g, base, stack + [n], g[n].deps);
    }
  }

  lemma {:induction false} AllSoundFactories<V(!new)>(g: Graph<V>, base: map<string, V>, stack: seq<string>, names: seq<string>)
    requires Closed(g) && NeverFails(g) && forall k :: 0 <= k < |names| ==> names[k] in g
    ensures !EvalAll(g, base, stack, names).FactoryFailed?
    decreases Outside(g, stack), 2, |names|
  {
    if names != [] {
      AllSoundFactories(g, base, stack, names[..|names| - 1]);
      SoundFactories(g, base, stack, names[|names| - 1]);
    }
  }

  // ----- materialised values that the graph itself would give -----

  /** Every cached value is the one that evaluation from nothing gives. */
  ghost predicate Honest<V>(g: Graph<V>, base: map<string, V>)
    requires Closed(g)
  {
    forall m :: m in base && m in g && g[m].cache ==> Within(g, map[], |g|, m) == Some(base[m])
  }

  /** No more levels are ever needed than there are resources. */
  lemma DepthIsBounded<V>(g: Graph<V>, base: map<string, V>, k: nat, n: string)
    requires Closed(g) && n in g && Within(g, base, k, n).Some?
    ensures Within(g, base, |g|, n) == Within(g, base, k, n)
  {
    var least := LeastDepth(g, base, k, n);
    DepthIsEval(g, base, least, [], n);
    EvalHasDepth(g, base, [], n);
    assert g.Keys - (set m | m in []) == g.Keys;
  }

  lemma {:induction false} HonestBaseAddsNothing<V>(g: Graph<V>, base: map<string, V>, k: nat, n: string)
    requires Closed(g) && Honest(g, base) && n in g && Within(g, base, k, n).Some?
    ensures Within(g, map[], |g|, n) == Within(g, base, k, n)
    decreases k, 0
  {
    if !Cut(g, base, n) {
      AllHonestBaseAddsNothing(g, base, k - 1, g[n].deps);
      assert Within(g, map[], |g| + 1, n) == Within(g, base, k, n);
      DepthIsBounded(g, map[], |g| + 1, n);
    }
  }

  lemma {:induction false} AllHonestBaseAddsNothing<V>(g: Graph<V>, base: map<string, V>, k: nat, names: seq<string>)
    requires Closed(g) && Honest(g, base) && forall j :: 0 <= j < |names| ==> names[j] in g
    requires AllWithin(g, base, k, names).Some?
    ensures AllWithin(g, map[], |g|, names) == AllWithin(g, base, k, names)
    decreases k, 1, |names|
  {
    if names != [] {
      AllHonestBaseAddsNothing(g, base, k, names[..|names| - 1]);
      HonestBaseAddsNothing(g, base, k, names[|names| - 1]);
    }
  }

  lemma {:induction false} HonestBaseHidesNothing<V>(g: Graph<V>, base: map<string, V>, k: nat, n: string)
    requires Closed(g) && Honest(g, base) && n in g && Within(g, map[], k, n).Some?
    ensures Within(g, base, k, n) == Within(g, map[], k, n)
    decreases k, 0
  {
    if Cut(g, base, n) {
      DepthIsBounded(g, map[], k, n);
    } else {
      AllHonestBaseHidesNothing(g, base, k - 1, g[n].deps);
    }
  }

  lemma {:induction false} AllHonestBaseHidesNothing<V>(g: Graph<V>, base: map<string, V>, k: nat, names: seq<string>)
    requires Closed(g) && Honest(g, base) && forall j :: 0 <= j < |names| ==> names[j] in g
    requires AllWithin(g, map[], k, names).Some?
    ensures AllWithin(g, base, k, names) == AllWithin(g, map[], k, names)
    decreases k, 1, |names|
  {
    if names != [] {
      AllHonestBaseHidesNothing(g, base, k, names[..|names| - 1]);
      HonestBaseHidesNothing(g, base, k, names[|names| - 1]);
    }
  }

  /** With honest cached values a request has a value exactly when evaluation from nothing has it. */
  lemma CachedValuesAreTransparent<V>(g: Graph<V>, base: map<string, V>, n: string)
    requires Closed(g) && Honest(g, base) && n in g
    ensures Eval(g, base, [], n).Ok? <==> Eval(g, map[], [], n).Ok?
    ensures Eval(g, base, [], n).Ok? ==> Eval(g, base, [], n) == Eval(g, map[], [], n)
  {
    if Eval(g, base, [], n).Ok? {
      EvalHasDepth(g, base, [], n);
      HonestBaseAddsNothing(g, base, Outside(g, []), n);
      var k := LeastDepth(g, map[], |g|, n);
      DepthIsEval(g, map[], k, [], n);
    }
    if Eval(g, map[], [], n).Ok? {
      EvalHasDepth(g, map[], [], n);
      HonestBaseHidesNothing(g, base, Outside(g, []), n);
      var k := LeastDepth(g, base, Outside(g, []), n);
      DepthIsEval(g, base, k, [], n);
    }
  }

  /** A value obtained on top of honest values is honest. */
  lemma HonestValue<V>(g: Graph<V>, base: map<string, V>, stack: seq<string>, n: string)
    requires Closed(g) && Honest(g, base) && n in g && Eval(g, base, stack, n).Ok?
    ensures Within(g, map[], |g|, n) == Some(Eval(g, base, stack, n).value)
  {
    EvalHasDepth(g, base, stack, n);
    HonestBaseAddsNothing(g, base, Outside(g, stack), n);
  }
}
