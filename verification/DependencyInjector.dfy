/** Building classes whose constructor parameters are resolved by name. */
module DependencyInjectorModule {

  type Name = string

  /** An object given from outside, or an instance with the arguments it was constructed with. */
  datatype Object = External(id: nat) | Instance(klass: Name, args: map<Name, Object>)

  type Graph = map<Name, seq<Name>>

  datatype Result = Built(instances: map<Name, Object>) | Missing(names: set<Name>) | Cyclic(names: set<Name>)

  /** Injectables have no dependencies, classes depend on their parameters. */
  function DependencyGraph(injectables: set<Name>, classes: Graph): Graph {
    (map name | name in injectables :: []) + classes
  }

  function Unknown(graph: Graph): set<Name> {
    set k, d | k in graph && d in graph[k] && d !in graph :: d
  }

  /** Every element depends on the next one, and the last on the first. */
  ghost predicate IsCycle(graph: Graph, cycle: seq<Name>) {
    && cycle != []
    && forall i | 0 <= i < |cycle| ::
         cycle[i] in graph && cycle[if i + 1 < |cycle| then i + 1 else 0] in graph[cycle[i]]
  }

  /** Every element of the order comes after all of its dependencies. */
  ghost predicate Ordered(graph: Graph, order: seq<Name>) {
    order == [] ||
    (var n := |order| - 1;
     order[n] in graph && (forall d | d in graph[order[n]] :: d in order[..n]) && Ordered(graph, order[..n]))
  }

  // ----- Cycles

  function IndexOf(order: seq<Name>, x: Name): (i: nat)
    requires x in order
    ensures i < |order| && order[i] == x && x !in order[..i]
  {
    if x in order[..|order| - 1] then IndexOf(order[..|order| - 1], x) else |order| - 1
  }

  lemma {:induction false} DependsOnEarlier(graph: Graph, order: seq<Name>, x: Name, d: Name)
    requires Ordered(graph, order) && x in order && x in graph && d in graph[x]
    ensures d in order && IndexOf(order, d) < IndexOf(order, x)
    decreases |order|
  {
    var n := |order| - 1;
    if x in order[..n] {
      DependsOnEarlier(graph, order[..n], x, d);
    }
    assert d in order[..n];
  }

  /** A graph that can be put in order has no cycle. */
  lemma {:induction false} OrderedAcyclic(graph: Graph, order: seq<Name>, cycle: seq<Name>)
    requires Ordered(graph, order) && forall k | k in graph :: k in order
    ensures !IsCycle(graph, cycle)
  {
    if IsCycle(graph, cycle) {
      Descending(graph, order, cycle, |cycle| - 1);
      DependsOnEarlier(graph, order, cycle[|cycle| - 1], cycle[0]);
    }
  }

  lemma {:induction false} Descending(graph: Graph, order: seq<Name>, cycle: seq<Name>, i: nat)
    requires Ordered(graph, order) && IsCycle(graph, cycle) && i < |cycle| && cycle[0] in order
    ensures cycle[i] in order && IndexOf(order, cycle[i]) <= IndexOf(order, cycle[0])
    decreases i
  {
    if i > 0 {
      Descending(graph, order, cycle, i - 1);
      DependsOnEarlier(graph, order, cycle[i - 1], cycle[i]);
    }
  }

  ghost predicate DependsOn(graph: Graph, k: Name, others: set<Name>) {
    k in graph && exists d | d in graph[k] :: d in others
  }

  /** Everything in `stuck` depends on something in `stuck`. */
  ghost predicate Stuck(graph: Graph, stuck: set<Name>) {
    forall k | k in stuck :: DependsOn(graph, k, stuck)
  }

  ghost predicate Chain(graph: Graph, stuck: set<Name>, path: seq<Name>) {
    && (forall i | 0 <= i < |path| :: path[i] in stuck && path[i] in graph)
    && (forall i, j | 0 <= i && j == i + 1 < |path| :: path[j] in graph[path[i]])
  }

  lemma {:induction false} CloseCycle(graph: Graph, stuck: set<Name>, path: seq<Name>, i: nat)
    requires Chain(graph, stuck, path) && i < |path| && path[i] in graph[path[|path| - 1]]
    ensures IsCycle(graph, path[i..]) && forall x | x in path[i..] :: x in stuck
  {
    var cycle := path[i..];
    forall j | 0 <= j < |cycle|
      ensures cycle[j] in graph && cycle[if j + 1 < |cycle| then j + 1 else 0] in graph[cycle[j]]
    {
      assert cycle[j] == path[i + j];
      if j + 1 < |cycle| { assert path[i + j + 1] in graph[path[i + j]]; }
    }
  }

  lemma {:induction false} LongerChain(graph: Graph, stuck: set<Name>, path: seq<Name>, next: Name)
    requires path != [] && Chain(graph, stuck, path) && next in stuck && next in graph
      && next in graph[path[|path| - 1]]
    ensures Chain(graph, stuck, path + [next])
  {
    var longer := path + [next];
    forall i, j | 0 <= i && j == i + 1 < |longer| ensures longer[j] in graph[longer[i]] {
      if j < |path| { assert path[j] in graph[path[i]]; }
    }
  }

  function Elements(path: seq<Name>): set<Name> {
    set x | x in path
  }

  lemma {:induction false} NextStuck(graph: Graph, stuck: set<Name>, path: seq<Name>) returns (next: Name)
    requires Stuck(graph, stuck) && path != [] && Chain(graph, stuck, path)
    ensures path[|path| - 1] in graph && next in graph[path[|path| - 1]] && next in stuck && next in graph
  {
    var last := path[|path| - 1];
    hide DependsOn;
    assert DependsOn(graph, last, stuck);
    next := Dependency(graph, stuck, last);
    assert DependsOn(graph, next, stuck);
    var _ := Dependency(graph, stuck, next);
  }

  lemma {:induction false} Dependency(graph: Graph, stuck: set<Name>, k: Name) returns (next: Name)
    requires DependsOn(graph, k, stuck)
    ensures k in graph && next in graph[k] && next in stuck
  {
    next :| next in graph[k] && next in stuck;
  }

  /** Following dependencies that never leave `stuck` must come back to where it has been. */
  lemma {:induction false} FindCycle(graph: Graph, stuck: set<Name>, path: seq<Name>) returns (cycle: seq<Name>)
    requires Stuck(graph, stuck) && path != [] && Chain(graph, stuck, path)
    ensures IsCycle(graph, cycle) && forall x | x in cycle :: x in stuck
    decreases |stuck - Elements(path)|
  {
    hide Chain, IsCycle, Stuck;
    var next := NextStuck(graph, stuck, path);
    if next in path {
      var i :| 0 <= i < |path| && path[i] == next;
      CloseCycle(graph, stuck, path, i);
      cycle := path[i..];
    } else {
      assert Elements(path + [next]) == Elements(path) + {next};
      assert stuck - (Elements(path) + {next}) == stuck - Elements(path) - {next};
      LongerChain(graph, stuck, path, next);
      cycle := FindCycle(graph, stuck, path + [next]);
    }
  }

  // ----- The build

  function Filter(dependencies: seq<Name>, done: set<Name>): seq<Name> {
    if dependencies == [] then []
    else (if dependencies[0] in done then [] else [dependencies[0]]) + Filter(dependencies[1..], done)
  }

  lemma {:induction false} FilterMember(dependencies: seq<Name>, done: set<Name>, d: Name)
    ensures d in Filter(dependencies, done) <==> d in dependencies && d !in done
    decreases |dependencies|
  {
    if dependencies != [] {
      FilterMember(dependencies[1..], done, d);
      assert dependencies == [dependencies[0]] + dependencies[1..];
    }
  }

  lemma {:induction false} FilterTwice(dependencies: seq<Name>, a: set<Name>, b: set<Name>)
    ensures Filter(Filter(dependencies, a), b) == Filter(dependencies, a + b)
    decreases |dependencies|
  {
    if dependencies != [] {
      FilterTwice(dependencies[1..], a, b);
      var d, rest := dependencies[0], Filter(dependencies[1..], a);
      assert ([d] + rest)[1..] == rest && [] + rest == rest;
    }
  }

  /** The object a name stands for: what was built first, then what was given. */
  function Lookup(instances: map<Name, Object>, injectables: map<Name, Object>, name: Name): Object
    requires name in instances || name in injectables
  {
    if name in instances then instances[name] else injectables[name]
  }

  function Arguments(parameters: seq<Name>, instances: map<Name, Object>, injectables: map<Name, Object>):
    map<Name, Object>
  {
    map d | d in parameters && (d in instances || d in injectables) :: Lookup(instances, injectables, d)
  }

  /** The instance of a class that was constructed with these objects. */
  ghost predicate IsInstance(graph: Graph, instances: map<Name, Object>, injectables: map<Name, Object>, name: Name)
    requires name in graph && name in instances
  {
    && (forall d | d in graph[name] :: d in instances || d in injectables)
    && instances[name] == Instance(name, Arguments(graph[name], instances, injectables))
  }

  /** The constructor calls: classes without a given object, each once, after the classes it depends on. */
  ghost predicate Constructed(graph: Graph, injectables: set<Name>, constructed: seq<Name>) {
    constructed == [] ||
    (var n := |constructed| - 1;
     var name := constructed[n];
     && name in graph && name !in injectables && name !in constructed[..n]
     && (forall d | d in graph[name] :: d in constructed[..n] || d in injectables)
     && Constructed(graph, injectables, constructed[..n]))
  }

  /** The names `done` were resolved in this order. */
  ghost predicate Sorted(graph: Graph, order: seq<Name>, done: set<Name>) {
    Ordered(graph, order) && done <= graph.Keys && forall x :: x in order <==> x in done
  }

  /** The names `done` have their objects: the given one, or an instance made of resolved parameters. */
  ghost predicate Resolved(graph: Graph, classes: Graph, injectables: map<Name, Object>, instances: map<Name, Object>,
      done: set<Name>)
  {
    && instances.Keys == done * classes.Keys && done <= graph.Keys
    && (forall k | k in done :: k in instances || k in injectables)
    && forall k | k in instances ::
         if k in injectables then instances[k] == injectables[k] else IsInstance(graph, instances, injectables, k)
  }

  ghost predicate Calls(graph: Graph, injectables: set<Name>, constructed: seq<Name>, done: set<Name>) {
    Constructed(graph, injectables, constructed) && forall x :: x in constructed <==> x in done && x !in injectables
  }

  lemma {:induction false} SortedNext(graph: Graph, order: seq<Name>, done: set<Name>, name: Name)
    requires Sorted(graph, order, done) && name in graph && forall d | d in graph[name] :: d in done
    ensures Sorted(graph, order + [name], done + {name})
    ensures forall k, d | k in done && k in graph && d in graph[k] :: d in done
  {
    assert (order + [name])[..|order|] == order;
    forall k, d | k in done && k in graph && d in graph[k] ensures d in done { DependsOnEarlier(graph, order, k, d); }
  }

  lemma {:induction false} CallsNext(graph: Graph, injectables: set<Name>, constructed: seq<Name>, done: set<Name>,
      name: Name)
    requires Calls(graph, injectables, constructed, done) && name in graph && name !in done
    requires forall d | d in graph[name] :: d in done
    ensures name in injectables ==> Calls(graph, injectables, constructed, done + {name})
    ensures name !in injectables ==> Calls(graph, injectables, constructed + [name], done + {name})
  {
    assert (constructed + [name])[..|constructed|] == constructed;
  }

  lemma {:induction false} SameArguments(parameters: seq<Name>, instances: map<Name, Object>,
      injectables: map<Name, Object>, name: Name, obj: Object)
    requires name !in parameters
    ensures Arguments(parameters, instances[name := obj], injectables) == Arguments(parameters, instances, injectables)
  {}

  /** Resolving one more class keeps what the other instances were made of. */
  lemma {:induction false} ResolvedNext(graph: Graph, classes: Graph, injectables: map<Name, Object>,
      instances: map<Name, Object>, done: set<Name>, name: Name, obj: Object)
    requires Resolved(graph, classes, injectables, instances, done) && name in graph && name !in done && name in classes
    requires forall k, d | k in done && k in graph && d in graph[k] :: d in done
    requires forall d | d in graph[name] :: d in done
    requires if name in injectables then obj == injectables[name]
             else obj == Instance(name, Arguments(graph[name], instances, injectables))
    ensures Resolved(graph, classes, injectables, instances[name := obj], done + {name})
  {
    hide Arguments;
    var after := instances[name := obj];
    forall k | k in after
      ensures if k in injectables then after[k] == injectables[k] else IsInstance(graph, after, injectables, k)
    {
      if k !in injectables {
        SameArguments(graph[k], instances, injectables, name, obj);
        if k != name { assert IsInstance(graph, instances, injectables, k); }
      }
    }
  }

  lemma {:induction false} ResolvedInjected(graph: Graph, classes: Graph, injectables: map<Name, Object>,
      instances: map<Name, Object>, done: set<Name>, name: Name)
    requires Resolved(graph, classes, injectables, instances, done) && name in graph && name !in done
    ensures name !in instances
    ensures name !in classes && name in injectables ==> Resolved(graph, classes, injectables, instances, done + {name})
  {}

  /** What is left: the names that are not done, without their dependencies that are. */
  ghost predicate Remaining(graph: Graph, dep: Graph, done: set<Name>) {
    dep.Keys == graph.Keys - done && forall k | k in dep :: dep[k] == Filter(graph[k], done)
  }

  ghost predicate Progress(graph: Graph, classes: Graph, injectables: map<Name, Object>, instances: map<Name, Object>,
      constructed: seq<Name>, order: seq<Name>, done: set<Name>)
  {
    && Sorted(graph, order, done) && Calls(graph, injectables.Keys, constructed, done)
    && Resolved(graph, classes, injectables, instances, done)
  }

  /** Resolves one leaf: a class without a given object is constructed. */
  method BuildLeaf(ghost graph: Graph, classes: Graph, injectables: map<Name, Object>, instances: map<Name, Object>,
      constructed: seq<Name>, ghost order: seq<Name>, ghost done: set<Name>, name: Name)
    returns (instances': map<Name, Object>, constructed': seq<Name>)
    requires graph == DependencyGraph(injectables.Keys, classes)
    requires Progress(graph, classes, injectables, instances, constructed, order, done)
    requires name in graph && name !in done && forall d | d in graph[name] :: d in done
    ensures Progress(graph, classes, injectables, instances', constructed', order + [name], done + {name})
  {
    SortedNext(graph, order, done, name);
    CallsNext(graph, injectables.Keys, constructed, done, name);
    ResolvedInjected(graph, classes, injectables, instances, done, name);
    instances', constructed' := instances, constructed;
    hide Sorted, Calls, Resolved, Arguments;
    if name !in instances && name !in injectables {
      var obj := Instance(name, Arguments(classes[name], instances, injectables));
      ResolvedNext(graph, classes, injectables, instances, done, name, obj);
      instances' := instances[name := obj];
      constructed' := constructed + [name];
    } else if name in classes {
      ResolvedNext(graph, classes, injectables, instances, done, name, injectables[name]);
      instances' := instances[name := Lookup(instances, injectables, name)];
    }
  }

  function Leaves(dep: Graph): set<Name> {
    set name | name in dep && dep[name] == []
  }

  /** Resolves all leaves. */
  method BuildLeaves(ghost graph: Graph, dep: Graph, classes: Graph, injectables: map<Name, Object>,
      instances: map<Name, Object>, constructed: seq<Name>, ghost order: seq<Name>, ghost done: set<Name>,
      leaves: set<Name>)
    returns (dep': Graph, instances': map<Name, Object>, constructed': seq<Name>, ghost order': seq<Name>)
    requires graph == DependencyGraph(injectables.Keys, classes)
    requires Remaining(graph, dep, done) && Progress(graph, classes, injectables, instances, constructed, order, done)
    requires leaves == Leaves(dep)
    ensures dep' == dep - leaves
    ensures Progress(graph, classes, injectables, instances', constructed', order', done + leaves)
  {
    LeavesReady(graph, dep, done);
    hide Progress, Remaining, DependencyGraph, Leaves;
    dep', instances', constructed', order' := dep, instances, constructed, order;
    var left := leaves;
    ghost var resolved: set<Name> := {};
    assert done + {} == done;
    while left != {}
      invariant resolved + left == leaves && resolved * left == {}
      invariant dep' == dep - resolved
      invariant Progress(graph, classes, injectables, instances', constructed', order', done + resolved)
      decreases left
    {
      var name :| name in left;
      instances', constructed' :=
        BuildLeaf(graph, classes, injectables, instances', constructed', order', done + resolved, name);
      order' := order' + [name];
      OneLess(dep, done, resolved, left, name);
      dep', resolved, left := dep' - {name}, resolved + {name}, left - {name};
    }
    assert resolved == leaves;
  }

  lemma {:induction false} OneLess(dep: Graph, done: set<Name>, resolved: set<Name>, left: set<Name>, name: Name)
    requires name in left && resolved * left == {}
    ensures (dep - resolved) - {name} == dep - (resolved + {name})
    ensures done + (resolved + {name}) == done + resolved + {name}
    ensures (resolved + {name}) + (left - {name}) == resolved + left && (resolved + {name}) * (left - {name}) == {}
    ensures name !in resolved
  {
    assert name !in resolved * left;
  }

  lemma {:induction false} LeavesReady(graph: Graph, dep: Graph, done: set<Name>)
    requires Remaining(graph, dep, done)
    ensures forall name | name in Leaves(dep) ::
      name in graph && name !in done && forall d | d in graph[name] :: d in done
  {
    forall name, d | name in dep && dep[name] == [] && d in graph[name] ensures d in done {
      FilterMember(graph[name], done, d);
    }
  }

  function FilterAll(dep: Graph, leaves: set<Name>): Graph {
    map k | k in dep :: Filter(dep[k], leaves)
  }

  /** Taking the leaves out of the remaining dependencies. */
  lemma {:induction false} RemainingNext(graph: Graph, dep: Graph, done: set<Name>, leaves: set<Name>)
    requires Remaining(graph, dep, done) && leaves <= dep.Keys && leaves != {}
    ensures Remaining(graph, FilterAll(dep - leaves, leaves), done + leaves)
    ensures done + leaves <= graph.Keys + done && graph.Keys - (done + leaves) < graph.Keys - done
  {
    forall k | k in dep && k !in leaves ensures Filter(dep[k], leaves) == Filter(graph[k], done + leaves) {
      FilterTwice(graph[k], done, leaves);
    }
  }

  lemma {:induction false} Begin(graph: Graph, classes: Graph, injectables: map<Name, Object>)
    ensures Progress(graph, classes, injectables, map[], [], [], {}) && Remaining(graph, graph, {})
  {
    forall k | k in graph ensures Filter(graph[k], {}) == graph[k] { FilterNothing(graph[k]); }
  }

  lemma {:induction false} FilterNothing(dependencies: seq<Name>)
    ensures Filter(dependencies, {}) == dependencies
    decreases |dependencies|
  {
    if dependencies != [] {
      FilterNothing(dependencies[1..]);
    }
  }

  // ----- The answers

  /** A dependency of what remains is a dependency that is not done. */
  lemma {:induction false} RemainingDependencies(graph: Graph, dep: Graph, order: seq<Name>, done: set<Name>)
    requires Remaining(graph, dep, done) && Sorted(graph, order, done)
    ensures forall k, d | k in graph && d in graph[k] :: d in done || (k in dep && d in dep[k])
    ensures forall k, d | k in dep && d in dep[k] :: k in graph && d in graph[k] && d !in done
  {
    forall k, d | k in graph && d in graph[k] ensures d in done || (k in dep && d in dep[k]) {
      if k in done { DependsOnEarlier(graph, order, k, d); } else { FilterMember(graph[k], done, d); }
    }
    forall k, d | k in dep && d in dep[k] ensures d in graph[k] && d !in done { FilterMember(graph[k], done, d); }
  }

  lemma {:induction false} KnownDependency(dep: Graph, k: Name, d: Name)
    requires Unknown(dep) == {} && k in dep && d in dep[k]
    ensures d in dep
  {
    assert d in dep || d in Unknown(dep);
  }

  lemma {:induction false} UnknownMember(graph: Graph, d: Name)
    ensures d in Unknown(graph) <==> d !in graph && exists k | k in graph :: d in graph[k]
  {}

  lemma {:induction false} SameUnknown(graph: Graph, dep: Graph, order: seq<Name>, done: set<Name>)
    requires Remaining(graph, dep, done) && Sorted(graph, order, done)
    ensures Unknown(dep) == Unknown(graph)
  {
    RemainingDependencies(graph, dep, order, done);
    hide Filter, Ordered, Unknown;
    forall d ensures d in Unknown(dep) <==> d in Unknown(graph) {
      UnknownMember(dep, d);
      UnknownMember(graph, d);
    }
  }

  lemma {:induction false} RemainingStuck(graph: Graph, dep: Graph, order: seq<Name>, done: set<Name>, k: Name)
    requires Remaining(graph, dep, done) && Sorted(graph, order, done) && Unknown(dep) == {}
    requires k in dep && dep[k] != []
    ensures DependsOn(graph, k, dep.Keys)
  {
    RemainingDependencies(graph, dep, order, done);
    assert dep[k][0] in dep[k];
    hide Unknown;
    KnownDependency(dep, k, dep[k][0]);
  }

  /** Without a leaf, what remains depends on something unknown or goes round in circles. */
  lemma {:induction false} NoLeaves(graph: Graph, dep: Graph, order: seq<Name>, done: set<Name>)
    requires Remaining(graph, dep, done) && Sorted(graph, order, done) && dep != map[]
    requires forall name | name in dep :: dep[name] != []
    ensures Unknown(dep) == Unknown(graph)
    ensures Unknown(dep) == {} ==> exists cycle :: IsCycle(graph, cycle) && forall x | x in cycle :: x in dep
  {
    SameUnknown(graph, dep, order, done);
    hide Remaining, Sorted, DependsOn, Unknown, IsCycle;
    if Unknown(dep) == {} {
      forall k | k in dep ensures DependsOn(graph, k, dep.Keys) { RemainingStuck(graph, dep, order, done, k); }
      var k :| k in dep;
      RemainingKnown(graph, dep, done, k);
      hide Chain;
      var cycle := FindCycle(graph, dep.Keys, [k]);
    }
  }

  lemma {:induction false} RemainingKnown(graph: Graph, dep: Graph, done: set<Name>, k: Name)
    requires Remaining(graph, dep, done) && k in dep
    ensures Chain(graph, dep.Keys, [k])
  {}

  /** Everything could be resolved, so every dependency is known and there is no cycle. */
  lemma {:induction false} AllSorted(graph: Graph, order: seq<Name>)
    requires Sorted(graph, order, graph.Keys)
    ensures Unknown(graph) == {} && forall cycle :: !IsCycle(graph, cycle)
  {
    forall k, d | k in graph && d in graph[k] ensures d in graph { DependsOnEarlier(graph, order, k, d); }
    forall cycle ensures !IsCycle(graph, cycle) { OrderedAcyclic(graph, order, cycle); }
  }

  /**
   * Builds all classes, exactly if every dependency is known and there is no cycle; otherwise it tells which
   * dependencies are unknown or, if all are known, names that contain a cycle.
   */
  method BuildClassesFromDependencies(classes: Graph, injectables: map<Name, Object>)
    returns (result: Result, constructed: seq<Name>)
    ensures var graph := DependencyGraph(injectables.Keys, classes);
      && (result.Built? <==> Unknown(graph) == {} && forall cycle :: !IsCycle(graph, cycle))
      && (result.Missing? <==> Unknown(graph) != {})
      && (result.Missing? ==> result.names == Unknown(graph))
      && (result.Cyclic? ==> exists cycle :: IsCycle(graph, cycle) && forall x | x in cycle :: x in result.names)
      && (result.Built? ==> result.instances.Keys == classes.Keys
                            && Calls(graph, injectables.Keys, constructed, graph.Keys)
                            && Resolved(graph, classes, injectables, result.instances, graph.Keys))
  {
    var dep := DependencyGraph(injectables.Keys, classes);
    ghost var graph, order, done := dep, [], {};
    var instances: map<Name, Object> := map[];
    constructed := [];
    Begin(graph, classes, injectables);
    hide Sorted, Calls, Resolved, Remaining, Unknown, IsCycle, Filter, FilterAll, Progress, DependencyGraph;
    while dep != map[]
      invariant Remaining(graph, dep, done)
      invariant Progress(graph, classes, injectables, instances, constructed, order, done)
      decreases graph.Keys - done
    {
      var leaves := Leaves(dep);
      if leaves == {} {
        NoLeavesLeft(graph, dep, classes, injectables, instances, constructed, order, done);
        return if Unknown(dep) != {} then Missing(Unknown(dep)) else Cyclic(dep.Keys), constructed;
      }
      RemainingNext(graph, dep, done, leaves);
      dep, instances, constructed, order :=
        BuildLeaves(graph, dep, classes, injectables, instances, constructed, order, done, leaves);
      dep := FilterAll(dep, leaves);
      done := done + leaves;
    }
    AllDone(graph, classes, injectables, instances, constructed, order, done);
    result := Built(instances);
  }

  lemma {:induction false} NoLeavesLeft(graph: Graph, dep: Graph, classes: Graph, injectables: map<Name, Object>,
      instances: map<Name, Object>, constructed: seq<Name>, order: seq<Name>, done: set<Name>)
    requires Remaining(graph, dep, done) && Progress(graph, classes, injectables, instances, constructed, order, done)
    requires dep != map[] && Leaves(dep) == {}
    ensures Unknown(dep) == Unknown(graph)
    ensures Unknown(dep) == {} ==> exists cycle :: IsCycle(graph, cycle) && forall x | x in cycle :: x in dep
  {
    forall name | name in dep ensures dep[name] != [] {
      assert name !in Leaves(dep);
    }
    NoLeaves(graph, dep, order, done);
  }

  lemma {:induction false} AllDone(graph: Graph, classes: Graph, injectables: map<Name, Object>,
      instances: map<Name, Object>, constructed: seq<Name>, order: seq<Name>, done: set<Name>)
    requires Remaining(graph, map[], done) && Progress(graph, classes, injectables, instances, constructed, order, done)
    requires graph == DependencyGraph(injectables.Keys, classes)
    ensures instances.Keys == classes.Keys && Unknown(graph) == {} && forall cycle :: !IsCycle(graph, cycle)
    ensures Calls(graph, injectables.Keys, constructed, graph.Keys)
    ensures Resolved(graph, classes, injectables, instances, graph.Keys)
  {
    assert graph.Keys - done == {};
    assert done == graph.Keys;
    hide IsCycle, Unknown;
    AllSorted(graph, order);
  }

  class DependencyInjector {
    /** Objects that constructors can ask for. */
    var injectables: map<Name, Object>

    constructor ()
      ensures injectables == map[]
    {
      injectables := map[];
    }

    method AddInjectables(objects: map<Name, Object>)
      modifies this
      ensures injectables == old(injectables) + objects
    {
      injectables := injectables + objects;
    }

    /** The instances of one call can be asked for in the next one; a failed call leaves nothing behind. */
    method BuildClasses(classes: Graph) returns (result: Result, constructed: seq<Name>)
      modifies this
      ensures var graph := DependencyGraph(old(injectables).Keys, classes);
        && (result.Built? <==> Unknown(graph) == {} && forall cycle :: !IsCycle(graph, cycle))
        && (result.Missing? <==> Unknown(graph) != {})
        && (result.Missing? ==> result.names == Unknown(graph))
        && (result.Cyclic? ==> exists cycle :: IsCycle(graph, cycle) && forall x | x in cycle :: x in result.names)
        && (result.Built? ==> result.instances.Keys == classes.Keys
                              && Calls(graph, old(injectables).Keys, constructed, graph.Keys)
                              && Resolved(graph, classes, old(injectables), result.instances, graph.Keys))
      ensures injectables == if result.Built? then old(injectables) + result.instances else old(injectables)
    {
      result, constructed := BuildClassesFromDependencies(classes, injectables);
      if result.Built? {
        AddInjectables(result.instances);
      }
    }
  }
}
