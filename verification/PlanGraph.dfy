/**
 Validation of a plan's dependency graph: unknown dependencies, the recursive cycle search, and the
 integration rules with their work-list reachability.
 */
module PlanGraph {
  import opened Basics
  import opened Digraph
  import opened Plan

  function Refs(branches: seq<Branch>): (refs: seq<string>)
    ensures |refs| == |branches| && forall i :: 0 <= i < |branches| ==> refs[i] == branches[i].ref
  {
    seq(|branches|, i requires 0 <= i < |branches| => branches[i].ref)
  }

  predicate UniqueRefs(branches: seq<Branch>) {
    Distinct(Refs(branches))
  }

  /** Each branch under its reference; of several with one reference the last counts. */
  function GraphOf(branches: seq<Branch>): Graph {
    if branches == [] then map[]
    else
      var n := |branches| - 1;
      GraphOf(branches[..n])[branches[n].ref := branches[n].dependencies]
  }

  lemma {:induction false} GraphKeys(branches: seq<Branch>)
    ensures forall x :: x in GraphOf(branches) <==> x in Refs(branches)
  {
    if branches != [] {
      var n := |branches| - 1;
      GraphKeys(branches[..n]);
      assert Refs(branches) == Refs(branches[..n]) + [branches[n].ref];
    }
  }

  lemma {:induction false} GraphAt(branches: seq<Branch>, i: nat)
    requires UniqueRefs(branches) && i < |branches|
    ensures branches[i].ref in GraphOf(branches) && GraphOf(branches)[branches[i].ref] == branches[i].dependencies
  {
    var n := |branches| - 1;
    if i < n {
      assert branches[..n][i] == branches[i];
      GraphAt(branches[..n], i);
    }
  }

  /** The branch a node of the graph stands for. */
  lemma BranchAt(branches: seq<Branch>, x: string) returns (i: nat)
    requires UniqueRefs(branches) && x in GraphOf(branches)
    ensures i < |branches| && branches[i].ref == x && GraphOf(branches)[x] == branches[i].dependencies
  {
    GraphKeys(branches);
    var k :| 0 <= k < |branches| && Refs(branches)[k] == x;
    i := k;
    GraphAt(branches, i);
  }

  predicate AllKnown(g: Graph) {
    forall x, d :: x in g && d in g[x] ==> d in g
  }

  // ---------------------------------------------------------------- cycle search

  /** The two sets `assertAcyclic` updates while it visits branches depth first. */
  class CycleSearch {
    const graph: Graph
    var visiting: set<string>
    var visited: set<string>
    ghost var path: seq<string>
    ghost var order: seq<string>

    constructor (graph: Graph)
      ensures this.graph == graph && visiting == {} && visited == {} && path == [] && order == []
    {
      this.graph := graph;
      visiting, visited, path, order := {}, {}, [], [];
    }

    /** The branches being visited form a path, the visited ones a topological order of themselves. */
    ghost predicate Valid()
      reads this
    {
      && AllKnown(graph)
      && visiting == (set x | x in path) && (path != [] ==> IsPath(graph, path))
      && visited == (set x | x in order) && visited <= graph.Keys
      && Distinct(order) && EdgesGoBack(graph, order)
      && visiting !! visited
    }

    method Visit(ref: string) returns (ok: bool, ghost cycle: seq<string>)
      requires Valid() && ref in graph
      requires path != [] ==> Edge(graph, path[|path| - 1], ref)
      modifies this
      ensures ok ==> Valid() && path == old(path) && ref in visited && old(visited) <= visited
      ensures !ok ==> IsCycle(graph, cycle)
      decreases graph.Keys - visiting
    {
      cycle := [];
      if ref in visiting {
        cycle := path[IndexOf(path, ref)..] + [ref];
        StepBackIsCycle(graph, path, IndexOf(path, ref));
        return false, cycle;
      }
      if ref in visited {
        return true, cycle;
      }
      ghost var entry := path;
      visiting := visiting + {ref};
      path := path + [ref];
      assert IsPath(graph, path) by {
        if entry != [] { PathExtends(graph, entry, ref); }
      }
      var dependencies := graph[ref];
      for i := 0 to |dependencies|
        invariant Valid() && path == entry + [ref] && old(visited) <= visited
        invariant forall k :: 0 <= k < i ==> dependencies[k] in visited
      {
        assert Edge(graph, ref, dependencies[i]);
        ok, cycle := Visit(dependencies[i]);
        if !ok { return; }
      }
      visiting := visiting - {ref};
      path := entry;
      visited := visited + {ref};
      OrderGrows(graph, order, ref);
      order := order + [ref];
      ok := true;
    }
  }

  datatype GraphError =
    | UnknownDependency | DependencyCycle | IntegrationMismatch | IntegrationTerminal | IntegrationCoverage

  predicate NamesOnly(branches: seq<Branch>, refs: set<string>) {
    forall i, d :: 0 <= i < |branches| && d in branches[i].dependencies ==> d in refs
  }

  method DependenciesKnown(branches: seq<Branch>, refs: set<string>) returns (known: bool)
    ensures known <==> NamesOnly(branches, refs)
  {
    for i := 0 to |branches|
      invariant NamesOnly(branches[..i], refs)
    {
      var dependencies := branches[i].dependencies;
      for n := 0 to |dependencies|
        invariant forall m :: 0 <= m < n ==> dependencies[m] in refs
      {
        if dependencies[n] !in refs {
          return false;
        }
      }
      assert branches[..i + 1] == branches[..i] + [branches[i]];
    }
    assert branches[..|branches|] == branches;
    known := true;
  }

  lemma NamesOnlyKnown(branches: seq<Branch>)
    requires UniqueRefs(branches)
    ensures NamesOnly(branches, GraphOf(branches).Keys) <==> AllKnown(GraphOf(branches))
  {
    var g := GraphOf(branches);
    if NamesOnly(branches, g.Keys) {
      forall x, d | x in g && d in g[x]
        ensures d in g
      {
        var i := BranchAt(branches, x);
      }
    }
    if AllKnown(g) {
      forall i, d | 0 <= i < |branches| && d in branches[i].dependencies
        ensures d in g.Keys
      {
        GraphAt(branches, i);
      }
    }
  }

  /** Visits every node in turn: an order of them all, or the first cycle met. */
  method SearchCycles(graph: Graph, refs: seq<string>) returns (ok: bool, ghost order: seq<string>)
    requires AllKnown(graph) && (forall x :: x in refs <==> x in graph)
    ensures ok <==> Acyclic(graph)
    ensures ok ==> TopologicalOrder(graph, order)
  {
    order := [];
    var search := new CycleSearch(graph);
    for i := 0 to |refs|
      invariant search.graph == graph && search.Valid() && search.path == []
      invariant forall k :: 0 <= k < i ==> refs[k] in search.visited
    {
      ghost var cycle;
      ok, cycle := search.Visit(refs[i]);
      if !ok {
        assert IsCycle(graph, cycle);
        return;
      }
    }
    order := search.order;
    assert forall x :: x in order <==> x in search.visited;
    OrderedMeansAcyclic(graph, order);
    ok := true;
  }

  /** Passes exactly when every dependency is known and there is no cycle; an order proves the absence. */
  method AssertAcyclic(branches: seq<Branch>) returns (r: Outcome<(), GraphError>, ghost order: seq<string>)
    requires UniqueRefs(branches)
    ensures r == Err(UnknownDependency) <==> !AllKnown(GraphOf(branches))
    ensures r == Err(DependencyCycle) <==> AllKnown(GraphOf(branches)) && !Acyclic(GraphOf(branches))
    ensures r.Ok? <==> AllKnown(GraphOf(branches)) && Acyclic(GraphOf(branches))
    ensures r.Ok? ==> TopologicalOrder(GraphOf(branches), order)
  {
    order := [];
    var graph := GraphOf(branches);
    var known := DependenciesKnown(branches, graph.Keys);
    NamesOnlyKnown(branches);
    if !known {
      return Err(UnknownDependency), order;
    }
    GraphKeys(branches);
    var ok;
    ok, order := SearchCycles(graph, Refs(branches));
    r := if ok then Ok(()) else Err(DependencyCycle);
  }

  // ---------------------------------------------------------------- integration

  /** Everything the integration branch collects, found with an explicit stack. */
  method Collect(graph: Graph, start: string) returns (reachable: set<string>)
    requires start in graph && AllKnown(graph)
    ensures forall x :: x in reachable <==> Reaches(graph, start, x)
  {
    reachable := {};
    var stack := graph[start];
    ghost var expanded: set<string> := {};
    assert forall d :: d in stack ==> Reaches(graph, start, d) by {
      forall d | d in stack
        ensures Reaches(graph, start, d)
      {
        assert IsPath(graph, [start, d]) by { assert Edge(graph, start, d); }
      }
    }
    while stack != []
      invariant reachable <= graph.Keys
      invariant forall d :: d in stack ==> d in graph && Reaches(graph, start, d)
      invariant forall d :: d in reachable ==> Reaches(graph, start, d)
      invariant forall b :: Edge(graph, start, b) ==> b in reachable || b in stack
      invariant forall x, b :: x in reachable && Edge(graph, x, b) ==> b in reachable || b in stack
      decreases graph.Keys - reachable, |stack|
    {
      var dependency := stack[|stack| - 1];
      var rest := stack[..|stack| - 1];
      assert forall d :: d in stack ==> d in rest || d == dependency;
      if dependency in reachable {
        stack := rest;
      } else {
        reachable := reachable + {dependency};
        stack := rest + graph[dependency];
        forall d | d in graph[dependency]
          ensures Reaches(graph, start, d)
        {
          var p :| IsPath(graph, p) && |p| >= 2 && p[0] == start && p[|p| - 1] == dependency;
          assert Edge(graph, dependency, d);
          PathExtends(graph, p, d);
          assert (p + [d])[0] == start && (p + [d])[|p|] == d;
        }
      }
    }
    forall x | Reaches(graph, start, x)
      ensures x in reachable
    {
      var p :| IsPath(graph, p) && |p| >= 2 && p[0] == start && p[|p| - 1] == x;
      ClosedSetHoldsReachable(graph, start, reachable, p);
    }
  }

  /** The one branch with the integration role is the named one. */
  predicate NamesTheIntegration(branches: seq<Branch>, integration: Option<string>) {
    match integration
    case None => forall b :: b in branches ==> b.role == Work
    case Some(ref) =>
      && (exists i :: 0 <= i < |branches| && branches[i].ref == ref)
      && (forall i :: 0 <= i < |branches| ==> (branches[i].role == Integration <==> branches[i].ref == ref))
  }

  predicate NothingDependsOn(branches: seq<Branch>, ref: string) {
    forall i :: 0 <= i < |branches| && branches[i].ref != ref ==> ref !in branches[i].dependencies
  }

  ghost predicate CollectsAllWork(branches: seq<Branch>, ref: string) {
    forall i :: 0 <= i < |branches| && branches[i].role == Work ==> Reaches(GraphOf(branches), ref, branches[i].ref)
  }

  ghost predicate IntegrationRules(branches: seq<Branch>, integration: Option<string>) {
    && NamesTheIntegration(branches, integration)
    && (integration.Some? ==>
          NothingDependsOn(branches, integration.value) && CollectsAllWork(branches, integration.value))
  }

  function IntegrationBranches(branches: seq<Branch>): (s: seq<Branch>)
    ensures forall b :: b in s <==> b in branches && b.role == Integration
  {
    if branches == [] then []
    else
      var n := |branches| - 1;
      var before := IntegrationBranches(branches[..n]);
      assert forall b :: b in branches <==> b in branches[..n] || b == branches[n];
      if branches[n].role == Integration then before + [branches[n]] else before
  }

  lemma {:induction false} IntegrationRefsAreUnique(branches: seq<Branch>)
    requires UniqueRefs(branches)
    ensures UniqueRefs(IntegrationBranches(branches))
  {
    if branches != [] {
      var n := |branches| - 1;
      var before, last := IntegrationBranches(branches[..n]), branches[n];
      assert Refs(branches[..n]) == Refs(branches)[..n];
      IntegrationRefsAreUnique(branches[..n]);
      forall i | 0 <= i < |before|
        ensures before[i].ref != last.ref
      {
        assert before[i] in before;
        var k :| 0 <= k < n && branches[..n][k] == before[i];
        assert Refs(branches)[k] != Refs(branches)[n];
      }
      assert Refs(before + [last]) == Refs(before) + [last.ref];
    }
  }

  lemma OnlyOneNamed(branches: seq<Branch>, named: Branch)
    requires UniqueRefs(branches) && named in branches && named.role == Integration
    requires forall b :: b in branches && b.role == Integration ==> b == named
    ensures NamesTheIntegration(branches, Some(named.ref))
  {
    var k :| 0 <= k < |branches| && branches[k] == named;
    forall i | 0 <= i < |branches|
      ensures branches[i].role == Integration <==> branches[i].ref == named.ref
    {
      assert branches[i] in branches;
      assert branches[i].ref == named.ref ==> i == k;
    }
  }

  lemma SingleNamesIt(branches: seq<Branch>, ref: string)
    requires UniqueRefs(branches)
    requires |IntegrationBranches(branches)| == 1 && IntegrationBranches(branches)[0].ref == ref
    ensures NamesTheIntegration(branches, Some(ref))
  {
    var s := IntegrationBranches(branches);
    assert s == [s[0]] && s[0] in s;
    OnlyOneNamed(branches, s[0]);
  }

  lemma NamedIsSingle(branches: seq<Branch>, ref: string)
    requires UniqueRefs(branches) && NamesTheIntegration(branches, Some(ref))
    ensures |IntegrationBranches(branches)| == 1 && IntegrationBranches(branches)[0].ref == ref
  {
    var s := IntegrationBranches(branches);
    var k :| 0 <= k < |branches| && branches[k].ref == ref;
    assert branches[k] in s;
    forall i | 0 <= i < |s|
      ensures s[i].ref == ref
    {
      assert s[i] in s;
    }
    IntegrationRefsAreUnique(branches);
    assert Refs(s)[0] == Refs(s)[|s| - 1];
  }

  lemma OneIntegrationBranch(branches: seq<Branch>, ref: string)
    requires UniqueRefs(branches)
    ensures (|IntegrationBranches(branches)| == 1 && IntegrationBranches(branches)[0].ref == ref)
            <==> NamesTheIntegration(branches, Some(ref))
  {
    if |IntegrationBranches(branches)| == 1 && IntegrationBranches(branches)[0].ref == ref {
      SingleNamesIt(branches, ref);
    } else if NamesTheIntegration(branches, Some(ref)) {
      NamedIsSingle(branches, ref);
    }
  }

  /** No other branch depends on the integration branch. */
  method CheckTerminal(branches: seq<Branch>, ref: string) returns (ok: bool)
    ensures ok <==> NothingDependsOn(branches, ref)
  {
    for i := 0 to |branches|
      invariant forall k :: 0 <= k < i && branches[k].ref != ref ==> ref !in branches[k].dependencies
    {
      if branches[i].ref != ref && ref in branches[i].dependencies {
        return false;
      }
    }
    ok := true;
  }

  /** The integration branch transitively collects every work branch. */
  method CheckCoverage(branches: seq<Branch>, ref: string) returns (ok: bool)
    requires AllKnown(GraphOf(branches)) && ref in GraphOf(branches)
    ensures ok <==> CollectsAllWork(branches, ref)
  {
    var reachable := Collect(GraphOf(branches), ref);
    ok := forall i :: 0 <= i < |branches| && branches[i].role == Work ==> branches[i].ref in reachable;
  }

  method ValidateIntegration(branches: seq<Branch>, integration: Option<string>)
    returns (r: Outcome<(), GraphError>)
    requires UniqueRefs(branches) && AllKnown(GraphOf(branches))
    ensures r.Ok? <==> IntegrationRules(branches, integration)
    ensures r == Err(IntegrationMismatch) <==> !NamesTheIntegration(branches, integration)
  {
    var named := IntegrationBranches(branches);
    if integration.None? {
      if named != [] {
        assert named[0] in branches;
        return Err(IntegrationMismatch);
      }
      return Ok(());
    }
    OneIntegrationBranch(branches, integration.value);
    GraphKeys(branches);
    if |named| != 1 || named[0].ref != integration.value {
      return Err(IntegrationMismatch);
    }
    assert integration.value in Refs(branches);
    var terminal := CheckTerminal(branches, integration.value);
    if !terminal {
      return Err(IntegrationTerminal);
    }
    var covers := CheckCoverage(branches, integration.value);
    if !covers {
      return Err(IntegrationCoverage);
    }
    r := Ok(());
  }

  // ---------------------------------------------------------------- the whole validation

  ghost predicate GraphAcceptable(branches: seq<Branch>, integration: Option<string>) {
    && AllKnown(GraphOf(branches))
    && Acyclic(GraphOf(branches))
    && IntegrationRules(branches, integration)
  }

  /** Both searches together accept exactly the plans whose graph satisfies the rules. */
  method ValidateGraph(branches: seq<Branch>, integration: Option<string>)
    returns (r: Outcome<(), GraphError>, ghost order: seq<string>)
    requires UniqueRefs(branches)
    ensures r.Ok? <==> GraphAcceptable(branches, integration)
    ensures r.Ok? ==> TopologicalOrder(GraphOf(branches), order)
    ensures r.Ok? && integration.Some? ==> order != [] && order[|order| - 1] == integration.value
  {
    r, order := AssertAcyclic(branches);
    if r.Err? { return; }
    r := ValidateIntegration(branches, integration);
    if r.Ok? && integration.Some? {
      order := IntegrationLast(branches, order, integration.value);
    }
  }

  /** A node that nothing leads to can come last in any topological order. */
  lemma SourceLast(g: Graph, order: seq<string>, ref: string) returns (last: seq<string>)
    requires TopologicalOrder(g, order) && ref in g && forall y :: y != ref ==> !Edge(g, y, ref)
    ensures TopologicalOrder(g, last) && last != [] && last[|last| - 1] == ref
  {
    OrderedMeansAcyclic(g, order);
    WithoutKeepsOrder(g, order, ref);
    var rest := Without(order, ref);
    last := rest + [ref];
    assert Edge(g, ref, ref) ==> IsCycle(g, [ref, ref]);
    forall i, b | 0 <= i < |last| && Edge(g, last[i], b)
      ensures b in last[..i]
    {
      if i < |rest| {
        assert last[..i] == rest[..i];
      } else {
        assert last[..i] == rest;
      }
    }
  }

  /** Any topological order of an acceptable plan can be rearranged to end in the integration branch. */
  lemma IntegrationLast(branches: seq<Branch>, order: seq<string>, ref: string) returns (last: seq<string>)
    requires UniqueRefs(branches) && TopologicalOrder(GraphOf(branches), order)
    requires NamesTheIntegration(branches, Some(ref)) && NothingDependsOn(branches, ref)
    ensures TopologicalOrder(GraphOf(branches), last)
    ensures last != [] && last[|last| - 1] == ref
  {
    var g := GraphOf(branches);
    forall y | y in g && y != ref
      ensures !Edge(g, y, ref)
    {
      var i := BranchAt(branches, y);
    }
    var k :| 0 <= k < |branches| && branches[k].ref == ref;
    GraphAt(branches, k);
    last := SourceLast(g, order, ref);
  }
}
