/**
 The imperative derivation of a branch snapshot's violations: one scan that groups effects into lanes and
 goals, an index by effect id, a depth-first cycle search along generation predecessors, the per-goal and
 per-lane checks, and the attention checks. It reports nothing exactly when `Lifecycle.BranchClean` holds,
 although that predicate mentions neither the index, the cycle search, the fork check nor the check for
 several unresolved generations of a goal.
 */
module LifecycleSnapshot {
  import opened Basics
  import opened Digraph
  import opened Lifecycle

  datatype Code =
    | ContractVersionMismatch | MapIdentityMismatch | KindUnsupported | StatusUnsupported | ScopeHashInvalid
    | GenerationInvalid | IdentityFieldMissing | AheadOfBranchAttempt | IdentityDuplicate | GenerationCycle
    | RootHasPredecessor | PredecessorMissing | PredecessorOrphaned | GoalMismatch | GenerationGap
    | PredecessorNotRetryable | GenerationDuplicate | GenerationFork | MultipleUnresolvedForGoal
    | MultipleUnresolvedForLane | AttentionMapMismatch | RecoveryEffectMissing | RecoveryEffectNotRecoverable
    | RecoveryAttentionMissing | OperatorEffectMismatch | OperatorAttentionMissing

  /** `keys` lists the outbox entries of the branch, each once. */
  ghost predicate Lists(wo: WorkOrder, b: Branch, outbox: OutboxMap, keys: seq<string>) {
    Distinct(keys) && forall k :: k in keys <==> InBranch(wo, b, outbox, k)
  }

  function EntryCodes(key: string, e: Effect, b: Branch): (codes: set<Code>)
    ensures codes == {} <==> EntryClean(key, e, b)
  {
    (if e.version != 2 then {ContractVersionMismatch} else {})
    + (if e.id != key then {MapIdentityMismatch} else {})
    + (if e.kind.UnsupportedKind? then {KindUnsupported} else {})
    + (if e.status.UnsupportedStatus? then {StatusUnsupported} else {})
    + (if !e.scopeHash.Digest? then {ScopeHashInvalid} else {})
    + (if e.generation.None? || e.generation.value < 1 || e.generation.value > MAX_SAFE_INTEGER
       then {GenerationInvalid} else {})
    + (if !e.fieldsPresent || e.predecessor.Unset? then {IdentityFieldMissing} else {})
    + (if AttemptScopeOf(e, b) == Future then {AheadOfBranchAttempt} else {})
  }

  // ---------------------------------------------------------------- grouping

  ghost predicate GroupedByGoal(outbox: OutboxMap, done: seq<string>, groups: map<Goal, seq<string>>)
    requires forall k :: k in done ==> k in outbox
  {
    && (forall k :: k in done ==> GoalOf(outbox[k]) in groups)
    && (forall g :: g in groups ==> Distinct(groups[g]))
    && (forall g, k :: g in groups ==> (k in groups[g] <==> k in done && GoalOf(outbox[k]) == g))
  }

  ghost predicate GroupedByLane(outbox: OutboxMap, done: seq<string>, groups: map<Lane, seq<string>>)
    requires forall k :: k in done ==> k in outbox
  {
    && (forall k :: k in done ==> LaneOf(outbox[k]) in groups)
    && (forall g :: g in groups ==> Distinct(groups[g]))
    && (forall g, k :: g in groups ==> (k in groups[g] <==> k in done && LaneOf(outbox[k]) == g))
  }

  function AddTo<G(==)>(groups: map<G, seq<string>>, g: G, k: string): (r: map<G, seq<string>>)
    ensures r.Keys == groups.Keys + {g}
    ensures forall x :: x in groups && x != g ==> r[x] == groups[x]
    ensures r[g] == (if g in groups then groups[g] else []) + [k]
  {
    groups[g := (if g in groups then groups[g] else []) + [k]]
  }

  lemma GoalGroupGrows(outbox: OutboxMap, done: seq<string>, groups: map<Goal, seq<string>>, k: string)
    requires (forall x :: x in done ==> x in outbox) && k in outbox && k !in done
    requires GroupedByGoal(outbox, done, groups)
    ensures forall x :: x in done + [k] ==> x in outbox
    ensures GroupedByGoal(outbox, done + [k], AddTo(groups, GoalOf(outbox[k]), k))
  {
  }

  lemma LaneGroupGrows(outbox: OutboxMap, done: seq<string>, groups: map<Lane, seq<string>>, k: string)
    requires (forall x :: x in done ==> x in outbox) && k in outbox && k !in done
    requires GroupedByLane(outbox, done, groups)
    ensures forall x :: x in done + [k] ==> x in outbox
    ensures GroupedByLane(outbox, done + [k], AddTo(groups, LaneOf(outbox[k]), k))
  {
  }

  /** The first loop: entry violations, and the traceable entries grouped by lane and by goal. */
  method ScanEntries(wo: WorkOrder, b: Branch, outbox: OutboxMap, keys: seq<string>)
    returns (codes: set<Code>, lineage: seq<string>, lanes: map<Lane, seq<string>>, goals: map<Goal, seq<string>>)
    requires Lists(wo, b, outbox, keys)
    ensures codes == {} <==> EntriesClean(wo, b, outbox)
    ensures codes == {} ==> lineage == keys
    ensures Distinct(lineage) && (forall k :: k in lineage ==> k in outbox) && (forall k :: k in keys ==> k in outbox)
    ensures GroupedByGoal(outbox, lineage, goals) && GroupedByLane(outbox, lineage, lanes)
  {
    codes, lineage, lanes, goals := {}, [], map[], map[];
    assert forall k :: k in keys ==> InBranch(wo, b, outbox, k);
    for i := 0 to |keys|
      invariant forall k :: k in keys ==> k in outbox
      invariant codes == {} <==> forall k :: k in keys[..i] ==> EntryClean(k, outbox[k], b)
      invariant codes == {} ==> lineage == keys[..i]
      invariant Distinct(lineage) && forall k :: k in lineage ==> k in keys[..i] && k in outbox
      invariant GroupedByGoal(outbox, lineage, goals) && GroupedByLane(outbox, lineage, lanes)
    {
      var k := keys[i];
      assert k in keys && k !in keys[..i] && keys[..i + 1] == keys[..i] + [k];
      codes := codes + EntryCodes(k, outbox[k], b);
      if Traceable(outbox[k]) {
        GoalGroupGrows(outbox, lineage, goals, k);
        LaneGroupGrows(outbox, lineage, lanes, k);
        lanes := AddTo(lanes, LaneOf(outbox[k]), k);
        goals := AddTo(goals, GoalOf(outbox[k]), k);
        lineage := lineage + [k];
      }
    }
    assert keys[..|keys|] == keys;
  }

  /** The index by effect id keeps the first entry of each id. */
  method IndexById(outbox: OutboxMap, lineage: seq<string>) returns (codes: set<Code>, byId: map<string, string>)
    requires Distinct(lineage) && forall k :: k in lineage ==> k in outbox
    ensures (forall k :: k in lineage ==> outbox[k].id == k) ==>
              codes == {} && byId.Keys == (set k | k in lineage) && forall k :: k in byId ==> byId[k] == k
    ensures forall id :: id in byId ==> byId[id] in lineage && outbox[byId[id]].id == id
  {
    codes, byId := {}, map[];
    for i := 0 to |lineage|
      invariant forall id :: id in byId ==> byId[id] in lineage[..i] && outbox[byId[id]].id == id
      invariant (forall k :: k in lineage ==> outbox[k].id == k) ==>
                  codes == {} && byId.Keys == (set k | k in lineage[..i]) && forall k :: k in byId ==> byId[k] == k
    {
      var k := lineage[i];
      assert k !in lineage[..i] && lineage[..i + 1] == lineage[..i] + [k];
      if outbox[k].id in byId {
        codes := codes + {IdentityDuplicate};
      } else {
        byId := byId[outbox[k].id := k];
      }
    }
    assert lineage[..|lineage|] == lineage;
  }

  // ---------------------------------------------------------------- the cycle search

  /** Each indexed effect points at its generation predecessor. */
  function GenerationGraph(outbox: OutboxMap, byId: map<string, string>): (g: Graph)
    requires forall id :: id in byId ==> byId[id] in outbox
    ensures g.Keys == byId.Keys
    ensures forall a, c :: a in g && c in g[a] <==> a in byId && outbox[byId[a]].predecessor == After(c)
  {
    map id | id in byId ::
      var p := outbox[byId[id]].predecessor; if p.After? then [p.id] else []
  }

  class GenerationSearch {
    const graph: Graph
    var visited: set<string>
    var visiting: set<string>
    var found: bool
    ghost var order: seq<string>

    constructor (graph: Graph)
      ensures this.graph == graph && visited == {} && visiting == {} && !found && order == []
    {
      this.graph := graph;
      visited, visiting, found, order := {}, {}, false, [];
    }

    ghost predicate Valid(path: seq<string>)
      reads this
    {
      && visiting == (set x | x in path) && (path != [] ==> IsPath(graph, path))
      && visited == (set x | x in order) && visited <= graph.Keys && visited !! visiting
      && Distinct(order)
      && (!found ==> EdgesGoBack(graph, order))
      && (found ==> !Acyclic(graph))
    }

    /** Visits along the single predecessor each effect has. */
    method VisitGeneration(id: string, path: seq<string>)
      requires forall x :: x in graph ==> |graph[x]| <= 1
      requires Valid(path) && (path != [] && id in graph ==> Edge(graph, path[|path| - 1], id))
      modifies this
      ensures Valid(path) && old(visited) <= visited
      ensures id in graph && !found ==> id in visited
      ensures old(found) ==> found
      decreases graph.Keys - visiting
    {
      if id in visited { return; }
      if id in visiting {
        StepBackIsCycle(graph, path, IndexOf(path, id));
        found := true;
        return;
      }
      if id !in graph { return; }
      visiting := visiting + {id};
      assert IsPath(graph, path + [id]) by {
        if path != [] { PathExtends(graph, path, id); }
      }
      if |graph[id]| > 0 {
        VisitGeneration(graph[id][0], path + [id]);
      }
      visiting := visiting - {id};
      if !found {
        OrderGrows(graph, order, id);
      }
      order := order + [id];
      visited := visited + {id};
    }
  }

  /** Reports a cycle exactly when following predecessors can return to where it began. */
  method FindCycles(graph: Graph, ids: seq<string>) returns (found: bool)
    requires (forall x :: x in graph ==> |graph[x]| <= 1) && (forall x :: x in ids <==> x in graph)
    ensures found <==> !Acyclic(graph)
  {
    var search := new GenerationSearch(graph);
    for i := 0 to |ids|
      invariant search.graph == graph && search.Valid([])
      invariant !search.found ==> forall k :: 0 <= k < i ==> ids[k] in search.visited
    {
      search.VisitGeneration(ids[i], []);
    }
    found := search.found;
    if !found {
      assert forall x :: x in search.order <==> x in search.visited;
      OrderedMeansAcyclic(graph, search.order);
    }
  }

  /** Generations fall along every path, so a clean lineage has no cycle. */
  lemma {:induction false} GenerationsFall(outbox: OutboxMap, byId: map<string, string>, p: seq<string>)
    requires forall id :: id in byId ==> byId[id] in outbox
    requires forall a, c :: a in byId && c in byId && outbox[byId[a]].predecessor == After(c) ==>
                            Generation(outbox[byId[c]]) < Generation(outbox[byId[a]])
    requires IsPath(GenerationGraph(outbox, byId), p)
    ensures |p| >= 2 ==> Generation(outbox[byId[p[|p| - 1]]]) < Generation(outbox[byId[p[0]]])
  {
    if |p| >= 2 {
      assert Edge(GenerationGraph(outbox, byId), p[0], p[1]);
      PathSuffix(GenerationGraph(outbox, byId), p, 1);
      GenerationsFall(outbox, byId, p[1..]);
    }
  }

  lemma FallingGenerationsAreAcyclic(outbox: OutboxMap, byId: map<string, string>)
    requires forall id :: id in byId ==> byId[id] in outbox
    requires forall a, c :: a in byId && c in byId && outbox[byId[a]].predecessor == After(c) ==>
                            Generation(outbox[byId[c]]) < Generation(outbox[byId[a]])
    ensures Acyclic(GenerationGraph(outbox, byId))
  {
    forall p | IsPath(GenerationGraph(outbox, byId), p)
      ensures !IsCycle(GenerationGraph(outbox, byId), p)
    {
      GenerationsFall(outbox, byId, p);
    }
  }

  // ---------------------------------------------------------------- one goal

  /** The checks on one member against the index. */
  predicate MemberClean(outbox: OutboxMap, byId: map<string, string>, goal: Goal, e: Effect)
    requires forall id :: id in byId ==> byId[id] in outbox
  {
    if Generation(e) == 1 then e.predecessor == NoPredecessor
    else
      && e.predecessor.After? && e.predecessor.id in byId
      && var p := outbox[byId[e.predecessor.id]];
         GoalOf(p) == goal && Generation(p) == Generation(e) - 1 && p.status == NotSent
  }

  function MemberCodes(outbox: OutboxMap, byId: map<string, string>, goal: Goal, e: Effect): (codes: set<Code>)
    requires forall id :: id in byId ==> byId[id] in outbox
    ensures codes == {} <==> MemberClean(outbox, byId, goal, e)
  {
    if Generation(e) == 1 then (if e.predecessor != NoPredecessor then {RootHasPredecessor} else {})
    else if !e.predecessor.After? then {PredecessorMissing}
    else if e.predecessor.id !in byId then {PredecessorOrphaned}
    else
      var p := outbox[byId[e.predecessor.id]];
      (if GoalOf(p) != goal then {GoalMismatch} else {})
      + (if Generation(p) != Generation(e) - 1 then {GenerationGap} else {})
      + (if p.status != NotSent then {PredecessorNotRetryable} else {})
  }

  function UnresolvedOf(outbox: OutboxMap, members: seq<string>): (r: seq<string>)
    requires forall k :: k in members ==> k in outbox
    ensures forall k :: k in r <==> k in members && Unresolved(outbox[k].status)
    ensures Distinct(members) ==> Distinct(r)
  {
    if members == [] then []
    else
      var n := |members| - 1;
      var before := UnresolvedOf(outbox, members[..n]);
      assert forall k :: k in members <==> k in members[..n] || k == members[n];
      assert Distinct(members) ==> members[n] !in members[..n];
      assert forall i :: 0 <= i < |before| ==> before[i] in members[..n];
      if Unresolved(outbox[members[n]].status) then before + [members[n]] else before
  }

  lemma ManyMeansTwo(s: seq<string>)
    requires Distinct(s)
    ensures |s| > 1 <==> exists a, c :: a in s && c in s && a != c
  {
    if |s| > 1 {
      assert s[0] in s && s[1] in s && s[0] != s[1];
    }
  }

  ghost predicate GenerationsApart(outbox: OutboxMap, members: seq<string>)
    requires forall k :: k in members ==> k in outbox
  {
    forall k, l :: k in members && l in members && k != l ==> Generation(outbox[k]) != Generation(outbox[l])
  }

  ghost predicate Unforked(outbox: OutboxMap, members: seq<string>)
    requires forall k :: k in members ==> k in outbox
  {
    forall k, l :: k in members && l in members && k != l && outbox[k].predecessor.After? ==>
                   outbox[k].predecessor != outbox[l].predecessor
  }

  ghost predicate OneUnresolved(outbox: OutboxMap, members: seq<string>)
    requires forall k :: k in members ==> k in outbox
  {
    forall k, l :: k in members && l in members && k != l ==>
                   !(Unresolved(outbox[k].status) && Unresolved(outbox[l].status))
  }

  ghost predicate ByGeneration(outbox: OutboxMap, done: seq<string>, groups: map<int, seq<string>>)
    requires forall k :: k in done ==> k in outbox
  {
    && (forall k :: k in done ==> Generation(outbox[k]) in groups)
    && (forall g :: g in groups ==> Distinct(groups[g]))
    && (forall g, k :: g in groups ==> (k in groups[g] <==> k in done && Generation(outbox[k]) == g))
  }

  ghost predicate BySuccession(outbox: OutboxMap, done: seq<string>, groups: map<string, seq<string>>)
    requires forall k :: k in done ==> k in outbox
  {
    && (forall k :: k in done && outbox[k].predecessor.After? ==> outbox[k].predecessor.id in groups)
    && (forall p :: p in groups ==> Distinct(groups[p]))
    && (forall p, k :: p in groups ==> (k in groups[p] <==> k in done && outbox[k].predecessor == After(p)))
  }

  lemma ByGenerationGrows(outbox: OutboxMap, done: seq<string>, groups: map<int, seq<string>>, k: string)
    requires (forall x :: x in done ==> x in outbox) && k in outbox && k !in done && ByGeneration(outbox, done, groups)
    ensures forall x :: x in done + [k] ==> x in outbox
    ensures ByGeneration(outbox, done + [k], AddTo(groups, Generation(outbox[k]), k))
  {
  }

  lemma BySuccessionGrows(outbox: OutboxMap, done: seq<string>, groups: map<string, seq<string>>, k: string)
    requires (forall x :: x in done ==> x in outbox) && k in outbox && k !in done && BySuccession(outbox, done, groups)
    ensures forall x :: x in done + [k] ==> x in outbox
    ensures BySuccession(outbox, done + [k],
              if outbox[k].predecessor.After? then AddTo(groups, outbox[k].predecessor.id, k) else groups)
  {
  }

  lemma DuplicateGenerations(outbox: OutboxMap, members: seq<string>, groups: map<int, seq<string>>)
    requires (forall k :: k in members ==> k in outbox) && ByGeneration(outbox, members, groups)
    ensures GenerationsApart(outbox, members) <==> forall g :: g in groups ==> |groups[g]| <= 1
  {
    if GenerationsApart(outbox, members) {
      forall g | g in groups
        ensures |groups[g]| <= 1
      {
        assert forall k :: k in groups[g] ==> k in members && Generation(outbox[k]) == g;
        ManyMeansTwo(groups[g]);
      }
    } else {
      var k, l :| k in members && l in members && k != l && Generation(outbox[k]) == Generation(outbox[l]);
      var g := Generation(outbox[k]);
      assert k in groups[g] && l in groups[g];
      ManyMeansTwo(groups[g]);
    }
  }

  lemma Forks(outbox: OutboxMap, members: seq<string>, groups: map<string, seq<string>>)
    requires (forall k :: k in members ==> k in outbox) && BySuccession(outbox, members, groups)
    ensures Unforked(outbox, members) <==> forall p :: p in groups ==> |groups[p]| <= 1
  {
    if Unforked(outbox, members) {
      forall p | p in groups
        ensures |groups[p]| <= 1
      {
        assert forall k :: k in groups[p] ==> k in members && outbox[k].predecessor == After(p);
        ManyMeansTwo(groups[p]);
      }
    } else {
      var k, l :| k in members && l in members && k != l
                  && outbox[k].predecessor.After? && outbox[k].predecessor == outbox[l].predecessor;
      var p := outbox[k].predecessor.id;
      assert k in groups[p] && l in groups[p];
      ManyMeansTwo(groups[p]);
    }
  }

  lemma ManyUnresolved(outbox: OutboxMap, members: seq<string>)
    requires Distinct(members) && forall k :: k in members ==> k in outbox
    ensures OneUnresolved(outbox, members) <==> |UnresolvedOf(outbox, members)| <= 1
  {
    var u := UnresolvedOf(outbox, members);
    ManyMeansTwo(u);
    if !OneUnresolved(outbox, members) {
      var k, l :| k in members && l in members && k != l
                  && Unresolved(outbox[k].status) && Unresolved(outbox[l].status);
      assert k in u && l in u;
    }
  }

  method GroupGoal(outbox: OutboxMap, byId: map<string, string>, goal: Goal, members: seq<string>)
    returns (codes: set<Code>, generations: map<int, seq<string>>, successors: map<string, seq<string>>)
    requires Distinct(members) && (forall k :: k in members ==> k in outbox)
    requires forall id :: id in byId ==> byId[id] in outbox
    ensures ByGeneration(outbox, members, generations) && BySuccession(outbox, members, successors)
    ensures codes == {} <==> forall k :: k in members ==> MemberClean(outbox, byId, goal, outbox[k])
  {
    codes, generations, successors := {}, map[], map[];
    for i := 0 to |members|
      invariant forall k :: k in members[..i] ==> k in outbox
      invariant ByGeneration(outbox, members[..i], generations) && BySuccession(outbox, members[..i], successors)
      invariant codes == {} <==> forall k :: k in members[..i] ==> MemberClean(outbox, byId, goal, outbox[k])
    {
      var k := members[i];
      assert k !in members[..i] && members[..i + 1] == members[..i] + [k];
      ByGenerationGrows(outbox, members[..i], generations, k);
      BySuccessionGrows(outbox, members[..i], successors, k);
      generations := AddTo(generations, Generation(outbox[k]), k);
      if outbox[k].predecessor.After? {
        successors := AddTo(successors, outbox[k].predecessor.id, k);
      }
      codes := codes + MemberCodes(outbox, byId, goal, outbox[k]);
    }
    assert members[..|members|] == members;
  }

  method CheckGoal(outbox: OutboxMap, byId: map<string, string>, goal: Goal, members: seq<string>)
    returns (codes: set<Code>)
    requires Distinct(members) && (forall k :: k in members ==> k in outbox)
    requires forall id :: id in byId ==> byId[id] in outbox
    ensures codes == {} <==>
              && (forall k :: k in members ==> MemberClean(outbox, byId, goal, outbox[k]))
              && GenerationsApart(outbox, members) && Unforked(outbox, members) && OneUnresolved(outbox, members)
  {
    var generations, successors;
    codes, generations, successors := GroupGoal(outbox, byId, goal, members);
    DuplicateGenerations(outbox, members, generations);
    Forks(outbox, members, successors);
    ManyUnresolved(outbox, members);
    if exists g :: g in generations && |generations[g]| > 1 {
      codes := codes + {GenerationDuplicate};
    }
    if exists p :: p in successors && |successors[p]| > 1 {
      codes := codes + {GenerationFork};
    }
    if |UnresolvedOf(outbox, members)| > 1 {
      codes := codes + {MultipleUnresolvedForGoal};
    }
  }

  // ---------------------------------------------------------------- all goals and lanes

  /** Every goal in turn. */
  method CheckGoals(outbox: OutboxMap, byId: map<string, string>, lineage: seq<string>, goals: map<Goal, seq<string>>)
    returns (codes: set<Code>)
    requires (forall k :: k in lineage ==> k in outbox) && (forall id :: id in byId ==> byId[id] in outbox)
    requires GroupedByGoal(outbox, lineage, goals)
    ensures codes == {} <==> forall g :: g in goals ==> GoalClean(outbox, byId, g, goals[g])
  {
    codes := {};
    var rest := goals.Keys;
    while rest != {}
      invariant rest <= goals.Keys
      invariant codes == {} <==> forall g :: g in goals.Keys - rest ==> GoalClean(outbox, byId, g, goals[g])
      decreases rest
    {
      var g :| g in rest;
      assert forall k :: k in goals[g] ==> k in outbox;
      var found := CheckGoal(outbox, byId, g, goals[g]);
      codes := codes + found;
      assert goals.Keys - (rest - {g}) == (goals.Keys - rest) + {g};
      rest := rest - {g};
    }
    assert goals.Keys - rest == goals.Keys;
  }

  method CheckLanes(outbox: OutboxMap, lineage: seq<string>, lanes: map<Lane, seq<string>>) returns (codes: set<Code>)
    requires (forall k :: k in lineage ==> k in outbox) && GroupedByLane(outbox, lineage, lanes)
    ensures codes == {} <==> forall l :: l in lanes ==> LaneClean(outbox, lanes[l])
  {
    codes := {};
    var rest := lanes.Keys;
    while rest != {}
      invariant rest <= lanes.Keys
      invariant codes == {} <==> forall l :: l in lanes.Keys - rest ==> LaneClean(outbox, lanes[l])
      decreases rest
    {
      var l :| l in rest;
      assert forall k :: k in lanes[l] ==> k in outbox;
      ManyUnresolved(outbox, lanes[l]);
      if |UnresolvedOf(outbox, lanes[l])| > 1 {
        codes := codes + {MultipleUnresolvedForLane};
      }
      assert lanes.Keys - (rest - {l}) == (lanes.Keys - rest) + {l};
      rest := rest - {l};
    }
    assert lanes.Keys - rest == lanes.Keys;
  }

  ghost predicate GoalClean(outbox: OutboxMap, byId: map<string, string>, goal: Goal, members: seq<string>) {
    && (forall k :: k in members ==> k in outbox) && (forall id :: id in byId ==> byId[id] in outbox)
    && (forall k :: k in members ==> MemberClean(outbox, byId, goal, outbox[k]))
    && GenerationsApart(outbox, members) && Unforked(outbox, members) && OneUnresolved(outbox, members)
  }

  ghost predicate LaneClean(outbox: OutboxMap, members: seq<string>) {
    (forall k :: k in members ==> k in outbox) && OneUnresolved(outbox, members)
  }

  /** When the index is the identity on the branch, the per-goal checks are the lineage condition. */
  lemma GoalsMeanLineage(wo: WorkOrder, b: Branch, outbox: OutboxMap, byId: map<string, string>,
                         keys: seq<string>, goals: map<Goal, seq<string>>)
    requires Lists(wo, b, outbox, keys) && (forall k :: k in keys ==> k in outbox) && GroupedByGoal(outbox, keys, goals)
    requires (forall id :: id in byId <==> id in keys) && (forall id :: id in byId ==> byId[id] == id)
    requires forall g :: g in goals ==> GoalClean(outbox, byId, g, goals[g])
    ensures LineageClean(wo, b, outbox)
  {
    forall k | k in outbox && InBranch(wo, b, outbox, k)
      ensures FollowsPredecessor(wo, b, outbox, outbox[k])
    {
      var g := GoalOf(outbox[k]);
      assert k in goals[g];
      assert MemberClean(outbox, byId, g, outbox[k]);
    }
    forall k, l | k in outbox && l in outbox && InBranch(wo, b, outbox, k) && InBranch(wo, b, outbox, l) && k != l
                  && GoalOf(outbox[k]) == GoalOf(outbox[l])
      ensures Generation(outbox[k]) != Generation(outbox[l])
    {
      var g := GoalOf(outbox[k]);
      assert k in goals[g] && l in goals[g];
    }
  }

  lemma LineageMeansGoals(wo: WorkOrder, b: Branch, outbox: OutboxMap, byId: map<string, string>,
                          keys: seq<string>, goals: map<Goal, seq<string>>, g: Goal)
    requires Lists(wo, b, outbox, keys) && (forall k :: k in keys ==> k in outbox) && GroupedByGoal(outbox, keys, goals)
    requires (forall id :: id in byId <==> id in keys) && (forall id :: id in byId ==> byId[id] == id)
    requires EntriesClean(wo, b, outbox) && LineageClean(wo, b, outbox) && g in goals
    ensures GoalClean(outbox, byId, g, goals[g])
  {
    var members := goals[g];
    forall k | k in members
      ensures k in outbox && InBranch(wo, b, outbox, k) && MemberClean(outbox, byId, g, outbox[k])
    {
      assert InBranch(wo, b, outbox, k) && FollowsPredecessor(wo, b, outbox, outbox[k]);
    }
    forall k, l | k in members && l in members && k != l
      ensures outbox[k].predecessor.After? ==> outbox[k].predecessor != outbox[l].predecessor
      ensures !(Unresolved(outbox[k].status) && Unresolved(outbox[l].status))
    {
      OneUnresolvedPerGoal(wo, b, outbox, k, l);
      if outbox[k].predecessor.After? {
        NoForks(wo, b, outbox, k, l);
      }
    }
  }

  lemma LanesMeanLanesClean(wo: WorkOrder, b: Branch, outbox: OutboxMap, keys: seq<string>,
                            lanes: map<Lane, seq<string>>)
    requires Lists(wo, b, outbox, keys) && (forall k :: k in keys ==> k in outbox) && GroupedByLane(outbox, keys, lanes)
    ensures LanesClean(wo, b, outbox) <==> forall l :: l in lanes ==> LaneClean(outbox, lanes[l])
  {
    if LanesClean(wo, b, outbox) {
      forall l | l in lanes
        ensures LaneClean(outbox, lanes[l])
      {
        assert forall k :: k in lanes[l] ==> InBranch(wo, b, outbox, k) && LaneOf(outbox[k]) == l;
      }
    } else {
      var k, m :| k in outbox && m in outbox && InBranch(wo, b, outbox, k) && InBranch(wo, b, outbox, m) && k != m
                  && LaneOf(outbox[k]) == LaneOf(outbox[m])
                  && Unresolved(outbox[k].status) && Unresolved(outbox[m].status);
      var l := LaneOf(outbox[k]);
      assert k in lanes[l] && m in lanes[l];
    }
  }

  lemma CleanLineageIsAcyclic(wo: WorkOrder, b: Branch, outbox: OutboxMap, byId: map<string, string>)
    requires EntriesClean(wo, b, outbox) && LineageClean(wo, b, outbox)
    requires forall id :: id in byId ==> byId[id] in outbox
    requires forall id :: id in byId ==> byId[id] == id && InBranch(wo, b, outbox, id)
    ensures Acyclic(GenerationGraph(outbox, byId))
  {
    forall a, c | a in byId && c in byId && outbox[byId[a]].predecessor == After(c)
      ensures Generation(outbox[byId[c]]) < Generation(outbox[byId[a]])
    {
      assert EntryClean(a, outbox[a], b) && FollowsPredecessor(wo, b, outbox, outbox[a]);
    }
    FallingGenerationsAreAcyclic(outbox, byId);
  }

  // ---------------------------------------------------------------- attention

  /** Effects by id for the attention checks; a later entry replaces an earlier one of the same id. */
  function EffectsById(outbox: OutboxMap, keys: seq<string>): (r: map<string, string>)
    requires forall k :: k in keys ==> k in outbox
    ensures forall id :: id in r ==> r[id] in keys && outbox[r[id]].id == id
    ensures (forall k :: k in keys ==> outbox[k].id == k) ==>
              forall id :: (id in r <==> id in keys) && (id in r ==> r[id] == id)
  {
    if keys == [] then map[]
    else
      var n := |keys| - 1;
      assert forall k :: k in keys <==> k in keys[..n] || k == keys[n];
      EffectsById(outbox, keys[..n])[outbox[keys[n]].id := keys[n]]
  }

  predicate Covers(wo: WorkOrder, b: Branch, keys: seq<string>, a: string, k: string) {
    a in wo.attention && OpenRecovery(wo, b, a) && wo.attention[a].effect == Some(k) && k in keys
  }

  method CheckRecoveryRecord(wo: WorkOrder, b: Branch, outbox: OutboxMap, keys: seq<string>, a: string)
    returns (codes: set<Code>, covered: set<string>)
    requires Lists(wo, b, outbox, keys) && a in wo.attention
    ensures (forall k :: k in keys ==> outbox[k].id == k) ==>
              && (codes == {} <==> (OpenRecovery(wo, b, a) ==> RecoveryRecordClean(wo, b, outbox, a)))
              && forall k :: k in covered <==> Covers(wo, b, keys, a, k)
  {
    codes, covered := {}, {};
    if !OpenRecovery(wo, b, a) { return; }
    var effects := EffectsById(outbox, keys);
    var record := wo.attention[a];
    if record.id != a {
      codes := codes + {AttentionMapMismatch};
    }
    if record.effect.None? || record.effect.value !in effects {
      codes := codes + {RecoveryEffectMissing};
    } else {
      var bound := outbox[effects[record.effect.value]];
      covered := {bound.id};
      if bound.status != Sending && bound.status != DeliveryUnknown {
        codes := codes + {RecoveryEffectNotRecoverable};
      }
    }
  }

  lemma CoveredMeansRecovered(wo: WorkOrder, b: Branch, outbox: OutboxMap, keys: seq<string>)
    requires Lists(wo, b, outbox, keys)
    ensures forall k :: (exists a :: a in wo.attention && Covers(wo, b, keys, a, k)) <==> Recovered(wo, b, outbox, k)
  {
    forall k | Recovered(wo, b, outbox, k)
      ensures exists a :: a in wo.attention && Covers(wo, b, keys, a, k)
    {
      var a :| a in wo.attention && OpenRecovery(wo, b, a) && wo.attention[a].effect == Some(k);
      assert Covers(wo, b, keys, a, k);
    }
  }

  method CheckRecovery(wo: WorkOrder, b: Branch, outbox: OutboxMap, keys: seq<string>) returns (codes: set<Code>)
    requires Lists(wo, b, outbox, keys) && forall k :: k in keys ==> k in outbox
    ensures (forall k :: k in keys ==> outbox[k].id == k) ==> (codes == {} <==> RecoveryClean(wo, b, outbox))
  {
    codes := {};
    var covered: set<string> := {};
    var rest := wo.attention.Keys;
    ghost var plain := forall k :: k in keys ==> outbox[k].id == k;
    while rest != {}
      invariant rest <= wo.attention.Keys
      invariant plain ==> (codes == {} <==> forall a :: a in wo.attention.Keys - rest && OpenRecovery(wo, b, a) ==>
                                                    RecoveryRecordClean(wo, b, outbox, a))
      invariant plain ==> forall k ::
                  k in covered <==> exists a :: a in wo.attention.Keys - rest && Covers(wo, b, keys, a, k)
      decreases rest
    {
      var a :| a in rest;
      assert wo.attention.Keys - (rest - {a}) == (wo.attention.Keys - rest) + {a};
      var found, one := CheckRecoveryRecord(wo, b, outbox, keys, a);
      codes := codes + found;
      covered := covered + one;
      rest := rest - {a};
    }
    assert wo.attention.Keys - rest == wo.attention.Keys;
    CoveredMeansRecovered(wo, b, outbox, keys);
    if exists k :: k in keys && outbox[k].status == DeliveryUnknown && outbox[k].id !in covered {
      codes := codes + {RecoveryAttentionMissing};
    }
  }

  predicate Holds(wo: WorkOrder, b: Branch, outbox: OutboxMap, a: string, k: string) {
    && OpenOperator(wo, b, a) && OperatorRecordClean(wo, b, outbox, a)
    && wo.attention[a].effect == Some(k)
  }

  /** One attention record: a mismatch, or the effect it holds. */
  method CheckOperatorRecord(wo: WorkOrder, b: Branch, outbox: OutboxMap, keys: seq<string>, a: string)
    returns (codes: set<Code>, held: set<string>)
    requires a in wo.attention && Lists(wo, b, outbox, keys) && forall k :: k in keys ==> k in outbox
    ensures (forall k :: k in keys ==> outbox[k].id == k) ==>
              && (codes == {} <==> (OpenOperator(wo, b, a) ==> OperatorRecordClean(wo, b, outbox, a)))
              && (forall k :: k in held <==> Holds(wo, b, outbox, a, k))
  {
    codes, held := {}, {};
    var effects := EffectsById(outbox, keys);
    if OpenOperator(wo, b, a) {
      var record := wo.attention[a];
      if record.id != a || record.effect.None? || record.effect.value !in effects
         || !NeedsOperator(outbox[effects[record.effect.value]]) {
        codes := {OperatorEffectMismatch};
      } else {
        held := {outbox[effects[record.effect.value]].id};
      }
    }
  }

  method CheckOperator(wo: WorkOrder, b: Branch, outbox: OutboxMap, keys: seq<string>) returns (codes: set<Code>)
    requires Lists(wo, b, outbox, keys) && forall k :: k in keys ==> k in outbox
    ensures (forall k :: k in keys ==> outbox[k].id == k) ==> (codes == {} <==> OperatorClean(wo, b, outbox))
  {
    codes := {};
    var held: set<string> := {};
    var rest := wo.attention.Keys;
    ghost var plain := forall k :: k in keys ==> outbox[k].id == k;
    while rest != {}
      invariant rest <= wo.attention.Keys
      invariant plain ==> (codes == {} <==> forall a :: a in wo.attention.Keys - rest && OpenOperator(wo, b, a) ==>
                                                    OperatorRecordClean(wo, b, outbox, a))
      invariant plain ==> forall k ::
                  k in held <==> exists a :: a in wo.attention.Keys - rest && Holds(wo, b, outbox, a, k)
      decreases rest
    {
      var a :| a in rest;
      assert wo.attention.Keys - (rest - {a}) == (wo.attention.Keys - rest) + {a};
      var found, one := CheckOperatorRecord(wo, b, outbox, keys, a);
      codes := codes + found;
      held := held + one;
      rest := rest - {a};
    }
    assert wo.attention.Keys - rest == wo.attention.Keys;
    HeldMeansHeld(wo, b, outbox);
    if exists k :: k in keys && NeedsOperator(outbox[k]) && outbox[k].id !in held {
      codes := codes + {OperatorAttentionMissing};
    }
  }

  lemma HeldMeansHeld(wo: WorkOrder, b: Branch, outbox: OutboxMap)
    ensures forall k ::
              (exists a :: a in wo.attention && Holds(wo, b, outbox, a, k)) <==> HeldForOperator(wo, b, outbox, k)
  {
    forall k | HeldForOperator(wo, b, outbox, k)
      ensures exists a :: a in wo.attention && Holds(wo, b, outbox, a, k)
    {
      var a :| a in wo.attention && OpenOperator(wo, b, a) && wo.attention[a].id == a
          && wo.attention[a].effect == Some(k);
      assert Holds(wo, b, outbox, a, k);
    }
  }

  // ---------------------------------------------------------------- the whole derivation

  /** Indexing, the cycle search and the per-goal and per-lane checks. */
  method CheckLineage(wo: WorkOrder, b: Branch, outbox: OutboxMap, lineage: seq<string>,
                      lanes: map<Lane, seq<string>>, goals: map<Goal, seq<string>>) returns (codes: set<Code>)
    requires Distinct(lineage) && (forall k :: k in lineage ==> k in outbox)
    requires GroupedByGoal(outbox, lineage, goals) && GroupedByLane(outbox, lineage, lanes)
    ensures EntriesClean(wo, b, outbox) && Lists(wo, b, outbox, lineage) ==>
              (codes == {} <==> LineageClean(wo, b, outbox) && LanesClean(wo, b, outbox))
  {
    var duplicates, byId := IndexById(outbox, lineage);
    var ids := IdsOf(byId);
    var cyclic := FindCycles(GenerationGraph(outbox, byId), ids);
    var goalCodes := CheckGoals(outbox, byId, lineage, goals);
    var laneCodes := CheckLanes(outbox, lineage, lanes);
    codes := duplicates + (if cyclic then {GenerationCycle} else {}) + goalCodes + laneCodes;
    if EntriesClean(wo, b, outbox) && Lists(wo, b, outbox, lineage) {
      assert forall k :: k in lineage ==> EntryClean(k, outbox[k], b);
      LanesMeanLanesClean(wo, b, outbox, lineage, lanes);
      if LineageClean(wo, b, outbox) {
        CleanLineageIsAcyclic(wo, b, outbox, byId);
        forall g | g in goals
          ensures GoalClean(outbox, byId, g, goals[g])
        {
          LineageMeansGoals(wo, b, outbox, byId, lineage, goals, g);
        }
      } else if goalCodes == {} {
        GoalsMeanLineage(wo, b, outbox, byId, lineage, goals);
      }
    }
  }

  /** The ids of the index, in some order. */
  method IdsOf(byId: map<string, string>) returns (ids: seq<string>)
    ensures forall x :: x in ids <==> x in byId
  {
    ids := [];
    var rest := byId.Keys;
    while rest != {}
      invariant rest <= byId.Keys && forall x :: x in ids <==> x in byId.Keys - rest
      decreases rest
    {
      var x :| x in rest;
      ids := ids + [x];
      rest := rest - {x};
    }
  }

  /** A branch snapshot reports no violation exactly when the branch is clean. */
  method BranchViolations(wo: WorkOrder, b: Branch, outbox: OutboxMap, keys: seq<string>) returns (codes: set<Code>)
    requires Lists(wo, b, outbox, keys)
    ensures codes == {} <==> BranchClean(wo, b, outbox)
  {
    var entryCodes, lineage, lanes, goals := ScanEntries(wo, b, outbox, keys);
    var lineageCodes := CheckLineage(wo, b, outbox, lineage, lanes, goals);
    var recoveryCodes := CheckRecovery(wo, b, outbox, keys);
    var operatorCodes := CheckOperator(wo, b, outbox, keys);
    codes := entryCodes + lineageCodes + recoveryCodes + operatorCodes;
    if entryCodes == {} {
      assert forall k :: k in keys ==> EntryClean(k, outbox[k], b);
    }
  }

  /** The outbox entries that belong to the branch. */
  method BranchKeys(wo: WorkOrder, b: Branch, outbox: OutboxMap, all: seq<string>) returns (keys: seq<string>)
    requires Distinct(all) && forall k :: k in all <==> k in outbox
    ensures Lists(wo, b, outbox, keys)
  {
    keys := [];
    for i := 0 to |all|
      invariant Distinct(keys) && forall k :: k in keys <==> k in all[..i] && InBranch(wo, b, outbox, k)
    {
      assert all[..i + 1] == all[..i] + [all[i]];
      if InBranch(wo, b, outbox, all[i]) {
        keys := keys + [all[i]];
      }
    }
    assert all[..|all|] == all;
  }

  /** The work-order snapshot passes the invariant check exactly when the work order is clean. */
  method WorkOrderHasNoViolation(wo: WorkOrder, outbox: OutboxMap, all: seq<string>) returns (ok: bool)
    requires Distinct(all) && forall k :: k in all <==> k in outbox
    ensures ok <==> WorkOrderClean(wo, outbox)
  {
    ok := AllBound(wo, outbox) && RecoveryBound(wo);
    var rest := wo.branches.Keys;
    while rest != {}
      invariant rest <= wo.branches.Keys
      invariant ok <==> && AllBound(wo, outbox) && RecoveryBound(wo)
                        && forall ref :: ref in wo.branches.Keys - rest ==> BranchClean(wo, wo.branches[ref], outbox)
      decreases rest
    {
      var ref :| ref in rest;
      assert wo.branches.Keys - (rest - {ref}) == (wo.branches.Keys - rest) + {ref};
      var keys := BranchKeys(wo, wo.branches[ref], outbox, all);
      var codes := BranchViolations(wo, wo.branches[ref], outbox, keys);
      ok := ok && codes == {};
      rest := rest - {ref};
    }
  }
}
