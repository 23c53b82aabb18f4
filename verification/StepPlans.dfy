/**
 Proof-step plans: what makes a decomposition acceptable, and the depth-first walk that
 both rejects cyclic plans and orders accepted ones.
 */
module StepPlans {
  import opened Prelude

  type StepId = string

  datatype StepPlan = StepPlan(id: StepId, goal: string, dependsOn: seq<StepId>)

  datatype PlanError = EmptyPlan | DuplicateIds | SelfDependency | UnknownDependency | CyclicDependency

  datatype PlanVerdict = ValidPlan | InvalidPlan(error: PlanError)

  type Graph = map<StepId, seq<StepId>>

  // ---------------------------------------------------------------- what a plan means

  function Ids(steps: seq<StepPlan>): (ids: seq<StepId>)
    ensures |ids| == |steps|
    ensures forall i :: 0 <= i < |steps| ==> ids[i] == steps[i].id
  {
    seq(|steps|, i requires 0 <= i < |steps| => steps[i].id)
  }

  function GraphOf(steps: seq<StepPlan>): (g: Graph)
    requires Unique(Ids(steps))
    ensures g.Keys == Elements(Ids(steps))
    ensures forall i :: 0 <= i < |steps| ==> steps[i].id in g && g[steps[i].id] == steps[i].dependsOn
  {
    var ids := Ids(steps);
    var g := map i | 0 <= i < |steps| :: ids[i] := steps[i].dependsOn;
    assert forall i :: 0 <= i < |steps| ==> steps[i].id == ids[i];
    g
  }

  ghost predicate Closed(g: Graph) {
    forall a, b :: a in g && b in g[a] ==> b in g
  }

  /** A walk follows dependencies: each element depends on the one after it. */
  ghost predicate Walk(g: Graph, p: seq<StepId>) {
    forall i :: 0 <= i < |p| - 1 ==> p[i] in g && p[i + 1] in g[p[i]]
  }

  ghost predicate IsCycle(g: Graph, p: seq<StepId>) {
    |p| >= 2 && p[0] == p[|p| - 1] && Walk(g, p)
  }

  ghost predicate Acyclic(g: Graph) {
    forall p :: !IsCycle(g, p)
  }

  /** Each element's dependencies all stand strictly before it. */
  ghost predicate DependenciesFirst(g: Graph, order: seq<StepId>) {
    forall i :: 0 <= i < |order| ==>
      order[i] in g && forall d :: d in g[order[i]] ==> d in order[..i]
  }

  /** A topological order of the whole graph: a permutation of its ids, dependencies first. */
  ghost predicate IsTopological(g: Graph, order: seq<StepId>) {
    && Unique(order)
    && Elements(order) == g.Keys
    && DependenciesFirst(g, order)
  }

  ghost predicate WellFormedPlan(steps: seq<StepPlan>) {
    && steps != []
    && Unique(Ids(steps))
    && Closed(GraphOf(steps))
    && Acyclic(GraphOf(steps))
  }

  // ---------------------------------------------------------------- order <==> no cycle

  lemma PositionBefore(g: Graph, order: seq<StepId>, i: nat, d: StepId) returns (k: nat)
    requires DependenciesFirst(g, order) && i < |order| && d in g[order[i]]
    ensures k < i && order[k] == d
  {
    assert d in order[..i];
    k :| 0 <= k < i && order[..i][k] == d;
  }

  /** Along a walk, positions in a dependencies-first order strictly fall. */
  lemma {:induction false} WalkDescends(g: Graph, order: seq<StepId>, p: seq<StepId>, i: nat) returns (k: nat)
    requires DependenciesFirst(g, order) && Walk(g, p) && |p| >= 2
    requires i < |order| && order[i] == p[0]
    ensures k < i && order[k] == p[|p| - 1]
    decreases |p|
  {
    assert p[1] in g[p[0]];
    k := PositionBefore(g, order, i, p[1]);
    if |p| > 2 {
      assert Walk(g, p[1..]) by {
        forall j | 0 <= j < |p[1..]| - 1
          ensures p[1..][j] in g && p[1..][j + 1] in g[p[1..][j]]
        {
          assert p[j + 1] in g && p[j + 2] in g[p[j + 1]];
        }
      }
      var below := WalkDescends(g, order, p[1..], k);
      k := below;
    }
  }

  /** A graph that has a topological order has no dependency cycle. */
  lemma OrderedImpliesAcyclic(g: Graph, order: seq<StepId>)
    requires IsTopological(g, order)
    ensures Acyclic(g)
  {
    forall p | IsCycle(g, p)
      ensures false
    {
      assert p[0] in g;
      assert p[0] in Elements(order);
      var i :| 0 <= i < |order| && order[i] == p[0];
      var k := WalkDescends(g, order, p, i);
    }
  }

  // ---------------------------------------------------------------- the depth-first walk

  /**
   The nested `visit` functions of the validator and of the topological sort, with the sets they
   close over as fields. `path` records the chain of unfinished ids, which are exactly `visiting`.
   */
  class DependencyWalk {
    const graph: Graph
    var visiting: set<StepId>
    var visited: set<StepId>
    var order: seq<StepId>
    ghost var path: seq<StepId>

    constructor (graph: Graph)
      ensures this.graph == graph && visiting == {} && visited == {} && order == [] && path == []
    {
      this.graph := graph;
      visiting, visited, order, path := {}, {}, [], [];
    }

    ghost predicate Valid()
      reads this
    {
      && Closed(graph)
      && visiting !! visited
      && visiting <= graph.Keys && visited <= graph.Keys
      && Elements(order) == visited
      && Unique(order)
      && DependenciesFirst(graph, order)
      && Elements(path) == visiting
      && Walk(graph, path)
    }

    /** Finishes `id` after everything it depends on, or reports a cycle. */
    method Visit(id: StepId) returns (cyclic: bool)
      requires Valid() && id in graph
      requires path != [] ==> path[|path| - 1] in graph && id in graph[path[|path| - 1]]
      modifies this
      ensures cyclic ==> !Acyclic(graph)
      ensures !cyclic ==> Valid() && visiting == old(visiting) && path == old(path)
      ensures !cyclic ==> id in visited && old(order) <= order && old(visited) <= visited
      decreases graph.Keys - visiting
    {
      if id in visited {
        return false;
      }
      if id in visiting {
        CycleThroughPath(graph, path, id);
        return true;
      }
      ghost var oldPath := path;
      ghost var oldVisiting := visiting;
      visiting := visiting + {id};
      path := path + [id];
      assert Walk(graph, path);
      assert Elements(path) == visiting;
      var deps := graph[id];
      var i := 0;
      while i < |deps|
        invariant 0 <= i <= |deps|
        invariant Valid() && path == oldPath + [id] && visiting == oldVisiting + {id}
        invariant old(order) <= order && old(visited) <= visited
        invariant forall k :: 0 <= k < i ==> deps[k] in visited
      {
        var cycle := Visit(deps[i]);
        if cycle {
          return true;
        }
        i := i + 1;
      }
      visiting := visiting - {id};
      visited := visited + {id};
      path := oldPath;
      ghost var before := order;
      assert forall d :: d in graph[id] ==> d in Elements(before);
      order := order + [id];
      AppendDone(graph, before, id);
      return false;
    }
  }

  lemma CycleThroughPath(g: Graph, path: seq<StepId>, id: StepId)
    requires Walk(g, path) && id in path
    requires path[|path| - 1] in g && id in g[path[|path| - 1]]
    ensures !Acyclic(g)
  {
    var k :| 0 <= k < |path| && path[k] == id;
    var cycle := path[k..] + [id];
    forall i | 0 <= i < |cycle| - 1
      ensures cycle[i] in g && cycle[i + 1] in g[cycle[i]]
    {
      assert cycle[i] == path[k + i];
      if k + i < |path| - 1 {
        assert path[k + i] in g && path[k + i + 1] in g[path[k + i]];
      }
    }
    assert IsCycle(g, cycle);
  }

  lemma AppendDone(g: Graph, before: seq<StepId>, id: StepId)
    requires DependenciesFirst(g, before) && Unique(before) && id !in before && id in g
    requires forall d :: d in g[id] ==> d in before
    ensures DependenciesFirst(g, before + [id]) && Unique(before + [id])
    ensures Elements(before + [id]) == Elements(before) + {id}
  {
    var after := before + [id];
    forall i | 0 <= i < |after|
      ensures after[i] in g && forall d :: d in g[after[i]] ==> d in after[..i]
    {
      if i < |before| {
        assert after[..i] == before[..i];
      } else {
        assert after[..i] == before;
      }
    }
  }

  // ---------------------------------------------------------------- validator and sort

  /** Visits every id in turn: the loop that closes both depth-first searches. */
  method WalkAll(graph: Graph, ids: seq<StepId>) returns (cyclic: bool, order: seq<StepId>)
    requires Closed(graph) && Elements(ids) == graph.Keys
    ensures cyclic <==> !Acyclic(graph)
    ensures !cyclic ==> IsTopological(graph, order)
  {
    var walk := new DependencyWalk(graph);
    for i := 0 to |ids|
      invariant walk.graph == graph && walk.Valid() && walk.path == []
      invariant forall k :: 0 <= k < i ==> ids[k] in walk.visited
    {
      assert ids[i] in graph;
      var found := walk.Visit(ids[i]);
      if found {
        return true, [];
      }
    }
    assert forall id :: id in graph.Keys ==> id in Elements(ids);
    OrderedImpliesAcyclic(graph, walk.order);
    return false, walk.order;
  }

  lemma SelfLoop(g: Graph, id: StepId)
    requires id in g && id in g[id]
    ensures !Acyclic(g)
  {
    assert IsCycle(g, [id, id]);
  }

  predicate SelfDependent(step: StepPlan) {
    step.id in step.dependsOn
  }

  /** A step that passed its checks. */
  predicate Checked(graph: Graph, step: StepPlan) {
    !SelfDependent(step) && forall d :: d in step.dependsOn ==> d in graph
  }

  /** The dependency checks of one step. */
  method CheckStep(graph: Graph, step: StepPlan) returns (verdict: PlanVerdict)
    requires step.id in graph && graph[step.id] == step.dependsOn
    ensures match verdict
      case ValidPlan => Checked(graph, step)
      case InvalidPlan(error) =>
        if SelfDependent(step) then error == SelfDependency && !Acyclic(graph)
        else error == UnknownDependency && !Closed(graph)
  {
    if step.id in step.dependsOn {
      SelfLoop(graph, step.id);
      return InvalidPlan(SelfDependency);
    }
    if exists d :: d in step.dependsOn && d !in graph {
      return InvalidPlan(UnknownDependency);
    }
    return ValidPlan;
  }

  /** The first error that the per-step dependency checks raise, in plan order. */
  method CheckDependencies(steps: seq<StepPlan>) returns (verdict: PlanVerdict)
    requires Unique(Ids(steps))
    ensures verdict == ValidPlan ==> Closed(GraphOf(steps))
    ensures verdict == InvalidPlan(UnknownDependency) ==> !Closed(GraphOf(steps))
    ensures verdict == InvalidPlan(SelfDependency) ==>
      (exists s :: s in steps && SelfDependent(s)) && !Acyclic(GraphOf(steps))
    ensures verdict in {ValidPlan, InvalidPlan(UnknownDependency), InvalidPlan(SelfDependency)}
    ensures (exists s :: s in steps && SelfDependent(s)) ==> verdict != ValidPlan
  {
    var graph := GraphOf(steps);
    for i := 0 to |steps|
      invariant forall k :: 0 <= k < i ==> Checked(graph, steps[k])
    {
      verdict := CheckStep(graph, steps[i]);
      if verdict != ValidPlan {
        assert steps[i] in steps;
        return;
      }
    }
    PlanClosed(steps);
    return ValidPlan;
  }

  lemma PlanClosed(steps: seq<StepPlan>)
    requires Unique(Ids(steps)) && forall k :: 0 <= k < |steps| ==> Checked(GraphOf(steps), steps[k])
    ensures Closed(GraphOf(steps))
  {
    var g := GraphOf(steps);
    forall a, b | a in g && b in g[a]
      ensures b in g
    {
      assert a in Ids(steps);
      var k :| 0 <= k < |steps| && Ids(steps)[k] == a;
      assert Checked(g, steps[k]) && g[steps[k].id] == steps[k].dependsOn;
    }
  }

  /** `_validate_step_plan`: accepts exactly the well-formed plans, and names the first defect. */
  method ValidateStepPlan(steps: seq<StepPlan>) returns (verdict: PlanVerdict)
    ensures verdict == ValidPlan <==> WellFormedPlan(steps)
    ensures verdict == InvalidPlan(EmptyPlan) <==> steps == []
    ensures verdict == InvalidPlan(DuplicateIds) <==> steps != [] && !Unique(Ids(steps))
    ensures verdict == InvalidPlan(UnknownDependency) ==> Unique(Ids(steps)) && !Closed(GraphOf(steps))
    ensures verdict == InvalidPlan(SelfDependency) ==> exists s :: s in steps && SelfDependent(s)
    ensures verdict == InvalidPlan(CyclicDependency) ==>
      && Unique(Ids(steps)) && Closed(GraphOf(steps)) && !Acyclic(GraphOf(steps))
      && forall s :: s in steps ==> !SelfDependent(s)
  {
    if steps == [] {
      return InvalidPlan(EmptyPlan);
    }
    var ids := Ids(steps);
    CardinalityDecidesUniqueness(ids);
    if |ids| != |Elements(ids)| {
      return InvalidPlan(DuplicateIds);
    }
    verdict := CheckDependencies(steps);
    if verdict == ValidPlan {
      var cyclic, _ := WalkAll(GraphOf(steps), ids);
      if cyclic {
        return InvalidPlan(CyclicDependency);
      }
    }
  }

  /** `_topological_step_ids`: every accepted plan has an order, and this finds one. */
  method TopologicalStepIds(steps: seq<StepPlan>) returns (order: seq<StepId>)
    requires WellFormedPlan(steps)
    ensures IsTopological(GraphOf(steps), order) && |order| == |steps|
  {
    var cyclic;
    cyclic, order := WalkAll(GraphOf(steps), Ids(steps));
    CardinalityDecidesUniqueness(order);
    CardinalityDecidesUniqueness(Ids(steps));
  }
}
