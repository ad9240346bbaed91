/** The final-acceptance gate's cycle check: it keeps edge lists, and starts from the known tasks only. */
module ProductPlanFinalAcceptance {
  import opened Order
  import opened DependencyGraph

  method BuildGraph(taskIds: set<Id>, edges: seq<Edge>) returns (graph: map<Id, seq<Id>>)
    ensures taskIds <= graph.Keys
    ensures forall t, d :: t in graph && d in graph[t] <==> (t, d) in edges
  {
    graph := map t | t in taskIds :: [];
    for i := 0 to |edges|
      invariant taskIds <= graph.Keys
      invariant forall t, d :: t in graph && d in graph[t] <==> (t, d) in edges[..i]
    {
      assert edges[..i + 1] == edges[..i] + [edges[i]];
      var (task, dependency) := edges[i];
      graph := graph[task := (if task in graph then graph[task] else []) + [dependency]];
    }
    assert edges[..|edges|] == edges;
  }

  class CycleCheck {
    const graph: map<Id, seq<Id>>
    var visiting: set<Id>
    var visited: set<Id>

    ghost function E(): set<Edge> {
      set a, b | a in graph && b in graph[a] :: (a, b)
    }

    ghost function Nodes(): set<Id> {
      graph.Keys + Endpoints(E())
    }

    ghost predicate Valid()
      reads this
    {
      SearchState(E(), Nodes(), visiting, visited)
    }

    constructor (graph: map<Id, seq<Id>>)
      ensures this.graph == graph
      ensures Valid() && visiting == {} && visited == {}
    {
      this.graph := graph;
      visiting, visited := {}, {};
    }

    method Visit(task: Id) returns (found: bool)
      requires Valid() && task in Nodes()
      requires forall v :: v in visiting ==> Reaches(E(), v, task)
      modifies this
      ensures found ==> exists a :: Reaches(E(), a, a) && (a in old(visiting) + {task} || Reaches(E(), task, a))
      ensures !found ==> Valid() && visiting == old(visiting) && old(visited) + {task} <= visited
      decreases Nodes() - visiting - visited
    {
      if task in visiting {
        return true;
      }
      if task in visited {
        return false;
      }
      visiting := visiting + {task};
      var dependencies := if task in graph then graph[task] else [];
      for i := 0 to |dependencies|
        invariant Valid() && visiting == old(visiting) + {task} && old(visited) <= visited
        invariant forall j :: 0 <= j < i ==> dependencies[j] in visited
      {
        var dependency := dependencies[i];
        assert (task, dependency) in E();
        EnterReaches(E(), old(visiting), task, dependency);
        SearchShrinks(Nodes(), old(visiting), old(visited), visited, task);
        var inner := Visit(dependency);
        if inner {
          ghost var a :| Reaches(E(), a, a) && (a in old(visiting) + {task} + {dependency} || Reaches(E(), dependency, a));
          EdgeReaches(E(), task, dependency);
          if Reaches(E(), dependency, a) {
            ReachesTransitive(E(), task, dependency, a);
          }
          return true;
        }
      }
      Settle(E(), visited, task);
      visiting := visiting - {task};
      visited := visited + {task};
      return false;
    }
  }

  /** A cycle that some known task lies on or depends on. */
  ghost predicate CycleInReach(taskIds: set<Id>, edges: seq<Edge>) {
    var E := Elements(edges);
    exists t, a :: t in taskIds && Reaches(E, a, a) && (a == t || Reaches(E, t, a))
  }

  /** The check says yes exactly when a cycle can be reached from a known task. */
  method HasCycle(taskIds: set<Id>, edges: seq<Edge>) returns (found: bool)
    ensures found <==> CycleInReach(taskIds, edges)
  {
    var graph := BuildGraph(taskIds, edges);
    var check := new CycleCheck(graph);
    ghost var E := Elements(edges);
    assert check.E() == E by {
      forall e: Edge ensures e in check.E() <==> e in E {
        assert e.0 in graph && e.1 in graph[e.0] <==> (e.0, e.1) in edges;
      }
    }
    var order := Sorted(taskIds);
    for i := 0 to |order|
      invariant check.Valid() && check.visiting == {} && check.graph == graph
      invariant forall j :: 0 <= j < i ==> order[j] in check.visited
    {
      assert order[i] in Elements(order);
      found := check.Visit(order[i]);
      if found {
        return true;
      }
    }
    if CycleInReach(taskIds, edges) {
      ghost var t, a :| t in taskIds && Reaches(E, a, a) && (a == t || Reaches(E, t, a));
      assert t in Elements(order);
      if a != t {
        ghost var p :| Walk(E, t, a, p);
        ClosedReaches(E, check.visited, p);
      }
      assert false;
    }
    return false;
  }

  /** With every endpoint known, a cycle anywhere is in reach. */
  lemma CycleInReachWhenKnown(taskIds: set<Id>, edges: seq<Edge>)
    requires forall e :: e in edges ==> e.0 in taskIds && e.1 in taskIds
    ensures CycleInReach(taskIds, edges) <==> Cyclic(Elements(edges))
  {
    var E := Elements(edges);
    if Cyclic(E) {
      var a :| Reaches(E, a, a);
      var b := ReachesFirst(E, a, a);
      assert (a, b) in edges;
    }
  }

  /** The number of dependencies the accepted plan has. */
  const EDGE_COUNT: nat := 51

  /** The gate's dependency-graph line. */
  method DependencyGraphCheck(taskIds: set<Id>, edges: seq<Edge>) returns (pass: bool)
    ensures pass <==> |edges| == 51 && Endpoints(Elements(edges)) <= taskIds && !Cyclic(Elements(edges))
  {
    var found := HasCycle(taskIds, edges);
    pass := && |edges| == EDGE_COUNT
            && !(exists e | e in edges :: e.0 == e.1)
            && (forall e | e in edges :: e.0 in taskIds && e.1 in taskIds)
            && !found;
    ghost var E := Elements(edges);
    if forall e :: e in edges ==> e.0 in taskIds && e.1 in taskIds {
      CycleInReachWhenKnown(taskIds, edges);
      if e: Edge :| e in edges && e.0 == e.1 {
        EdgeReaches(E, e.0, e.0);
      }
    } else {
      ghost var e :| e in edges && !(e.0 in taskIds && e.1 in taskIds);
      assert e in E && e.0 in Endpoints(E) && e.1 in Endpoints(E);
    }
  }
}
