/** Manifest intake's depth-first search, which returns a dependency cycle written out. */
module ManifestCycle {
  import opened Order
  import opened DependencyGraph
  import opened Wrappers

  ghost predicate Trail(E: set<Edge>, p: seq<Id>) {
    Distinct(p) && (p != [] ==> Path(E, p))
  }

  class CycleSearch {
    const graph: map<Id, set<Id>>
    var visiting: seq<Id>
    var visited: set<Id>

    ghost const edges: set<Edge>
    ghost const nodes: set<Id>

    /** `visiting` is a walk without repeats; `visited` is closed and meets no cycle. */
    ghost predicate Valid()
      reads this
    {
      && (forall a, b :: (a, b) in edges <==> a in graph && b in graph[a])
      && (forall a, b :: (a, b) in edges ==> b in nodes)
      && SearchState(edges, nodes, Elements(visiting), visited)
      && Trail(edges, visiting)
    }

    constructor (graph: map<Id, set<Id>>)
      ensures this.graph == graph && edges == EdgesOf(graph) && graph.Keys <= nodes
      ensures Valid() && visiting == []
    {
      this.graph := graph;
      edges := EdgesOf(graph);
      nodes := graph.Keys + Endpoints(EdgesOf(graph));
      visiting, visited := [], {};
    }

    function IndexOf(xs: seq<Id>, x: Id): (i: nat)
      requires x in xs
      ensures i < |xs| && xs[i] == x
    {
      if xs[0] == x then 0 else 1 + IndexOf(xs[1..], x)
    }

    /** Either a cycle written out, or the node is cleared and the search stands where it stood. */
    method Visit(node: Id) returns (found: Option<seq<Id>>)
      requires Valid() && node in nodes
      requires visiting != [] ==> (visiting[|visiting| - 1], node) in edges
      modifies this
      ensures found.Some? ==> SimpleCycle(edges, found.value)
      ensures found.None? ==> Valid() && visiting == old(visiting) && old(visited) + {node} <= visited
      decreases nodes - Elements(visiting) - visited
    {
      if node in visited {
        return None;
      }
      if node in visiting {
        var start := IndexOf(visiting, node);
        CloseCycle(edges, visiting, start, node);
        return Some(visiting[start..] + [node]);
      }
      ghost var before := visiting;
      TrailPush(edges, visiting, node);
      visiting := visiting + [node];
      var order := Sorted(if node in graph then graph[node] else {});
      for i := 0 to |order|
        invariant Valid() && visiting == before + [node] && old(visited) <= visited
        invariant forall j :: 0 <= j < i ==> order[j] in visited
      {
        var dependency := order[i];
        assert dependency in Elements(order);
        assert (node, dependency) in edges;
        SearchShrinks(nodes, Elements(before), old(visited), visited, node);
        found := Visit(dependency);
        if found.Some? {
          return found;
        }
      }
      forall b | (node, b) in edges ensures b in visited {
        assert b in Elements(order);
      }
      Settle(edges, visited, node);
      visiting := visiting[..|visiting| - 1];
      assert visiting == before;
      visited := visited + {node};
      return None;
    }
  }

  lemma TrailPush(E: set<Edge>, visiting: seq<Id>, node: Id)
    requires Trail(E, visiting) && node !in visiting
    requires visiting != [] ==> (visiting[|visiting| - 1], node) in E
    ensures Trail(E, visiting + [node])
    ensures Elements(visiting + [node]) == Elements(visiting) + {node}
  {
    if visiting != [] {
      PathJoin(E, visiting, [node]);
    }
  }

  lemma CloseCycle(E: set<Edge>, visiting: seq<Id>, start: nat, node: Id)
    requires start < |visiting| && visiting[start] == node
    requires Trail(E, visiting) && (visiting[|visiting| - 1], node) in E
    ensures SimpleCycle(E, visiting[start..] + [node])
  {
    PathSuffix(E, visiting, start);
    PathJoin(E, visiting[start..], [node]);
  }

  /** A written-out cycle is returned exactly when there is a cycle. */
  method Cycle(graph: map<Id, set<Id>>) returns (cycle: seq<Id>)
    ensures cycle != [] <==> Cyclic(EdgesOf(graph))
    ensures cycle != [] ==> SimpleCycle(EdgesOf(graph), cycle)
  {
    var search := new CycleSearch(graph);
    var order := Sorted(graph.Keys);
    for i := 0 to |order|
      invariant search.Valid() && search.visiting == [] && search.graph == graph
      invariant forall j :: 0 <= j < i ==> order[j] in search.visited
    {
      assert order[i] in Elements(order);
      var found := search.Visit(order[i]);
      if found.Some? {
        SimpleCycleIsCycle(EdgesOf(graph), found.value);
        return found.value;
      }
    }
    forall n | n in graph ensures n in search.visited {
      assert n in Elements(order);
    }
    SettledAcyclic(search.edges, search.visited);
    return [];
  }

  lemma SimpleCycleIsCycle(E: set<Edge>, p: seq<Id>)
    requires SimpleCycle(E, p)
    ensures Cyclic(E)
  {
    var a := p[0];
    assert Walk(E, a, a, p);
    assert Reaches(E, a, a);
  }
}
