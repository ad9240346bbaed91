/** Tracing a requirement through the evidence graph: two rounds of a growing frontier. */
module EvidenceTrace {
  import opened Order
  import G = EvidenceGraph

  datatype Node = Node(id: string, nativeId: string)

  datatype Edge = Edge(id: string, source: string, target: string)

  datatype Trace = Trace(requirementId: string, requirementNode: string, nodes: seq<Node>, edges: seq<Edge>)

  predicate Joins(e: Edge, a: string, b: string) {
    (e.source == a && e.target == b) || (e.source == b && e.target == a)
  }

  predicate Incident(e: Edge, a: string) {
    e.source == a || e.target == a
  }

  ghost predicate Adjacent(edges: seq<Edge>, a: string, b: string) {
    exists e :: e in edges && Joins(e, a, b)
  }

  ghost predicate Hop(edges: seq<Edge>, p: seq<string>, i: nat)
    requires i + 1 < |p|
  {
    Adjacent(edges, p[i], p[i + 1])
  }

  /** A walk that follows edges in either direction. */
  ghost predicate Walk(edges: seq<Edge>, p: seq<string>) {
    p != [] && forall i :: 0 <= i < |p| - 1 ==> Hop(edges, p, i)
  }

  ghost predicate WalkTo(edges: seq<Edge>, root: string, n: string, k: nat, p: seq<string>) {
    Walk(edges, p) && p[0] == root && p[|p| - 1] == n && |p| <= k + 1
  }

  /** `n` lies at undirected distance at most `k` from `root`. */
  ghost predicate Within(edges: seq<Edge>, root: string, n: string, k: nat) {
    exists p :: WalkTo(edges, root, n, k, p)
  }

  lemma WithinZero(edges: seq<Edge>, root: string, n: string)
    ensures Within(edges, root, n, 0) <==> n == root
  {
    assert n == root ==> WalkTo(edges, root, n, 0, [root]);
  }

  /** One more step of distance is one more edge. */
  lemma WithinStep(edges: seq<Edge>, root: string, n: string, k: nat)
    ensures Within(edges, root, n, k + 1) <==>
            Within(edges, root, n, k) || exists a :: Within(edges, root, a, k) && Adjacent(edges, a, n)
  {
    if Within(edges, root, n, k + 1) {
      var p :| WalkTo(edges, root, n, k + 1, p);
      if |p| == k + 2 {
        var q := p[..|p| - 1];
        assert Hop(edges, p, |p| - 2);
        forall i | 0 <= i < |q| - 1 ensures Hop(edges, q, i) {
          assert Hop(edges, p, i);
        }
        assert WalkTo(edges, root, q[|q| - 1], k, q);
      } else {
        assert WalkTo(edges, root, n, k, p);
      }
    }
    if Within(edges, root, n, k) {
      var p :| WalkTo(edges, root, n, k, p);
      assert WalkTo(edges, root, n, k + 1, p);
    }
    if a :| Within(edges, root, a, k) && Adjacent(edges, a, n) {
      var p :| WalkTo(edges, root, a, k, p);
      var q := p + [n];
      forall i | 0 <= i < |q| - 1 ensures Hop(edges, q, i) {
        if i < |p| - 1 {
          assert Hop(edges, p, i);
          assert q[i] == p[i] && q[i + 1] == p[i + 1];
        } else {
          assert q[i] == a && q[i + 1] == n;
        }
      }
      assert q[0] == root && q[|q| - 1] == n;
      assert WalkTo(edges, root, n, k + 1, q);
    }
  }

  function TouchingIds(edges: seq<Edge>, s: set<string>): set<string> {
    set e | e in edges && (e.source in s || e.target in s) :: e.id
  }

  function Sources(edges: seq<Edge>, s: set<string>): set<string> {
    set e | e in edges && (e.source in s || e.target in s) :: e.source
  }

  function Targets(edges: seq<Edge>, s: set<string>): set<string> {
    set e | e in edges && (e.source in s || e.target in s) :: e.target
  }

  function Ends(edges: seq<Edge>, s: set<string>): set<string> {
    Sources(edges, s) + Targets(edges, s)
  }

  lemma OneMoreEdge(edges: seq<Edge>, e: Edge, s: set<string>)
    ensures var hit := e.source in s || e.target in s;
            && TouchingIds(edges + [e], s) == TouchingIds(edges, s) + (if hit then {e.id} else {})
            && Ends(edges + [e], s) == Ends(edges, s) + (if hit then {e.source, e.target} else {})
  {
    var more := edges + [e];
    assert forall f :: f in more <==> f in edges || f == e;
    assert TouchingIds(more, s) == TouchingIds(edges, s) + (if e.source in s || e.target in s then {e.id} else {});
    assert Sources(more, s) == Sources(edges, s) + (if e.source in s || e.target in s then {e.source} else {});
    assert Targets(more, s) == Targets(edges, s) + (if e.source in s || e.target in s then {e.target} else {});
  }

  lemma OneMoreNode(edges: seq<Edge>, s: set<string>, a: string)
    ensures TouchingIds(edges, s + {a}) == TouchingIds(edges, s) + TouchingIds(edges, {a})
    ensures Ends(edges, s + {a}) == Ends(edges, s) + Ends(edges, {a})
  {
    assert Sources(edges, s + {a}) == Sources(edges, s) + Sources(edges, {a});
    assert Targets(edges, s + {a}) == Targets(edges, s) + Targets(edges, {a});
  }

  /** Following the edges of one node. */
  method ExpandNode(edges: seq<Edge>, a: string, nodeIds: set<string>, edgeIds: set<string>, frontier: set<string>)
    returns (nextFrontier: set<string>, nextNodeIds: set<string>, nextEdgeIds: set<string>)
    ensures nextEdgeIds == edgeIds + TouchingIds(edges, {a})
    ensures nextNodeIds == nodeIds + Ends(edges, {a})
    ensures nextFrontier == frontier + (nextNodeIds - nodeIds)
  {
    nextFrontier, nextNodeIds, nextEdgeIds := frontier, nodeIds, edgeIds;
    for j := 0 to |edges|
      invariant nextEdgeIds == edgeIds + TouchingIds(edges[..j], {a})
      invariant nextNodeIds == nodeIds + Ends(edges[..j], {a})
      invariant nextFrontier == frontier + (nextNodeIds - nodeIds)
    {
      hide TouchingIds, Ends;
      var e := edges[j];
      OneMoreEdge(edges[..j], e, {a});
      assert edges[..j + 1] == edges[..j] + [e];
      if e.source == a || e.target == a {
        nextEdgeIds := nextEdgeIds + {e.id};
        nextFrontier := nextFrontier + ({e.source, e.target} - nextNodeIds);
        nextNodeIds := nextNodeIds + {e.source, e.target};
      }
    }
    assert edges[..|edges|] == edges;
  }

  lemma NoFrontier(edges: seq<Edge>)
    ensures TouchingIds(edges, {}) == {} && Ends(edges, {}) == {}
  {}

  lemma RoundAdds(edges: seq<Edge>, nodeIds: set<string>, edgeIds: set<string>, done: set<string>, a: string)
    ensures edgeIds + TouchingIds(edges, done) + TouchingIds(edges, {a}) == edgeIds + TouchingIds(edges, done + {a})
    ensures nodeIds + Ends(edges, done) + Ends(edges, {a}) == nodeIds + Ends(edges, done + {a})
  {
    hide TouchingIds, Ends;
    OneMoreNode(edges, done, a);
  }

  lemma NewNodes(before: set<string>, now: set<string>, more: set<string>)
    requires before <= now
    ensures (now - before) + ((now + more) - now) == (now + more) - before
  {}

  /** What one round adds: the ids of the edges at the frontier, and the nodes at their ends. */
  method Expand(edges: seq<Edge>, frontier: set<string>, nodeIds: set<string>, edgeIds: set<string>)
    returns (nextFrontier: set<string>, nextNodeIds: set<string>, nextEdgeIds: set<string>)
    ensures nextEdgeIds == edgeIds + TouchingIds(edges, frontier)
    ensures nextNodeIds == nodeIds + Ends(edges, frontier)
    ensures nextFrontier == nextNodeIds - nodeIds
  {
    nextFrontier, nextNodeIds, nextEdgeIds := {}, nodeIds, edgeIds;
    var order := Sorted(frontier);
    assert Elements(order[..0]) == {};
    NoFrontier(edges);
    hide TouchingIds, Ends, Elements;
    for i := 0 to |order|
      invariant nextEdgeIds == edgeIds + TouchingIds(edges, Elements(order[..i]))
      invariant nextNodeIds == nodeIds + Ends(edges, Elements(order[..i]))
      invariant nextFrontier == nextNodeIds - nodeIds
    {
      ElementsPush(order, i);
      RoundAdds(edges, nodeIds, edgeIds, Elements(order[..i]), order[i]);
      NewNodes(nodeIds, nextNodeIds, Ends(edges, {order[i]}));
      nextFrontier, nextNodeIds, nextEdgeIds := ExpandNode(edges, order[i], nextNodeIds, nextEdgeIds, nextFrontier);
    }
    assert order[..|order|] == order;
  }

  /** After a round the known nodes are those one step further; new ones are exactly at that distance. */
  lemma RoundGrows(edges: seq<Edge>, root: string, k: nat, frontier: set<string>, nodeIds: set<string>)
    requires forall n :: n in nodeIds <==> Within(edges, root, n, k)
    requires frontier <= nodeIds
    requires forall n, e :: n in nodeIds - frontier && e in edges && Incident(e, n) ==> e.source in nodeIds && e.target in nodeIds
    ensures forall n :: n in nodeIds + Ends(edges, frontier) <==> Within(edges, root, n, k + 1)
    ensures var grown := nodeIds + Ends(edges, frontier);
            forall n, e :: n in nodeIds && e in edges && Incident(e, n) ==> e.source in grown && e.target in grown
  {
    var grown := nodeIds + Ends(edges, frontier);
    forall n, e | n in nodeIds && e in edges && Incident(e, n) ensures e.source in grown && e.target in grown {
      if n in frontier {
        assert e.source in Ends(edges, frontier) && e.target in Ends(edges, frontier);
      }
    }
    forall n ensures n in grown <==> Within(edges, root, n, k + 1) {
      WithinStep(edges, root, n, k);
      if n in Ends(edges, frontier) && n !in nodeIds {
        var e :| e in edges && (e.source in frontier || e.target in frontier) && (e.source == n || e.target == n);
        var a := if e.source in frontier then e.source else e.target;
        assert Joins(e, a, n) || a == n;
        assert Adjacent(edges, a, n);
      }
      if a :| Within(edges, root, a, k) && Adjacent(edges, a, n) {
        var e :| e in edges && Joins(e, a, n);
        assert a in nodeIds && Incident(e, a);
      }
    }
  }

  function RequirementNode(requirementId: string): (id: string)
    ensures |id| >= 12 && id[..12] == "requirement:"
  {
    if |requirementId| >= 12 && requirementId[..12] == "requirement:" then requirementId else "requirement:" + requirementId
  }

  /** Those whose id is among these, in the order in which they stand. */
  function Keep<T>(xs: seq<T>, idOf: T -> string, ids: set<string>): seq<T> {
    if xs == [] then []
    else
      var before, last := Keep(xs[..|xs| - 1], idOf, ids), xs[|xs| - 1];
      if idOf(last) in ids then before + [last] else before
  }

  function NodeId(): Node -> string {
    (n: Node) => n.id
  }

  function EdgeId(): Edge -> string {
    (e: Edge) => e.id
  }

  /** The elements of `some` stand in `all` at these places, one after the other. */
  ghost predicate Picked<T>(all: seq<T>, some: seq<T>, places: seq<int>) {
    && |places| == |some|
    && (forall i :: 0 <= i < |places| ==> 0 <= places[i] < |all| && some[i] == all[places[i]])
    && forall i, j :: 0 <= i < j < |places| ==> places[i] < places[j]
  }

  lemma PickMore<T>(all: seq<T>, some: seq<T>, places: seq<int>)
    requires all != [] && Picked(all[..|all| - 1], some, places)
    ensures Picked(all, some, places) && Picked(all, some + [all[|all| - 1]], places + [|all| - 1])
  {}

  lemma {:induction false} KeptPlaces<T>(xs: seq<T>, idOf: T -> string, ids: set<string>) returns (places: seq<int>)
    ensures Picked(xs, Keep(xs, idOf, ids), places)
    ensures forall k :: 0 <= k < |xs| ==> (k in places <==> idOf(xs[k]) in ids)
  {
    places := [];
    if xs != [] {
      var n := |xs| - 1;
      places := KeptPlaces(xs[..n], idOf, ids);
      PickMore(xs, Keep(xs[..n], idOf, ids), places);
      assert n !in places;
      if idOf(xs[n]) in ids {
        places := places + [n];
      }
    }
  }

  /** All those that satisfy the condition, and no others, in the order in which they stand. */
  ghost predicate Filtered<T(!new)>(all: seq<T>, some: seq<T>, wanted: T -> bool) {
    exists places: seq<int> :: Picked(all, some, places) && forall k :: 0 <= k < |all| ==> (k in places <==> wanted(all[k]))
  }

  lemma KeepFilters<T(!new)>(xs: seq<T>, idOf: T -> string, ids: set<string>)
    ensures Filtered(xs, Keep(xs, idOf, ids), x => idOf(x) in ids)
  {
    var places := KeptPlaces(xs, idOf, ids);
  }

  lemma FilteredMembers<T(!new)>(all: seq<T>, some: seq<T>, wanted: T -> bool, x: T)
    requires Filtered(all, some, wanted)
    ensures x in some <==> x in all && wanted(x)
  {
    var places: seq<int> :| Picked(all, some, places) && forall k :: 0 <= k < |all| ==> (k in places <==> wanted(all[k]));
    if x in some {
      var i :| 0 <= i < |some| && some[i] == x;
      assert places[i] in places;
    }
    if x in all && wanted(x) {
      var k :| 0 <= k < |all| && all[k] == x;
      assert k in places;
      var i :| 0 <= i < |places| && places[i] == k;
      assert some[i] == x;
    }
  }

  lemma SameFilter<T(!new)>(all: seq<T>, some: seq<T>, wanted: T -> bool, other: T -> bool)
    requires Filtered(all, some, wanted) && forall x :: x in all ==> wanted(x) == other(x)
    ensures Filtered(all, some, other)
  {
    var places: seq<int> :| Picked(all, some, places) && forall k :: 0 <= k < |all| ==> (k in places <==> wanted(all[k]));
    assert forall k :: 0 <= k < |all| ==> (k in places <==> other(all[k]));
  }

  ghost function WithinTwo(edges: seq<Edge>, root: string): Node -> bool {
    (n: Node) => Within(edges, root, n.id, 2)
  }

  ghost function SharesIdNear(edges: seq<Edge>, root: string): Edge -> bool {
    (e: Edge) => exists f :: f in edges && f.id == e.id && NearEdge(edges, root, f)
  }

  ghost function Near(edges: seq<Edge>, root: string): Edge -> bool {
    (e: Edge) => NearEdge(edges, root, e)
  }

  /**
   * The nodes at distance at most two, and the edges that share an id with one at a node of distance at most one, both
   * as they are listed in the graph.
   */
  method TraceForRequirement(nodes: seq<Node>, edges: seq<Edge>, requirementId: string) returns (t: Trace)
    ensures t.requirementNode == if "requirement:" <= requirementId then requirementId else "requirement:" + requirementId
    ensures t.requirementNode == "requirement:" + t.requirementId
    ensures Filtered(nodes, t.nodes, WithinTwo(edges, t.requirementNode))
    ensures Filtered(edges, t.edges, SharesIdNear(edges, t.requirementNode))
    ensures DistinctIds(edges) ==> Filtered(edges, t.edges, Near(edges, t.requirementNode))
  {
    hide Within, Ends, NearEdge, Keep, Filtered, DistinctIds, TouchingIds;
    var root := RequirementNode(requirementId);
    forall n ensures Within(edges, root, n, 0) <==> n == root {
      WithinZero(edges, root, n);
    }
    var frontier0, nodeIds0, edgeIds0: set<string> := {root}, {root}, {};
    RoundGrows(edges, root, 0, frontier0, nodeIds0);
    var frontier1, nodeIds1, edgeIds1 := Expand(edges, frontier0, nodeIds0, edgeIds0);
    RoundGrows(edges, root, 1, frontier1, nodeIds1);
    var frontier2, nodeIds2, edgeIds2 := Expand(edges, frontier1, nodeIds1, edgeIds1);
    assert frontier0 + frontier1 == nodeIds1;
    t := Trace(root[12..], root, Keep(nodes, NodeId(), nodeIds2), Keep(edges, EdgeId(), edgeIds2));
    KeptNodes(nodes, edges, root, nodeIds2);
    KeptEdges(edges, root, frontier0, frontier1, nodeIds1, edgeIds2);
  }

  lemma KeptNodes(nodes: seq<Node>, edges: seq<Edge>, root: string, ids: set<string>)
    requires forall n :: n in ids <==> Within(edges, root, n, 2)
    ensures Filtered(nodes, Keep(nodes, NodeId(), ids), WithinTwo(edges, root))
  {
    hide Within, Keep, Filtered;
    KeepFilters(nodes, NodeId(), ids);
    SameFilter(nodes, Keep(nodes, NodeId(), ids), x => NodeId()(x) in ids, WithinTwo(edges, root));
  }

  lemma KeptEdges(edges: seq<Edge>, root: string, first: set<string>, second: set<string>, near: set<string>, ids: set<string>)
    requires forall n :: n in near <==> Within(edges, root, n, 1)
    requires first + second == near && ids == TouchingIds(edges, first) + TouchingIds(edges, second)
    ensures Filtered(edges, Keep(edges, EdgeId(), ids), SharesIdNear(edges, root))
    ensures DistinctIds(edges) ==> Filtered(edges, Keep(edges, EdgeId(), ids), Near(edges, root))
  {
    hide Within, Keep, Filtered, NearEdge, TouchingIds;
    var kept := Keep(edges, EdgeId(), ids);
    KeepFilters(edges, EdgeId(), ids);
    forall e | e in edges ensures (EdgeId()(e) in ids) == SharesIdNear(edges, root)(e) {
      TouchedNear(edges, root, first, second, near, e.id);
    }
    SameFilter(edges, kept, x => EdgeId()(x) in ids, SharesIdNear(edges, root));
    if DistinctIds(edges) {
      forall e | e in edges ensures SharesIdNear(edges, root)(e) == Near(edges, root)(e) {
        NearById(edges, root, e);
      }
      SameFilter(edges, kept, SharesIdNear(edges, root), Near(edges, root));
    }
  }

  /** The edges of the first two frontiers are those at a node of distance at most one. */
  lemma TouchedNear(edges: seq<Edge>, root: string, first: set<string>, second: set<string>, near: set<string>, id: string)
    requires forall n :: n in near <==> Within(edges, root, n, 1)
    requires first + second == near
    ensures id in TouchingIds(edges, first) + TouchingIds(edges, second) <==>
            exists f :: f in edges && f.id == id && NearEdge(edges, root, f)
  {
    hide Within;
  }

  /** One end of the edge is at distance at most one. */
  ghost predicate NearEdge(edges: seq<Edge>, root: string, f: Edge) {
    Within(edges, root, f.source, 1) || Within(edges, root, f.target, 1)
  }

  ghost predicate DistinctIds(edges: seq<Edge>) {
    forall i, j :: 0 <= i < j < |edges| ==> edges[i].id != edges[j].id
  }

  /** With distinct edge ids, an edge that shares its id with a near one is that one. */
  lemma NearById(edges: seq<Edge>, root: string, e: Edge)
    requires DistinctIds(edges) && e in edges
    ensures (exists f :: f in edges && f.id == e.id && NearEdge(edges, root, f)) <==> NearEdge(edges, root, e)
  {
    if f :| f in edges && f.id == e.id && NearEdge(edges, root, f) {
      var i :| 0 <= i < |edges| && edges[i] == e;
      var j :| 0 <= j < |edges| && edges[j] == f;
    }
  }

  // ----- Tracing the graph that was built -----

  function TraceEdges(listing: seq<(string, G.Spec)>): seq<Edge> {
    seq(|listing|, i requires 0 <= i < |listing| => Edge(listing[i].0, listing[i].1.source, listing[i].1.target))
  }

  lemma TraceEdgesMeaning(es: map<string, G.Spec>, id: string)
    requires id in es
    ensures Edge(id, es[id].source, es[id].target) in TraceEdges(G.Listing(es))
  {
    var keys := Sorted(es.Keys);
    assert id in Elements(keys);
    var i :| 0 <= i < |keys| && keys[i] == id;
    assert TraceEdges(G.Listing(es))[i] == Edge(id, es[id].source, es[id].target);
  }

  /** Whatever entry bound a requirement to a task, tracing the requirement reaches every artifact of that task. */
  lemma BoundEvidenceIsTraced(d: G.Digest, canonical: set<G.Spec>, project: string, entries: set<G.Entry>, es: map<string, G.Spec>,
                              e: G.Entry, r: string)
    requires G.Indexed(d, es, G.Wanted(canonical, project, entries)) && G.TellsApart(d, G.Wanted(canonical, project, entries))
    requires G.OnlyCanonical(canonical) && e in entries && r in G.BoundOf(entries, e)
    ensures Within(TraceEdges(G.Listing(es)), "requirement:" + r, "artifact:" + e.memoryId, 1)
  {
    hide G.Wanted, G.BoundOf, G.Listing, TraceEdges;
    var edges, root, artifact := TraceEdges(G.Listing(es)), G.RequirementNode(r), G.ArtifactNode(e.memoryId);
    var s := G.EvidenceEdge(e.memoryId, r);
    G.EvidenceWantedAt(canonical, project, entries, e, r);
    assert es[d(s)] == s;
    TraceEdgesMeaning(es, d(s));
    assert Joins(Edge(d(s), s.source, s.target), root, artifact);
    WithinZero(edges, root, root);
    WithinStep(edges, root, artifact, 0);
  }
}
