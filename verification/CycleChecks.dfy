/** The three boolean cycle checks side by side. */
module CycleChecks {
  import opened Order
  import opened DependencyGraph
  import PPA = ProductPlanAcceptance
  import PFA = ProductPlanFinalAcceptance
  import EXT = ExternalProject

  /** On any input a cycle seen by plan acceptance is seen by final acceptance, and one seen there by external validation. */
  lemma VerdictsNest(taskIds: set<Id>, edges: seq<Edge>)
    ensures Cyclic(PPA.InducedEdges(taskIds, edges)) ==> PFA.CycleInReach(taskIds, edges)
    ensures PFA.CycleInReach(taskIds, edges) ==> Cyclic(Elements(edges))
  {
    var E, induced := Elements(edges), PPA.InducedEdges(taskIds, edges);
    if Cyclic(induced) {
      var a :| Reaches(induced, a, a);
      var b := ReachesFirst(induced, a, a);
      ReachesMonotone(induced, E, a, a);
    }
  }

  /** With every endpoint a known task the three conditions are one. */
  lemma VerdictsAgree(taskIds: set<Id>, edges: seq<Edge>)
    requires Endpoints(Elements(edges)) <= taskIds
    ensures Cyclic(PPA.InducedEdges(taskIds, edges)) <==> Cyclic(Elements(edges))
    ensures PFA.CycleInReach(taskIds, edges) <==> Cyclic(Elements(edges))
  {
    forall e | e in edges ensures e.0 in taskIds && e.1 in taskIds {
      assert e in Elements(edges) && e.0 in Endpoints(Elements(edges)) && e.1 in Endpoints(Elements(edges));
    }
    assert PPA.InducedEdges(taskIds, edges) == Elements(edges);
    PFA.CycleInReachWhenKnown(taskIds, edges);
  }

  /** Without that they differ: a cycle behind a known task, and one out of its reach. */
  lemma VerdictsDiffer()
    ensures var behind := [("t", "x"), ("x", "x")];
            PFA.CycleInReach({"t"}, behind) && !Cyclic(PPA.InducedEdges({"t"}, behind))
    ensures Cyclic(Elements([("x", "x")])) && !PFA.CycleInReach({"t"}, [("x", "x")])
  {
    var behind := [("t", "x"), ("x", "x")];
    assert ("t", "x") == behind[0] && ("x", "x") == behind[1];
    EdgeReaches(Elements(behind), "t", "x");
    EdgeReaches(Elements(behind), "x", "x");
    assert PPA.InducedEdges({"t"}, behind) == {};
    MeasureAcyclic(PPA.InducedEdges({"t"}, behind), map[]);
    assert ("x", "x") == [("x", "x")][0];
    EdgeReaches(Elements([("x", "x")]), "x", "x");
    if PFA.CycleInReach({"t"}, [("x", "x")]) {
      var E := Elements([("x", "x")]);
      var t, a :| t in {"t"} && Reaches(E, a, a) && (a == t || Reaches(E, t, a));
      var b := ReachesFirst(E, t, a);
      assert false;
    }
  }

  /** Run one after the other on a plan whose edges stay inside, the three checks return the same answer. */
  method CheckThrice(taskIds: set<Id>, edges: seq<Edge>) returns (first: bool, second: bool, third: bool)
    requires Endpoints(Elements(edges)) <= taskIds
    ensures first == second == third
    ensures first <==> Cyclic(Elements(edges))
  {
    VerdictsAgree(taskIds, edges);
    first := PPA.HasCycle(taskIds, edges);
    second := EXT.HasDependencyCycle(edges);
    third := PFA.HasCycle(taskIds, edges);
  }
}
