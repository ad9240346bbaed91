/** The plan-acceptance gate: its cycle check and its downstream sets. */
module ProductPlanAcceptance {
  import opened Order
  import opened DependencyGraph

  /** The edges the cycle check follows: both ends must be known tasks. */
  function InducedEdges(taskIds: set<Id>, edges: seq<Edge>): set<Edge> {
    set e | e in edges && e.0 in taskIds && e.1 in taskIds
  }

  method BuildDependencies(taskIds: set<Id>, edges: seq<Edge>) returns (dependencies: map<Id, set<Id>>)
    ensures dependencies.Keys == taskIds
    ensures forall t :: t in taskIds ==> dependencies[t] == set e | e in edges && e.0 == t :: e.1
  {
    dependencies := map t | t in taskIds :: {};
    for i := 0 to |edges|
      invariant dependencies.Keys == taskIds
      invariant forall t :: t in taskIds ==> dependencies[t] == set e | e in edges[..i] && e.0 == t :: e.1
    {
      assert edges[..i + 1] == edges[..i] + [edges[i]];
      var (task, dependency) := edges[i];
      if task in dependencies {
        dependencies := dependencies[task := dependencies[task] + {dependency}];
      }
    }
    assert edges[..|edges|] == edges;
  }

  class CycleCheck {
    const dependencies: map<Id, set<Id>>
    var visiting: set<Id>
    var visited: set<Id>

    ghost function E(): set<Edge> {
      set a, b | a in dependencies && b in dependencies[a] && b in dependencies :: (a, b)
    }

    ghost predicate Valid()
      reads this
    {
      SearchState(E(), dependencies.Keys, visiting, visited)
    }

    constructor (dependencies: map<Id, set<Id>>)
      ensures this.dependencies == dependencies
      ensures Valid() && visiting == {}
    {
      this.dependencies := dependencies;
      visiting, visited := {}, {};
    }

    /** True only on a cycle; otherwise the task and all it depends on are cleared. */
    method Visit(task: Id) returns (found: bool)
      requires Valid() && task in dependencies
      requires forall v :: v in visiting ==> Reaches(E(), v, task)
      modifies this
      ensures found ==> Cyclic(E())
      ensures !found ==> Valid() && visiting == old(visiting) && old(visited) + {task} <= visited
      decreases dependencies.Keys - visiting - visited
    {
      if task in visiting {
        return true;
      }
      if task in visited {
        return false;
      }
      visiting := visiting + {task};
      var rest := dependencies[task];
      while rest != {}
        invariant Valid() && visiting == old(visiting) + {task} && old(visited) <= visited
        invariant rest <= dependencies[task]
        invariant forall d :: d in dependencies[task] - rest && d in dependencies ==> d in visited
      {
        var dependency :| dependency in rest;
        rest := rest - {dependency};
        if dependency in dependencies {
          EnterReaches(E(), old(visiting), task, dependency);
          SearchShrinks(dependencies.Keys, old(visiting), old(visited), visited, task);
          var inner := Visit(dependency);
          if inner {
            return true;
          }
        }
      }
      Settle(E(), visited, task);
      visiting := visiting - {task};
      visited := visited + {task};
      return false;
    }
  }

  /** The check says yes exactly when the edges between known tasks contain a cycle. */
  method HasCycle(taskIds: set<Id>, edges: seq<Edge>) returns (found: bool)
    ensures found <==> Cyclic(InducedEdges(taskIds, edges))
  {
    var dependencies := BuildDependencies(taskIds, edges);
    var check := new CycleCheck(dependencies);
    assert check.E() == InducedEdges(taskIds, edges);
    var order := Sorted(taskIds);
    for i := 0 to |order|
      invariant check.Valid() && check.visiting == {} && check.dependencies == dependencies
      invariant forall j :: 0 <= j < i ==> order[j] in check.visited
    {
      assert order[i] in Elements(order);
      found := check.Visit(order[i]);
      if found {
        return true;
      }
    }
    forall t | t in taskIds ensures t in check.visited {
      assert t in Elements(order);
    }
    SettledAcyclic(check.E(), check.visited);
    return false;
  }

  /** The tasks that depend, directly or not, on `root`. */
  ghost predicate Dependents(edges: seq<Edge>, root: Id, tasks: set<Id>) {
    forall t :: t in tasks <==> Reaches(Elements(edges), t, root)
  }

  method BuildChildren(edges: seq<Edge>) returns (children: map<Id, set<Id>>)
    ensures children.Keys == set e | e in edges :: e.1
    ensures forall d :: d in children ==> children[d] == set e | e in edges && e.1 == d :: e.0
  {
    children := map[];
    for i := 0 to |edges|
      invariant children.Keys == set e | e in edges[..i] :: e.1
      invariant forall d :: d in children ==> children[d] == set e | e in edges[..i] && e.1 == d :: e.0
    {
      assert edges[..i + 1] == edges[..i] + [edges[i]];
      var (task, dependency) := edges[i];
      children := children[dependency := (if dependency in children then children[dependency] else {}) + {task}];
    }
    assert edges[..|edges|] == edges;
  }

  /** The closure the worklist computes for one root. */
  method DownstreamOf(edges: seq<Edge>, children: map<Id, set<Id>>, root: Id) returns (seen: set<Id>)
    requires children.Keys == set e | e in edges :: e.1
    requires forall d :: d in children ==> children[d] == set e | e in edges && e.1 == d :: e.0
    requires root in children
    ensures Dependents(edges, root, seen)
  {
    ghost var E := Elements(edges);
    ghost var nodes := Endpoints(E);
    seen := {};
    var pending := ListOf(children[root]);
    forall t ensures t in pending <==> (t, root) in E {
      assert t in pending <==> t in Elements(pending);
    }
    forall t | t in pending ensures Reaches(E, t, root) {
      EdgeReaches(E, t, root);
    }
    while pending != []
      invariant forall t :: t in pending || t in seen ==> Reaches(E, t, root) && t in nodes
      invariant forall t :: (t, root) in E ==> t in pending || t in seen
      invariant forall t, d :: (t, d) in E && d in seen ==> t in pending || t in seen
      decreases nodes - seen, |pending|
    {
      ghost var before := pending;
      var item := pending[|pending| - 1];
      pending := pending[..|pending| - 1];
      assert forall t :: t in before <==> t in pending || t == item;
      if item !in seen {
        seen := seen + {item};
        var more := ListOf(if item in children then children[item] else {});
        forall t | t in more ensures Reaches(E, t, root) && t in nodes && (t, item) in E {
          assert t in Elements(more);
          StepReaches(E, t, item, root);
        }
        forall t | (t, item) in E ensures t in more {
          assert item in children && t in children[item];
          assert t in Elements(more);
        }
        pending := pending + more;
      }
    }
    forall t | Reaches(E, t, root) ensures t in seen {
      var p :| Walk(E, t, root, p);
      PathInit(E, p);
      CoClosedReaches(E, seen, p[..|p| - 1]);
    }
  }

  /** Every depended-on task is mapped to exactly the tasks that transitively depend on it. */
  method Downstream(edges: seq<Edge>) returns (result: map<Id, set<Id>>)
    ensures result.Keys == set e | e in edges :: e.1
    ensures forall root :: root in result ==> Dependents(edges, root, result[root])
  {
    var children := BuildChildren(edges);
    result := map[];
    var rest := children.Keys;
    while rest != {}
      invariant rest <= children.Keys && result.Keys == children.Keys - rest
      invariant forall root :: root in result ==> Dependents(edges, root, result[root])
    {
      var root :| root in rest;
      rest := rest - {root};
      var seen := DownstreamOf(edges, children, root);
      result := result[root := seen];
    }
  }

  /** With all endpoints known, the cycle check finds a cycle exactly when a task is downstream of itself. */
  lemma CycleIffDownstreamOfItself(taskIds: set<Id>, edges: seq<Edge>, result: map<Id, set<Id>>)
    requires forall e :: e in edges ==> e.0 in taskIds && e.1 in taskIds
    requires result.Keys == set e | e in edges :: e.1
    requires forall root :: root in result ==> Dependents(edges, root, result[root])
    ensures Cyclic(InducedEdges(taskIds, edges)) <==> exists root :: root in result && root in result[root]
  {
    var E := Elements(edges);
    assert InducedEdges(taskIds, edges) == E;
    if Cyclic(E) {
      var a :| Reaches(E, a, a);
      var c := ReachesLast(E, a, a);
      assert (c, a) in edges;
      assert a in result && a in result[a];
    }
  }

  /** The DAG part of the gate passes exactly on acyclic plans whose edges stay among justified tasks. */
  method DagIntegrity(taskIds: set<Id>, edges: seq<Edge>, orphanTasks: set<Id>) returns (pass: bool)
    ensures pass <==>
            && orphanTasks == {}
            && Endpoints(Elements(edges)) <= taskIds
            && !Cyclic(Elements(edges))
  {
    var missingRefs := Sorted(set e | e in edges && (e.0 !in taskIds || e.1 !in taskIds) :: e.0);
    var selfDependencies := Sorted(set e | e in edges && e.0 == e.1 :: e.0);
    var cycle := HasCycle(taskIds, edges);
    pass := missingRefs == [] && selfDependencies == [] && !cycle && orphanTasks == {};
    ghost var E := Elements(edges);
    assert missingRefs == [] <==> Endpoints(E) <= taskIds by {
      if missingRefs == [] {
        forall e | e in edges ensures e.0 in taskIds && e.1 in taskIds {
          assert e.0 !in Elements(missingRefs);
        }
      } else {
        assert missingRefs[0] in Elements(missingRefs);
        var e :| e in edges && (e.0 !in taskIds || e.1 !in taskIds);
        assert e in E && e.0 in Endpoints(E) && e.1 in Endpoints(E);
      }
    }
    if missingRefs == [] {
      assert forall e :: e in E ==> e.0 in Endpoints(E) && e.1 in Endpoints(E);
      assert InducedEdges(taskIds, edges) == E;
    }
    if selfDependencies != [] {
      assert selfDependencies[0] in Elements(selfDependencies);
      var e :| e in edges && e.0 == e.1;
      EdgeReaches(E, e.0, e.0);
    }
  }
}
