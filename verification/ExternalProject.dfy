/** External frozen plans: task-binding validation, its cycle check, and what a clean verdict buys at run time. */
module ExternalProject {
  import opened Order
  import opened DependencyGraph
  import opened ExternalProjectModel

  method BuildDependencies(edges: seq<Edge>) returns (dependencies: map<Id, set<Id>>)
    ensures EdgesOf(dependencies) == Elements(edges)
    ensures dependencies.Keys == Endpoints(Elements(edges))
  {
    dependencies := map[];
    for i := 0 to |edges|
      invariant EdgesOf(dependencies) == Elements(edges[..i])
      invariant dependencies.Keys == Endpoints(Elements(edges[..i]))
    {
      assert edges[..i + 1] == edges[..i] + [edges[i]];
      assert Elements(edges[..i + 1]) == Elements(edges[..i]) + {edges[i]};
      var (task, dependsOn) := edges[i];
      ghost var before := dependencies;
      dependencies := dependencies[task := (if task in dependencies then dependencies[task] else {}) + {dependsOn}];
      dependencies := dependencies[dependsOn := if dependsOn in dependencies then dependencies[dependsOn] else {}];
      forall a: Id, b: Id ensures (a, b) in EdgesOf(dependencies) <==> (a, b) in EdgesOf(before) || (a, b) == edges[i] {
        assert (a, b) in EdgesOf(dependencies) <==> a in dependencies && b in dependencies[a];
        assert (a, b) in EdgesOf(before) <==> a in before && b in before[a];
      }
    }
    assert edges[..|edges|] == edges;
  }

  class CycleCheck {
    const dependencies: map<Id, set<Id>>
    ghost const edges: set<Edge>
    ghost const nodes: set<Id>
    var visiting: set<Id>
    var visited: set<Id>

    ghost predicate Valid()
      reads this
    {
      && (forall a, b :: (a, b) in edges <==> a in dependencies && b in dependencies[a])
      && (forall a, b :: (a, b) in edges ==> b in nodes)
      && SearchState(edges, nodes, visiting, visited)
    }

    constructor (dependencies: map<Id, set<Id>>)
      ensures this.dependencies == dependencies && edges == EdgesOf(dependencies) && dependencies.Keys <= nodes
      ensures Valid() && visiting == {}
    {
      this.dependencies := dependencies;
      edges := EdgesOf(dependencies);
      nodes := dependencies.Keys + Endpoints(EdgesOf(dependencies));
      visiting, visited := {}, {};
    }

    /** True only on a cycle; otherwise the task and all it depends on are cleared. */
    method Visit(task: Id) returns (found: bool)
      requires Valid() && task in nodes
      requires forall v :: v in visiting ==> Reaches(edges, v, task)
      modifies this
      ensures found ==> Cyclic(edges)
      ensures !found ==> Valid() && visiting == old(visiting) && old(visited) + {task} <= visited
      decreases nodes - visiting - visited
    {
      if task in visiting {
        return true;
      }
      if task in visited {
        return false;
      }
      visiting := visiting + {task};
      var mine := if task in dependencies then dependencies[task] else {};
      var rest := mine;
      while rest != {}
        invariant Valid() && visiting == old(visiting) + {task} && old(visited) <= visited
        invariant rest <= mine && mine - rest <= visited
      {
        var dependency :| dependency in rest;
        rest := rest - {dependency};
        EnterReaches(edges, old(visiting), task, dependency);
        SearchShrinks(nodes, old(visiting), old(visited), visited, task);
        var inner := Visit(dependency);
        if inner {
          return true;
        }
      }
      Settle(edges, visited, task);
      visiting := visiting - {task};
      visited := visited + {task};
      return false;
    }
  }

  /** The check says yes exactly when the edge list contains a cycle. */
  method HasDependencyCycle(edges: seq<Edge>) returns (found: bool)
    ensures found <==> Cyclic(Elements(edges))
  {
    hide Cyclic, Reaches, EdgesOf, Endpoints;
    var dependencies := BuildDependencies(edges);
    var check := new CycleCheck(dependencies);
    var order := Sorted(dependencies.Keys);
    for i := 0 to |order|
      invariant check.Valid() && check.visiting == {}
      invariant forall j :: 0 <= j < i ==> order[j] in check.visited
    {
      assert order[i] in Elements(order);
      found := check.Visit(order[i]);
      if found {
        return true;
      }
    }
    forall t | t in dependencies ensures t in check.visited {
      assert t in Elements(order);
    }
    SettledAcyclic(check.edges, check.visited);
    return false;
  }

  // ----- Task-binding validation -----

  datatype Finding =
    | TaskDuplicate
    | TaskPlanMismatch
    | MissingDependency(task: Id, dependency: Id)
    | MissingCommand(task: Id, command: string)
    | SecretCommand(task: Id, index: nat)
    | WrongExecutor(task: Id)
    | DependencyCycle

  /** Which commands every task must run, and which commands carry secrets. */
  datatype CommandPolicy = CommandPolicy(mandatory: seq<string>, secret: string -> bool)

  /** What one task is to be reported for; `ids` are the plan's task ids, commands are counted from one. */
  predicate TaskWarrants(policy: CommandPolicy, ids: set<Id>, task: RuntimeTask, f: Finding) {
    match f
    case MissingDependency(t, d) => t == task.id && d in task.dependsOn && d !in ids
    case MissingCommand(t, c) => t == task.id && c in policy.mandatory && c !in task.verificationCommands
    case SecretCommand(t, k) =>
      t == task.id && 1 <= k <= |task.verificationCommands| && policy.secret(task.verificationCommands[k - 1])
    case WrongExecutor(t) => t == task.id && task.executor != "codex"
    case _ => false
  }

  ghost predicate Warranted(policy: CommandPolicy, p: FrozenPlan, f: Finding) {
    match f
    case TaskDuplicate => !Distinct(TaskIdsOf(p.tasks))
    case TaskPlanMismatch => multiset(TaskIdsOf(p.tasks)) != multiset(p.project.plan.taskIds)
    case DependencyCycle => Cyclic(Elements(TaskEdges(p.tasks)))
    case _ => exists task :: task in p.tasks && TaskWarrants(policy, Elements(TaskIdsOf(p.tasks)), task, f)
  }

  method MissingDependencies(ids: set<Id>, task: RuntimeTask) returns (found: seq<Finding>)
    ensures forall f :: f in found <==>
              f.MissingDependency? && f.task == task.id && f.dependency in task.dependsOn && f.dependency !in ids
  {
    found := [];
    for i := 0 to |task.dependsOn|
      invariant forall f :: f in found <==>
                  f.MissingDependency? && f.task == task.id && f.dependency in task.dependsOn[..i] && f.dependency !in ids
    {
      assert task.dependsOn[..i + 1] == task.dependsOn[..i] + [task.dependsOn[i]];
      if task.dependsOn[i] !in ids {
        found := found + [MissingDependency(task.id, task.dependsOn[i])];
      }
    }
    assert task.dependsOn[..|task.dependsOn|] == task.dependsOn;
  }

  method MissingCommands(mandatory: seq<string>, task: RuntimeTask) returns (found: seq<Finding>)
    ensures forall f :: f in found <==>
              f.MissingCommand? && f.task == task.id && f.command in mandatory && f.command !in task.verificationCommands
  {
    found := [];
    var missing := Sorted(Elements(mandatory) - Elements(task.verificationCommands));
    for i := 0 to |missing|
      invariant forall f :: f in found <==> f.MissingCommand? && f.task == task.id && f.command in missing[..i]
    {
      assert missing[..i + 1] == missing[..i] + [missing[i]];
      found := found + [MissingCommand(task.id, missing[i])];
    }
    assert missing[..|missing|] == missing;
    assert forall c :: c in missing <==> c in Elements(missing);
  }

  method SecretCommands(secret: string -> bool, task: RuntimeTask) returns (found: seq<Finding>)
    ensures forall f :: f in found <==>
              f.SecretCommand? && f.task == task.id && 1 <= f.index <= |task.verificationCommands|
              && secret(task.verificationCommands[f.index - 1])
  {
    found := [];
    for i := 0 to |task.verificationCommands|
      invariant forall f :: f in found <==>
                  f.SecretCommand? && f.task == task.id && 1 <= f.index <= i && secret(task.verificationCommands[f.index - 1])
    {
      if secret(task.verificationCommands[i]) {
        found := found + [SecretCommand(task.id, i + 1)];
      }
    }
  }

  /** The validator's loop over tasks. */
  method TaskFindings(policy: CommandPolicy, ids: set<Id>, tasks: seq<RuntimeTask>) returns (found: seq<Finding>)
    ensures forall f :: f in found <==> exists task :: task in tasks && TaskWarrants(policy, ids, task, f)
  {
    found := [];
    for i := 0 to |tasks|
      invariant forall f :: f in found <==> exists task :: task in tasks[..i] && TaskWarrants(policy, ids, task, f)
    {
      assert tasks[..i + 1] == tasks[..i] + [tasks[i]];
      var dependencies := MissingDependencies(ids, tasks[i]);
      var commands := MissingCommands(policy.mandatory, tasks[i]);
      var secrets := SecretCommands(policy.secret, tasks[i]);
      var executor := if tasks[i].executor != "codex" then [WrongExecutor(tasks[i].id)] else [];
      var more := dependencies + commands + secrets + executor;
      assert forall f :: f in more <==> TaskWarrants(policy, ids, tasks[i], f);
      found := found + more;
    }
    assert tasks[..|tasks|] == tasks;
  }

  /** Appends exactly the findings the plan warrants. */
  method ValidateTaskBindings(policy: CommandPolicy, p: FrozenPlan, findings: seq<Finding>) returns (all: seq<Finding>)
    ensures |findings| <= |all| && all[..|findings|] == findings
    ensures forall f :: f in all[|findings|..] <==> Warranted(policy, p, f)
  {
    var declared := SortStrings(p.project.plan.taskIds);
    var taskIds := TaskIds(p);
    TaskIdFacts(p);
    var duplicate := if |taskIds| != |Elements(taskIds)| then [TaskDuplicate] else [];
    var mismatch := if taskIds != declared then [TaskPlanMismatch] else [];
    var perTask := TaskFindings(policy, Elements(taskIds), p.tasks);
    DependencyEdgeFacts(p);
    var cyclic := HasDependencyCycle(DependencyEdges(p));
    var cycle := if cyclic then [DependencyCycle] else [];
    AllWarranted(policy, p, duplicate, mismatch, perTask, cycle);
    all := findings + (duplicate + mismatch + perTask + cycle);
    assert all[|findings|..] == duplicate + mismatch + perTask + cycle;
  }

  lemma AllWarranted(policy: CommandPolicy, p: FrozenPlan, duplicate: seq<Finding>, mismatch: seq<Finding>,
                     perTask: seq<Finding>, cycle: seq<Finding>)
    requires duplicate == if Distinct(TaskIdsOf(p.tasks)) then [] else [TaskDuplicate]
    requires mismatch == if multiset(TaskIdsOf(p.tasks)) == multiset(p.project.plan.taskIds) then [] else [TaskPlanMismatch]
    requires forall f :: f in perTask <==>
               exists task :: task in p.tasks && TaskWarrants(policy, Elements(TaskIdsOf(p.tasks)), task, f)
    requires cycle == if Cyclic(Elements(TaskEdges(p.tasks))) then [DependencyCycle] else []
    ensures forall f :: f in duplicate + mismatch + perTask + cycle <==> Warranted(policy, p, f)
  {
    forall f ensures f in duplicate + mismatch + perTask + cycle <==> Warranted(policy, p, f) {
      assert f in perTask <==> exists task :: task in p.tasks && TaskWarrants(policy, Elements(TaskIdsOf(p.tasks)), task, f);
      match f {
        case TaskDuplicate => assert f !in perTask;
        case TaskPlanMismatch => assert f !in perTask;
        case DependencyCycle => assert f !in perTask;
        case _ => assert f !in duplicate && f !in mismatch && f !in cycle;
      }
    }
  }

  lemma TaskIdFacts(p: FrozenPlan)
    ensures Elements(TaskIds(p)) == Elements(TaskIdsOf(p.tasks))
    ensures |TaskIds(p)| != |Elements(TaskIds(p))| <==> !Distinct(TaskIdsOf(p.tasks))
    ensures TaskIds(p) != SortStrings(p.project.plan.taskIds) <==> multiset(TaskIdsOf(p.tasks)) != multiset(p.project.plan.taskIds)
  {
    var ids, declared := TaskIdsOf(p.tasks), p.project.plan.taskIds;
    SortKeepsElements(StrLe, ids);
    SortPermutes(StrLe, ids);
    SortPermutes(StrLe, declared);
    DistinctIffSizes(ids);
    StrOrder();
    if multiset(ids) == multiset(declared) {
      SortCanonical(StrLe, ids, declared);
    }
  }

  lemma DependencyEdgeFacts(p: FrozenPlan)
    ensures Elements(DependencyEdges(p)) == Elements(TaskEdges(p.tasks))
  {
    SortPermutes(EdgeLe, TaskEdges(p.tasks));
    forall e ensures e in Elements(DependencyEdges(p)) <==> e in Elements(TaskEdges(p.tasks)) {
      assert e in multiset(DependencyEdges(p)) <==> e in multiset(TaskEdges(p.tasks));
    }
  }

  lemma {:induction false} TaskEdgeMeaning(tasks: seq<RuntimeTask>, e: Edge)
    ensures e in TaskEdges(tasks) <==> exists t :: t in tasks && t.id == e.0 && e.1 in t.dependsOn
  {
    if tasks != [] {
      TaskEdgeMeaning(tasks[1..], e);
      assert e in EdgesFrom(tasks[0].id, tasks[0].dependsOn) <==> tasks[0].id == e.0 && e.1 in tasks[0].dependsOn by {
        if tasks[0].id == e.0 && e.1 in tasks[0].dependsOn {
          var k :| 0 <= k < |tasks[0].dependsOn| && tasks[0].dependsOn[k] == e.1;
          assert EdgesFrom(tasks[0].id, tasks[0].dependsOn)[k] == e;
        }
      }
      assert tasks == [tasks[0]] + tasks[1..];
    }
  }

  // ----- Runs -----

  /** `t` is still to do and everything it depends on is done. */
  ghost predicate Ready(tasks: set<Id>, E: set<Edge>, done: set<Id>, t: Id) {
    t in tasks && t !in done && forall d :: (t, d) in E ==> d in done
  }

  /** An order in which tasks were completed, each when it was ready. */
  ghost predicate Run(tasks: set<Id>, E: set<Edge>, order: seq<Id>) {
    forall i :: 0 <= i < |order| ==> Ready(tasks, E, Elements(order[..i]), order[i])
  }

  /** Dependencies stay among the tasks and do not run in a circle. */
  ghost predicate Feasible(tasks: set<Id>, E: set<Edge>) {
    && (forall a, b :: (a, b) in E ==> a in tasks && b in tasks)
    && !Cyclic(E)
  }

  /** Whatever is done already, some task is ready until all are done. */
  lemma NeverStuck(tasks: set<Id>, E: set<Edge>, done: set<Id>) returns (t: Id)
    requires Feasible(tasks, E) && !(tasks <= done)
    ensures Ready(tasks, E, done, t)
  {
    var left := tasks - done;
    if forall a :: a in left ==> !Ready(tasks, E, done, a) {
      var first :| first in tasks && first !in done;
      assert first in left;
      forall a | a in left ensures HasSuccessor(E, left, a) {
        var b :| (a, b) in E && b !in done;
        assert b in left;
      }
      StuckHasCycle(E, left);
      assert false;
    }
    t :| t in left && Ready(tasks, E, done, t);
  }

  lemma {:induction false} RunIsPartial(tasks: set<Id>, E: set<Edge>, order: seq<Id>)
    requires Run(tasks, E, order)
    ensures Elements(order) <= tasks && Distinct(order)
  {
    forall i, j | 0 <= i < j < |order| ensures order[i] != order[j] {
      assert Ready(tasks, E, Elements(order[..j]), order[j]);
      assert order[..j][i] == order[i];
    }
    forall x | x in order ensures x in tasks {
      var i :| 0 <= i < |order| && order[i] == x;
      assert Ready(tasks, E, Elements(order[..i]), order[i]);
    }
  }

  lemma RunPush(tasks: set<Id>, E: set<Edge>, order: seq<Id>, t: Id)
    requires Run(tasks, E, order) && Ready(tasks, E, Elements(order), t)
    ensures Run(tasks, E, order + [t])
  {
    var longer := order + [t];
    forall i | 0 <= i < |longer| ensures Ready(tasks, E, Elements(longer[..i]), longer[i]) {
      if i < |order| {
        assert longer[..i] == order[..i];
        assert Ready(tasks, E, Elements(order[..i]), order[i]);
      } else {
        assert longer[..i] == order;
      }
    }
  }

  /** A run that has not finished can go on, and none is longer than the plan. */
  lemma RunContinues(tasks: set<Id>, E: set<Edge>, order: seq<Id>)
    requires Feasible(tasks, E) && Run(tasks, E, order)
    ensures |order| <= |tasks|
    ensures |order| == |tasks| <==> Elements(order) == tasks
    ensures Elements(order) != tasks ==> exists t :: Run(tasks, E, order + [t])
  {
    RunIsPartial(tasks, E, order);
    DistinctIffSizes(order);
    Subset(Elements(order), tasks);
    if Elements(order) != tasks {
      ProperSubset(Elements(order), tasks);
      var t := NeverStuck(tasks, E, Elements(order));
      RunPush(tasks, E, order, t);
    }
  }

  lemma ProperSubset<T>(A: set<T>, B: set<T>)
    requires A < B
    ensures |A| < |B|
  {
    var x :| x in B && x !in A;
    Subset(A, B - {x});
  }

  lemma {:induction false} RunFinishes(tasks: set<Id>, E: set<Edge>, order: seq<Id>) returns (full: seq<Id>)
    requires Feasible(tasks, E) && Run(tasks, E, order)
    ensures Run(tasks, E, full) && order <= full && Elements(full) == tasks
    decreases |tasks| - |order|
  {
    RunContinues(tasks, E, order);
    if Elements(order) == tasks {
      full := order;
    } else {
      var t :| Run(tasks, E, order + [t]);
      RunContinues(tasks, E, order + [t]);
      full := RunFinishes(tasks, E, order + [t]);
    }
  }

  /** Feasibility is exactly what it takes: no plan that is infeasible has a complete run. */
  lemma CompleteRunIffFeasible(tasks: set<Id>, E: set<Edge>)
    requires forall a, b :: (a, b) in E ==> a in tasks
    ensures Feasible(tasks, E) <==> exists order :: Run(tasks, E, order) && Elements(order) == tasks
  {
    if Feasible(tasks, E) {
      assert Run(tasks, E, []);
      var full := RunFinishes(tasks, E, []);
    }
    if order :| Run(tasks, E, order) && Elements(order) == tasks {
      CompleteRunFeasible(tasks, E, order);
    }
  }

  ghost function Position(order: seq<Id>, t: Id): (i: int)
    requires t in order
    ensures 0 <= i < |order| && order[i] == t
  {
    var i :| 0 <= i < |order| && order[i] == t;
    i
  }

  lemma CompleteRunFeasible(tasks: set<Id>, E: set<Edge>, order: seq<Id>)
    requires forall a, b :: (a, b) in E ==> a in tasks
    requires Run(tasks, E, order) && Elements(order) == tasks
    ensures Feasible(tasks, E)
  {
    var level := map t | t in tasks :: Position(order, t);
    forall a, b | (a, b) in E ensures a in level && b in level && level[b] < level[a] {
      var i := Position(order, a);
      assert Ready(tasks, E, Elements(order[..i]), order[i]);
      assert b in order[..i];
      var j :| 0 <= j < i && order[j] == b;
      RunIsPartial(tasks, E, order);
      assert b in Elements(order) && Position(order, b) == j;
    }
    MeasureAcyclic(E, level);
  }

  /** Without findings the frozen plan can always run to completion, in whatever order ready tasks are taken. */
  lemma CleanBindingsComplete(policy: CommandPolicy, p: FrozenPlan, order: seq<Id>)
    requires forall f :: !Warranted(policy, p, f)
    requires Run(Elements(TaskIdsOf(p.tasks)), Elements(TaskEdges(p.tasks)), order)
    ensures Feasible(Elements(TaskIdsOf(p.tasks)), Elements(TaskEdges(p.tasks)))
    ensures |order| <= |p.tasks|
    ensures |order| == |p.tasks| ==> Elements(order) == Elements(p.project.plan.taskIds)
    ensures |order| < |p.tasks| ==> exists t :: Run(Elements(TaskIdsOf(p.tasks)), Elements(TaskEdges(p.tasks)), order + [t])
  {
    var tasks, E := Elements(TaskIdsOf(p.tasks)), Elements(TaskEdges(p.tasks));
    CleanBindingsFeasible(policy, p);
    RunContinues(tasks, E, order);
    assert !Warranted(policy, p, TaskDuplicate) && !Warranted(policy, p, TaskPlanMismatch);
    DistinctIffSizes(TaskIdsOf(p.tasks));
    assert tasks == Elements(p.project.plan.taskIds) by {
      forall x ensures x in TaskIdsOf(p.tasks) <==> x in p.project.plan.taskIds {
        assert x in multiset(TaskIdsOf(p.tasks)) <==> x in multiset(p.project.plan.taskIds);
      }
    }
  }

  lemma CleanBindingsFeasible(policy: CommandPolicy, p: FrozenPlan)
    requires forall f :: !Warranted(policy, p, f)
    ensures Feasible(Elements(TaskIdsOf(p.tasks)), Elements(TaskEdges(p.tasks)))
  {
    var tasks, E := Elements(TaskIdsOf(p.tasks)), Elements(TaskEdges(p.tasks));
    assert !Warranted(policy, p, DependencyCycle);
    forall a, b | (a, b) in E ensures a in tasks && b in tasks {
      TaskEdgeMeaning(p.tasks, (a, b));
      var task :| task in p.tasks && task.id == a && b in task.dependsOn;
      var i :| 0 <= i < |p.tasks| && p.tasks[i] == task;
      assert TaskIdsOf(p.tasks)[i] == a;
      assert !Warranted(policy, p, MissingDependency(a, b));
      assert !TaskWarrants(policy, tasks, task, MissingDependency(a, b));
    }
  }

  ghost predicate IsTask(tasks: seq<RuntimeTask>, id: Id) {
    exists t :: t in tasks && t.id == id
  }

  /** A task that depends on tasks only, runs every mandatory command and no secret one, and is for the one executor. */
  ghost predicate SoundTask(policy: CommandPolicy, tasks: seq<RuntimeTask>, t: RuntimeTask) {
    && (forall d :: d in t.dependsOn ==> IsTask(tasks, d))
    && (forall c :: c in policy.mandatory ==> c in t.verificationCommands)
    && (forall k :: 0 <= k < |t.verificationCommands| ==> !policy.secret(t.verificationCommands[k]))
    && t.executor == "codex"
  }

  function DependsOn(tasks: seq<RuntimeTask>): set<Edge> {
    set t, d | t in tasks && d in t.dependsOn :: (t.id, d)
  }

  /** Tasks with different ids, which are those the plan lists once each; all sound; and no circle among them. */
  ghost predicate SoundBindings(policy: CommandPolicy, p: FrozenPlan) {
    && (forall i, j :: 0 <= i < j < |p.tasks| ==> p.tasks[i].id != p.tasks[j].id)
    && (forall i, j :: 0 <= i < j < |p.project.plan.taskIds| ==> p.project.plan.taskIds[i] != p.project.plan.taskIds[j])
    && (forall id :: id in p.project.plan.taskIds <==> IsTask(p.tasks, id))
    && (forall t :: t in p.tasks ==> SoundTask(policy, p.tasks, t))
    && !Cyclic(DependsOn(p.tasks))
  }

  lemma IsTaskIff(tasks: seq<RuntimeTask>, id: Id)
    ensures IsTask(tasks, id) <==> id in TaskIdsOf(tasks)
  {
    if t :| t in tasks && t.id == id {
      var i :| 0 <= i < |tasks| && tasks[i] == t;
      assert TaskIdsOf(tasks)[i] == id;
    }
    if id in TaskIdsOf(tasks) {
      var i :| 0 <= i < |tasks| && TaskIdsOf(tasks)[i] == id;
      assert tasks[i] in tasks;
    }
  }

  lemma DependsOnIsTaskEdges(tasks: seq<RuntimeTask>)
    ensures DependsOn(tasks) == Elements(TaskEdges(tasks))
  {
    forall e ensures e in DependsOn(tasks) <==> e in Elements(TaskEdges(tasks)) {
      TaskEdgeMeaning(tasks, e);
    }
  }

  lemma SoundTaskIff(policy: CommandPolicy, tasks: seq<RuntimeTask>, t: RuntimeTask)
    ensures SoundTask(policy, tasks, t) <==> forall f :: !TaskWarrants(policy, Elements(TaskIdsOf(tasks)), t, f)
  {
    hide TaskIdsOf, IsTask;
    var ids := Elements(TaskIdsOf(tasks));
    forall id ensures IsTask(tasks, id) <==> id in ids {
      IsTaskIff(tasks, id);
    }
    if forall f :: !TaskWarrants(policy, ids, t, f) {
      assert !TaskWarrants(policy, ids, t, WrongExecutor(t.id));
      forall d | d in t.dependsOn ensures IsTask(tasks, d) {
        assert !TaskWarrants(policy, ids, t, MissingDependency(t.id, d));
      }
      forall c | c in policy.mandatory ensures c in t.verificationCommands {
        assert !TaskWarrants(policy, ids, t, MissingCommand(t.id, c));
      }
      forall k | 0 <= k < |t.verificationCommands| ensures !policy.secret(t.verificationCommands[k]) {
        assert !TaskWarrants(policy, ids, t, SecretCommand(t.id, k + 1));
      }
    }
  }

  lemma SameIdsIff(ids: seq<Id>, listed: seq<Id>)
    requires Distinct(ids)
    ensures multiset(ids) == multiset(listed) <==> Distinct(listed) && forall x :: x in listed <==> x in ids
  {
    if multiset(ids) == multiset(listed) {
      SameMembers(ids, listed);
      SameMultisetSameLength(ids, listed);
      DistinctIffSizes(ids);
      DistinctIffSizes(listed);
      assert Elements(ids) == Elements(listed);
    }
    if Distinct(listed) && forall x :: x in listed <==> x in ids {
      SameElementsPermute(ids, listed);
    }
  }

  lemma NothingPlanWide(policy: CommandPolicy, p: FrozenPlan)
    ensures (forall f :: !Warranted(policy, p, f)) <==>
            && Distinct(TaskIdsOf(p.tasks)) && multiset(TaskIdsOf(p.tasks)) == multiset(p.project.plan.taskIds)
            && !Cyclic(Elements(TaskEdges(p.tasks)))
            && forall t :: t in p.tasks ==> forall f :: !TaskWarrants(policy, Elements(TaskIdsOf(p.tasks)), t, f)
  {
    hide TaskIdsOf, TaskEdges, Cyclic, Distinct, Elements;
    if forall f :: !Warranted(policy, p, f) {
      assert !Warranted(policy, p, TaskDuplicate) && !Warranted(policy, p, TaskPlanMismatch) && !Warranted(policy, p, DependencyCycle);
      forall t, f | t in p.tasks ensures !TaskWarrants(policy, Elements(TaskIdsOf(p.tasks)), t, f) {
        assert !Warranted(policy, p, f);
      }
    }
  }

  /** No finding is warranted exactly when the bindings are sound. */
  lemma CleanBindingsIff(policy: CommandPolicy, p: FrozenPlan)
    ensures (forall f :: !Warranted(policy, p, f)) <==> SoundBindings(policy, p)
  {
    NothingPlanWide(policy, p);
    DependsOnIsTaskEdges(p.tasks);
    var ids := TaskIdsOf(p.tasks);
    assert Distinct(ids) <==> forall i, j :: 0 <= i < j < |p.tasks| ==> p.tasks[i].id != p.tasks[j].id by {
      assert forall i :: 0 <= i < |p.tasks| ==> ids[i] == p.tasks[i].id;
    }
    forall id ensures IsTask(p.tasks, id) <==> id in ids {
      IsTaskIff(p.tasks, id);
    }
    hide TaskIdsOf, TaskEdges, DependsOn, Cyclic, TaskWarrants, SoundTask, IsTask, Warranted;
    forall t ensures SoundTask(policy, p.tasks, t) <==> forall f :: !TaskWarrants(policy, Elements(ids), t, f) {
      SoundTaskIff(policy, p.tasks, t);
    }
    if Distinct(ids) {
      SameIdsIff(ids, p.project.plan.taskIds);
    }
  }
}
