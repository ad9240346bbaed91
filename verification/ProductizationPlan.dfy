/** The productization plan's DAG: wave layering, critical path, and their agreement. */
module ProductizationPlan {
  import opened Order
  import opened DependencyGraph

  datatype Result<+T> = Ok(value: T) | Err(error: PlanError)

  datatype PlanError = CycleOrMissingDependency | EmptyPlan

  datatype Task = Task(taskId: Id, dependencies: seq<Id>)

  /** The dictionary of tasks by id. */
  function ById(tasks: seq<Task>): (m: map<Id, Task>)
    ensures m.Keys == set task | task in tasks :: task.taskId
  {
    if tasks == [] then map[]
    else
      var init, last := tasks[..|tasks| - 1], tasks[|tasks| - 1];
      assert tasks == init + [last];
      ById(init)[last.taskId := last]
  }

  function DependencyMap(tasks: seq<Task>): map<Id, set<Id>> {
    map t | t in ById(tasks) :: Elements(ById(tasks)[t].dependencies)
  }

  /** Of tasks sharing an id the last one counts; its dependencies are those of the id. */
  lemma {:induction false} LastTaskCounts(tasks: seq<Task>, i: nat)
    requires i < |tasks| && forall j :: i < j < |tasks| ==> tasks[j].taskId != tasks[i].taskId
    ensures tasks[i].taskId in ById(tasks) && ById(tasks)[tasks[i].taskId] == tasks[i]
    ensures tasks[i].taskId in DependencyMap(tasks)
    ensures forall d :: d in DependencyMap(tasks)[tasks[i].taskId] <==> d in tasks[i].dependencies
  {
    if i < |tasks| - 1 {
      LastTaskCounts(tasks[..|tasks| - 1], i);
    }
  }

  ghost predicate DependencyClosed(g: map<Id, set<Id>>) {
    forall t :: t in g ==> g[t] <= g.Keys
  }

  // ----- Waves -----

  function Union(waves: seq<seq<Id>>): set<Id> {
    set i, t | 0 <= i < |waves| && t in waves[i] :: t
  }

  /** A task of wave `i` depends on earlier waves only and, unless `i` is the first, on wave `i - 1`. */
  ghost predicate InWave(g: map<Id, set<Id>>, waves: seq<seq<Id>>, i: nat, t: Id)
    requires i < |waves|
  {
    && t in g
    && g[t] <= Union(waves[..i])
    && (i > 0 ==> exists d :: d in g[t] && d in waves[i - 1])
  }

  ghost predicate GoodWave(g: map<Id, set<Id>>, waves: seq<seq<Id>>, i: nat)
    requires i < |waves|
  {
    && waves[i] != []
    && Distinct(waves[i]) && Ascending(StrLe, waves[i])
    && (forall t :: t in waves[i] ==> InWave(g, waves, i, t) && t !in Union(waves[..i]))
  }

  /** The waves partition the tasks, each in id order, and each task sits as early as its dependencies allow. */
  ghost predicate Layering(g: map<Id, set<Id>>, waves: seq<seq<Id>>) {
    && Union(waves) == g.Keys
    && forall i :: 0 <= i < |waves| ==> GoodWave(g, waves, i)
  }

  lemma UnionPush(waves: seq<seq<Id>>, wave: seq<Id>)
    ensures Union(waves + [wave]) == Union(waves) + Elements(wave)
  {
    var all := waves + [wave];
    forall t ensures t in Union(all) <==> t in Union(waves) || t in wave {
      if t in Union(waves) {
        var i :| 0 <= i < |waves| && t in waves[i];
        assert t in all[i];
      }
      if t in wave {
        assert t in all[|waves|];
      }
    }
  }

  lemma GoodWavePush(g: map<Id, set<Id>>, waves: seq<seq<Id>>, wave: seq<Id>, i: nat)
    requires i < |waves| && GoodWave(g, waves, i)
    ensures GoodWave(g, waves + [wave], i)
  {
    var all := waves + [wave];
    assert all[..i] == waves[..i];
    forall t | t in all[i] ensures InWave(g, all, i, t) && t !in Union(all[..i]) {
      assert InWave(g, waves, i, t);
    }
  }

  /** The waves found so far are good, and whatever is left waits for a task of the last one or for a later one. */
  ghost predicate LayeredSoFar(g: map<Id, set<Id>>, waves: seq<seq<Id>>) {
    && Union(waves) <= g.Keys
    && (forall i :: 0 <= i < |waves| ==> GoodWave(g, waves, i))
    && (|waves| > 0 ==> forall t :: t in g.Keys - Union(waves) ==> !(g[t] <= Union(waves[..|waves| - 1])))
  }

  /** Fails exactly when a dependency is missing or the dependencies run in a circle; otherwise layers the plan. */
  method Waves(tasks: seq<Task>) returns (r: Result<seq<seq<Id>>>)
    ensures r.Err? <==> !DependencyClosed(DependencyMap(tasks)) || Cyclic(EdgesOf(DependencyMap(tasks)))
    ensures r.Err? ==> r.error == CycleOrMissingDependency
    ensures r.Ok? ==> Layering(DependencyMap(tasks), r.value)
  {
    r := TakeWaves(DependencyMap(tasks));
  }

  method TakeWaves(g: map<Id, set<Id>>) returns (r: Result<seq<seq<Id>>>)
    ensures r.Err? <==> !DependencyClosed(g) || Cyclic(EdgesOf(g))
    ensures r.Err? ==> r.error == CycleOrMissingDependency
    ensures r.Ok? ==> Layering(g, r.value)
  {
    var remaining := g;
    var completed: set<Id> := {};
    var waves: seq<seq<Id>> := [];
    while remaining != map[]
      invariant remaining.Keys == g.Keys - completed
      invariant forall t :: t in remaining ==> remaining[t] == g[t]
      invariant completed == Union(waves) && LayeredSoFar(g, waves)
      decreases remaining.Keys
    {
      var ready := Sorted(set t | t in remaining && remaining[t] <= completed);
      assert Elements(ready) == ReadyTasks(g, completed);
      if ready == [] {
        StuckWaves(g, completed);
        return Err(CycleOrMissingDependency);
      }
      assert ready[0] in ReadyTasks(g, completed);
      NextWave(g, waves, ready);
      waves := waves + [ready];
      completed := completed + Elements(ready);
      remaining := map t | t in remaining && t !in ready :: remaining[t];
    }
    assert completed == g.Keys by {
      assert remaining.Keys == {};
    }
    LayeringAcyclic(g, waves);
    return Ok(waves);
  }

  ghost function ReadyTasks(g: map<Id, set<Id>>, completed: set<Id>): set<Id> {
    set t | t in g && t !in completed && g[t] <= completed
  }

  /** If nothing is ready, a dependency is missing or the remaining tasks run in a circle. */
  lemma StuckWaves(g: map<Id, set<Id>>, completed: set<Id>)
    requires !(g.Keys <= completed) && ReadyTasks(g, completed) == {}
    ensures !DependencyClosed(g) || Cyclic(EdgesOf(g))
  {
    var E := EdgesOf(g);
    var remaining := g.Keys - completed;
    var left :| left in g.Keys && left !in completed;
    assert left in remaining;
    if DependencyClosed(g) {
      forall t | t in remaining ensures HasSuccessor(E, remaining, t) {
        assert t !in ReadyTasks(g, completed);
        var d :| d in g[t] && d !in completed;
        assert d in remaining && (t, d) in E;
      }
      StuckHasCycle(E, remaining);
    }
  }

  lemma NextWave(g: map<Id, set<Id>>, waves: seq<seq<Id>>, ready: seq<Id>)
    requires LayeredSoFar(g, waves)
    requires ready != [] && Distinct(ready) && Ascending(StrLe, ready)
    requires Elements(ready) == ReadyTasks(g, Union(waves))
    ensures LayeredSoFar(g, waves + [ready])
    ensures Union(waves + [ready]) == Union(waves) + Elements(ready)
  {
    var all := waves + [ready];
    var n := |waves|;
    UnionPush(waves, ready);
    forall i | 0 <= i < n ensures GoodWave(g, all, i) {
      GoodWavePush(g, waves, ready, i);
    }
    assert all[..n] == waves;
    forall t | t in ready ensures InWave(g, all, n, t) && t !in Union(all[..n]) {
      assert t in ReadyTasks(g, Union(waves));
      if n > 0 {
        var d :| d in g[t] && d !in Union(waves[..n - 1]);
        assert waves == waves[..n - 1] + [waves[n - 1]];
        UnionPush(waves[..n - 1], waves[n - 1]);
        assert d in all[n - 1];
      }
    }
    assert GoodWave(g, all, n);
    forall t | t in g.Keys - Union(all) ensures !(g[t] <= Union(all[..n])) {
      assert t !in ReadyTasks(g, Union(waves));
    }
  }

  ghost function WaveOf(g: map<Id, set<Id>>, waves: seq<seq<Id>>, t: Id): (i: nat)
    requires Layering(g, waves) && t in g
    ensures i < |waves| && t in waves[i]
  {
    assert t in Union(waves);
    var i: nat :| i < |waves| && t in waves[i];
    i
  }

  lemma EarlierInUnion(waves: seq<seq<Id>>, t: Id, j: nat, i: nat)
    requires j < |waves| && i <= |waves| && t in waves[j]
    ensures j < i ==> t in Union(waves[..i])
  {
    assert j < i ==> t in waves[..i][j];
  }

  lemma WaveUnique(g: map<Id, set<Id>>, waves: seq<seq<Id>>, t: Id, i: nat)
    requires Layering(g, waves) && i < |waves| && t in waves[i]
    ensures t in g && WaveOf(g, waves, t) == i
  {
    assert t in Union(waves);
    var j := WaveOf(g, waves, t);
    assert GoodWave(g, waves, i) && GoodWave(g, waves, j);
    EarlierInUnion(waves, t, j, i);
    EarlierInUnion(waves, t, i, j);
  }

  lemma WaveDecreases(g: map<Id, set<Id>>, waves: seq<seq<Id>>, t: Id, d: Id)
    requires Layering(g, waves) && t in g && d in g[t]
    ensures d in g && WaveOf(g, waves, d) < WaveOf(g, waves, t)
  {
    var i := WaveOf(g, waves, t);
    assert GoodWave(g, waves, i);
    assert InWave(g, waves, i, t);
    assert d in Union(waves[..i]);
    var j: nat :| j < |waves[..i]| && d in waves[..i][j];
    assert d in waves[j];
    WaveUnique(g, waves, d, j);
  }

  ghost function WaveNumbers(g: map<Id, set<Id>>, waves: seq<seq<Id>>): map<Id, int>
    requires Layering(g, waves)
  {
    map t | t in g :: WaveOf(g, waves, t)
  }

  lemma LayeringAcyclic(g: map<Id, set<Id>>, waves: seq<seq<Id>>)
    requires Layering(g, waves)
    ensures DependencyClosed(g) && !Cyclic(EdgesOf(g))
  {
    forall t, d | t in g && d in g[t] ensures d in g && WaveOf(g, waves, d) < WaveOf(g, waves, t) {
      WaveDecreases(g, waves, t, d);
    }
    MeasureAcyclic(EdgesOf(g), WaveNumbers(g, waves));
  }

  /** The layering is the only one of its kind, so `Waves` has no freedom in what it returns. */
  lemma LayeringUnique(g: map<Id, set<Id>>, first: seq<seq<Id>>, second: seq<seq<Id>>)
    requires Layering(g, first) && Layering(g, second)
    ensures first == second
  {
    WavesRespect(g, first);
    WavesRespect(g, second);
    FewestWaves(g, first, WaveNumbers(g, second), |second|);
    FewestWaves(g, second, WaveNumbers(g, first), |first|);
    forall t | t in g ensures WaveOf(g, first, t) == WaveOf(g, second, t) {}
    forall i | 0 <= i < |first| ensures first[i] == second[i] {
      SameWave(g, first, second, i);
      SameWave(g, second, first, i);
      assert Elements(first[i]) == Elements(second[i]);
      assert GoodWave(g, first, i) && GoodWave(g, second, i);
      SortedUnique(first[i]);
      SortedUnique(second[i]);
    }
  }

  lemma SameWave(g: map<Id, set<Id>>, first: seq<seq<Id>>, second: seq<seq<Id>>, i: nat)
    requires Layering(g, first) && Layering(g, second) && i < |first|
    requires forall t :: t in g ==> WaveOf(g, first, t) == WaveOf(g, second, t)
    ensures forall t :: t in first[i] ==> i < |second| && t in second[i]
  {
    forall t | t in first[i] ensures i < |second| && t in second[i] {
      WaveUnique(g, first, t, i);
    }
  }

  /** A numbering in which every task comes after its dependencies. */
  ghost predicate Respects(g: map<Id, set<Id>>, level: map<Id, int>, k: int) {
    && g.Keys <= level.Keys
    && forall t :: t in g ==> 0 <= level[t] < k && forall d :: d in g[t] ==> d in level && level[d] < level[t]
  }

  lemma WavesRespect(g: map<Id, set<Id>>, waves: seq<seq<Id>>)
    requires Layering(g, waves)
    ensures Respects(g, WaveNumbers(g, waves), |waves|)
  {
    forall t, d | t in g && d in g[t] ensures d in g && WaveOf(g, waves, d) < WaveOf(g, waves, t) {
      WaveDecreases(g, waves, t, d);
    }
  }

  lemma {:induction false} WaveAtMostLevel(g: map<Id, set<Id>>, waves: seq<seq<Id>>, level: map<Id, int>, k: int, i: nat, t: Id)
    requires Layering(g, waves) && Respects(g, level, k)
    requires i < |waves| && t in waves[i]
    ensures t in level && i <= level[t]
  {
    assert GoodWave(g, waves, i) && InWave(g, waves, i, t);
    if i > 0 {
      var d :| d in g[t] && d in waves[i - 1];
      WaveAtMostLevel(g, waves, level, k, i - 1, d);
    }
  }

  /** No layering that respects the dependencies uses fewer waves, or places any task earlier. */
  lemma FewestWaves(g: map<Id, set<Id>>, waves: seq<seq<Id>>, level: map<Id, int>, k: int)
    requires Layering(g, waves) && Respects(g, level, k) && k >= 0
    ensures |waves| <= k
    ensures forall t :: t in g ==> WaveOf(g, waves, t) <= level[t]
  {
    forall t | t in g ensures WaveOf(g, waves, t) <= level[t] {
      WaveAtMostLevel(g, waves, level, k, WaveOf(g, waves, t), t);
    }
    if |waves| > 0 {
      var i := |waves| - 1;
      assert GoodWave(g, waves, i);
      WaveAtMostLevel(g, waves, level, k, i, waves[i][0]);
      assert InWave(g, waves, i, waves[i][0]);
    }
  }

  // ----- Chains and the critical path -----

  ghost predicate Feeds(g: map<Id, set<Id>>, p: seq<Id>, i: nat)
    requires i + 1 < |p|
  {
    p[i + 1] in g && p[i] in g[p[i + 1]]
  }

  /** A dependency chain, dependencies first. */
  ghost predicate Chain(g: map<Id, set<Id>>, p: seq<Id>) {
    && p != []
    && (forall i :: 0 <= i < |p| ==> p[i] in g)
    && (forall i :: 0 <= i < |p| - 1 ==> Feeds(g, p, i))
  }

  ghost predicate ChainTo(g: map<Id, set<Id>>, t: Id, p: seq<Id>) {
    Chain(g, p) && p[|p| - 1] == t
  }

  lemma ChainPush(g: map<Id, set<Id>>, p: seq<Id>, t: Id)
    requires Chain(g, p) && t in g && p[|p| - 1] in g[t]
    ensures ChainTo(g, t, p + [t])
  {
    var q := p + [t];
    forall i | 0 <= i < |q| - 1 ensures Feeds(g, q, i) {
      if i < |p| - 1 {
        assert Feeds(g, p, i);
      }
    }
  }

  lemma ChainPop(g: map<Id, set<Id>>, p: seq<Id>)
    requires Chain(g, p) && |p| >= 2
    ensures Chain(g, p[..|p| - 1]) && p[|p| - 2] in g[p[|p| - 1]]
  {
    var q := p[..|p| - 1];
    assert Feeds(g, p, |p| - 2);
    forall i | 0 <= i < |q| - 1 ensures Feeds(g, q, i) {
      assert Feeds(g, p, i);
    }
  }

  lemma {:induction false} ChainAtMostWave(g: map<Id, set<Id>>, waves: seq<seq<Id>>, p: seq<Id>)
    requires Layering(g, waves) && Chain(g, p)
    ensures |p| <= WaveOf(g, waves, p[|p| - 1]) + 1
    decreases |p|
  {
    if |p| >= 2 {
      ChainPop(g, p);
      WaveDecreases(g, waves, p[|p| - 1], p[|p| - 2]);
      ChainAtMostWave(g, waves, p[..|p| - 1]);
    }
  }

  lemma {:induction false} ChainOfWave(g: map<Id, set<Id>>, waves: seq<seq<Id>>, i: nat, t: Id) returns (p: seq<Id>)
    requires Layering(g, waves) && i < |waves| && t in waves[i]
    ensures ChainTo(g, t, p) && |p| == i + 1
  {
    assert GoodWave(g, waves, i) && InWave(g, waves, i, t);
    if i == 0 {
      p := [t];
    } else {
      var d :| d in g[t] && d in waves[i - 1];
      p := ChainOfWave(g, waves, i - 1, d);
      ChainPush(g, p, t);
      p := p + [t];
    }
  }

  /** A task's wave number, counted from one, is the length of its longest dependency chain. */
  lemma WaveIsLongestChain(g: map<Id, set<Id>>, waves: seq<seq<Id>>, t: Id)
    requires Layering(g, waves) && t in g
    ensures exists p :: ChainTo(g, t, p) && |p| == WaveOf(g, waves, t) + 1
    ensures forall p :: ChainTo(g, t, p) ==> |p| <= WaveOf(g, waves, t) + 1
  {
    var p := ChainOfWave(g, waves, WaveOf(g, waves, t), t);
    forall q | ChainTo(g, t, q) ensures |q| <= WaveOf(g, waves, t) + 1 {
      ChainAtMostWave(g, waves, q);
    }
  }

  /** The comparison key of paths: length first, then the path itself. */
  predicate KeyLe(p: seq<Id>, q: seq<Id>) {
    |p| < |q| || (|p| == |q| && TupleLe(p, q))
  }

  lemma KeyOrder()
    ensures TotalOrder(KeyLe)
  {
    TupleOrder();
  }

  lemma KeyTotal(p: seq<Id>, q: seq<Id>)
    ensures KeyLe(p, q) || KeyLe(q, p)
  {
    KeyOrder();
  }

  /** `p` is the greatest chain that ends in `t`. */
  ghost predicate BestTo(g: map<Id, set<Id>>, t: Id, p: seq<Id>) {
    ChainTo(g, t, p) && AtLeastChainsTo(g, t, p)
  }

  ghost predicate AtLeastChainsTo(g: map<Id, set<Id>>, t: Id, p: seq<Id>) {
    forall q :: ChainTo(g, t, q) ==> KeyLe(q, p)
  }

  /** `p` is the lexicographically greatest of all dependency chains of maximum length. */
  ghost predicate Critical(g: map<Id, set<Id>>, p: seq<Id>) {
    Chain(g, p) && forall q :: Chain(g, q) ==> KeyLe(q, p)
  }

  /** No chain is longer, and of those as long none has a later text where it first differs. */
  lemma CriticalMeaning(g: map<Id, set<Id>>, p: seq<Id>, q: seq<Id>)
    requires Critical(g, p) && Chain(g, q) && q != p
    ensures |q| < |p| || TupleBefore(q, p)
  {
    assert KeyLe(q, p);
    if |q| == |p| {
      TupleLeMeaning(q, p);
    }
  }

  lemma AtLeastTransitive(g: map<Id, set<Id>>, t: Id, p: seq<Id>, q: seq<Id>)
    requires AtLeastChainsTo(g, t, p) && KeyLe(p, q)
    ensures AtLeastChainsTo(g, t, q)
  {
    KeyOrder();
  }

  /** One step of Python's `max`: the first candidate, or a strictly greater one, takes over. */
  function Greater(first: bool, best: seq<Id>, candidate: seq<Id>): seq<Id> {
    if first || !KeyLe(candidate, best) then candidate else best
  }

  lemma KeepGreater(g: map<Id, set<Id>>, ids: seq<Id>, i: nat, best: seq<Id>, candidate: seq<Id>)
    requires i < |ids| && AtLeastChainsTo(g, ids[i], candidate)
    requires forall j :: 0 <= j < i ==> AtLeastChainsTo(g, ids[j], best)
    ensures forall j :: 0 <= j <= i ==> AtLeastChainsTo(g, ids[j], Greater(i == 0, best, candidate))
  {
    KeyTotal(candidate, best);
    LexReflexive(StrLe, candidate);
    LexReflexive(StrLe, best);
    forall j | 0 <= j <= i ensures AtLeastChainsTo(g, ids[j], Greater(i == 0, best, candidate)) {
      AtLeastTransitive(g, ids[j], if j == i then candidate else best, Greater(i == 0, best, candidate));
    }
  }

  lemma BestLeaf(g: map<Id, set<Id>>, t: Id)
    requires t in g && g[t] == {}
    ensures BestTo(g, t, [t])
  {
    forall q | ChainTo(g, t, q) ensures KeyLe(q, [t]) {
      if |q| >= 2 {
        ChainPop(g, q);
      }
      assert q == [t];
      LexReflexive(StrLe, q);
    }
  }

  lemma BestExtends(g: map<Id, set<Id>>, t: Id, best: seq<Id>)
    requires t in g && Chain(g, best) && best[|best| - 1] in g[t]
    requires forall d :: d in g[t] ==> AtLeastChainsTo(g, d, best)
    ensures BestTo(g, t, best + [t])
  {
    ChainPush(g, best, t);
    forall q | ChainTo(g, t, q) ensures KeyLe(q, best + [t]) {
      if |q| >= 2 {
        var init := q[..|q| - 1];
        ChainPop(g, q);
        assert ChainTo(g, init[|init| - 1], init);
        assert KeyLe(init, best);
        assert q == init + [t];
        if |init| == |best| {
          LexAppend(StrLe, init, best, t);
        }
      }
    }
  }

  /** The tasks a task transitively depends on: the measure on which the path recursion descends. */
  ghost function Below(g: map<Id, set<Id>>, t: Id): set<Id> {
    set d | d in g && Reaches(EdgesOf(g), t, d)
  }

  lemma BelowShrinks(g: map<Id, set<Id>>, t: Id, d: Id)
    requires DependencyClosed(g) && !Cyclic(EdgesOf(g)) && t in g && d in g[t]
    ensures Below(g, d) < Below(g, t)
  {
    var E := EdgesOf(g);
    EdgeReaches(E, t, d);
    assert d in Below(g, t) && d !in Below(g, d);
    forall b | b in Below(g, d) ensures b in Below(g, t) {
      StepReaches(E, t, d, b);
    }
  }

  class PathSearch {
    const byId: map<Id, Task>
    var memo: map<Id, seq<Id>>

    ghost function G(): map<Id, set<Id>> {
      map t | t in byId :: Elements(byId[t].dependencies)
    }

    ghost predicate Valid()
      reads this
    {
      && DependencyClosed(G()) && !Cyclic(EdgesOf(G()))
      && forall t :: t in memo ==> BestTo(G(), t, memo[t])
    }

    constructor (tasks: seq<Task>)
      requires DependencyClosed(DependencyMap(tasks)) && !Cyclic(EdgesOf(DependencyMap(tasks)))
      ensures byId == ById(tasks) && G() == DependencyMap(tasks) && Valid()
    {
      byId := ById(tasks);
      memo := map[];
    }

    method PathTo(taskId: Id) returns (path: seq<Id>)
      requires Valid() && taskId in byId
      modifies this
      ensures Valid() && BestTo(G(), taskId, path)
      decreases Below(G(), taskId)
    {
      if taskId in memo {
        return memo[taskId];
      }
      var task := byId[taskId];
      ghost var g := G();
      if task.dependencies == [] {
        BestLeaf(g, taskId);
        memo := memo[taskId := [taskId]];
        return memo[taskId];
      }
      var best: seq<Id> := [];
      for i := 0 to |task.dependencies|
        invariant Valid()
        invariant i > 0 ==> Chain(g, best) && best[|best| - 1] in g[taskId]
        invariant forall j :: 0 <= j < i ==> AtLeastChainsTo(g, task.dependencies[j], best)
      {
        var dependency := task.dependencies[i];
        assert dependency in g[taskId];
        BelowShrinks(g, taskId, dependency);
        var candidate := PathTo(dependency);
        KeepGreater(g, task.dependencies, i, best, candidate);
        best := Greater(i == 0, best, candidate);
      }
      BestExtends(g, taskId, best);
      memo := memo[taskId := best + [taskId]];
      return memo[taskId];
    }
  }

  lemma BestOfAll(tasks: seq<Task>, best: seq<Id>)
    requires forall j :: 0 <= j < |tasks| ==> AtLeastChainsTo(DependencyMap(tasks), tasks[j].taskId, best)
    ensures forall q :: Chain(DependencyMap(tasks), q) ==> KeyLe(q, best)
  {
    var g := DependencyMap(tasks);
    forall q | Chain(g, q) ensures KeyLe(q, best) {
      var t := q[|q| - 1];
      assert ChainTo(g, t, q);
      var task :| task in tasks && task.taskId == t;
      var j :| 0 <= j < |tasks| && tasks[j] == task;
      assert AtLeastChainsTo(g, tasks[j].taskId, best);
    }
  }

  /** On a closed acyclic plan the critical path is the greatest of the longest dependency chains. */
  method CriticalPath(tasks: seq<Task>) returns (r: Result<seq<Id>>)
    requires DependencyClosed(DependencyMap(tasks)) && !Cyclic(EdgesOf(DependencyMap(tasks)))
    ensures r.Err? <==> tasks == []
    ensures r.Err? ==> r.error == EmptyPlan
    ensures r.Ok? ==> Critical(DependencyMap(tasks), r.value)
  {
    if tasks == [] {
      return Err(EmptyPlan);
    }
    ghost var g := DependencyMap(tasks);
    ghost var ids := seq(|tasks|, j requires 0 <= j < |tasks| => tasks[j].taskId);
    var search := new PathSearch(tasks);
    var best: seq<Id> := [];
    for i := 0 to |tasks|
      invariant search.Valid() && search.byId == ById(tasks) && search.G() == g
      invariant i > 0 ==> Chain(g, best)
      invariant forall j :: 0 <= j < i ==> AtLeastChainsTo(g, ids[j], best)
    {
      assert tasks[i] in tasks;
      var candidate := search.PathTo(tasks[i].taskId);
      KeepGreater(g, ids, i, best, candidate);
      best := Greater(i == 0, best, candidate);
    }
    forall j | 0 <= j < |tasks| ensures AtLeastChainsTo(g, tasks[j].taskId, best) {
      assert AtLeastChainsTo(g, ids[j], best);
    }
    BestOfAll(tasks, best);
    return Ok(best);
  }

  /** The critical path takes one task from every wave. */
  lemma CriticalPathMeetsEveryWave(g: map<Id, set<Id>>, waves: seq<seq<Id>>, p: seq<Id>)
    requires Layering(g, waves) && Critical(g, p)
    ensures |p| == |waves|
    ensures forall i :: 0 <= i < |p| ==> p[i] in waves[i]
  {
    ChainAtMostWave(g, waves, p);
    var last := |waves| - 1;
    assert GoodWave(g, waves, last);
    var q := ChainOfWave(g, waves, last, waves[last][0]);
    assert KeyLe(q, p);
    forall i | 0 <= i < |p| ensures p[i] in waves[i] {
      CriticalPlace(g, waves, p, i);
    }
  }

  lemma {:induction false} CriticalPlace(g: map<Id, set<Id>>, waves: seq<seq<Id>>, p: seq<Id>, i: nat)
    requires Layering(g, waves) && Chain(g, p) && |p| == |waves| && i < |p|
    ensures p[i] in waves[i]
    decreases |p| - i
  {
    var w := WaveOf(g, waves, p[i]);
    ChainPrefix(g, p, i);
    ChainAtMostWave(g, waves, p[..i + 1]);
    if i + 1 < |p| {
      CriticalPlace(g, waves, p, i + 1);
      WaveUnique(g, waves, p[i + 1], i + 1);
      assert Feeds(g, p, i);
      WaveDecreases(g, waves, p[i + 1], p[i]);
    }
  }

  lemma ChainPrefix(g: map<Id, set<Id>>, p: seq<Id>, i: nat)
    requires Chain(g, p) && i < |p|
    ensures ChainTo(g, p[i], p[..i + 1])
  {
    var q := p[..i + 1];
    forall j | 0 <= j < |q| - 1 ensures Feeds(g, q, j) {
      assert Feeds(g, p, j);
    }
  }

  lemma CriticalUnique(g: map<Id, set<Id>>, p: seq<Id>, q: seq<Id>)
    requires Critical(g, p) && Critical(g, q)
    ensures p == q
  {
    KeyOrder();
  }

  /** The planner's order of calls: the layering vouches for the precondition of the critical path. */
  method PlanDag(tasks: seq<Task>) returns (r: Result<(seq<seq<Id>>, seq<Id>)>)
    ensures r.Err? <==>
            || tasks == []
            || !DependencyClosed(DependencyMap(tasks))
            || Cyclic(EdgesOf(DependencyMap(tasks)))
    ensures r.Ok? ==>
              && Layering(DependencyMap(tasks), r.value.0)
              && Critical(DependencyMap(tasks), r.value.1)
              && |r.value.1| == |r.value.0|
  {
    var waves := Waves(tasks);
    if waves.Err? {
      return Err(waves.error);
    }
    LayeringAcyclic(DependencyMap(tasks), waves.value);
    var path := CriticalPath(tasks);
    if path.Err? {
      return Err(path.error);
    }
    CriticalPathMeetsEveryWave(DependencyMap(tasks), waves.value, path.value);
    return Ok((waves.value, path.value));
  }
}
