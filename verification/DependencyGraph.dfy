/** Dependency graphs as finite relations, and the facts about walks and cycles that every planner module uses. */
module DependencyGraph {
  import opened Order

  type Id = string

  /** An edge leads from a task to a task it depends on. */
  type Edge = (Id, Id)

  ghost predicate Linked(E: set<Edge>, p: seq<Id>, i: int)
    requires 0 <= i < |p| - 1
  {
    (p[i], p[i + 1]) in E
  }

  /** A walk: a non-empty sequence in which every element depends on its successor. */
  ghost predicate Path(E: set<Edge>, p: seq<Id>) {
    |p| > 0 && forall i :: 0 <= i < |p| - 1 ==> Linked(E, p, i)
  }

  ghost predicate Walk(E: set<Edge>, a: Id, b: Id, p: seq<Id>) {
    Path(E, p) && |p| >= 2 && p[0] == a && p[|p| - 1] == b
  }

  /** `a` depends on `b` directly or through others. */
  ghost predicate Reaches(E: set<Edge>, a: Id, b: Id) {
    exists p :: Walk(E, a, b, p)
  }

  ghost predicate Cyclic(E: set<Edge>) {
    exists a :: Reaches(E, a, a)
  }

  /** A cycle written out: it returns to its start and repeats nothing in between. */
  ghost predicate SimpleCycle(E: set<Edge>, p: seq<Id>) {
    && |p| >= 2
    && Path(E, p)
    && p[0] == p[|p| - 1]
    && Distinct(p[1..])
  }

  function Endpoints(E: set<Edge>): set<Id> {
    (set e | e in E :: e.0) + (set e | e in E :: e.1)
  }

  /** The edges of a dictionary from tasks to their dependencies. */
  function EdgesOf(g: map<Id, set<Id>>): set<Edge> {
    set a, b | a in g && b in g[a] :: (a, b)
  }

  /** `S` contains whatever one of its members depends on. */
  ghost predicate Closed(E: set<Edge>, S: set<Id>) {
    forall a, b :: (a, b) in E && a in S ==> b in S
  }

  /** Nothing more can be learned about `S`: it is closed and meets no cycle. */
  ghost predicate Settled(E: set<Edge>, S: set<Id>) {
    Closed(E, S) && forall a :: a in S ==> !Reaches(E, a, a)
  }

  lemma PathTail(E: set<Edge>, p: seq<Id>)
    requires Path(E, p) && |p| >= 2
    ensures Path(E, p[1..]) && (p[0], p[1]) in E
  {
    assert Linked(E, p, 0);
    forall i | 0 <= i < |p[1..]| - 1 ensures Linked(E, p[1..], i) {
      assert Linked(E, p, i + 1);
    }
  }

  lemma PathInit(E: set<Edge>, p: seq<Id>)
    requires Path(E, p) && |p| >= 2
    ensures Path(E, p[..|p| - 1]) && (p[|p| - 2], p[|p| - 1]) in E
  {
    assert Linked(E, p, |p| - 2);
    var q := p[..|p| - 1];
    forall i | 0 <= i < |q| - 1 ensures Linked(E, q, i) {
      assert Linked(E, p, i);
    }
  }

  lemma PathSuffix(E: set<Edge>, p: seq<Id>, k: nat)
    requires Path(E, p) && k < |p|
    ensures Path(E, p[k..])
  {
    forall i | 0 <= i < |p[k..]| - 1 ensures Linked(E, p[k..], i) {
      assert Linked(E, p, k + i);
    }
  }

  lemma PathJoin(E: set<Edge>, p: seq<Id>, q: seq<Id>)
    requires Path(E, p) && Path(E, q) && (p[|p| - 1], q[0]) in E
    ensures Path(E, p + q)
  {
    forall i | 0 <= i < |p + q| - 1 ensures Linked(E, p + q, i) {
      if i < |p| - 1 {
        assert Linked(E, p, i);
      } else if i >= |p| {
        assert Linked(E, q, i - |p|);
      }
    }
  }

  lemma EdgeReaches(E: set<Edge>, a: Id, b: Id)
    requires (a, b) in E
    ensures Reaches(E, a, b)
  {
    assert Walk(E, a, b, [a, b]);
  }

  lemma ReachesTransitive(E: set<Edge>, a: Id, b: Id, c: Id)
    requires Reaches(E, a, b) && Reaches(E, b, c)
    ensures Reaches(E, a, c)
  {
    var p :| Walk(E, a, b, p);
    var q :| Walk(E, b, c, q);
    PathTail(E, q);
    PathJoin(E, p, q[1..]);
    assert Walk(E, a, c, p + q[1..]);
  }

  /** The first step of a walk, seen backwards: what precedes a reaching task reaches too. */
  lemma StepReaches(E: set<Edge>, a: Id, b: Id, c: Id)
    requires (a, b) in E && Reaches(E, b, c)
    ensures Reaches(E, a, c)
  {
    EdgeReaches(E, a, b);
    ReachesTransitive(E, a, b, c);
  }

  lemma ReachesFirst(E: set<Edge>, a: Id, b: Id) returns (c: Id)
    requires Reaches(E, a, b)
    ensures (a, c) in E && (c == b || Reaches(E, c, b))
  {
    var p :| Walk(E, a, b, p);
    PathTail(E, p);
    c := p[1];
    if |p| > 2 {
      assert Walk(E, c, b, p[1..]);
    }
  }

  lemma ReachesLast(E: set<Edge>, a: Id, b: Id) returns (c: Id)
    requires Reaches(E, a, b)
    ensures (c, b) in E && (c == a || Reaches(E, a, c))
  {
    var p :| Walk(E, a, b, p);
    PathInit(E, p);
    c := p[|p| - 2];
    if |p| > 2 {
      assert Walk(E, a, c, p[..|p| - 1]);
    }
  }

  lemma ReachesMonotone(E: set<Edge>, F: set<Edge>, a: Id, b: Id)
    requires E <= F && Reaches(E, a, b)
    ensures Reaches(F, a, b)
  {
    var p :| Walk(E, a, b, p);
    forall i | 0 <= i < |p| - 1 ensures Linked(F, p, i) {
      assert Linked(E, p, i);
    }
    assert Walk(F, a, b, p);
  }

  /** Nothing outside a closed set is reached from inside it. */
  lemma {:induction false} ClosedReaches(E: set<Edge>, S: set<Id>, p: seq<Id>)
    requires Closed(E, S) && Path(E, p) && p[0] in S
    ensures p[|p| - 1] in S
    decreases |p|
  {
    if |p| >= 2 {
      PathTail(E, p);
      ClosedReaches(E, S, p[1..]);
    }
  }

  /** The same against the direction of the edges. */
  lemma {:induction false} CoClosedReaches(E: set<Edge>, S: set<Id>, p: seq<Id>)
    requires forall a, b :: (a, b) in E && b in S ==> a in S
    requires Path(E, p) && p[|p| - 1] in S
    ensures p[0] in S
    decreases |p|
  {
    if |p| >= 2 {
      PathInit(E, p);
      CoClosedReaches(E, S, p[..|p| - 1]);
    }
  }

  /** What a depth-first search knows between two steps: the tasks it is inside of, and those it is done with. */
  ghost predicate SearchState(E: set<Edge>, nodes: set<Id>, visiting: set<Id>, visited: set<Id>) {
    && visiting !! visited
    && visiting + visited <= nodes
    && Settled(E, visited)
  }

  /** Entering a task from the tasks that reach it keeps that they reach whatever is entered next. */
  lemma EnterReaches(E: set<Edge>, visiting: set<Id>, a: Id, b: Id)
    requires forall v :: v in visiting ==> Reaches(E, v, a)
    requires (a, b) in E
    ensures forall v :: v in visiting + {a} ==> Reaches(E, v, b)
  {
    EdgeReaches(E, a, b);
    forall v | v in visiting ensures Reaches(E, v, b) {
      ReachesTransitive(E, v, a, b);
    }
  }

  /** The measure on which the search descends. */
  lemma SearchShrinks(nodes: set<Id>, visiting: set<Id>, before: set<Id>, now: set<Id>, node: Id)
    requires node in nodes && node !in visiting && node !in before && before <= now
    ensures nodes - (visiting + {node}) - now < nodes - visiting - before
  {
    assert node in nodes - visiting - before;
  }

  /** A closed, cycle-free set stays so when a task joins it that depends on its members only. */
  lemma Settle(E: set<Edge>, S: set<Id>, a: Id)
    requires Settled(E, S) && a !in S
    requires forall b :: (a, b) in E ==> b in S
    ensures Settled(E, S + {a})
  {
    if Reaches(E, a, a) {
      var b := ReachesFirst(E, a, a);
      if b != a {
        var p :| Walk(E, b, a, p);
        ClosedReaches(E, S, p);
      }
      assert false;
    }
  }

  /** If every edge starts in a settled set there is no cycle at all. */
  lemma SettledAcyclic(E: set<Edge>, S: set<Id>)
    requires Settled(E, S)
    requires forall a, b :: (a, b) in E ==> a in S
    ensures !Cyclic(E)
  {
    if Cyclic(E) {
      var a :| Reaches(E, a, a);
      var b := ReachesFirst(E, a, a);
      assert false;
    }
  }

  /** Along a walk any strictly decreasing measure decreases by at least the number of steps. */
  lemma {:induction false} MeasureDrops(E: set<Edge>, level: map<Id, int>, p: seq<Id>)
    requires forall a, b :: (a, b) in E ==> a in level && b in level && level[b] < level[a]
    requires Path(E, p) && p[0] in level
    ensures p[|p| - 1] in level && level[p[|p| - 1]] + |p| - 1 <= level[p[0]]
    decreases |p|
  {
    if |p| >= 2 {
      PathTail(E, p);
      MeasureDrops(E, level, p[1..]);
    }
  }

  lemma MeasureAcyclic(E: set<Edge>, level: map<Id, int>)
    requires forall a, b :: (a, b) in E ==> a in level && b in level && level[b] < level[a]
    ensures !Cyclic(E)
  {
    if Cyclic(E) {
      var a :| Reaches(E, a, a);
      var p :| Walk(E, a, a, p);
      PathTail(E, p);
      MeasureDrops(E, level, p);
      assert false;
    }
  }

  ghost predicate HasSuccessor(E: set<Edge>, S: set<Id>, a: Id) {
    exists b :: b in S && (a, b) in E
  }

  ghost predicate Stuck(E: set<Edge>, S: set<Id>) {
    forall a {:trigger HasSuccessor(E, S, a)} :: a in S ==> HasSuccessor(E, S, a)
  }

  /** A finite set of tasks each of which depends on one of them meets a cycle. */
  lemma {:induction false} StuckHasCycle(E: set<Edge>, S: set<Id>)
    requires S != {} && Stuck(E, S)
    ensures exists a :: a in S && Reaches(E, a, a)
    decreases |S|
  {
    var x :| x in S;
    if !Reaches(E, x, x) {
      var R := set b | b in S && Reaches(E, x, b);
      StuckBelow(E, S, x, R);
      Subset(R, S - {x});
      StuckHasCycle(E, R);
      var a :| a in R && Reaches(E, a, a);
      assert a in S;
    }
  }

  lemma StuckBelow(E: set<Edge>, S: set<Id>, x: Id, R: set<Id>)
    requires Stuck(E, S) && x in S
    requires R == set b | b in S && Reaches(E, x, b)
    ensures R != {} && Stuck(E, R)
  {
    assert HasSuccessor(E, S, x);
    var y :| y in S && (x, y) in E;
    EdgeReaches(E, x, y);
    assert y in R;
    forall a | a in R ensures HasSuccessor(E, R, a) {
      assert HasSuccessor(E, S, a);
      var b :| b in S && (a, b) in E;
      EdgeReaches(E, a, b);
      ReachesTransitive(E, x, a, b);
      assert b in R;
    }
  }

  lemma {:induction false} Subset<T>(A: set<T>, B: set<T>)
    requires A <= B
    ensures |A| <= |B|
    decreases |A|
  {
    if A != {} {
      var x :| x in A;
      Subset(A - {x}, B - {x});
    }
  }
}
