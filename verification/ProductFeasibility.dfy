/** Product feasibility: contract statuses and how a blocked task blocks what depends on it. */
module ProductFeasibility {
  import opened Order
  import opened DependencyGraph

  datatype PolicyDecision = AutoAllowed | GuardedAllowed | HumanApproval | Prohibited

  datatype Status = Feasible | FeasibleWithConditions | HumanApprovalRequired | Blocked

  datatype Contract = Contract(
    taskId: Id,
    dependencies: seq<Id>,
    policyDecision: PolicyDecision,
    conditions: seq<string>,
    status: Status,
    blockers: seq<string>,
    sourceTaskFingerprint: string
  )

  datatype Result<+T> = Ok(value: T) | KeyError

  function FeasibilityStatus(blockers: seq<string>, conditions: seq<string>, decision: PolicyDecision): (s: Status)
    ensures s == Blocked <==> blockers != [] || decision == Prohibited
  {
    if blockers != [] || decision == Prohibited then Blocked
    else if decision == HumanApproval then HumanApprovalRequired
    else if conditions != [] then FeasibleWithConditions
    else Feasible
  }

  type Contracts = map<Id, Contract>

  /** The dictionary of contracts. */
  function ById(contracts: seq<Contract>): (m: Contracts)
    ensures forall t :: t in m ==> m[t].taskId == t && m[t] in contracts
    ensures m.Keys == set c | c in contracts :: c.taskId
  {
    if contracts == [] then map[]
    else
      var init, last := contracts[..|contracts| - 1], contracts[|contracts| - 1];
      assert contracts == init + [last];
      ById(init)[last.taskId := last]
  }

  /** Of contracts sharing a task id the last one counts. */
  lemma {:induction false} LastCounts(contracts: seq<Contract>, i: nat)
    requires i < |contracts| && forall j :: i < j < |contracts| ==> contracts[j].taskId != contracts[i].taskId
    ensures contracts[i].taskId in ById(contracts) && ById(contracts)[contracts[i].taskId] == contracts[i]
  {
    var n := |contracts| - 1;
    if i < n {
      LastCounts(contracts[..n], i);
    }
  }

  function Blocker(d: Id): string { "BLOCKED_BY_DEPENDENCY:" + d }

  lemma BlockerInjective(a: Id, b: Id)
    requires Blocker(a) == Blocker(b)
    ensures a == b
  {
    var n := |"BLOCKED_BY_DEPENDENCY:"|;
    assert Blocker(a)[n..] == a && Blocker(b)[n..] == b;
  }

  ghost predicate Known(m: Contracts, t: Id) {
    t in m && forall d :: d in m[t].dependencies ==> d in m
  }

  ghost predicate DependenciesKnown(m: Contracts) {
    forall t {:trigger Known(m, t)} :: t in m ==> Known(m, t)
  }

  /** The blockers a task gets from those of its dependencies that satisfy `blocked`. */
  function BlockersFrom(dependencies: seq<Id>, blocked: Id -> bool): set<string> {
    set d | d in dependencies && blocked(d) :: Blocker(d)
  }

  function IsBlocked(m: Contracts): Id -> bool {
    d => d in m && m[d].status == Blocked
  }

  /** A task lists a blocker for each dependency that is blocked now. */
  predicate Quiet(m: Contracts, t: Id)
    requires t in m
  {
    BlockersFrom(m[t].dependencies, IsBlocked(m)) <= Elements(m[t].blockers)
  }

  /** One task's turn in a round of the propagation. */
  function Turn(m: Contracts, t: Id): Contracts
    requires t in m
  {
    if Quiet(m, t) then m
    else
      var blockers := Elements(m[t].blockers) + BlockersFrom(m[t].dependencies, IsBlocked(m));
      m[t := m[t].(blockers := Sorted(blockers), status := Blocked)]
  }

  ghost predicate AllQuiet(m: Contracts) {
    forall t {:trigger Quiet(m, t)} :: t in m ==> Quiet(m, t)
  }

  // ----- What the propagation is to reach -----

  /** The dependencies through which blocking passes: those whose blocker is not listed from the start. */
  ghost function OpenEdges(m: Contracts): set<Edge> {
    set t, d | t in m && d in m[t].dependencies && Blocker(d) !in m[t].blockers :: (t, d)
  }

  ghost predicate EndsBlocked(m: Contracts, t: Id) {
    t in m && (m[t].status == Blocked || exists b :: b in m && m[b].status == Blocked && Reaches(OpenEdges(m), t, b))
  }

  ghost function FinalBlockers(m: Contracts, t: Id): set<string>
    requires t in m
  {
    set d | d in m[t].dependencies && EndsBlocked(m, d) :: Blocker(d)
  }

  ghost function Final(m: Contracts, t: Id): Contract
    requires t in m
  {
    if FinalBlockers(m, t) <= Elements(m[t].blockers) then m[t]
    else m[t].(blockers := Sorted(Elements(m[t].blockers) + FinalBlockers(m, t)), status := Blocked)
  }

  // ----- The loop -----

  /** Where a task may stand on the way: untouched, or blocked with some of the blockers it will end with. */
  ghost predicate OnTheWay(m0: Contracts, m: Contracts, t: Id)
    requires t in m0 && t in m
  {
    && Elements(m0[t].blockers) <= Elements(m[t].blockers)
    && Elements(m[t].blockers) <= Elements(m0[t].blockers) + BlockersFrom(m0[t].dependencies, IsBlocked(m))
    && (m[t] == m0[t] ||
        (&& m[t] == m0[t].(blockers := Sorted(Elements(m[t].blockers)), status := Blocked)
         && Elements(m0[t].blockers) != Elements(m[t].blockers)))
    && (m[t].status == Blocked ==> EndsBlocked(m0, t))
  }

  ghost predicate Progress(m0: Contracts, m: Contracts) {
    && m.Keys == m0.Keys
    && forall t {:trigger OnTheWay(m0, m, t)} :: t in m ==> OnTheWay(m0, m, t)
  }

  /** The blockers still to be added, one pair per task and dependency: the measure of the rounds. */
  ghost function Open(m: Contracts): set<Edge> {
    set t, d | t in m && d in m[t].dependencies && Blocker(d) !in m[t].blockers :: (t, d)
  }

  lemma BlockedByOpenDependency(m: Contracts, t: Id, d: Id)
    requires t in m && d in m[t].dependencies && Blocker(d) !in m[t].blockers && EndsBlocked(m, d)
    ensures EndsBlocked(m, t)
  {
    var E := OpenEdges(m);
    assert (t, d) in E;
    EdgeReaches(E, t, d);
    if m[d].status != Blocked {
      var b :| b in m && m[b].status == Blocked && Reaches(E, d, b);
      StepReaches(E, t, d, b);
    }
  }

  lemma BlockedHasOpenDependency(m: Contracts, t: Id) returns (d: Id)
    requires DependenciesKnown(m) && EndsBlocked(m, t) && m[t].status != Blocked
    ensures d in m[t].dependencies && Blocker(d) !in m[t].blockers && EndsBlocked(m, d)
    ensures Blocker(d) in FinalBlockers(m, t)
  {
    var b :| b in m && m[b].status == Blocked && Reaches(OpenEdges(m), t, b);
    d := ReachesFirst(OpenEdges(m), t, b);
    assert Known(m, t);
  }

  lemma BlockedGrows(m: Contracts, t: Id, dependencies: seq<Id>)
    requires t in m
    ensures BlockersFrom(dependencies, IsBlocked(m)) <= BlockersFrom(dependencies, IsBlocked(Turn(m, t)))
  {
    forall text | text in BlockersFrom(dependencies, IsBlocked(m))
      ensures text in BlockersFrom(dependencies, IsBlocked(Turn(m, t)))
    {
      var d :| d in dependencies && IsBlocked(m)(d) && Blocker(d) == text;
      assert IsBlocked(Turn(m, t))(d);
    }
  }

  lemma TurnAdds(m: Contracts, t: Id) returns (d: Id)
    requires t in m && !Quiet(m, t)
    ensures d in m[t].dependencies && d in m && m[d].status == Blocked
    ensures Blocker(d) !in m[t].blockers && Blocker(d) in Turn(m, t)[t].blockers
    ensures Elements(Turn(m, t)[t].blockers) == Elements(m[t].blockers) + BlockersFrom(m[t].dependencies, IsBlocked(m))
  {
    var mine := BlockersFrom(m[t].dependencies, IsBlocked(m));
    var text :| text in mine && text !in Elements(m[t].blockers);
    d :| d in m[t].dependencies && IsBlocked(m)(d) && Blocker(d) == text;
    assert text in Elements(Turn(m, t)[t].blockers);
  }

  /** A task that is not quiet is due to be blocked, and misses a blocker that the turn adds. */
  lemma TurnOnTheWay(m0: Contracts, m: Contracts, t: Id) returns (d: Id)
    requires Progress(m0, m) && t in m && !Quiet(m, t)
    ensures OnTheWay(m0, Turn(m, t), t)
    ensures d in m[t].dependencies && Blocker(d) !in m[t].blockers && Blocker(d) in Turn(m, t)[t].blockers
  {
    assert OnTheWay(m0, m, t);
    d := TurnAdds(m, t);
    assert OnTheWay(m0, m, d);
    assert Blocker(d) !in Elements(m0[t].blockers);
    BlockedByOpenDependency(m0, t, d);
    BlockedGrows(m, t, m0[t].dependencies);
    assert Blocker(d) in Elements(Turn(m, t)[t].blockers);
  }

  lemma TurnKeepsOthers(m0: Contracts, m: Contracts, t: Id, s: Id)
    requires Progress(m0, m) && t in m && s in m && s != t
    ensures OnTheWay(m0, Turn(m, t), s)
  {
    assert OnTheWay(m0, m, s);
    assert Turn(m, t)[s] == m[s];
    BlockedGrows(m, t, m0[s].dependencies);
  }

  lemma TurnKeepsProgress(m0: Contracts, m: Contracts, t: Id)
    requires Progress(m0, m) && t in m
    ensures Progress(m0, Turn(m, t))
    ensures Quiet(m, t) ==> Turn(m, t) == m
    ensures !Quiet(m, t) ==> Open(Turn(m, t)) < Open(m)
  {
    if !Quiet(m, t) {
      var next := Turn(m, t);
      var d := TurnOnTheWay(m0, m, t);
      forall s | s in next ensures OnTheWay(m0, next, s) {
        if s != t {
          TurnKeepsOthers(m0, m, t, s);
        }
      }
      TurnCloses(m, t, d);
    }
  }

  lemma TurnCloses(m: Contracts, t: Id, d: Id)
    requires t in m && !Quiet(m, t)
    requires d in m[t].dependencies && Blocker(d) !in m[t].blockers && Blocker(d) in Turn(m, t)[t].blockers
    ensures Open(Turn(m, t)) < Open(m)
  {
    var next := Turn(m, t);
    forall text | text in m[t].blockers ensures text in next[t].blockers {
      assert text in Elements(next[t].blockers);
    }
    assert (t, d) in Open(m) && (t, d) !in Open(next);
    assert Open(next) <= Open(m);
  }

  /** A state in which every turn is quiet is the end. */
  lemma QuietIsFinal(m0: Contracts, m: Contracts)
    requires DependenciesKnown(m0) && Progress(m0, m) && AllQuiet(m)
    ensures forall t :: t in m0 ==> m[t] == Final(m0, t)
  {
    forall t | t in m0 ensures EndsBlocked(m0, t) ==> m[t].status == Blocked {
      if EndsBlocked(m0, t) && m0[t].status != Blocked {
        var b :| b in m0 && m0[b].status == Blocked && Reaches(OpenEdges(m0), t, b);
        var p :| Walk(OpenEdges(m0), t, b, p);
        QuietWalk(m0, m, p);
      } else {
        assert OnTheWay(m0, m, t);
      }
    }
    forall t | t in m0 ensures m[t] == Final(m0, t) {
      assert OnTheWay(m0, m, t);
      QuietBlockers(m0, m, t);
    }
  }

  lemma QuietBlockers(m0: Contracts, m: Contracts, t: Id)
    requires DependenciesKnown(m0) && Progress(m0, m) && t in m0 && Quiet(m, t)
    requires forall s :: s in m0 ==> (EndsBlocked(m0, s) ==> m[s].status == Blocked)
    ensures Elements(m[t].blockers) == Elements(m0[t].blockers) + FinalBlockers(m0, t)
  {
    assert OnTheWay(m0, m, t);
    assert m[t].dependencies == m0[t].dependencies;
    forall d | d in m0[t].dependencies ensures IsBlocked(m)(d) <==> EndsBlocked(m0, d) {
      assert Known(m0, t);
      assert OnTheWay(m0, m, d);
    }
    assert BlockersFrom(m[t].dependencies, IsBlocked(m)) == FinalBlockers(m0, t);
  }

  /** When every turn is quiet, blocking has passed along every walk of open dependencies. */
  lemma {:induction false} QuietWalk(m0: Contracts, m: Contracts, p: seq<Id>)
    requires Progress(m0, m) && AllQuiet(m)
    requires Path(OpenEdges(m0), p) && p[|p| - 1] in m0 && m0[p[|p| - 1]].status == Blocked
    ensures p[0] in m && m[p[0]].status == Blocked
    decreases |p|
  {
    if |p| == 1 {
      assert OnTheWay(m0, m, p[0]);
    } else {
      PathTail(OpenEdges(m0), p);
      QuietWalk(m0, m, p[1..]);
      QuietStep(m0, m, p[0], p[1]);
    }
  }

  lemma QuietStep(m0: Contracts, m: Contracts, t: Id, d: Id)
    requires Progress(m0, m) && AllQuiet(m) && (t, d) in OpenEdges(m0)
    requires d in m && m[d].status == Blocked
    ensures t in m && m[t].status == Blocked
  {
    assert OnTheWay(m0, m, t);
    assert Quiet(m, t);
    assert Blocker(d) in BlockersFrom(m[t].dependencies, IsBlocked(m));
  }

  /** One pass over all contracts; a dependency without a contract ends it with a KeyError. */
  method Round(ghost m0: Contracts, m: Contracts) returns (r: Result<Contracts>, changed: bool)
    requires Progress(m0, m)
    ensures r.KeyError? <==> !DependenciesKnown(m0)
    ensures r.Ok? ==> Progress(m0, r.value)
    ensures r.Ok? && changed ==> Open(r.value) < Open(m)
    ensures r.Ok? && !changed ==> r.value == m && AllQuiet(m)
  {
    hide Turn, Quiet, Known, Open, OnTheWay;
    changed := false;
    var now := m;
    var order := ListOf(m.Keys);
    for i := 0 to |order|
      invariant Progress(m0, now)
      invariant forall j :: 0 <= j < i ==> Known(m0, order[j])
      invariant changed ==> Open(now) < Open(m)
      invariant !changed ==> now == m && forall j :: 0 <= j < i ==> order[j] in m && Quiet(m, order[j])
    {
      var t := order[i];
      assert t in Elements(order);
      var unknown := Elements(now[t].dependencies) - now.Keys;
      UnknownDependencies(m0, now, t);
      if unknown != {} {
        return KeyError, changed;
      }
      TurnKeepsProgress(m0, now, t);
      changed := changed || !Quiet(now, t);
      now := Turn(now, t);
    }
    forall t | t in m0 ensures Known(m0, t) && (!changed ==> Quiet(m, t)) {
      assert t in Elements(order);
    }
    return Ok(now), changed;
  }

  lemma UnknownDependencies(m0: Contracts, m: Contracts, t: Id)
    requires Progress(m0, m) && t in m
    ensures Elements(m[t].dependencies) - m.Keys == {} <==> Known(m0, t)
    ensures !Known(m0, t) ==> !DependenciesKnown(m0)
  {
    assert OnTheWay(m0, m, t);
    if !Known(m0, t) {
      var d :| d in m[t].dependencies && d !in m;
      assert d in Elements(m[t].dependencies) - m.Keys;
    } else {
      assert forall d :: d in Elements(m[t].dependencies) ==> d in m;
    }
  }

  /** The propagation ends, also on circular dependencies, with every contract in its final form, by task id. */
  method PropagateDependencyBlocking(contracts: seq<Contract>) returns (r: Result<seq<Contract>>)
    ensures r.KeyError? <==> !DependenciesKnown(ById(contracts))
    ensures r.Ok? ==>
              var m0 := ById(contracts);
              var order := Sorted(m0.Keys);
              |r.value| == |order| && forall i :: 0 <= i < |order| ==> order[i] in m0 && r.value[i] == Final(m0, order[i])
  {
    ghost var m0 := ById(contracts);
    var m := ById(contracts);
    var changed := true;
    while changed
      invariant Progress(m0, m)
      invariant !changed ==> DependenciesKnown(m0) && AllQuiet(m)
      decreases Open(m), if changed then 1 else 0
    {
      var round, more := Round(m0, m);
      if round.KeyError? {
        return KeyError;
      }
      m, changed := round.value, more;
    }
    QuietIsFinal(m0, m);
    var order := Sorted(m.Keys);
    assert forall i :: 0 <= i < |order| ==> order[i] in Elements(order);
    return Ok(seq(|order|, i requires 0 <= i < |order| && order[i] in m => m[order[i]]));
  }

  // ----- What the final form means -----

  /** Contracts as `_contract` makes them: blockers mean BLOCKED, and none of them names a dependency yet. */
  ghost predicate Fresh(m: Contracts) {
    forall t :: t in m ==>
      && m[t].status == FeasibilityStatus(m[t].blockers, m[t].conditions, m[t].policyDecision)
      && forall d :: d in m[t].dependencies ==> "BLOCKED_BY_DEPENDENCY:" + d !in m[t].blockers
  }

  function AllEdges(m: Contracts): set<Edge> {
    set t, d | t in m && d in m[t].dependencies :: (t, d)
  }

  /** A task ends BLOCKED exactly when it was, or when it transitively depends on one that was. */
  lemma BlockedIffDependsOnBlocked(m: Contracts, t: Id)
    requires DependenciesKnown(m) && t in m
    requires forall s :: s in m && m[s].blockers != [] ==> m[s].status == Blocked
    ensures Final(m, t).status == Blocked <==> EndsBlocked(m, t)
    ensures EndsBlocked(m, t) <==>
            m[t].status == Blocked || exists b :: b in m && m[b].status == Blocked && Reaches(AllEdges(m), t, b)
  {
    FinalStatus(m, t);
    if m[t].status != Blocked {
      if EndsBlocked(m, t) {
        var b :| b in m && m[b].status == Blocked && Reaches(OpenEdges(m), t, b);
        assert OpenEdges(m) <= AllEdges(m);
        ReachesMonotone(OpenEdges(m), AllEdges(m), t, b);
      }
      if b :| b in m && m[b].status == Blocked && Reaches(AllEdges(m), t, b) {
        var p :| Walk(AllEdges(m), t, b, p);
        BlockedAlongWalk(m, p);
      }
    }
  }

  /** A reason of its own to be blocked. */
  predicate OwnCause(c: Contract) {
    c.blockers != [] || c.policyDecision == Prohibited
  }

  /** The status is the one the contract's own blockers, conditions and policy decision give it. */
  predicate Evaluated(c: Contract) {
    c.status == FeasibilityStatus(c.blockers, c.conditions, c.policyDecision)
  }

  /** The task, or one it reaches through dependencies, has a reason of its own to be blocked. */
  ghost predicate CauseReached(m: Contracts, t: Id) {
    t in m && (OwnCause(m[t]) || exists b :: b in m && OwnCause(m[b]) && Reaches(AllEdges(m), t, b))
  }

  /**
   * From evaluation to the end of the propagation: a task is blocked exactly when it, or a task it reaches through
   * dependencies, has listed blockers or a prohibited policy. Any other waits for approval when its policy says so, and
   * is feasible otherwise, with conditions when it has any.
   */
  lemma BlockedIffCauseReached(m: Contracts, t: Id)
    requires DependenciesKnown(m) && t in m && forall s :: s in m ==> Evaluated(m[s])
    ensures Final(m, t).status == Blocked <==> CauseReached(m, t)
    ensures Final(m, t).status == HumanApprovalRequired <==> !CauseReached(m, t) && m[t].policyDecision == HumanApproval
    ensures Final(m, t).status == FeasibleWithConditions <==>
            !CauseReached(m, t) && m[t].policyDecision != HumanApproval && m[t].conditions != []
    ensures Final(m, t).status == Feasible <==> !CauseReached(m, t) && m[t].policyDecision != HumanApproval && m[t].conditions == []
  {
    hide Reaches;
    BlockedIffDependsOnBlocked(m, t);
    assert forall s :: s in m ==> (m[s].status == Blocked <==> OwnCause(m[s]));
    assert Final(m, t).status == Blocked || Final(m, t).status == m[t].status;
  }

  lemma FinalStatus(m: Contracts, t: Id)
    requires DependenciesKnown(m) && t in m
    ensures Final(m, t).status == Blocked <==> EndsBlocked(m, t)
  {
    if FinalBlockers(m, t) <= Elements(m[t].blockers) {
      if EndsBlocked(m, t) && m[t].status != Blocked {
        var d := BlockedHasOpenDependency(m, t);
      }
    } else {
      var text :| text in FinalBlockers(m, t) && text !in Elements(m[t].blockers);
      var d :| d in m[t].dependencies && EndsBlocked(m, d) && Blocker(d) == text;
      BlockedByOpenDependency(m, t, d);
    }
  }

  lemma {:induction false} BlockedAlongWalk(m: Contracts, p: seq<Id>)
    requires forall s :: s in m && m[s].blockers != [] ==> m[s].status == Blocked
    requires Path(AllEdges(m), p) && p[|p| - 1] in m && m[p[|p| - 1]].status == Blocked
    ensures EndsBlocked(m, p[0])
    decreases |p|
  {
    if |p| > 1 {
      PathTail(AllEdges(m), p);
      BlockedAlongWalk(m, p[1..]);
      if m[p[0]].status != Blocked {
        BlockedByOpenDependency(m, p[0], p[1]);
      }
    }
  }

  /**
   * The final contract: the initial blockers, plus exactly one entry for every direct dependency that ends BLOCKED,
   * sorted when any was added; besides the status nothing else changes.
   */
  lemma FinalBlockersExact(m: Contracts, t: Id, text: string)
    requires DependenciesKnown(m) && Fresh(m) && t in m
    ensures text in Final(m, t).blockers <==>
            || text in m[t].blockers
            || exists d :: d in m[t].dependencies && CauseReached(m, d) && text == "BLOCKED_BY_DEPENDENCY:" + d
    ensures Distinct(m[t].blockers) ==> Distinct(Final(m, t).blockers)
    ensures Final(m, t).blockers == m[t].blockers || Ascending(StrLe, Final(m, t).blockers)
    ensures Final(m, t) == m[t].(blockers := Final(m, t).blockers, status := Final(m, t).status)
    ensures forall d :: d in m[t].dependencies && "BLOCKED_BY_DEPENDENCY:" + d in Final(m, t).blockers ==> CauseReached(m, d)
  {
    var now := Final(m, t);
    assert text in now.blockers <==> text in Elements(now.blockers);
    assert Elements(now.blockers) == Elements(m[t].blockers) + FinalBlockers(m, t);
    forall d | d in m[t].dependencies ensures EndsBlocked(m, d) <==> CauseReached(m, d) {
      assert Known(m, t);
      BlockedIffDependsOnBlocked(m, d);
      assert forall s :: s in m ==> (m[s].status == Blocked <==> OwnCause(m[s]));
    }
    hide CauseReached, EndsBlocked;
    if text in FinalBlockers(m, t) {
      var d :| d in m[t].dependencies && EndsBlocked(m, d) && text == Blocker(d);
      assert CauseReached(m, d) && text == "BLOCKED_BY_DEPENDENCY:" + d;
    }
    forall d | d in m[t].dependencies && Blocker(d) in now.blockers ensures CauseReached(m, d) {
      assert Blocker(d) in Elements(now.blockers);
      var c :| c in m[t].dependencies && EndsBlocked(m, c) && Blocker(c) == Blocker(d);
      BlockerInjective(d, c);
    }
  }
}
