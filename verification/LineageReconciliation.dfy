/** Reconciling an accepted plan with a regenerated candidate, field by field, through normal forms. */
module LineageReconciliation {
  import opened Order
  import opened JsonValues
  import opened PlanProjection

  /** `Raises` stands for any Python exception. */
  datatype Outcome<+T> = Value(value: T) | Raises

  /**
   * What is left abstract: Python's `repr` and `str`, and how Python sorts pairs that are not all strings.
   */
  datatype Env = Env(repr: Printer, text: Printer, sortPairs: seq<(Json, Json)> -> Outcome<Json>)

  datatype Field =
    | Tasks | DependencyEdges | Waves | HumanGates | RiskDistribution
    | Architecture | TechnologyDecisions | ApiDomains | ProductPages | ExternalProjectRuntime | IdentityRbac | ApprovalModel
    | EvidenceArtifactModel | NetworkArchitecture | DeploymentPortability | ThreatBoundaries | UnresolvedHumanDecisions

  const FIELDS := [
    Tasks, DependencyEdges, Waves, HumanGates, RiskDistribution, Architecture, TechnologyDecisions, ApiDomains, ProductPages,
    ExternalProjectRuntime, IdentityRbac, ApprovalModel, EvidenceArtifactModel, NetworkArchitecture, DeploymentPortability,
    ThreatBoundaries, UnresolvedHumanDecisions]

  datatype Class =
    | ProvenanceOnly | ToolingOnly | DecisionBinding | MaterialTask | MaterialDag | MaterialPolicy | MaterialSecurity
  {
    predicate Material() { MaterialTask? || MaterialDag? || MaterialPolicy? || MaterialSecurity? }
  }

  datatype Label = PlanHash | BaselineHead | BoundEvidence | Semantic(field: Field) | Decision

  datatype Difference = Difference(kind: Class, about: Label)

  datatype Report = Report(acceptedHash: string, candidateHash: string, classification: seq<string>,
                           differences: seq<Difference>, materialCount: nat, pass: bool)

  function ClassName(c: Class): string {
    match c
    case ProvenanceOnly => "PROVENANCE_ONLY"
    case ToolingOnly => "TOOLING_ONLY"
    case DecisionBinding => "DECISION_BINDING"
    case MaterialTask => "MATERIAL_TASK_CHANGE"
    case MaterialDag => "MATERIAL_DAG_CHANGE"
    case MaterialPolicy => "MATERIAL_POLICY_CHANGE"
    case MaterialSecurity => "MATERIAL_SECURITY_CHANGE"
  }

  /** The classes that occur, sorted, or a single word when none does. */
  function Classification(ds: seq<Difference>): (names: seq<string>)
    ensures Distinct(names) && Ascending(StrLe, names)
    ensures ds != [] ==> forall n :: n in names <==> exists d :: d in ds && ClassName(d.kind) == n
    ensures ds == [] ==> names == ["NO_DIFFERENCE"]
  {
    hide ClassName;
    if ds == [] then ["NO_DIFFERENCE"]
    else
      var found := Sorted(set d | d in ds :: ClassName(d.kind));
      assert forall n :: n in found <==> n in Elements(found);
      found
  }

  function Path(f: Field): seq<string> {
    match f
    case Tasks => ["productization_dag", "tasks"]
    case DependencyEdges => ["productization_dag", "dependency_edges"]
    case Waves => ["productization_dag", "waves"]
    case HumanGates => ["productization_dag", "human_gates"]
    case RiskDistribution => ["productization_dag", "risk_distribution"]
    case Architecture => ["architecture"]
    case TechnologyDecisions => ["technology_decisions"]
    case ApiDomains => ["api_domains"]
    case ProductPages => ["product_pages"]
    case ExternalProjectRuntime => ["external_project_runtime"]
    case IdentityRbac => ["identity_rbac"]
    case ApprovalModel => ["approval_model"]
    case EvidenceArtifactModel => ["evidence_artifact_model"]
    case NetworkArchitecture => ["network_architecture"]
    case DeploymentPortability => ["deployment_portability"]
    case ThreatBoundaries => ["threat_boundaries"]
    case UnresolvedHumanDecisions => ["unresolved_human_decisions"]
  }

  function MaterialClass(f: Field): (c: Class)
    ensures c.Material()
  {
    match f
    case Tasks | ProductPages => MaterialTask
    case DependencyEdges | Waves => MaterialDag
    case HumanGates | RiskDistribution | TechnologyDecisions | DeploymentPortability | UnresolvedHumanDecisions => MaterialPolicy
    case _ => MaterialSecurity
  }

  function Get(m: Fields, key: string): Json {
    if key in m then m[key] else Null
  }

  function ValueAt(j: Json, parts: seq<string>): Json
    decreases |parts|
  {
    if parts == [] then j
    else if !j.Obj? then Null
    else ValueAt(Get(j.fields, parts[0]), parts[1..])
  }

  method SemanticValue(plan: Fields, parts: seq<string>) returns (value: Json)
    ensures value == ValueAt(Record(plan), parts)
  {
    value := Record(plan);
    for i := 0 to |parts|
      invariant ValueAt(value, parts[i..]) == ValueAt(Record(plan), parts)
    {
      if !value.Obj? {
        return Null;
      }
      value := Get(value.fields, parts[i]);
    }
  }

  // ----- Tasks -----

  function WithDefault(task: Fields): Json {
    Record(if "human_gate" in task then task else task["human_gate" := Null])
  }

  function TaskForm(repr: Printer): Json -> Json {
    (t: Json) => if t.Obj? then Normalize(repr, WithDefault(t.fields)) else t
  }

  function Text(text: Printer, j: Json): string {
    if j.Str? then j.s else text(j)
  }

  function TaskKey(text: Printer, t: Json): string {
    Text(text, if t.Obj? then Get(t.fields, "task_id") else Null)
  }

  function ByTask(text: Printer): (Json, Json) -> bool {
    (a, b) => StrLe(TaskKey(text, a), TaskKey(text, b))
  }

  predicate AllObjects(xs: seq<Json>) {
    forall i :: 0 <= i < |xs| ==> xs[i].Obj?
  }

  /** A task that is no mapping has no `get` for the sort key to call. */
  function TasksForm(e: Env, value: Json): Outcome<Json> {
    if !value.List? then Value(List([]))
    else if !AllObjects(value.items) then Raises
    else Value(List(Sort(ByTask(e.text), Mapped(TaskForm(e.repr), value.items))))
  }

  // ----- Dependency edges, recomputed from the tasks -----

  function Iterate(j: Json): Outcome<seq<Json>> {
    match j
    case List(xs) => Value(xs)
    case Str(s) => Value(seq(|s|, i requires 0 <= i < |s| => Str([s[i]])))
    case Obj(_, keys) => Value(seq(|keys|, i requires 0 <= i < |keys| => Str(keys[i])))
    case _ => Raises
  }

  function IterateAt(m: Fields, key: string): Outcome<seq<Json>> {
    if key in m then Iterate(m[key]) else Value([])
  }

  function PairsOf(task: Json): Outcome<seq<(Json, Json)>> {
    if !task.Obj? then Raises
    else
      var dependencies := IterateAt(task.fields, "dependencies");
      if dependencies.Raises? then Raises
      else if dependencies.value == [] then Value([])
      else if "task_id" !in task.fields then Raises
      else Value(Mapped((d: Json) => (task.fields["task_id"], d), dependencies.value))
  }

  function AllPairs(tasks: seq<Json>): Outcome<seq<(Json, Json)>> {
    if tasks == [] then Value([])
    else
      var head, tail := PairsOf(tasks[0]), AllPairs(tasks[1..]);
      if head.Raises? || tail.Raises? then Raises else Value(head.value + tail.value)
  }

  predicate AllStrings(pairs: seq<(Json, Json)>) {
    forall i :: 0 <= i < |pairs| ==> pairs[i].0.Str? && pairs[i].1.Str?
  }

  function Strings(): ((Json, Json)) -> seq<string> {
    (p: (Json, Json)) => [if p.0.Str? then p.0.s else "", if p.1.Str? then p.1.s else ""]
  }

  function PairDocument(pairs: seq<seq<string>>): Json {
    List(Mapped((p: seq<string>) => StrList(p), pairs))
  }

  function SortedPairs(e: Env, pairs: seq<(Json, Json)>): Outcome<Json> {
    if AllStrings(pairs) then Value(PairDocument(Sort(TupleLe, Mapped(Strings(), pairs)))) else e.sortPairs(pairs)
  }

  function PlanTasks(plan: Fields): Outcome<seq<Json>> {
    var dag := if "productization_dag" in plan then plan["productization_dag"] else Record(map[]);
    if !dag.Obj? then Raises else IterateAt(dag.fields, "tasks")
  }

  function EdgesForm(e: Env, plan: Fields): Outcome<Json> {
    var tasks := PlanTasks(plan);
    if tasks.Raises? then Raises
    else
      var pairs := AllPairs(tasks.value);
      if pairs.Raises? then Raises else SortedPairs(e, pairs.value)
  }

  // ----- Comparing plans -----

  /** What a plan says in one field once ordering and provenance are taken away. */
  function Form(e: Env, plan: Fields, f: Field, value: Json): Outcome<Json> {
    match f
    case DependencyEdges => EdgesForm(e, plan)
    case Tasks => TasksForm(e, value)
    case _ => Value(Normalize(e.repr, value))
  }

  function Meaning(e: Env, plan: Fields, f: Field): Outcome<Json> {
    Form(e, plan, f, ValueAt(Record(plan), Path(f)))
  }

  function Compare(e: Env, accepted: Fields, candidate: Fields, f: Field): Outcome<seq<Difference>> {
    if Same(ValueAt(Record(accepted), Path(f)), ValueAt(Record(candidate), Path(f))) then Value([])
    else
      var a, c := Meaning(e, accepted, f), Meaning(e, candidate, f);
      if a.Raises? || c.Raises? then Raises
      else Value([Difference(if a == c then ToolingOnly else MaterialClass(f), Semantic(f))])
  }

  function CompareAll(e: Env, accepted: Fields, candidate: Fields, fields: seq<Field>): Outcome<seq<Difference>> {
    if fields == [] then Value([])
    else
      var before := CompareAll(e, accepted, candidate, fields[..|fields| - 1]);
      var last := Compare(e, accepted, candidate, fields[|fields| - 1]);
      if before.Raises? || last.Raises? then Raises else Value(before.value + last.value)
  }

  function When(condition: bool, d: Difference): seq<Difference> {
    if condition then [d] else []
  }

  function ProvenanceDifferences(e: Env, accepted: Fields, candidate: Fields): seq<Difference> {
    When(Text(e.text, Get(accepted, "plan_hash")) != Text(e.text, Get(candidate, "plan_hash")), Difference(ProvenanceOnly, PlanHash))
    + When(!Same(Get(accepted, "baseline_head"), Get(candidate, "baseline_head")), Difference(ProvenanceOnly, BaselineHead))
    + When(!Same(Get(accepted, "bound_evidence"), Get(candidate, "bound_evidence")), Difference(ProvenanceOnly, BoundEvidence))
  }

  predicate Materials(ds: seq<Difference>) {
    exists i :: 0 <= i < |ds| && ds[i].kind.Material()
  }

  function CountMaterial(ds: seq<Difference>): (n: nat)
    ensures n == 0 <==> !Materials(ds)
  {
    if ds == [] then 0
    else
      var before := ds[..|ds| - 1];
      assert forall d :: d in ds <==> d in before || d == ds[|ds| - 1];
      CountMaterial(before) + if ds[|ds| - 1].kind.Material() then 1 else 0
  }

  method NormalizedSemanticValue(e: Env, plan: Fields, f: Field, value: Json) returns (o: Outcome<Json>)
    ensures o == Form(e, plan, f, value)
  {
    hide Normalize, EdgesForm, WithDefault;
    if f == DependencyEdges {
      return EdgesForm(e, plan);
    }
    if f != Tasks {
      return Value(Normalize(e.repr, value));
    }
    var items := if value.List? then value.items else [];
    var normalized: seq<Json> := [];
    var mappings := true;
    for i := 0 to |items|
      invariant normalized == Mapped(TaskForm(e.repr), items[..i])
      invariant mappings <==> AllObjects(items[..i])
    {
      var task := items[i];
      assert items[..i + 1] == items[..i] + [task];
      if task.Obj? {
        normalized := normalized + [Normalize(e.repr, WithDefault(task.fields))];
      } else {
        normalized := normalized + [task];
        mappings := false;
      }
    }
    assert items[..|items|] == items;
    if !mappings {
      return Raises;
    }
    return Value(List(Sort(ByTask(e.text), normalized)));
  }

  method CompareProvenance(e: Env, accepted: Fields, candidate: Fields) returns (differences: seq<Difference>)
    ensures differences == ProvenanceDifferences(e, accepted, candidate) && !Materials(differences)
  {
    differences := [];
    if Text(e.text, Get(accepted, "plan_hash")) != Text(e.text, Get(candidate, "plan_hash")) {
      differences := differences + [Difference(ProvenanceOnly, PlanHash)];
    }
    if !Same(Get(accepted, "baseline_head"), Get(candidate, "baseline_head")) {
      differences := differences + [Difference(ProvenanceOnly, BaselineHead)];
    }
    if !Same(Get(accepted, "bound_evidence"), Get(candidate, "bound_evidence")) {
      differences := differences + [Difference(ProvenanceOnly, BoundEvidence)];
    }
  }

  method LineageReconciliation(e: Env, accepted: Fields, candidate: Fields, decision: Fields, acceptedPlanHash: string)
    returns (o: Outcome<Report>)
    ensures var fields := CompareAll(e, accepted, candidate, FIELDS);
            && (o.Raises? <==> fields.Raises?)
            && (o.Value? ==>
                  && o.value.differences == ProvenanceDifferences(e, accepted, candidate) + fields.value + DecisionDifferences(decision)
                  && o.value.acceptedHash == acceptedPlanHash
                  && o.value.candidateHash == Text(e.text, Get(candidate, "plan_hash"))
                  && o.value.classification == Classification(o.value.differences)
                  && o.value.materialCount == CountMaterial(o.value.differences)
                  && (o.value.pass <==> Passes(e, accepted, candidate)))
  {
    hide ProvenanceDifferences, CompareAll, FIELDS, Materials;
    var differences := CompareProvenance(e, accepted, candidate);
    var semantic := SemanticDifferences(e, accepted, candidate);
    if semantic.Raises? {
      return Raises;
    }
    MaterialsConcat(differences, semantic.value);
    differences := differences + semantic.value;
    MaterialsConcat(differences, DecisionDifferences(decision));
    DecisionImmaterial(decision);
    differences := differences + DecisionDifferences(decision);
    var count := CountMaterial(differences);
    o := Value(Report(acceptedPlanHash, Text(e.text, Get(candidate, "plan_hash")), Classification(differences), differences, count, count == 0));
  }

  function DecisionDifferences(decision: Fields): seq<Difference> {
    When(Get(decision, "decision_status") == Str("ACCEPTED"), Difference(DecisionBinding, Decision))
  }

  lemma DecisionImmaterial(decision: Fields)
    ensures !Materials(DecisionDifferences(decision))
  {}

  method SemanticDifferences(e: Env, accepted: Fields, candidate: Fields) returns (o: Outcome<seq<Difference>>)
    ensures o == CompareAll(e, accepted, candidate, FIELDS)
  {
    hide Form, Path, MaterialClass, ValueAt, Record, Same;
    var differences: seq<Difference> := [];
    for i := 0 to |FIELDS|
      invariant CompareAll(e, accepted, candidate, FIELDS[..i]) == Value(differences)
    {
      var f := FIELDS[i];
      ComparePush(e, accepted, candidate, i);
      var acceptedValue := SemanticValue(accepted, Path(f));
      var candidateValue := SemanticValue(candidate, Path(f));
      if Same(acceptedValue, candidateValue) {
        assert differences + [] == differences;
        continue;
      }
      var a := NormalizedSemanticValue(e, accepted, f, acceptedValue);
      var c := NormalizedSemanticValue(e, candidate, f, candidateValue);
      if a.Raises? || c.Raises? {
        RaisesStays(e, accepted, candidate, i + 1);
        return Raises;
      }
      differences := differences + [Difference(if a == c then ToolingOnly else MaterialClass(f), Semantic(f))];
    }
    assert FIELDS[..|FIELDS|] == FIELDS;
    o := Value(differences);
  }

  lemma ComparePush(e: Env, accepted: Fields, candidate: Fields, i: nat)
    requires i < |FIELDS|
    ensures var before, last := CompareAll(e, accepted, candidate, FIELDS[..i]), Compare(e, accepted, candidate, FIELDS[i]);
            CompareAll(e, accepted, candidate, FIELDS[..i + 1]) ==
            if before.Raises? || last.Raises? then Raises else Value(before.value + last.value)
  {
    hide Compare, FIELDS;
    assert FIELDS[..i + 1][..i] == FIELDS[..i];
  }

  lemma {:induction false} RaisesStays(e: Env, accepted: Fields, candidate: Fields, i: nat)
    requires i <= |FIELDS| && CompareAll(e, accepted, candidate, FIELDS[..i]).Raises?
    ensures CompareAll(e, accepted, candidate, FIELDS).Raises?
    decreases |FIELDS| - i
  {
    hide Compare;
    if i < |FIELDS| {
      ComparePush(e, accepted, candidate, i);
      RaisesStays(e, accepted, candidate, i + 1);
    } else {
      assert FIELDS[..i] == FIELDS;
    }
  }

  lemma MaterialsConcat(a: seq<Difference>, b: seq<Difference>)
    ensures Materials(a + b) <==> Materials(a) || Materials(b)
  {
    if i :| 0 <= i < |a| && a[i].kind.Material() {
      assert (a + b)[i] == a[i];
    }
    if i :| 0 <= i < |b| && b[i].kind.Material() {
      assert (a + b)[|a| + i] == b[i];
    }
  }

  /** The verdict of a reconciliation that runs through. */
  ghost predicate Passes(e: Env, accepted: Fields, candidate: Fields) {
    var fields := CompareAll(e, accepted, candidate, FIELDS);
    fields.Value? && !Materials(fields.value)
  }

  // ----- What a pass means -----

  predicate WellFormedTask(t: Json) {
    && t.Obj? && "task_id" in t.fields && t.fields["task_id"].Str?
    && ("dependencies" in t.fields ==> IsStrList(t.fields["dependencies"]))
  }

  predicate WellFormedTasks(tasks: seq<Json>) {
    forall i :: 0 <= i < |tasks| ==> WellFormedTask(tasks[i])
  }

  /** The plan has a task list, of mappings with string ids and lists of string dependencies. */
  predicate WellFormed(plan: Fields) {
    && "productization_dag" in plan && plan["productization_dag"].Obj?
    && "tasks" in plan["productization_dag"].fields && plan["productization_dag"].fields["tasks"].List?
    && WellFormedTasks(TasksOf(plan))
  }

  function TasksOf(plan: Fields): seq<Json> {
    if "productization_dag" !in plan || !plan["productization_dag"].Obj? then []
    else
      var dag := plan["productization_dag"].fields;
      if "tasks" in dag && dag["tasks"].List? then dag["tasks"].items else []
  }

  lemma TasksAt(plan: Fields)
    requires WellFormed(plan)
    ensures ValueAt(Record(plan), Path(Tasks)) == List(TasksOf(plan)) && PlanTasks(plan) == Value(TasksOf(plan))
  {
    hide Record;
    var dag, path := plan["productization_dag"], Path(Tasks);
    assert path[1..] == ["tasks"] && path[1..][1..] == [];
    assert ValueAt(dag, path[1..]) == dag.fields["tasks"];
  }

  function Dependencies(t: Json): seq<Json>
    requires WellFormedTask(t)
  {
    if "dependencies" in t.fields then t.fields["dependencies"].items else []
  }

  function PairWith(id: string): Json -> seq<string> {
    (d: Json) => [id, if d.Str? then d.s else ""]
  }

  /** The edges of one task, as pairs of strings. */
  function TaskEdges(t: Json): seq<seq<string>>
    requires WellFormedTask(t)
  {
    Mapped(PairWith(t.fields["task_id"].s), Dependencies(t))
  }

  function AllEdges(tasks: seq<Json>): seq<seq<string>>
    requires WellFormedTasks(tasks)
  {
    if tasks == [] then [] else TaskEdges(tasks[0]) + AllEdges(tasks[1..])
  }

  lemma PairsOfTask(t: Json)
    requires WellFormedTask(t)
    ensures PairsOf(t).Value? && AllStrings(PairsOf(t).value) && Mapped(Strings(), PairsOf(t).value) == TaskEdges(t)
  {}

  lemma StringsConcat(head: seq<(Json, Json)>, tail: seq<(Json, Json)>)
    requires AllStrings(head) && AllStrings(tail)
    ensures AllStrings(head + tail)
    ensures Mapped(Strings(), head + tail) == Mapped(Strings(), head) + Mapped(Strings(), tail)
  {
    hide Strings;
  }

  lemma {:induction false} PairsOfTasks(tasks: seq<Json>)
    requires WellFormedTasks(tasks)
    ensures AllPairs(tasks).Value? && AllStrings(AllPairs(tasks).value)
    ensures Mapped(Strings(), AllPairs(tasks).value) == AllEdges(tasks)
  {
    if tasks != [] {
      PairsOfTask(tasks[0]);
      PairsOfTasks(tasks[1..]);
      hide PairsOf, TaskEdges, Strings, WellFormedTask, AllStrings, Mapped;
      StringsConcat(PairsOf(tasks[0]).value, AllPairs(tasks[1..]).value);
    }
  }

  lemma EdgesFormOfPlan(e: Env, plan: Fields)
    requires WellFormed(plan)
    ensures EdgesForm(e, plan) == Value(PairDocument(Sort(TupleLe, AllEdges(TasksOf(plan)))))
  {
    TasksAt(plan);
    PairsOfTasks(TasksOf(plan));
    hide WellFormed, TasksOf, PlanTasks, AllPairs, AllEdges, AllStrings;
  }

  // ----- The tasks fix the edges -----

  lemma KeysDiffer()
    ensures !Provenance("task_id") && !Provenance("dependencies") && !Provenance("human_gate")
    ensures "task_id" != "human_gate" && "dependencies" != "human_gate" && "task_id" != "dependencies"
  {
    assert "task_id"[0] == 't' && "dependencies"[0] == 'd' && "human_gate"[0] == 'h';
    assert "plan_hash"[0] == 'p' && "baseline_head"[0] == 'b' && "bound_evidence"[0] == 'b';
  }

  lemma StringsStay(repr: Printer, xs: seq<Json>)
    requires forall i :: 0 <= i < |xs| ==> xs[i].Str?
    ensures NormalizeAll(repr, xs) == xs
  {}

  lemma FormKeepsField(repr: Printer, m: Fields, key: string)
    requires !Provenance(key) && key != "human_gate"
    ensures var form := TaskForm(repr)(Record(m));
            && form.Obj? && (key in form.fields <==> key in m)
            && (key in m ==> form.fields[key] == Normalize(repr, m[key]))
  {
    hide Provenance, Record;
    var full := WithDefault(m).fields;
    assert (key in full <==> key in m) && (key in m ==> full[key] == m[key]);
  }

  /** A task form still shows the id and the dependencies, in some order. */
  lemma TaskFormShows(repr: Printer, t: Json)
    requires WellFormedTask(t)
    ensures var form := TaskForm(repr)(t);
            && form.Obj? && "task_id" in form.fields && form.fields["task_id"] == t.fields["task_id"]
            && ("dependencies" in form.fields <==> "dependencies" in t.fields)
            && ("dependencies" in form.fields ==> form.fields["dependencies"] == List(Sort(ByRepr(repr), Dependencies(t))))
  {
    KeysDiffer();
    FormKeepsField(repr, t.fields, "task_id");
    FormKeepsField(repr, t.fields, "dependencies");
    hide TaskForm, Provenance, Record, WithDefault;
    if "dependencies" in t.fields {
      StringsStay(repr, Dependencies(t));
    }
  }

  lemma SameFormSameEdges(repr: Printer, t: Json, u: Json)
    requires WellFormedTask(t) && WellFormedTask(u) && TaskForm(repr)(t) == TaskForm(repr)(u)
    ensures multiset(TaskEdges(t)) == multiset(TaskEdges(u))
  {
    TaskFormShows(repr, t);
    TaskFormShows(repr, u);
    hide TaskForm;
    SortPermutes(ByRepr(repr), Dependencies(t));
    SortPermutes(ByRepr(repr), Dependencies(u));
    MappedPermutes(PairWith(t.fields["task_id"].s), Dependencies(t), Dependencies(u));
  }

  lemma {:induction false} SameFormsSameEdges(repr: Printer, ts: seq<Json>, us: seq<Json>)
    requires WellFormedTasks(ts) && WellFormedTasks(us) && Mapped(TaskForm(repr), ts) == Mapped(TaskForm(repr), us)
    ensures multiset(AllEdges(ts)) == multiset(AllEdges(us))
  {
    hide TaskForm, TaskEdges;
    assert |ts| == |Mapped(TaskForm(repr), ts)| == |us|;
    if ts != [] {
      assert Mapped(TaskForm(repr), ts)[0] == Mapped(TaskForm(repr), us)[0];
      SameFormSameEdges(repr, ts[0], us[0]);
      MappedTail(TaskForm(repr), ts);
      MappedTail(TaskForm(repr), us);
      SameFormsSameEdges(repr, ts[1..], us[1..]);
    }
  }

  lemma MappedTail<A, B>(f: A -> B, xs: seq<A>)
    requires xs != []
    ensures Mapped(f, xs[1..]) == Mapped(f, xs)[1..]
  {}

  lemma EdgesOfCons(t: Json, rest: seq<Json>)
    requires WellFormedTask(t) && WellFormedTasks(rest)
    ensures WellFormedTasks([t] + rest) && AllEdges([t] + rest) == TaskEdges(t) + AllEdges(rest)
  {
    assert ([t] + rest)[1..] == rest;
  }

  lemma {:induction false} EdgesWithout(ts: seq<Json>, i: nat)
    requires WellFormedTasks(ts) && i < |ts|
    ensures WellFormedTasks(Without(ts, i))
    ensures multiset(AllEdges(ts)) == multiset(TaskEdges(ts[i])) + multiset(AllEdges(Without(ts, i)))
  {
    hide TaskEdges, WellFormedTask, AllEdges;
    var rest := ts[1..];
    assert ts == [ts[0]] + rest;
    EdgesOfCons(ts[0], rest);
    if i == 0 {
      assert Without(ts, 0) == rest;
    } else {
      EdgesWithout(rest, i - 1);
      assert Without(ts, i) == [ts[0]] + Without(rest, i - 1);
      EdgesOfCons(ts[0], Without(rest, i - 1));
    }
  }

  lemma {:induction false} EdgesPermute(ts: seq<Json>, us: seq<Json>)
    requires WellFormedTasks(ts) && WellFormedTasks(us) && multiset(ts) == multiset(us)
    ensures multiset(AllEdges(ts)) == multiset(AllEdges(us))
    decreases |ts|
  {
    hide TaskEdges, WellFormedTask;
    SameMultisetSameLength(ts, us);
    if ts != [] {
      assert ts[0] in multiset(ts);
      var i := IndexOf(us, ts[0]);
      WithoutMultiset(ts, 0);
      WithoutMultiset(us, i);
      EdgesWithout(ts, 0);
      EdgesWithout(us, i);
      EdgesPermute(Without(ts, 0), Without(us, i));
    }
  }

  lemma SameTasksFormLineUp(e: Env, ts: seq<Json>, us: seq<Json>) returns (vs: seq<Json>)
    requires AllObjects(ts) && AllObjects(us) && TasksForm(e, List(ts)) == TasksForm(e, List(us))
    ensures multiset(vs) == multiset(us) && Mapped(TaskForm(e.repr), vs) == Mapped(TaskForm(e.repr), ts)
  {
    hide TaskForm;
    SortPermutes(ByTask(e.text), Mapped(TaskForm(e.repr), ts));
    SortPermutes(ByTask(e.text), Mapped(TaskForm(e.repr), us));
    vs := LineUp(TaskForm(e.repr), ts, us);
  }

  /** Plans whose tasks reconcile have the same recomputed dependency edges. */
  lemma TasksImplyEdges(e: Env, a: Fields, b: Fields)
    requires WellFormed(a) && WellFormed(b)
    requires Meaning(e, a, Tasks) == Meaning(e, b, Tasks)
    ensures Meaning(e, a, DependencyEdges) == Meaning(e, b, DependencyEdges)
  {
    hide TasksOf, PlanTasks, ValueAt, Path, Record, EdgesForm, TasksForm, AllEdges;
    TasksAt(a);
    TasksAt(b);
    EdgesFormOfPlan(e, a);
    EdgesFormOfPlan(e, b);
    EdgesFromTasks(e, TasksOf(a), TasksOf(b));
  }

  lemma EdgesFromTasks(e: Env, ts: seq<Json>, us: seq<Json>)
    requires WellFormedTasks(ts) && WellFormedTasks(us) && TasksForm(e, List(ts)) == TasksForm(e, List(us))
    ensures Sort(TupleLe, AllEdges(ts)) == Sort(TupleLe, AllEdges(us))
  {
    hide TasksForm, TaskForm, AllEdges;
    var vs := SameTasksFormLineUp(e, ts, us);
    SameMembers(vs, us);
    SameFormsSameEdges(e.repr, ts, vs);
    EdgesPermute(vs, us);
    TupleOrder();
    SortCanonical(TupleLe, AllEdges(ts), AllEdges(us));
  }

  // ----- A pass is sameness of all fields, hence an equivalence -----

  lemma FieldsListed(f: Field)
    ensures f in FIELDS
  {
    assert FIELDS[0] == Tasks && FIELDS[1] == DependencyEdges && FIELDS[2] == Waves && FIELDS[3] == HumanGates;
    assert FIELDS[4] == RiskDistribution && FIELDS[5] == Architecture && FIELDS[6] == TechnologyDecisions && FIELDS[7] == ApiDomains;
    assert FIELDS[8] == ProductPages && FIELDS[9] == ExternalProjectRuntime && FIELDS[10] == IdentityRbac && FIELDS[11] == ApprovalModel;
    assert FIELDS[12] == EvidenceArtifactModel && FIELDS[13] == NetworkArchitecture && FIELDS[14] == DeploymentPortability;
    assert FIELDS[15] == ThreatBoundaries && FIELDS[16] == UnresolvedHumanDecisions;
  }

  ghost predicate Immaterial(o: Outcome<seq<Difference>>) {
    o.Value? && !Materials(o.value)
  }

  lemma {:induction false} AllImmaterial(e: Env, a: Fields, b: Fields, fields: seq<Field>)
    ensures Immaterial(CompareAll(e, a, b, fields)) <==> forall f :: f in fields ==> Immaterial(Compare(e, a, b, f))
  {
    hide Compare, Materials;
    if fields == [] {
      assert !Materials([]) by {
        MaterialsConcat([], []);
        NothingMaterial();
      }
    } else {
      var n := |fields| - 1;
      assert fields == fields[..n] + [fields[n]];
      AllImmaterial(e, a, b, fields[..n]);
      var before, last := CompareAll(e, a, b, fields[..n]), Compare(e, a, b, fields[n]);
      if before.Value? && last.Value? {
        MaterialsConcat(before.value, last.value);
      }
    }
  }

  lemma NothingMaterial()
    ensures !Materials([])
  {}

  lemma TasksAreObjects(plan: Fields)
    requires WellFormed(plan)
    ensures AllObjects(TasksOf(plan))
  {
    hide TasksOf;
  }

  lemma NeverRaises(e: Env, plan: Fields, f: Field)
    requires WellFormed(plan)
    ensures Meaning(e, plan, f).Value?
  {
    hide WellFormed, TasksOf, PlanTasks, ValueAt, Path, Record, EdgesForm, Normalize;
    TasksAt(plan);
    TasksAreObjects(plan);
    EdgesFormOfPlan(e, plan);
  }

  lemma EqualTaskForms(repr: Printer, t: Json, u: Json)
    requires Same(t, u) && t.Obj?
    ensures u.Obj? && TaskForm(repr)(t) == TaskForm(repr)(u)
  {
    hide Record, Normalize;
    var full, other := WithDefault(t.fields), WithDefault(u.fields);
    forall k | k in full.fields ensures k in other.fields && Same(full.fields[k], other.fields[k]) {}
    assert Same(full, other);
    EqualSameForm(repr, full, other);
  }

  lemma EqualTasksForms(e: Env, x: Json, y: Json)
    requires Same(x, y)
    ensures TasksForm(e, x) == TasksForm(e, y)
  {
    hide TaskForm, TaskKey;
    if x.List? {
      forall i | 0 <= i < |x.items| ensures x.items[i].Obj? <==> y.items[i].Obj? {
        assert Same(x.items[i], y.items[i]);
      }
      if AllObjects(x.items) {
        forall i | 0 <= i < |x.items| ensures TaskForm(e.repr)(x.items[i]) == TaskForm(e.repr)(y.items[i]) {
          EqualTaskForms(e.repr, x.items[i], y.items[i]);
        }
        assert Mapped(TaskForm(e.repr), x.items) == Mapped(TaskForm(e.repr), y.items);
      }
    }
  }

  /** Fields that are equal as written mean the same, save for the edges, which are computed from elsewhere. */
  lemma EqualMeanings(e: Env, a: Fields, b: Fields, f: Field)
    requires f != DependencyEdges && Same(ValueAt(Record(a), Path(f)), ValueAt(Record(b), Path(f)))
    ensures Meaning(e, a, f) == Meaning(e, b, f)
  {
    var x, y := ValueAt(Record(a), Path(f)), ValueAt(Record(b), Path(f));
    EqualTasksForms(e, x, y);
    EqualSameForm(e.repr, x, y);
    hide Record, Path, ValueAt, TasksForm, Normalize, Same;
  }

  /** One field of well-formed plans is immaterial when it has one meaning, or the edge lists coincide as written. */
  lemma FieldImmaterial(e: Env, a: Fields, b: Fields, f: Field)
    requires WellFormed(a) && WellFormed(b)
    ensures f != DependencyEdges ==> (Immaterial(Compare(e, a, b, f)) <==> Meaning(e, a, f) == Meaning(e, b, f))
    ensures Meaning(e, a, f) == Meaning(e, b, f) ==> Immaterial(Compare(e, a, b, f))
  {
    hide WellFormed, Path, ValueAt, Meaning, Materials, MaterialClass, Same, Record;
    NeverRaises(e, a, f);
    NeverRaises(e, b, f);
    if f != DependencyEdges && Same(ValueAt(Record(a), Path(f)), ValueAt(Record(b), Path(f))) {
      EqualMeanings(e, a, b, f);
    }
    OneDifference(f);
  }

  lemma OneDifference(f: Field)
    ensures !Materials([]) && Materials([Difference(MaterialClass(f), Semantic(f))]) && !Materials([Difference(ToolingOnly, Semantic(f))])
  {
    var d := Difference(MaterialClass(f), Semantic(f));
    assert [d][0] == d;
  }

  ghost predicate SameButEdges(e: Env, a: Fields, b: Fields) {
    forall f :: f != DependencyEdges ==> Meaning(e, a, f) == Meaning(e, b, f)
  }

  /** Reconciliation passes exactly when every field but the edges means the same; the edges then follow from the tasks. */
  lemma PassIffSame(e: Env, a: Fields, b: Fields)
    requires WellFormed(a) && WellFormed(b)
    ensures CompareAll(e, a, b, FIELDS).Value?
    ensures Passes(e, a, b) <==> SameButEdges(e, a, b)
  {
    hide Meaning, Compare, CompareAll, WellFormed, FIELDS, Materials;
    AllImmaterial(e, a, b, FIELDS);
    forall f ensures f in FIELDS {
      FieldsListed(f);
    }
    forall f
      ensures f != DependencyEdges ==> (Immaterial(Compare(e, a, b, f)) <==> Meaning(e, a, f) == Meaning(e, b, f))
    {
      FieldImmaterial(e, a, b, f);
    }
    if SameButEdges(e, a, b) {
      TasksImplyEdges(e, a, b);
      FieldImmaterial(e, a, b, DependencyEdges);
    }
    CompareAllRuns(e, a, b, FIELDS);
  }

  lemma {:induction false} CompareAllRuns(e: Env, a: Fields, b: Fields, fields: seq<Field>)
    requires WellFormed(a) && WellFormed(b)
    ensures CompareAll(e, a, b, fields).Value?
  {
    hide WellFormed, Meaning, ValueAt;
    if fields != [] {
      var f := fields[|fields| - 1];
      NeverRaises(e, a, f);
      NeverRaises(e, b, f);
      CompareAllRuns(e, a, b, fields[..|fields| - 1]);
    }
  }

  /** On well-formed plans passing is an equivalence. */
  lemma PassIsEquivalence(e: Env, a: Fields, b: Fields, c: Fields)
    requires WellFormed(a) && WellFormed(b) && WellFormed(c)
    ensures Passes(e, a, a)
    ensures Passes(e, a, b) ==> Passes(e, b, a)
    ensures Passes(e, a, b) && Passes(e, b, c) ==> Passes(e, a, c)
  {
    hide WellFormed, Passes, Meaning;
    PassIffSame(e, a, a);
    PassIffSame(e, a, b);
    PassIffSame(e, b, a);
    PassIffSame(e, b, c);
    PassIffSame(e, a, c);
  }

  // ----- Reordering -----

  /** No two tasks share an id unless they agree entirely. */
  ghost predicate IdsTellTasks(e: Env, ts: seq<Json>) {
    forall i, j :: 0 <= i < |ts| && 0 <= j < |ts| && TaskKey(e.text, TaskForm(e.repr)(ts[i])) == TaskKey(e.text, TaskForm(e.repr)(ts[j]))
                   ==> TaskForm(e.repr)(ts[i]) == TaskForm(e.repr)(ts[j])
  }

  lemma IdsTieless(e: Env, ts: seq<Json>)
    requires IdsTellTasks(e, ts)
    ensures TotalPreorder(ByTask(e.text)) && Tieless(ByTask(e.text), multiset(Mapped(TaskForm(e.repr), ts)))
  {
    StrOrder();
    hide TaskForm, TaskKey;
    var forms := Mapped(TaskForm(e.repr), ts);
    forall x, y | x in multiset(forms) && y in multiset(forms) && ByTask(e.text)(x, y) && ByTask(e.text)(y, x) ensures x == y {
      var i := IndexOf(forms, x);
      var j := IndexOf(forms, y);
      assert TaskKey(e.text, x) == TaskKey(e.text, y);
      assert forms[i] == TaskForm(e.repr)(ts[i]) && forms[j] == TaskForm(e.repr)(ts[j]);
    }
  }

  lemma ReorderedTasks(e: Env, ts: seq<Json>, us: seq<Json>)
    requires IdsTellTasks(e, ts) && AllObjects(ts) && multiset(us) == multiset(ts)
    ensures TasksForm(e, List(us)) == TasksForm(e, List(ts))
  {
    hide TaskForm, TaskKey, IdsTellTasks;
    IdsTieless(e, ts);
    SameMembers(us, ts);
    MappedPermutes(TaskForm(e.repr), us, ts);
    SortCanonicalOn(ByTask(e.text), Mapped(TaskForm(e.repr), ts), Mapped(TaskForm(e.repr), us));
  }

  /** The first of the tasks with this id. */
  function FirstWithId(text: Printer, ts: seq<Json>, id: string): Outcome<Json> {
    if ts == [] then Raises
    else if TaskKey(text, ts[0]) == id then Value(ts[0])
    else FirstWithId(text, ts[1..], id)
  }

  lemma {:induction false} InsertKeepsFirst(text: Printer, x: Json, ts: seq<Json>, id: string)
    ensures FirstWithId(text, Insert(ByTask(text), x, ts), id) == FirstWithId(text, [x] + ts, id)
  {
    hide TaskKey;
    var le := ByTask(text);
    assert ([x] + ts)[1..] == ts;
    if ts == [] || le(x, ts[0]) {
    } else {
      InsertKeepsFirst(text, x, ts[1..], id);
      assert Insert(le, x, ts) == [ts[0]] + Insert(le, x, ts[1..]);
      assert ([x] + ts[1..])[1..] == ts[1..];
      StrReflexive(TaskKey(text, x));
      assert TaskKey(text, x) != TaskKey(text, ts[0]);
    }
  }

  /** Sorting by id is stable: the first task with an id stays the first with it. */
  lemma {:induction false} SortKeepsFirst(text: Printer, ts: seq<Json>, id: string)
    ensures FirstWithId(text, Sort(ByTask(text), ts), id) == FirstWithId(text, ts, id)
  {
    hide TaskKey;
    if ts != [] {
      SortKeepsFirst(text, ts[1..], id);
      var rest := Sort(ByTask(text), ts[1..]);
      InsertKeepsFirst(text, ts[0], rest, id);
      assert ([ts[0]] + rest)[1..] == rest;
    }
  }

  ghost predicate OrderIrrelevant(e: Env, ts: seq<Json>) {
    forall us {:trigger TasksForm(e, List(us))} :: multiset(us) == multiset(ts) ==> TasksForm(e, List(us)) == TasksForm(e, List(ts))
  }

  lemma FrontTask(e: Env, ts: seq<Json>, i: nat)
    requires OrderIrrelevant(e, ts) && AllObjects(ts) && i < |ts|
    ensures var form := TaskForm(e.repr)(ts[i]);
            FirstWithId(e.text, TasksForm(e, List(ts)).value.items, TaskKey(e.text, form)) == Value(form)
  {
    hide TaskForm, TaskKey;
    var us := [ts[i]] + Without(ts, i);
    WithoutMultiset(ts, i);
    assert multiset(us) == multiset(ts);
    SameMembers(us, ts);
    assert TasksForm(e, List(us)) == TasksForm(e, List(ts));
    var forms := Mapped(TaskForm(e.repr), us);
    SortKeepsFirst(e.text, forms, TaskKey(e.text, forms[0]));
  }

  /** The order in which tasks are listed never matters exactly when ids tell tasks apart. */
  lemma TaskOrderIrrelevantIff(e: Env, ts: seq<Json>)
    requires AllObjects(ts)
    ensures OrderIrrelevant(e, ts) <==> IdsTellTasks(e, ts)
  {
    hide TaskForm, TaskKey, TasksForm;
    if IdsTellTasks(e, ts) {
      forall us | multiset(us) == multiset(ts) ensures TasksForm(e, List(us)) == TasksForm(e, List(ts)) {
        ReorderedTasks(e, ts, us);
      }
    }
    if OrderIrrelevant(e, ts) {
      forall i, j | 0 <= i < |ts| && 0 <= j < |ts| && TaskKey(e.text, TaskForm(e.repr)(ts[i])) == TaskKey(e.text, TaskForm(e.repr)(ts[j]))
        ensures TaskForm(e.repr)(ts[i]) == TaskForm(e.repr)(ts[j])
      {
        FrontTask(e, ts, i);
        FrontTask(e, ts, j);
      }
    }
  }

  /** The tasks of `us` can be set beside their likes in `ts`. */
  ghost predicate TasksAlike(ts: seq<Json>, us: seq<Json>) {
    exists vs :: TasksPaired(ts, vs, us)
  }

  ghost predicate TasksPaired(ts: seq<Json>, vs: seq<Json>, us: seq<Json>) {
    && multiset(vs) == multiset(us) && |vs| == |ts|
    && forall i :: 0 <= i < |ts| ==> ts[i].Obj? && vs[i].Obj? && Alike(WithDefault(ts[i].fields), WithDefault(vs[i].fields))
  }

  lemma TaskFormsIffAlike(repr: Printer, t: Json, u: Json)
    requires Injective(repr) && t.Obj? && u.Obj?
    ensures TaskForm(repr)(t) == TaskForm(repr)(u) <==> Alike(WithDefault(t.fields), WithDefault(u.fields))
  {
    hide Alike, Normalize, WithDefault;
    SameFormIffAlike(repr, WithDefault(t.fields), WithDefault(u.fields));
  }

  lemma TasksPairedSameForm(e: Env, ts: seq<Json>, vs: seq<Json>, us: seq<Json>)
    requires Injective(e.repr) && AllObjects(ts) && AllObjects(us) && IdsTellTasks(e, us) && TasksPaired(ts, vs, us)
    ensures TasksForm(e, List(ts)) == TasksForm(e, List(us))
  {
    forall i | 0 <= i < |ts| ensures TaskForm(e.repr)(ts[i]) == TaskForm(e.repr)(vs[i]) {
      TaskFormsIffAlike(e.repr, ts[i], vs[i]);
    }
    hide TaskForm, IdsTellTasks, Alike;
    ReorderedTasks(e, us, vs);
    SameMembers(vs, us);
    assert Mapped(TaskForm(e.repr), ts) == Mapped(TaskForm(e.repr), vs);
  }

  lemma SameFormTasksAlike(e: Env, ts: seq<Json>, us: seq<Json>)
    requires Injective(e.repr) && AllObjects(ts) && AllObjects(us) && TasksForm(e, List(ts)) == TasksForm(e, List(us))
    ensures TasksAlike(ts, us)
  {
    hide TaskForm, TasksForm, Alike, WithDefault;
    var vs := SameTasksFormLineUp(e, ts, us);
    SameMembers(vs, us);
    assert |vs| == |Mapped(TaskForm(e.repr), vs)| == |ts|;
    forall i | 0 <= i < |ts| ensures vs[i].Obj? && Alike(WithDefault(ts[i].fields), WithDefault(vs[i].fields)) {
      assert Mapped(TaskForm(e.repr), vs)[i] == Mapped(TaskForm(e.repr), ts)[i];
      TaskFormsIffAlike(e.repr, ts[i], vs[i]);
    }
    assert TasksPaired(ts, vs, us);
  }

  lemma OtherMeaningsAlike(e: Env, a: Fields, b: Fields, f: Field)
    requires Injective(e.repr) && f != Tasks && f != DependencyEdges
    ensures Meaning(e, a, f) == Meaning(e, b, f) <==> Alike(ValueAt(Record(a), Path(f)), ValueAt(Record(b), Path(f)))
  {
    hide Alike, ValueAt, Path, Normalize, Record;
    SameFormIffAlike(e.repr, ValueAt(Record(a), Path(f)), ValueAt(Record(b), Path(f)));
  }

  lemma TaskMeaningsAlike(e: Env, a: Fields, b: Fields)
    requires WellFormed(a) && WellFormed(b) && Injective(e.repr) && IdsTellTasks(e, TasksOf(b))
    ensures Meaning(e, a, Tasks) == Meaning(e, b, Tasks) <==> TasksAlike(TasksOf(a), TasksOf(b))
  {
    TasksAt(a);
    TasksAt(b);
    hide Alike, ValueAt, Path, IdsTellTasks, Injective, TasksForm;
    if Meaning(e, a, Tasks) == Meaning(e, b, Tasks) {
      SameFormTasksAlike(e, TasksOf(a), TasksOf(b));
    }
    if TasksAlike(TasksOf(a), TasksOf(b)) {
      var vs :| TasksPaired(TasksOf(a), vs, TasksOf(b));
      TasksPairedSameForm(e, TasksOf(a), vs, TasksOf(b));
    }
  }
}
