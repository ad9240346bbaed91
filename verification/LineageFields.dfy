/**
 * What plan reconciliation compares and how it reports it, with the document's keys written out: nothing here follows
 * a path or asks which class a field has.
 */
module LineageFields {
  import opened Order
  import opened JsonValues
  import opened PlanProjection
  import opened LineageReconciliation

  /** Both values under the key are alike; a missing key counts as null. */
  ghost predicate AlikeUnder(m: Fields, n: Fields, key: string) {
    if key in m && key in n then Alike(m[key], n[key])
    else (key in m ==> m[key].Null?) && (key in n ==> n[key].Null?)
  }

  /** Both values under the key are equal in Python; a missing key counts as null. */
  ghost predicate SameUnder(m: Fields, n: Fields, key: string) {
    if key in m && key in n then Same(m[key], n[key])
    else (key in m ==> m[key].Null?) && (key in n ==> n[key].Null?)
  }

  lemma UnderGet(m: Fields, n: Fields, key: string)
    ensures AlikeUnder(m, n, key) <==> Alike(Get(m, key), Get(n, key))
    ensures SameUnder(m, n, key) <==> Same(Get(m, key), Get(n, key))
  {}

  /** Equal values are alike. */
  lemma SameIsAlike(repr: Printer, m: Fields, n: Fields, key: string)
    requires Injective(repr) && SameUnder(m, n, key)
    ensures AlikeUnder(m, n, key)
  {
    hide Alike, Same, Normalize;
    UnderGet(m, n, key);
    EqualSameForm(repr, Get(m, key), Get(n, key));
    SameFormIffAlike(repr, Get(m, key), Get(n, key));
  }

  // ----- Where the fields are read -----

  function Dag(plan: Fields): Fields
    requires WellFormed(plan)
  {
    plan["productization_dag"].fields
  }

  lemma ReadAtTop(plan: Fields, key: string)
    ensures ValueAt(Record(plan), [key]) == Get(plan, key)
  {
    hide Record;
    assert [key][1..] == [];
  }

  lemma ReadBelowDag(plan: Fields, key: string)
    requires WellFormed(plan)
    ensures ValueAt(Record(plan), ["productization_dag", key]) == Get(Dag(plan), key)
  {
    hide Record, WellFormedTasks, TasksOf;
    var path := ["productization_dag", key];
    assert path[1..] == [key] && path[1..][1..] == [];
    assert ValueAt(Record(plan), path) == ValueAt(plan["productization_dag"], path[1..]);
  }

  // ----- Tasks and edges -----

  /** Both have the key with like values, or neither has it. */
  ghost predicate AgreeOn(m: Fields, n: Fields, key: string) {
    (key in m <==> key in n) && (key in m && key in n ==> Alike(m[key], n[key]))
  }

  /** Tasks alike field by field, where a missing human gate counts as a null one. */
  ghost predicate TaskAlike(t: Fields, u: Fields) {
    && AlikeUnder(t, u, "human_gate")
    && forall k :: k != "human_gate" && k != "plan_hash" && k != "baseline_head" && k != "bound_evidence" ==> AgreeOn(t, u, k)
  }

  lemma RecordsAlike(m: Fields, n: Fields)
    ensures Alike(Record(m), Record(n)) <==> forall k :: !Provenance(k) ==> AgreeOn(m, n, k)
  {
    hide Record;
    var x, y := Record(m), Record(n);
    if forall k :: !Provenance(k) ==> AgreeOn(m, n, k) {
      forall k | !Provenance(k) ensures k in m <==> k in n {
        assert AgreeOn(m, n, k);
      }
      forall k | k in m && !Provenance(k) ensures k in n && Alike(m[k], n[k]) {
        assert AgreeOn(m, n, k);
      }
    }
  }

  lemma DefaultAgrees(t: Fields, u: Fields, k: string)
    ensures var m, n := WithDefault(t).fields, WithDefault(u).fields;
            AgreeOn(m, n, k) <==> if k == "human_gate" then AlikeUnder(t, u, k) else AgreeOn(t, u, k)
  {
    hide Record, Alike;
    UnderGet(t, u, "human_gate");
  }

  lemma TaskAlikeDefaults(t: Fields, u: Fields)
    ensures TaskAlike(t, u) <==> Alike(WithDefault(t), WithDefault(u))
  {
    hide Record, Alike, AgreeOn, AlikeUnder;
    var m, n := WithDefault(t).fields, WithDefault(u).fields;
    RecordsAlike(m, n);
    forall k ensures AgreeOn(m, n, k) <==> if k == "human_gate" then AlikeUnder(t, u, k) else AgreeOn(t, u, k) {
      DefaultAgrees(t, u, k);
    }
    GateCounts();
  }

  lemma GateCounts()
    ensures !Provenance("human_gate")
  {
    KeysDiffer();
  }

  /** The tasks of `us` can be set beside their likes in `ts`. */
  ghost predicate TasksPairUp(ts: seq<Json>, us: seq<Json>) {
    exists vs: seq<Json> :: PairsUp(ts, vs, us)
  }

  ghost predicate PairsUp(ts: seq<Json>, vs: seq<Json>, us: seq<Json>) {
    && multiset(vs) == multiset(us) && |vs| == |ts|
    && forall i :: 0 <= i < |ts| ==> ts[i].Obj? && vs[i].Obj? && TaskAlike(ts[i].fields, vs[i].fields)
  }

  lemma PairUpIffAlike(ts: seq<Json>, us: seq<Json>)
    ensures TasksPairUp(ts, us) <==> TasksAlike(ts, us)
  {
    hide TaskAlike, Alike, WithDefault;
    forall vs: seq<Json> ensures PairsUp(ts, vs, us) <==> TasksPaired(ts, vs, us) {
      forall i | 0 <= i < |ts| && |vs| == |ts| && ts[i].Obj? && vs[i].Obj?
        ensures TaskAlike(ts[i].fields, vs[i].fields) <==> Alike(WithDefault(ts[i].fields), WithDefault(vs[i].fields))
      {
        TaskAlikeDefaults(ts[i].fields, vs[i].fields);
      }
    }
  }

  /** Tasks with one id are alike. */
  ghost predicate IdsTell(ts: seq<Json>)
    requires WellFormedTasks(ts)
  {
    forall i, j :: 0 <= i < |ts| && 0 <= j < |ts| && ts[i].fields["task_id"] == ts[j].fields["task_id"]
                   ==> TaskAlike(ts[i].fields, ts[j].fields)
  }

  lemma FormId(e: Env, t: Json)
    requires WellFormedTask(t)
    ensures TaskKey(e.text, TaskForm(e.repr)(t)) == t.fields["task_id"].s
  {
    hide TaskForm;
    TaskFormShows(e.repr, t);
  }

  lemma TellIff(e: Env, ts: seq<Json>)
    requires WellFormedTasks(ts) && Injective(e.repr)
    ensures IdsTell(ts) <==> IdsTellTasks(e, ts)
  {
    hide TaskForm, TaskKey, TaskAlike, Alike, WithDefault, Injective;
    forall i, j | 0 <= i < |ts| && 0 <= j < |ts|
      ensures TaskKey(e.text, TaskForm(e.repr)(ts[i])) == TaskKey(e.text, TaskForm(e.repr)(ts[j]))
              <==> ts[i].fields["task_id"] == ts[j].fields["task_id"]
      ensures TaskForm(e.repr)(ts[i]) == TaskForm(e.repr)(ts[j]) <==> TaskAlike(ts[i].fields, ts[j].fields)
    {
      FormId(e, ts[i]);
      FormId(e, ts[j]);
      TaskFormsIffAlike(e.repr, ts[i], ts[j]);
      TaskAlikeDefaults(ts[i].fields, ts[j].fields);
    }
  }

  /** How often tasks of this id list the dependency. */
  function EdgeCount(ts: seq<Json>, id: string, d: string): nat
    requires WellFormedTasks(ts)
  {
    if ts == [] then 0
    else
      var t := ts[0].fields;
      (if t["task_id"] == Str(id) && "dependencies" in t then multiset(t["dependencies"].items)[Str(d)] else 0)
      + EdgeCount(ts[1..], id, d)
  }

  ghost predicate SameEdges(ts: seq<Json>, us: seq<Json>)
    requires WellFormedTasks(ts) && WellFormedTasks(us)
  {
    forall id, d :: EdgeCount(ts, id, d) == EdgeCount(us, id, d)
  }

  lemma {:induction false} MappedCount<A, B>(f: A -> B, xs: seq<A>, x: A)
    requires forall y :: y in xs && f(y) == f(x) ==> y == x
    ensures multiset(Mapped(f, xs))[f(x)] == multiset(xs)[x]
  {
    if xs != [] {
      MappedCount(f, xs[1..], x);
      MappedTail(f, xs);
      assert xs == [xs[0]] + xs[1..];
      assert Mapped(f, xs) == [f(xs[0])] + Mapped(f, xs)[1..];
    } else {
      assert Mapped(f, xs) == [];
    }
  }

  lemma TaskEdgeCount(t: Json, id: string, d: string)
    requires WellFormedTask(t)
    ensures multiset(TaskEdges(t))[[id, d]]
            == if t.fields["task_id"] == Str(id) && "dependencies" in t.fields then multiset(t.fields["dependencies"].items)[Str(d)] else 0
  {
    var own := t.fields["task_id"].s;
    if own == id {
      var f := PairWith(id);
      forall y | y in Dependencies(t) && f(y) == f(Str(d)) ensures y == Str(d) {
        assert f(y)[1] == d;
      }
      MappedCount(f, Dependencies(t), Str(d));
    } else {
      forall p | p in TaskEdges(t) ensures p != [id, d] {
        assert p[0] == own;
      }
    }
  }

  lemma {:induction false} EdgesCounted(ts: seq<Json>, id: string, d: string)
    requires WellFormedTasks(ts)
    ensures multiset(AllEdges(ts))[[id, d]] == EdgeCount(ts, id, d)
  {
    hide TaskEdges, WellFormedTask;
    if ts != [] {
      TaskEdgeCount(ts[0], id, d);
      EdgesCounted(ts[1..], id, d);
    }
  }

  lemma {:induction false} EdgesAreCouples(ts: seq<Json>, p: seq<string>)
    requires WellFormedTasks(ts) && p in AllEdges(ts)
    ensures |p| == 2
  {
    hide WellFormedTask;
    if p !in TaskEdges(ts[0]) {
      EdgesAreCouples(ts[1..], p);
    }
  }

  lemma SameEdgesIff(ts: seq<Json>, us: seq<Json>)
    requires WellFormedTasks(ts) && WellFormedTasks(us)
    ensures SameEdges(ts, us) <==> multiset(AllEdges(ts)) == multiset(AllEdges(us))
  {
    hide AllEdges, EdgeCount, WellFormedTask;
    forall id, d ensures multiset(AllEdges(ts))[[id, d]] == EdgeCount(ts, id, d) && multiset(AllEdges(us))[[id, d]] == EdgeCount(us, id, d) {
      EdgesCounted(ts, id, d);
      EdgesCounted(us, id, d);
    }
    if SameEdges(ts, us) {
      forall p ensures multiset(AllEdges(ts))[p] == multiset(AllEdges(us))[p] {
        if p in AllEdges(ts) || p in AllEdges(us) {
          if p in AllEdges(ts) {
            EdgesAreCouples(ts, p);
          } else {
            EdgesAreCouples(us, p);
          }
          assert p == [p[0], p[1]];
          assert EdgeCount(ts, p[0], p[1]) == EdgeCount(us, p[0], p[1]);
        }
      }
    }
  }

  lemma PairDocumentTells(ps: seq<seq<string>>, qs: seq<seq<string>>)
    requires PairDocument(ps) == PairDocument(qs)
    ensures ps == qs
  {
    assert |ps| == |PairDocument(ps).items| == |qs|;
    forall i | 0 <= i < |ps| ensures ps[i] == qs[i] {
      assert PairDocument(ps).items[i] == StrList(ps[i]) && PairDocument(qs).items[i] == StrList(qs[i]);
      StrListReadsBack(ps[i]);
      StrListReadsBack(qs[i]);
    }
  }

  lemma SortedDocumentTells(ps: seq<seq<string>>, qs: seq<seq<string>>)
    ensures PairDocument(Sort(TupleLe, ps)) == PairDocument(Sort(TupleLe, qs)) <==> multiset(ps) == multiset(qs)
  {
    hide PairDocument;
    SortPermutes(TupleLe, ps);
    SortPermutes(TupleLe, qs);
    if multiset(ps) == multiset(qs) {
      TupleOrder();
      SortCanonical(TupleLe, ps, qs);
    } else if PairDocument(Sort(TupleLe, ps)) == PairDocument(Sort(TupleLe, qs)) {
      PairDocumentTells(Sort(TupleLe, ps), Sort(TupleLe, qs));
    }
  }

  /** The recomputed edges of two plans agree exactly when every task id depends equally often on everything. */
  lemma EdgeMeaningsSame(e: Env, a: Fields, b: Fields)
    requires WellFormed(a) && WellFormed(b)
    ensures Meaning(e, a, DependencyEdges) == Meaning(e, b, DependencyEdges) <==> SameEdges(TasksOf(a), TasksOf(b))
  {
    EdgesFormOfPlan(e, a);
    EdgesFormOfPlan(e, b);
    SameEdgesIff(TasksOf(a), TasksOf(b));
    hide WellFormed, WellFormedTasks, TasksOf, EdgesForm, AllEdges, SameEdges, PairDocument, ValueAt, Path;
    SortedDocumentTells(AllEdges(TasksOf(a)), AllEdges(TasksOf(b)));
  }

  // ----- The report, key by key -----

  /** The differences reported about one field: none, one of form only, or one of this kind. */
  ghost predicate ReportedAs(ds: seq<Difference>, f: Field, kind: Class, same: bool, alike: bool) {
    forall k :: Difference(k, Semantic(f)) in ds <==> !same && k == if alike then ToolingOnly else kind
  }

  ghost predicate KeyReported(ds: seq<Difference>, f: Field, kind: Class, m: Fields, n: Fields, key: string) {
    ReportedAs(ds, f, kind, SameUnder(m, n, key), AlikeUnder(m, n, key))
  }

  lemma OneDifferencePerField(e: Env, a: Fields, b: Fields, f: Field, d: Difference)
    requires Compare(e, a, b, f).Value? && d in Compare(e, a, b, f).value
    ensures d.about == Semantic(f)
  {
    hide Same, ValueAt, Meaning, Path, MaterialClass;
  }

  lemma {:induction false} ListedOnce(e: Env, a: Fields, b: Fields, fields: seq<Field>, d: Difference, f: Field)
    requires CompareAll(e, a, b, fields).Value? && f in fields && d.about == Semantic(f)
    ensures Compare(e, a, b, f).Value?
    ensures d in CompareAll(e, a, b, fields).value <==> d in Compare(e, a, b, f).value
    decreases |fields|
  {
    hide Compare;
    var n := |fields| - 1;
    var last := Compare(e, a, b, fields[n]);
    var before := CompareAll(e, a, b, fields[..n]);
    assert fields == fields[..n] + [fields[n]];
    if fields[n] != f {
      ListedOnce(e, a, b, fields[..n], d, f);
      if d in last.value {
        OneDifferencePerField(e, a, b, fields[n], d);
      }
    } else if d in before.value {
      NotBefore(e, a, b, fields[..n], d, f);
    }
  }

  lemma {:induction false} NotBefore(e: Env, a: Fields, b: Fields, fields: seq<Field>, d: Difference, f: Field)
    requires CompareAll(e, a, b, fields).Value? && d in CompareAll(e, a, b, fields).value && d.about == Semantic(f)
    ensures f in fields && Compare(e, a, b, f).Value? && d in Compare(e, a, b, f).value
  {
    hide Compare;
    var n := |fields| - 1;
    if d in Compare(e, a, b, fields[n]).value {
      OneDifferencePerField(e, a, b, fields[n], d);
    } else {
      NotBefore(e, a, b, fields[..n], d, f);
    }
  }

  function Found(e: Env, a: Fields, b: Fields): seq<Difference> {
    var found := CompareAll(e, a, b, FIELDS);
    if found.Value? then found.value else []
  }

  lemma FieldReported(e: Env, a: Fields, b: Fields, f: Field)
    requires WellFormed(a) && WellFormed(b)
    ensures ReportedAs(Found(e, a, b), f, MaterialClass(f), Same(ValueAt(Record(a), Path(f)), ValueAt(Record(b), Path(f))),
                       Meaning(e, a, f) == Meaning(e, b, f))
  {
    hide WellFormed, CompareAll, FIELDS, Same, ValueAt, Record, Path, MaterialClass, Meaning;
    CompareAllRuns(e, a, b, FIELDS);
    FieldsListed(f);
    NeverRaises(e, a, f);
    NeverRaises(e, b, f);
    forall k
      ensures Difference(k, Semantic(f)) in Found(e, a, b)
              <==> Compare(e, a, b, f).Value? && Difference(k, Semantic(f)) in Compare(e, a, b, f).value
    {
      ListedOnce(e, a, b, FIELDS, Difference(k, Semantic(f)), f);
    }
  }

  lemma TopKeyReported(e: Env, a: Fields, b: Fields, f: Field, key: string)
    requires WellFormed(a) && WellFormed(b) && Injective(e.repr)
    requires f != Tasks && f != DependencyEdges && Path(f) == [key]
    ensures KeyReported(Found(e, a, b), f, MaterialClass(f), a, b, key)
  {
    hide WellFormed, Injective, Found, Same, Alike, AlikeUnder, SameUnder, ValueAt, Record, Path, MaterialClass, Meaning, ReportedAs;
    FieldReported(e, a, b, f);
    ReadAtTop(a, key);
    ReadAtTop(b, key);
    UnderGet(a, b, key);
    OtherMeaningsAlike(e, a, b, f);
  }

  lemma DagKeyReported(e: Env, a: Fields, b: Fields, f: Field, key: string)
    requires WellFormed(a) && WellFormed(b) && Injective(e.repr)
    requires f != Tasks && f != DependencyEdges && Path(f) == ["productization_dag", key]
    ensures KeyReported(Found(e, a, b), f, MaterialClass(f), Dag(a), Dag(b), key)
  {
    hide WellFormed, Dag, Injective, Found, Same, Alike, AlikeUnder, SameUnder, ValueAt, Record, Path, MaterialClass, Meaning, ReportedAs;
    FieldReported(e, a, b, f);
    ReadBelowDag(a, key);
    ReadBelowDag(b, key);
    UnderGet(Dag(a), Dag(b), key);
    OtherMeaningsAlike(e, a, b, f);
  }

  /** The three fields of the task graph that are compared as they stand. */
  ghost predicate GraphKeysReported(ds: seq<Difference>, x: Fields, y: Fields) {
    && KeyReported(ds, Waves, MaterialDag, x, y, "waves")
    && KeyReported(ds, HumanGates, MaterialPolicy, x, y, "human_gates")
    && KeyReported(ds, RiskDistribution, MaterialPolicy, x, y, "risk_distribution")
  }

  ghost predicate TaskKeysReported(ds: seq<Difference>, a: Fields, b: Fields) {
    KeyReported(ds, ProductPages, MaterialTask, a, b, "product_pages")
  }

  ghost predicate PolicyKeysReported(ds: seq<Difference>, a: Fields, b: Fields) {
    && KeyReported(ds, TechnologyDecisions, MaterialPolicy, a, b, "technology_decisions")
    && KeyReported(ds, DeploymentPortability, MaterialPolicy, a, b, "deployment_portability")
    && KeyReported(ds, UnresolvedHumanDecisions, MaterialPolicy, a, b, "unresolved_human_decisions")
  }

  ghost predicate SecurityKeysReported(ds: seq<Difference>, a: Fields, b: Fields) {
    && KeyReported(ds, Architecture, MaterialSecurity, a, b, "architecture")
    && KeyReported(ds, ApiDomains, MaterialSecurity, a, b, "api_domains")
    && KeyReported(ds, ExternalProjectRuntime, MaterialSecurity, a, b, "external_project_runtime")
    && KeyReported(ds, IdentityRbac, MaterialSecurity, a, b, "identity_rbac")
    && KeyReported(ds, ApprovalModel, MaterialSecurity, a, b, "approval_model")
    && KeyReported(ds, EvidenceArtifactModel, MaterialSecurity, a, b, "evidence_artifact_model")
    && KeyReported(ds, NetworkArchitecture, MaterialSecurity, a, b, "network_architecture")
    && KeyReported(ds, ThreatBoundaries, MaterialSecurity, a, b, "threat_boundaries")
  }

  lemma GraphKeys(e: Env, a: Fields, b: Fields)
    requires WellFormed(a) && WellFormed(b) && Injective(e.repr)
    ensures GraphKeysReported(Found(e, a, b), Dag(a), Dag(b))
  {
    hide WellFormed, Dag, Injective, Found, KeyReported;
    DagKeyReported(e, a, b, Waves, "waves");
    DagKeyReported(e, a, b, HumanGates, "human_gates");
    DagKeyReported(e, a, b, RiskDistribution, "risk_distribution");
  }

  lemma TaskAndPolicyKeys(e: Env, a: Fields, b: Fields)
    requires WellFormed(a) && WellFormed(b) && Injective(e.repr)
    ensures TaskKeysReported(Found(e, a, b), a, b) && PolicyKeysReported(Found(e, a, b), a, b)
  {
    hide WellFormed, Injective, Found, KeyReported;
    TopKeyReported(e, a, b, ProductPages, "product_pages");
    TopKeyReported(e, a, b, TechnologyDecisions, "technology_decisions");
    TopKeyReported(e, a, b, DeploymentPortability, "deployment_portability");
    TopKeyReported(e, a, b, UnresolvedHumanDecisions, "unresolved_human_decisions");
  }

  lemma SecurityKeys(e: Env, a: Fields, b: Fields)
    requires WellFormed(a) && WellFormed(b) && Injective(e.repr)
    ensures SecurityKeysReported(Found(e, a, b), a, b)
  {
    hide WellFormed, Injective, Found, KeyReported;
    TopKeyReported(e, a, b, Architecture, "architecture");
    TopKeyReported(e, a, b, ApiDomains, "api_domains");
    TopKeyReported(e, a, b, ExternalProjectRuntime, "external_project_runtime");
    TopKeyReported(e, a, b, IdentityRbac, "identity_rbac");
    TopKeyReported(e, a, b, ApprovalModel, "approval_model");
    TopKeyReported(e, a, b, EvidenceArtifactModel, "evidence_artifact_model");
    TopKeyReported(e, a, b, NetworkArchitecture, "network_architecture");
    TopKeyReported(e, a, b, ThreatBoundaries, "threat_boundaries");
  }

  /** Tasks are alike when they can be set beside each other; edges when every task id depends on the same. */
  ghost predicate TasksReported(ds: seq<Difference>, a: Fields, b: Fields)
    requires WellFormed(a) && WellFormed(b)
  {
    && ReportedAs(ds, Tasks, MaterialTask, SameUnder(Dag(a), Dag(b), "tasks"), TasksPairUp(TasksOf(a), TasksOf(b)))
    && ReportedAs(ds, DependencyEdges, MaterialDag, SameUnder(Dag(a), Dag(b), "dependency_edges"),
                  SameEdges(TasksOf(a), TasksOf(b)))
  }

  lemma TaskMeanings(e: Env, a: Fields, b: Fields)
    requires WellFormed(a) && WellFormed(b) && Injective(e.repr) && IdsTell(TasksOf(b))
    ensures Meaning(e, a, Tasks) == Meaning(e, b, Tasks) <==> TasksPairUp(TasksOf(a), TasksOf(b))
  {
    hide Meaning, TasksOf, TasksPairUp, TasksAlike, IdsTell, IdsTellTasks, Injective;
    TellIff(e, TasksOf(b));
    TaskMeaningsAlike(e, a, b);
    PairUpIffAlike(TasksOf(a), TasksOf(b));
  }

  lemma TaskFields(e: Env, a: Fields, b: Fields)
    requires WellFormed(a) && WellFormed(b) && Injective(e.repr) && IdsTell(TasksOf(b))
    ensures TasksReported(Found(e, a, b), a, b)
  {
    TaskPaths();
    TaskMeanings(e, a, b);
    EdgeMeaningsSame(e, a, b);
    hide WellFormed, Dag, Injective, Found, Same, SameUnder, ValueAt, Record, Path, MaterialClass, Meaning, ReportedAs, TasksOf,
      TasksPairUp, SameEdges, IdsTell;
    FieldReported(e, a, b, Tasks);
    FieldReported(e, a, b, DependencyEdges);
    ReadBelowDag(a, "tasks");
    ReadBelowDag(b, "tasks");
    ReadBelowDag(a, "dependency_edges");
    ReadBelowDag(b, "dependency_edges");
    UnderGet(Dag(a), Dag(b), "tasks");
    UnderGet(Dag(a), Dag(b), "dependency_edges");
  }

  lemma TaskPaths()
    ensures Path(Tasks) == ["productization_dag", "tasks"] && MaterialClass(Tasks) == MaterialTask
    ensures Path(DependencyEdges) == ["productization_dag", "dependency_edges"] && MaterialClass(DependencyEdges) == MaterialDag
  {}

  // ----- What a pass means, key by key -----

  ghost predicate GraphKeysAlike(x: Fields, y: Fields) {
    AlikeUnder(x, y, "waves") && AlikeUnder(x, y, "human_gates") && AlikeUnder(x, y, "risk_distribution")
  }

  ghost predicate TopKeysAlike(a: Fields, b: Fields) {
    && AlikeUnder(a, b, "architecture") && AlikeUnder(a, b, "technology_decisions")
    && AlikeUnder(a, b, "api_domains") && AlikeUnder(a, b, "product_pages")
    && AlikeUnder(a, b, "external_project_runtime") && AlikeUnder(a, b, "identity_rbac")
    && AlikeUnder(a, b, "approval_model") && AlikeUnder(a, b, "evidence_artifact_model")
    && AlikeUnder(a, b, "network_architecture") && AlikeUnder(a, b, "deployment_portability")
    && AlikeUnder(a, b, "threat_boundaries") && AlikeUnder(a, b, "unresolved_human_decisions")
  }

  lemma TopMeaning(e: Env, a: Fields, b: Fields, f: Field, key: string)
    requires Injective(e.repr) && f != Tasks && f != DependencyEdges && Path(f) == [key]
    ensures Meaning(e, a, f) == Meaning(e, b, f) <==> AlikeUnder(a, b, key)
  {
    hide Injective, Same, Alike, AlikeUnder, SameUnder, ValueAt, Record, Path, Meaning;
    ReadAtTop(a, key);
    ReadAtTop(b, key);
    UnderGet(a, b, key);
    OtherMeaningsAlike(e, a, b, f);
  }

  lemma DagMeaning(e: Env, a: Fields, b: Fields, f: Field, key: string)
    requires WellFormed(a) && WellFormed(b) && Injective(e.repr)
    requires f != Tasks && f != DependencyEdges && Path(f) == ["productization_dag", key]
    ensures Meaning(e, a, f) == Meaning(e, b, f) <==> AlikeUnder(Dag(a), Dag(b), key)
  {
    hide WellFormed, Dag, Injective, Same, Alike, AlikeUnder, SameUnder, ValueAt, Record, Path, Meaning;
    ReadBelowDag(a, key);
    ReadBelowDag(b, key);
    UnderGet(Dag(a), Dag(b), key);
    OtherMeaningsAlike(e, a, b, f);
  }

  ghost predicate Means(e: Env, a: Fields, b: Fields, f: Field) {
    Meaning(e, a, f) == Meaning(e, b, f)
  }

  lemma GraphMeanings(e: Env, a: Fields, b: Fields)
    requires WellFormed(a) && WellFormed(b) && Injective(e.repr)
    ensures GraphKeysAlike(Dag(a), Dag(b)) <==> Means(e, a, b, Waves) && Means(e, a, b, HumanGates) && Means(e, a, b, RiskDistribution)
  {
    hide WellFormed, Dag, Injective, AlikeUnder, Meaning;
    DagMeaning(e, a, b, Waves, "waves");
    DagMeaning(e, a, b, HumanGates, "human_gates");
    DagMeaning(e, a, b, RiskDistribution, "risk_distribution");
  }

  predicate AtTop(f: Field) {
    f !in {Tasks, DependencyEdges, Waves, HumanGates, RiskDistribution}
  }

  ghost predicate TwelveMean(e: Env, a: Fields, b: Fields) {
    && Means(e, a, b, Architecture) && Means(e, a, b, TechnologyDecisions) && Means(e, a, b, ApiDomains)
    && Means(e, a, b, ProductPages) && Means(e, a, b, ExternalProjectRuntime) && Means(e, a, b, IdentityRbac)
    && Means(e, a, b, ApprovalModel) && Means(e, a, b, EvidenceArtifactModel) && Means(e, a, b, NetworkArchitecture)
    && Means(e, a, b, DeploymentPortability) && Means(e, a, b, ThreatBoundaries) && Means(e, a, b, UnresolvedHumanDecisions)
  }

  lemma AllTwelve(e: Env, a: Fields, b: Fields)
    ensures TwelveMean(e, a, b) <==> forall f :: AtTop(f) ==> Means(e, a, b, f)
  {
    hide Means;
    if TwelveMean(e, a, b) {
      forall f | AtTop(f) ensures Means(e, a, b, f) {
        match f
        case Tasks =>
        case _ =>
      }
    }
  }

  lemma TopMeanings(e: Env, a: Fields, b: Fields)
    requires Injective(e.repr)
    ensures TopKeysAlike(a, b) <==> TwelveMean(e, a, b)
  {
    hide Injective, AlikeUnder, Meaning;
    TopMeaning(e, a, b, Architecture, "architecture");
    TopMeaning(e, a, b, TechnologyDecisions, "technology_decisions");
    TopMeaning(e, a, b, ApiDomains, "api_domains");
    TopMeaning(e, a, b, ProductPages, "product_pages");
    TopMeaning(e, a, b, ExternalProjectRuntime, "external_project_runtime");
    TopMeaning(e, a, b, IdentityRbac, "identity_rbac");
    TopMeaning(e, a, b, ApprovalModel, "approval_model");
    TopMeaning(e, a, b, EvidenceArtifactModel, "evidence_artifact_model");
    TopMeaning(e, a, b, NetworkArchitecture, "network_architecture");
    TopMeaning(e, a, b, DeploymentPortability, "deployment_portability");
    TopMeaning(e, a, b, ThreatBoundaries, "threat_boundaries");
    TopMeaning(e, a, b, UnresolvedHumanDecisions, "unresolved_human_decisions");
  }

  /**
   * A pass, with every key written out: the tasks pair up, the three other compared parts of the task graph are alike,
   * and so is each of the twelve top-level sections.
   */
  lemma PassIffAlike(e: Env, a: Fields, b: Fields)
    requires WellFormed(a) && WellFormed(b) && Injective(e.repr) && IdsTell(TasksOf(b))
    ensures Passes(e, a, b) <==> TasksPairUp(TasksOf(a), TasksOf(b)) && GraphKeysAlike(Dag(a), Dag(b)) && TopKeysAlike(a, b)
  {
    hide WellFormed, Dag, Injective, Meaning, TasksOf, TasksPairUp, IdsTell, GraphKeysAlike, TopKeysAlike, Passes, SameButEdges, TwelveMean,
      AtTop;
    PassIffSame(e, a, b);
    SameButEdgesFields(e, a, b);
    TaskMeanings(e, a, b);
    GraphMeanings(e, a, b);
    TopMeanings(e, a, b);
    AllTwelve(e, a, b);
  }

  lemma SameButEdgesFields(e: Env, a: Fields, b: Fields)
    ensures SameButEdges(e, a, b) <==>
            && Means(e, a, b, Tasks) && Means(e, a, b, Waves) && Means(e, a, b, HumanGates) && Means(e, a, b, RiskDistribution)
            && forall f :: AtTop(f) ==> Means(e, a, b, f)
  {
    hide Meaning;
    forall f | AtTop(f) && SameButEdges(e, a, b) ensures Means(e, a, b, f) {}
    if forall f :: AtTop(f) ==> Means(e, a, b, f) {
      forall f | AtTop(f) ensures Meaning(e, a, f) == Meaning(e, b, f) {
        assert Means(e, a, b, f);
      }
    }
  }

  // ----- The whole report -----

  /** Python's text of the value under a key. */
  function Shown(text: Printer, m: Fields, key: string): string {
    if key !in m then text(Null) else if m[key].Str? then m[key].s else text(m[key])
  }

  function Everything(e: Env, a: Fields, b: Fields, decision: Fields): seq<Difference> {
    ProvenanceDifferences(e, a, b) + Found(e, a, b) + DecisionDifferences(decision)
  }

  lemma ProvenanceReported(e: Env, a: Fields, b: Fields, d: Difference)
    ensures d in ProvenanceDifferences(e, a, b) <==>
            || (d == Difference(ProvenanceOnly, PlanHash) && Shown(e.text, a, "plan_hash") != Shown(e.text, b, "plan_hash"))
            || (d == Difference(ProvenanceOnly, BaselineHead) && !SameUnder(a, b, "baseline_head"))
            || (d == Difference(ProvenanceOnly, BoundEvidence) && !SameUnder(a, b, "bound_evidence"))
  {
    hide Same, SameUnder;
    UnderGet(a, b, "baseline_head");
    UnderGet(a, b, "bound_evidence");
  }

  lemma {:induction false} SemanticLabels(e: Env, a: Fields, b: Fields, fields: seq<Field>, d: Difference)
    requires CompareAll(e, a, b, fields).Value? && d in CompareAll(e, a, b, fields).value
    ensures d.about.Semantic? && d.about.field in fields
  {
    hide Compare;
    var n := |fields| - 1;
    if d in Compare(e, a, b, fields[n]).value {
      OneDifferencePerField(e, a, b, fields[n], d);
    } else {
      SemanticLabels(e, a, b, fields[..n], d);
    }
  }

  /** Besides the differences in single fields there are those of provenance and the note on the decision. */
  lemma EverythingListed(e: Env, a: Fields, b: Fields, decision: Fields, d: Difference)
    ensures d in Everything(e, a, b, decision) <==>
            match d.about
            case PlanHash => d.kind == ProvenanceOnly && Shown(e.text, a, "plan_hash") != Shown(e.text, b, "plan_hash")
            case BaselineHead => d.kind == ProvenanceOnly && !SameUnder(a, b, "baseline_head")
            case BoundEvidence => d.kind == ProvenanceOnly && !SameUnder(a, b, "bound_evidence")
            case Decision => d.kind == DecisionBinding && "decision_status" in decision && decision["decision_status"] == Str("ACCEPTED")
            case Semantic(_) => d in Found(e, a, b)
  {
    hide SameUnder, Shown, CompareAll, FIELDS;
    ProvenanceReported(e, a, b, d);
    if d in Found(e, a, b) {
      SemanticLabels(e, a, b, FIELDS, d);
    }
    hide ProvenanceDifferences, Found;
  }

  /** The single findings of two lists about fields are the same. */
  ghost predicate SameAboutFields(ds: seq<Difference>, es: seq<Difference>) {
    forall k, f :: Difference(k, Semantic(f)) in ds <==> Difference(k, Semantic(f)) in es
  }

  lemma ReportedInBoth(ds: seq<Difference>, es: seq<Difference>, a: Fields, b: Fields)
    requires SameAboutFields(ds, es) && WellFormed(a) && WellFormed(b)
    ensures TasksReported(ds, a, b) ==> TasksReported(es, a, b)
    ensures GraphKeysReported(ds, Dag(a), Dag(b)) ==> GraphKeysReported(es, Dag(a), Dag(b))
    ensures TaskKeysReported(ds, a, b) ==> TaskKeysReported(es, a, b)
    ensures PolicyKeysReported(ds, a, b) ==> PolicyKeysReported(es, a, b)
    ensures SecurityKeysReported(ds, a, b) ==> SecurityKeysReported(es, a, b)
  {
    hide WellFormed, Dag, SameUnder, AlikeUnder, SameEdges, TasksOf, TasksPairUp, ReportedAs, SameAboutFields;
    forall f, kind, same, alike ensures ReportedAs(ds, f, kind, same, alike) ==> ReportedAs(es, f, kind, same, alike) {
      if ReportedAs(ds, f, kind, same, alike) {
        ReportMoves(ds, es, f, kind, same, alike);
      }
    }
  }

  lemma ReportMoves(ds: seq<Difference>, es: seq<Difference>, f: Field, kind: Class, same: bool, alike: bool)
    requires SameAboutFields(ds, es) && ReportedAs(ds, f, kind, same, alike)
    ensures ReportedAs(es, f, kind, same, alike)
  {}

  /** The report of well-formed plans whose ids tell tasks apart, key by key: what is listed, and under which class. */
  lemma ReportKeyByKey(e: Env, a: Fields, b: Fields, decision: Fields)
    requires WellFormed(a) && WellFormed(b) && Injective(e.repr) && IdsTell(TasksOf(b))
    ensures var ds := Everything(e, a, b, decision);
            && TasksReported(ds, a, b) && GraphKeysReported(ds, Dag(a), Dag(b)) && TaskKeysReported(ds, a, b)
            && PolicyKeysReported(ds, a, b) && SecurityKeysReported(ds, a, b)
  {
    hide WellFormed, Dag, Injective, TasksOf, IdsTell, Found, Everything, TasksReported, GraphKeysReported, TaskKeysReported,
      PolicyKeysReported, SecurityKeysReported, SameUnder, Shown;
    var ds := Everything(e, a, b, decision);
    forall k, f ensures Difference(k, Semantic(f)) in Found(e, a, b) <==> Difference(k, Semantic(f)) in ds {
      EverythingListed(e, a, b, decision, Difference(k, Semantic(f)));
    }
    TaskFields(e, a, b);
    GraphKeys(e, a, b);
    TaskAndPolicyKeys(e, a, b);
    SecurityKeys(e, a, b);
    ReportedInBoth(Found(e, a, b), ds, a, b);
  }

  // ----- The order of the report, and its count -----

  /** The place of a label in the report. */
  function Place(l: Label): nat {
    match l
    case PlanHash => 0
    case BaselineHead => 1
    case BoundEvidence => 2
    case Semantic(f) => 3 + FieldPlace(f)
    case Decision => 20
  }

  function FieldPlace(f: Field): nat {
    match f
    case Tasks => 0
    case DependencyEdges => 1
    case Waves => 2
    case HumanGates => 3
    case RiskDistribution => 4
    case Architecture => 5
    case TechnologyDecisions => 6
    case ApiDomains => 7
    case ProductPages => 8
    case ExternalProjectRuntime => 9
    case IdentityRbac => 10
    case ApprovalModel => 11
    case EvidenceArtifactModel => 12
    case NetworkArchitecture => 13
    case DeploymentPortability => 14
    case ThreatBoundaries => 15
    case UnresolvedHumanDecisions => 16
  }

  /** Every label comes after those before it, and within these bounds. */
  ghost predicate InPlace(ds: seq<Difference>, low: nat, high: nat) {
    && (forall i :: 0 <= i < |ds| ==> low <= Place(ds[i].about) < high)
    && forall i, j :: 0 <= i < j < |ds| ==> Place(ds[i].about) < Place(ds[j].about)
  }

  lemma InPlaceConcat(ds: seq<Difference>, es: seq<Difference>, low: nat, mid: nat, high: nat)
    requires low <= mid <= high && InPlace(ds, low, mid) && InPlace(es, mid, high)
    ensures InPlace(ds + es, low, high)
  {
    hide Place;
  }

  lemma FieldsInPlace(i: nat)
    requires i < |FIELDS|
    ensures FieldPlace(FIELDS[i]) == i
  {
    var f := FIELDS[i];
    if i < 6 {
      assert i == 0 || i == 1 || i == 2 || i == 3 || i == 4 || i == 5;
    } else if i < 12 {
      assert i == 6 || i == 7 || i == 8 || i == 9 || i == 10 || i == 11;
    } else {
      assert i == 12 || i == 13 || i == 14 || i == 15 || i == 16;
    }
  }

  lemma {:induction false} FoundInPlace(e: Env, a: Fields, b: Fields, n: nat)
    requires n <= |FIELDS| && CompareAll(e, a, b, FIELDS[..n]).Value?
    ensures InPlace(CompareAll(e, a, b, FIELDS[..n]).value, 3, 3 + n)
  {
    hide Compare, Place, FIELDS;
    if n > 0 {
      ComparePush(e, a, b, n - 1);
      var f := FIELDS[n - 1];
      var before, last := CompareAll(e, a, b, FIELDS[..n - 1]), Compare(e, a, b, f);
      FoundInPlace(e, a, b, n - 1);
      OneAtMost(e, a, b, n - 1);
      InPlaceConcat(before.value, last.value, 3, 3 + n - 1, 3 + n);
    }
  }

  lemma OneForField(e: Env, a: Fields, b: Fields, f: Field)
    requires Compare(e, a, b, f).Value?
    ensures var ds := Compare(e, a, b, f).value;
            ds == [] || (|ds| == 1 && ds[0].about == Semantic(f))
  {
    hide Same, Meaning, ValueAt, Path, MaterialClass;
  }

  lemma OneAtMost(e: Env, a: Fields, b: Fields, i: nat)
    requires i < |FIELDS| && Compare(e, a, b, FIELDS[i]).Value?
    ensures InPlace(Compare(e, a, b, FIELDS[i]).value, 3 + i, 4 + i)
  {
    hide Compare, FIELDS, FieldPlace;
    FieldsInPlace(i);
    OneForField(e, a, b, FIELDS[i]);
  }

  lemma ProvenanceInPlace(e: Env, a: Fields, b: Fields)
    ensures InPlace(ProvenanceDifferences(e, a, b), 0, 3)
  {
    hide FieldPlace, Same;
  }

  lemma FieldsFoundInPlace(e: Env, a: Fields, b: Fields)
    ensures InPlace(Found(e, a, b), 3, 20)
  {
    hide CompareAll, FIELDS, Place;
    AllFields();
    if CompareAll(e, a, b, FIELDS).Value? {
      FoundInPlace(e, a, b, |FIELDS|);
    }
  }

  /** The report lists each label once, in this order. */
  lemma EverythingInPlace(e: Env, a: Fields, b: Fields, decision: Fields)
    ensures InPlace(Everything(e, a, b, decision), 0, 21)
  {
    hide Found, ProvenanceDifferences;
    var before, found, after := ProvenanceDifferences(e, a, b), Found(e, a, b), DecisionDifferences(decision);
    ProvenanceInPlace(e, a, b);
    FieldsFoundInPlace(e, a, b);
    assert InPlace(after, 20, 21);
    hide DecisionDifferences, Place, InPlace;
    InPlaceConcat(before, found, 0, 3, 20);
    InPlaceConcat(before + found, after, 0, 20, 21);
  }

  lemma AllFields()
    ensures |FIELDS| == 17 && FIELDS[..|FIELDS|] == FIELDS
  {}

  function MaterialPlaces(ds: seq<Difference>): set<int> {
    set i | 0 <= i < |ds| && (ds[i].kind == MaterialTask || ds[i].kind == MaterialDag || ds[i].kind == MaterialPolicy || ds[i].kind == MaterialSecurity)
  }

  lemma {:induction false} MaterialCounted(ds: seq<Difference>)
    ensures CountMaterial(ds) == |MaterialPlaces(ds)|
  {
    if ds != [] {
      var n := |ds| - 1;
      MaterialCounted(ds[..n]);
      assert ds[n].kind.Material() ==> MaterialPlaces(ds) == MaterialPlaces(ds[..n]) + {n};
      assert !ds[n].kind.Material() ==> MaterialPlaces(ds) == MaterialPlaces(ds[..n]);
    }
  }

  lemma NamesDiffer(c: Class, d: Class)
    requires ClassName(c) == ClassName(d)
    ensures c == d
  {
    assert forall k: Class :: |ClassName(k)| == match k
      case ProvenanceOnly => 15
      case ToolingOnly => 12
      case DecisionBinding => 16
      case MaterialTask => 20
      case MaterialDag => 19
      case MaterialPolicy => 22
      case MaterialSecurity => 24;
  }

  /** The classification names the classes that occur, and a class is material exactly when its name starts so. */
  lemma ClassificationNames(ds: seq<Difference>)
    ensures ds != [] ==>
      && ("PROVENANCE_ONLY" in Classification(ds) <==> exists i :: 0 <= i < |ds| && ds[i].kind == ProvenanceOnly)
      && ("TOOLING_ONLY" in Classification(ds) <==> exists i :: 0 <= i < |ds| && ds[i].kind == ToolingOnly)
      && ("DECISION_BINDING" in Classification(ds) <==> exists i :: 0 <= i < |ds| && ds[i].kind == DecisionBinding)
      && ("MATERIAL_TASK_CHANGE" in Classification(ds) <==> exists i :: 0 <= i < |ds| && ds[i].kind == MaterialTask)
      && ("MATERIAL_DAG_CHANGE" in Classification(ds) <==> exists i :: 0 <= i < |ds| && ds[i].kind == MaterialDag)
      && ("MATERIAL_POLICY_CHANGE" in Classification(ds) <==> exists i :: 0 <= i < |ds| && ds[i].kind == MaterialPolicy)
      && ("MATERIAL_SECURITY_CHANGE" in Classification(ds) <==> exists i :: 0 <= i < |ds| && ds[i].kind == MaterialSecurity)
  {
    hide Classification;
    if ds != [] {
      ClassNamed(ds, ProvenanceOnly);
      ClassNamed(ds, ToolingOnly);
      ClassNamed(ds, DecisionBinding);
      ClassNamed(ds, MaterialTask);
      ClassNamed(ds, MaterialDag);
      ClassNamed(ds, MaterialPolicy);
      ClassNamed(ds, MaterialSecurity);
    }
  }

  lemma ClassNamed(ds: seq<Difference>, c: Class)
    requires ds != []
    ensures ClassName(c) in Classification(ds) <==> exists i :: 0 <= i < |ds| && ds[i].kind == c
  {
    hide ClassName;
    forall d | d in ds && ClassName(d.kind) == ClassName(c) ensures d.kind == c {
      NamesDiffer(d.kind, c);
    }
  }

  // ----- When reconciliation raises -----

  /** The value under two keys, one below the other; null when there is none. */
  function Below(plan: Fields, outer: string, inner: string): Json {
    if outer in plan && plan[outer].Obj? && inner in plan[outer].fields then plan[outer].fields[inner] else Null
  }

  /** A list among whose members is something that is no mapping. */
  predicate StrayMember(j: Json) {
    j.List? && exists i :: 0 <= i < |j.items| && !j.items[i].Obj?
  }

  predicate Iterable(j: Json) {
    j.List? || j.Str? || j.Obj?
  }

  predicate EmptyIterable(j: Json) {
    match j
    case List(xs) => xs == []
    case Str(s) => s == ""
    case Obj(_, keys) => keys == []
    case _ => false
  }

  /** A task whose dependencies cannot be listed: no mapping, nothing to iterate over, or no id to put beside them. */
  predicate BadTask(t: Json) {
    || !t.Obj?
    || ("dependencies" in t.fields
        && (!Iterable(t.fields["dependencies"]) || (!EmptyIterable(t.fields["dependencies"]) && "task_id" !in t.fields)))
  }

  predicate SomeBadTask(ts: seq<Json>) {
    exists i :: 0 <= i < |ts| && BadTask(ts[i])
  }

  /** Tasks from which no edges can be told, or whose edges cannot be sorted. */
  predicate TasksFail(e: Env, tasks: Json) {
    match tasks
    case List(xs) => SomeBadTask(xs) || SortFails(e, xs)
    case _ => !EmptyIterable(tasks)
  }

  predicate SortFails(e: Env, ts: seq<Json>) {
    var pairs := AllPairs(ts);
    pairs.Value? && !AllStrings(pairs.value) && e.sortPairs(pairs.value).Raises?
  }

  predicate EdgesFail(e: Env, plan: Fields) {
    "productization_dag" in plan &&
      var dag := plan["productization_dag"];
      !dag.Obj? || ("tasks" in dag.fields && TasksFail(e, dag.fields["tasks"]))
  }

  lemma BelowAt(plan: Fields, outer: string, inner: string)
    ensures ValueAt(Record(plan), [outer, inner]) == Below(plan, outer, inner)
  {
    hide Record;
    var path := [outer, inner];
    assert path[1..] == [inner] && path[1..][1..] == [];
    var mid := Get(plan, outer);
    assert ValueAt(Record(plan), path) == ValueAt(mid, path[1..]);
    assert mid.Obj? ==> ValueAt(mid, [inner]) == ValueAt(Get(mid.fields, inner), []);
  }

  lemma BadTaskRaises(t: Json)
    ensures PairsOf(t).Raises? <==> BadTask(t)
  {}

  lemma {:induction false} BadTasksRaise(ts: seq<Json>)
    ensures AllPairs(ts).Raises? <==> SomeBadTask(ts)
  {
    hide PairsOf, BadTask;
    if ts != [] {
      BadTaskRaises(ts[0]);
      BadTasksRaise(ts[1..]);
      if SomeBadTask(ts) && !BadTask(ts[0]) {
        var i :| 0 <= i < |ts| && BadTask(ts[i]);
        assert ts[1..][i - 1] == ts[i];
      }
      if SomeBadTask(ts[1..]) {
        var i :| 0 <= i < |ts[1..]| && BadTask(ts[1..][i]);
        assert ts[i + 1] == ts[1..][i];
      }
    }
  }

  /** Single characters and keys are no tasks. */
  lemma TextsAreNoTasks(ts: seq<Json>)
    requires forall i :: 0 <= i < |ts| ==> ts[i].Str?
    ensures SomeBadTask(ts) <==> ts != []
  {
    if ts != [] {
      assert BadTask(ts[0]);
    }
  }

  lemma TasksFailIff(e: Env, tasks: Json)
    ensures var ts := Iterate(tasks);
            TasksFail(e, tasks) <==>
              || ts.Raises?
              || AllPairs(ts.value).Raises?
              || SortedPairs(e, AllPairs(ts.value).value).Raises?
  {
    var ts := Iterate(tasks);
    if ts.Value? {
      BadTasksRaise(ts.value);
      if !tasks.List? {
        TextsAreNoTasks(ts.value);
      }
    }
    hide SomeBadTask;
  }

  lemma EdgesFailIff(e: Env, plan: Fields)
    ensures EdgesForm(e, plan).Raises? <==> EdgesFail(e, plan)
  {
    hide AllPairs, SortedPairs, TasksFail, Iterate;
    if "productization_dag" in plan && plan["productization_dag"].Obj? && "tasks" in plan["productization_dag"].fields {
      TasksFailIff(e, plan["productization_dag"].fields["tasks"]);
    } else {
      NoTasksNoFailure(e);
    }
  }

  lemma NoTasksNoFailure(e: Env)
    ensures AllPairs([]).Value? && SortedPairs(e, AllPairs([]).value).Value?
  {}

  /** One field fails when it differs as written and either side has no normal form. */
  ghost predicate Fails(e: Env, a: Fields, b: Fields) {
    || (!Same(Below(a, "productization_dag", "tasks"), Below(b, "productization_dag", "tasks"))
        && (StrayMember(Below(a, "productization_dag", "tasks")) || StrayMember(Below(b, "productization_dag", "tasks"))))
    || (!Same(Below(a, "productization_dag", "dependency_edges"), Below(b, "productization_dag", "dependency_edges"))
        && (EdgesFail(e, a) || EdgesFail(e, b)))
  }

  lemma {:induction false} SomeFieldRaises(e: Env, a: Fields, b: Fields, fields: seq<Field>)
    ensures CompareAll(e, a, b, fields).Raises? <==> exists f :: f in fields && Compare(e, a, b, f).Raises?
  {
    hide Compare;
    if fields != [] {
      var n := |fields| - 1;
      assert fields == fields[..n] + [fields[n]];
      SomeFieldRaises(e, a, b, fields[..n]);
    }
  }

  lemma TasksRaiseIff(e: Env, plan: Fields)
    ensures Meaning(e, plan, Tasks).Raises? <==> StrayMember(Below(plan, "productization_dag", "tasks"))
  {
    TaskPaths();
    BelowAt(plan, "productization_dag", "tasks");
    hide ValueAt, Below, Path, TaskForm, TaskKey, Record;
  }

  lemma FieldRaisesIff(e: Env, a: Fields, b: Fields, f: Field)
    ensures Compare(e, a, b, f).Raises? <==>
            && !Same(ValueAt(Record(a), Path(f)), ValueAt(Record(b), Path(f)))
            && (f == Tasks || f == DependencyEdges)
            && (Meaning(e, a, f).Raises? || Meaning(e, b, f).Raises?)
  {
    hide Same, ValueAt, Path, Record, EdgesForm, TasksForm, MaterialClass, Normalize;
  }

  /** Reconciliation raises exactly when the tasks or the edges differ as written and one side cannot be normalised. */
  lemma RaisesIff(e: Env, a: Fields, b: Fields)
    ensures CompareAll(e, a, b, FIELDS).Raises? <==> Fails(e, a, b)
  {
    hide CompareAll, Compare, FIELDS, Same, ValueAt, Path, Record, Meaning, Below, StrayMember, EdgesFail;
    SomeFieldRaises(e, a, b, FIELDS);
    FieldsListed(Tasks);
    FieldsListed(DependencyEdges);
    forall f
      ensures Compare(e, a, b, f).Raises? <==>
              && !Same(ValueAt(Record(a), Path(f)), ValueAt(Record(b), Path(f)))
              && (f == Tasks || f == DependencyEdges)
              && (Meaning(e, a, f).Raises? || Meaning(e, b, f).Raises?)
    {
      FieldRaisesIff(e, a, b, f);
    }
    TaskPaths();
    TasksRaiseIff(e, a);
    TasksRaiseIff(e, b);
    EdgesRaise(e, a);
    EdgesRaise(e, b);
    BelowAt(a, "productization_dag", "tasks");
    BelowAt(b, "productization_dag", "tasks");
    BelowAt(a, "productization_dag", "dependency_edges");
    BelowAt(b, "productization_dag", "dependency_edges");
  }

  lemma EdgesRaise(e: Env, plan: Fields)
    ensures Meaning(e, plan, DependencyEdges).Raises? <==> EdgesFail(e, plan)
  {
    hide EdgesForm, EdgesFail, ValueAt, Path, Record;
    EdgesFailIff(e, plan);
  }
}
