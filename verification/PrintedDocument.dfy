/** The printed frozen plan, key by key: what stands where, in which order, what is masked, and what each hash covers. */
module PrintedDocument {
  import opened Order
  import opened JsonValues
  import opened DependencyGraph
  import opened ExternalProjectModel
  import opened ExternalProjectDocument
  import opened ExternalProject
  import opened Wrappers
  import RedactionPaths
  import RemoteUrls

  predicate Has(m: Fields, key: string, value: Json) {
    key in m && m[key] == value
  }

  predicate HasTexts(m: Fields, key: string, xs: seq<string>) {
    key in m && m[key].List? && |m[key].items| == |xs| && forall i | 0 <= i < |xs| :: m[key].items[i] == Str(xs[i])
  }

  /** The texts, from least to greatest. */
  ghost predicate HasOrdered(m: Fields, key: string, xs: seq<string>) {
    exists ys :: HasTexts(m, key, ys) && multiset(ys) == multiset(xs) && Ascending(StrLe, ys)
  }

  /** The object with its secrets masked. */
  ghost predicate HasMasked(env: Env, m: Fields, key: string, secret: Fields) {
    key in m && RedactionPaths.Masked(env.secretKey, Obj(secret, []), m[key])
  }

  /** The digest of all other fields. */
  predicate HasHash(env: Env, m: Fields, key: string) {
    Has(m, key, Str(env.hash(Record(m - {key}))))
  }

  predicate HasSection(m: Fields, key: string) {
    key in m && m[key].Obj?
  }

  // ----- The project -----

  predicate WorkspaceDoc(m: Fields, w: Workspace) {
    && Has(m, "workspace_id", Str(w.workspaceId)) && Has(m, "root_path", Str(w.rootPath)) && Has(m, "state", Str(w.state))
    && Has(m, "owner_project_id", if w.ownerProjectId.Some? then Str(w.ownerProjectId.value) else Null)
    && HasTexts(m, "allowed_roots", w.allowedRoots) && HasTexts(m, "prohibited_paths", w.prohibitedPaths)
  }

  predicate RepositoryDoc(env: Env, m: Fields, r: Repository) {
    && Has(m, "repository_id", Str(r.repositoryId)) && Has(m, "workspace_id", Str(r.workspaceId))
    && Has(m, "remote_url", if r.remoteUrl.Some? then Str(RemoteUrls.RedactUrl(env.secretKey, r.remoteUrl.value)) else Null)
    && Has(m, "default_branch", Str(r.defaultBranch)) && Has(m, "state", Str(r.state)) && Has(m, "commit_policy", Str(r.commitPolicy))
    && Has(m, "control_plane_write_authority", Bool(r.controlPlaneWriteAuthority))
    && Has(m, "push_requires_human_gate", Bool(r.pushRequiresHumanGate))
  }

  predicate PlanDoc(m: Fields, p: Plan) {
    && Has(m, "plan_id", Str(p.planId)) && Has(m, "version", Str(p.version)) && Has(m, "state", Str(p.state))
    && HasTexts(m, "task_ids", p.taskIds) && HasTexts(m, "required_human_gates", p.requiredHumanGates)
    && HasTexts(m, "verification_commands", p.verificationCommands)
    && Has(m, "independent_verification_required", Bool(p.independentVerificationRequired))
    && Has(m, "control_plane_authority", Str(p.controlPlaneAuthority))
  }

  /** A hash that was given, or else the digest of these fields of the plan, with its tasks and gates in order. */
  ghost predicate PlanHashDoc(env: Env, m: Fields, p: Plan) {
    match p.planHash
    case Some(h) => Has(m, "plan_hash", Str(h))
    case None => exists hashed :: HashedPlan(hashed, p) && Has(m, "plan_hash", Str(env.hash(Record(hashed))))
  }

  ghost predicate HashedPlan(m: Fields, p: Plan) {
    && m.Keys == {"plan_id", "version", "state", "task_ids", "required_human_gates", "verification_commands",
                  "independent_verification_required", "control_plane_authority"}
    && Has(m, "plan_id", Str(p.planId)) && Has(m, "version", Str(p.version)) && Has(m, "state", Str(p.state))
    && HasOrdered(m, "task_ids", p.taskIds) && HasOrdered(m, "required_human_gates", p.requiredHumanGates)
    && HasTexts(m, "verification_commands", p.verificationCommands)
    && Has(m, "independent_verification_required", Bool(p.independentVerificationRequired))
    && Has(m, "control_plane_authority", Str(p.controlPlaneAuthority))
  }

  predicate BindingDoc(m: Fields, b: RuntimeBinding) {
    && Has(m, "binding_id", Str(b.bindingId)) && Has(m, "project_id", Str(b.projectId)) && Has(m, "workspace_id", Str(b.workspaceId))
    && Has(m, "repository_id", Str(b.repositoryId)) && Has(m, "plan_id", Str(b.planId)) && Has(m, "plan_version", Str(b.planVersion))
    && Has(m, "state", Str(b.state)) && HasTexts(m, "pending_human_gates", b.pendingHumanGates)
    && HasTexts(m, "approved_human_gates", b.approvedHumanGates) && HasTexts(m, "verification_commands", b.verificationCommands)
    && Has(m, "control_plane_authority", Str(b.controlPlaneAuthority))
    && Has(m, "grants_control_plane_authority", Bool(b.grantsControlPlaneAuthority))
    && Has(m, "verifier_bypass_authority", Bool(b.verifierBypassAuthority))
    && Has(m, "implicit_human_gate_approval", Bool(b.implicitHumanGateApproval))
  }

  ghost predicate ArtifactDoc(env: Env, m: Fields, a: Artifact) {
    && Has(m, "artifact_id", Str(a.artifactId)) && Has(m, "project_id", Str(a.projectId)) && Has(m, "workspace_id", Str(a.workspaceId))
    && Has(m, "kind", Str(a.kind)) && Has(m, "relative_path", Str(a.relativePath)) && Has(m, "content_hash", Str(a.contentHash))
    && Has(m, "producer", Str(a.producer)) && Has(m, "authority_state", Str(a.authorityState))
    && Has(m, "contains_secret", Bool(a.containsSecret))
    && HasMasked(env, m, "metadata", if a.metadata.Some? then a.metadata.value else map[])
  }

  lemma TextsPrinted(m: Fields, key: string, xs: seq<string>)
    requires Has(m, key, StrList(xs))
    ensures HasTexts(m, key, xs)
  {}

  lemma OrderedPrinted(m: Fields, key: string, xs: seq<string>)
    requires Has(m, key, StrList(SortStrings(xs)))
    ensures HasOrdered(m, key, xs)
  {
    TextsPrinted(m, key, SortStrings(xs));
    StrOrder();
    SortAscends(StrLe, xs);
    SortPermutes(StrLe, xs);
  }

  lemma MaskedPrinted(env: Env, m: Fields, key: string, secret: Fields)
    requires Has(m, key, Record(RedactMapping(env.secretKey, secret)))
    ensures HasMasked(env, m, key, secret)
  {
    RedactsToRecord(env.secretKey, Obj(secret, []));
    RedactionPaths.RedactionMasks(env.secretKey, Obj(secret, []));
    hide RedactMapping, Redact, Record, RedactionPaths.Masked;
  }

  lemma HashPrinted(env: Env, payload: Fields, key: string, hash: string)
    requires key !in payload
    ensures payload[key := Str(hash)] - {key} == payload
  {}

  lemma WorkspacePrinted(w: Workspace)
    ensures WorkspaceDoc(PrintWorkspace(w), w)
  {}

  lemma RepositoryShown(env: Env, r: Repository)
    ensures RepositoryDoc(env, PrintRepository(env, r), r)
  {
    hide RemoteUrls.RedactUrl;
  }

  lemma PlanPrinted(env: Env, p: Plan)
    ensures PlanDoc(PrintPlan(env, p), p)
  {}

  lemma PlanHashed(p: Plan)
    ensures HashedPlan(PlanPayload(p), p)
  {
    hide HasOrdered, SortStrings;
    OrderedPrinted(PlanPayload(p), "task_ids", p.taskIds);
    OrderedPrinted(PlanPayload(p), "required_human_gates", p.requiredHumanGates);
  }

  lemma PlanHashPrinted(env: Env, p: Plan)
    ensures PlanHashDoc(env, PrintPlan(env, p), p)
  {
    hide Record, HashedPlan, PlanPayload, StrList;
    PlanHashed(p);
  }

  lemma BindingPrinted(b: RuntimeBinding)
    ensures BindingDoc(PrintBinding(b), b)
  {
    BindingTextsPrinted(b);
    BindingSettingsPrinted(b);
    hide PrintBinding;
  }

  lemma ArtifactPrinted(env: Env, a: Artifact)
    ensures ArtifactDoc(env, PrintArtifact(env, a), a)
  {
    hide Record, RedactMapping;
    MaskedPrinted(env, PrintArtifact(env, a), "metadata", if a.metadata.Some? then a.metadata.value else map[]);
    hide HasMasked;
  }

  ghost predicate ProjectDoc(env: Env, m: Fields, p: Project) {
    && Has(m, "schema_version", Str(p.schemaVersion)) && Has(m, "contract_version", Str(p.contractVersion))
    && Has(m, "project_id", Str(p.projectId)) && Has(m, "name", Str(p.name)) && Has(m, "lifecycle_state", Str(p.lifecycleState))
    && ProjectSectionsDoc(env, m, p)
    && HasHash(env, m, "model_hash")
  }

  ghost predicate ProjectSectionsDoc(env: Env, m: Fields, p: Project) {
    && HasSection(m, "workspace") && WorkspaceDoc(m["workspace"].fields, p.workspace)
    && HasSection(m, "repository") && RepositoryDoc(env, m["repository"].fields, p.repository)
    && HasSection(m, "plan") && PlanDoc(m["plan"].fields, p.plan) && PlanHashDoc(env, m["plan"].fields, p.plan)
    && HasSection(m, "runtime_binding") && BindingDoc(m["runtime_binding"].fields, p.binding)
    && HasArtifacts(env, m, "artifacts", p.artifacts)
  }

  ghost predicate HasArtifacts(env: Env, m: Fields, key: string, xs: seq<Artifact>) {
    key in m && m[key].List? && |m[key].items| == |xs| && forall i | 0 <= i < |xs| :: m[key].items[i].Obj? && ArtifactDoc(env, m[key].items[i].fields, xs[i])
  }

  lemma ArtifactsShown(env: Env, m: Fields, p: Project)
    requires Has(m, "artifacts", PrintArtifacts(env, p))
    ensures HasArtifacts(env, m, "artifacts", p.artifacts)
  {
    hide ArtifactDoc, PrintArtifact;
    forall i | 0 <= i < |p.artifacts| ensures m["artifacts"].items[i].Obj? && ArtifactDoc(env, m["artifacts"].items[i].fields, p.artifacts[i]) {
      ArtifactPrinted(env, p.artifacts[i]);
    }
  }

  lemma ProjectSectionsShown(env: Env, m: Fields, p: Project)
    requires ProjectSections(env, m, p)
    ensures ProjectSectionsDoc(env, m, p)
  {
    hide Record, WorkspaceDoc, RepositoryDoc, PlanDoc, PlanHashDoc, BindingDoc, HasArtifacts, PrintArtifacts;
    hide PrintWorkspace, PrintRepository, PrintPlan, PrintBinding;
    WorkspacePrinted(p.workspace);
    RepositoryShown(env, p.repository);
    PlanPrinted(env, p.plan);
    PlanHashPrinted(env, p.plan);
    BindingPrinted(p.binding);
    ArtifactsShown(env, m, p);
  }

  lemma ProjectHashed(env: Env, p: Project)
    ensures HasHash(env, PrintProject(env, p), "model_hash")
  {
    hide Record, PrintWorkspace, PrintRepository, PrintPlan, PrintBinding, PrintArtifact;
    assert "model_hash" !in ProjectPayload(env, p);
    hide ProjectPayload;
    HashPrinted(env, ProjectPayload(env, p), "model_hash", env.hash(Record(ProjectPayload(env, p))));
  }

  lemma ProjectPrinted(env: Env, p: Project)
    ensures ProjectDoc(env, PrintProject(env, p), p)
  {
    ProjectSectionsPrinted(env, p);
    ProjectTextsPrinted(env, p);
    ProjectHashed(env, p);
    hide PrintProject, ProjectSections, ProjectSectionsDoc, HasHash;
    ProjectSectionsShown(env, PrintProject(env, p), p);
  }

  // ----- Tasks -----

  ghost predicate ImplementsDoc(m: Fields, t: RuntimeTask) {
    && HasOrdered(m, "requirements", t.requirementIds) && HasOrdered(m, "capabilities", t.capabilityIds)
    && HasOrdered(m, "components", t.componentIds) && HasOrdered(m, "interfaces", t.interfaceIds)
  }

  ghost predicate ScopeDoc(m: Fields, t: RuntimeTask) {
    HasOrdered(m, "allowed", t.allowedPaths) && HasOrdered(m, "prohibited", t.prohibitedPaths)
  }

  predicate ExecutionDoc(m: Fields, t: RuntimeTask) {
    Has(m, "agent_role", Str(t.agentRole)) && Has(m, "model_profile", Str(t.modelProfile)) && Has(m, "executor", Str(t.executor))
  }

  predicate VerificationDoc(m: Fields, t: RuntimeTask) {
    && Has(m, "profile", Str(t.verificationProfile)) && HasTexts(m, "commands", t.verificationCommands)
    && HasTexts(m, "acceptance_criteria", t.acceptanceCriteria)
  }

  predicate RiskDoc(m: Fields, t: RuntimeTask) {
    Has(m, "level", Str(t.riskLevel)) && Has(m, "reason", Str(t.riskReason))
  }

  ghost predicate TaskSectionsDoc(m: Fields, t: RuntimeTask) {
    && HasSection(m, "implements") && ImplementsDoc(m["implements"].fields, t)
    && HasSection(m, "write_scope") && ScopeDoc(m["write_scope"].fields, t)
    && HasSection(m, "execution") && ExecutionDoc(m["execution"].fields, t)
    && HasSection(m, "verification") && VerificationDoc(m["verification"].fields, t)
    && HasSection(m, "risk") && RiskDoc(m["risk"].fields, t)
  }

  ghost predicate TaskDoc(env: Env, m: Fields, t: RuntimeTask) {
    && Has(m, "id", Str(t.id)) && Has(m, "title", Str(t.title)) && Has(m, "objective", Str(t.objective))
    && HasOrdered(m, "depends_on", t.dependsOn)
    && HasMasked(env, m, "provenance", t.provenance)
    && TaskSectionsDoc(m, t)
    && (if t.fingerprint.Some? then Has(m, "fingerprint", Str(t.fingerprint.value)) else HasHash(env, m, "fingerprint"))
  }

  lemma ImplementsPrinted(t: RuntimeTask)
    ensures ImplementsDoc(PrintImplements(t), t)
  {
    hide HasOrdered, SortStrings, StrList;
    var m := PrintImplements(t);
    OrderedPrinted(m, "requirements", t.requirementIds);
    OrderedPrinted(m, "capabilities", t.capabilityIds);
    OrderedPrinted(m, "components", t.componentIds);
    OrderedPrinted(m, "interfaces", t.interfaceIds);
  }

  lemma ScopePrinted(t: RuntimeTask)
    ensures ScopeDoc(PrintWriteScope(t), t)
  {
    hide HasOrdered, SortStrings, StrList;
    OrderedPrinted(PrintWriteScope(t), "allowed", t.allowedPaths);
    OrderedPrinted(PrintWriteScope(t), "prohibited", t.prohibitedPaths);
  }

  lemma VerificationPrinted(t: RuntimeTask)
    ensures VerificationDoc(PrintVerification(t), t)
  {}

  lemma ExecutionAndRiskPrinted(t: RuntimeTask)
    ensures ExecutionDoc(PrintExecution(t), t) && RiskDoc(PrintRisk(t), t)
  {}

  lemma TaskSectionsShown(m: Fields, t: RuntimeTask)
    requires TaskSections(m, t)
    ensures TaskSectionsDoc(m, t)
  {
    ImplementsPrinted(t);
    ScopePrinted(t);
    VerificationPrinted(t);
    ExecutionAndRiskPrinted(t);
    hide Record, ImplementsDoc, ScopeDoc, ExecutionDoc, VerificationDoc, RiskDoc;
    hide PrintImplements, PrintWriteScope, PrintExecution, PrintVerification, PrintRisk;
  }

  lemma TaskHashed(env: Env, t: RuntimeTask)
    requires t.fingerprint.None?
    ensures HasHash(env, PrintTask(env, t), "fingerprint")
  {
    hide Record, PrintImplements, PrintWriteScope, PrintExecution, PrintVerification, PrintRisk, RedactMapping, SortStrings;
    assert "fingerprint" !in TaskPayload(env, t);
    hide TaskPayload;
    HashPrinted(env, TaskPayload(env, t), "fingerprint", env.hash(Record(TaskPayload(env, t))));
  }

  lemma TaskTextsShown(env: Env, m: Fields, t: RuntimeTask)
    requires TaskTexts(env, m, t)
    ensures Has(m, "id", Str(t.id)) && Has(m, "title", Str(t.title)) && Has(m, "objective", Str(t.objective))
    ensures HasOrdered(m, "depends_on", t.dependsOn) && HasMasked(env, m, "provenance", t.provenance)
    ensures t.fingerprint.Some? ==> Has(m, "fingerprint", Str(t.fingerprint.value))
  {
    hide Record, RedactMapping, SortStrings, StrList, HasOrdered, HasMasked;
    OrderedPrinted(m, "depends_on", t.dependsOn);
    MaskedPrinted(env, m, "provenance", t.provenance);
  }

  lemma TaskPrinted(env: Env, t: RuntimeTask)
    ensures TaskDoc(env, PrintTask(env, t), t)
  {
    TaskSectionsPrinted(env, t);
    TaskTextsPrinted(env, t);
    hide PrintTask, TaskSections, TaskTexts, TaskSectionsDoc, HasHash, HasOrdered, HasMasked;
    TaskSectionsShown(PrintTask(env, t), t);
    TaskTextsShown(env, PrintTask(env, t), t);
    if t.fingerprint.None? {
      TaskHashed(env, t);
    }
  }

  // ----- The plan -----

  ghost predicate HasTasks(env: Env, m: Fields, tasks: seq<RuntimeTask>) {
    && "tasks" in m && m["tasks"].List? && |m["tasks"].items| == |tasks|
    && forall i | 0 <= i < |tasks| :: m["tasks"].items[i].Obj? && TaskDoc(env, m["tasks"].items[i].fields, tasks[i])
  }

  /** The tasks by id. */
  ghost predicate TasksDoc(env: Env, m: Fields, tasks: seq<RuntimeTask>) {
    exists order: seq<RuntimeTask> :: HasTasks(env, m, order) && multiset(order) == multiset(tasks) && forall i, j :: 0 <= i < j < |order| ==> StrLe(order[i].id, order[j].id)
  }

  ghost predicate HasPairs(m: Fields, key: string, pairs: seq<Edge>) {
    && key in m && m[key].List? && |m[key].items| == |pairs|
    && forall i | 0 <= i < |pairs| :: m[key].items[i] == List([Str(pairs[i].0), Str(pairs[i].1)])
  }

  /** Every dependency of every task, as often as the tasks list it, in order. */
  ghost predicate EdgesDoc(m: Fields, tasks: seq<RuntimeTask>) {
    exists pairs :: HasPairs(m, "dependency_edges", pairs) && EdgeListing(pairs, tasks)
  }

  ghost predicate EdgeListing(pairs: seq<Edge>, tasks: seq<RuntimeTask>) {
    && (forall a, b :: (a, b) in pairs <==> exists t :: t in tasks && t.id == a && b in t.dependsOn)
    && |pairs| == DependencyCount(tasks)
    && forall i, j :: 0 <= i < j < |pairs| ==> TupleLe([pairs[i].0, pairs[i].1], [pairs[j].0, pairs[j].1])
  }

  function DependencyCount(tasks: seq<RuntimeTask>): nat {
    if tasks == [] then 0 else |tasks[0].dependsOn| + DependencyCount(tasks[1..])
  }

  /** A gate's id as text; a string is its own, and none is the empty text. */
  predicate IdText(env: Env, g: Fields, text: string) {
    text == if "id" in g then (if g["id"].Str? then g["id"].s else env.show(g["id"])) else ""
  }

  ghost predicate HasGates(env: Env, m: Fields, gates: seq<Fields>) {
    && "human_gate_definitions" in m && m["human_gate_definitions"].List? && |m["human_gate_definitions"].items| == |gates|
    && forall i | 0 <= i < |gates| :: RedactionPaths.Masked(env.secretKey, Obj(gates[i], []), m["human_gate_definitions"].items[i])
  }

  /** The gate definitions by the text of their id. */
  ghost predicate GatesDoc(env: Env, m: Fields, gates: seq<Fields>) {
    exists order, texts :: HasGates(env, m, order) && multiset(order) == multiset(gates) && IdsAscend(env, order, texts)
  }

  ghost predicate IdsAscend(env: Env, gates: seq<Fields>, texts: seq<string>) {
    |texts| == |gates| && Ascending(StrLe, texts) && forall i :: 0 <= i < |gates| ==> IdText(env, gates[i], texts[i])
  }

  /** What the document of a frozen plan is. */
  ghost predicate FrozenDoc(env: Env, m: Fields, p: FrozenPlan) {
    && Has(m, "record_kind", Str("external_project_frozen_plan"))
    && Has(m, "schema_version", Str(p.project.schemaVersion)) && Has(m, "contract_version", Str(p.project.contractVersion))
    && HasSection(m, "project") && ProjectDoc(env, m["project"].fields, p.project)
    && TasksDoc(env, m, p.tasks) && EdgesDoc(m, p.tasks) && GatesDoc(env, m, p.humanGateDefinitions)
    && Has(m, "effective_concurrency", p.effectiveConcurrency)
    && HasHash(env, m, "frozen_plan_hash")
  }

  lemma TasksShown(env: Env, m: Fields, tasks: seq<RuntimeTask>)
    requires Has(m, "tasks", PrintTasks(env, Sort(TaskLe, tasks)))
    ensures TasksDoc(env, m, tasks)
  {
    hide TaskDoc, PrintTask;
    var order := Sort(TaskLe, tasks);
    forall i | 0 <= i < |order| ensures m["tasks"].items[i].Obj? && TaskDoc(env, m["tasks"].items[i].fields, order[i]) {
      TaskPrinted(env, order[i]);
    }
    StrOrder();
    SortAscends(TaskLe, tasks);
    SortPermutes(TaskLe, tasks);
    hide StrLe;
    forall i, j | 0 <= i < j < |order| ensures StrLe(order[i].id, order[j].id) {
      assert TaskLe(order[i], order[j]);
    }
    assert HasTasks(env, m, order);
  }

  lemma {:induction false} EdgesCounted(tasks: seq<RuntimeTask>)
    ensures |TaskEdges(tasks)| == DependencyCount(tasks)
  {
    if tasks != [] {
      EdgesCounted(tasks[1..]);
    }
  }

  lemma EdgesListed(p: FrozenPlan)
    ensures EdgeListing(DependencyEdges(p), p.tasks)
  {
    var pairs := DependencyEdges(p);
    EdgeOrder();
    SortAscends(EdgeLe, TaskEdges(p.tasks));
    SortPermutes(EdgeLe, TaskEdges(p.tasks));
    EdgesCounted(p.tasks);
    hide TupleLe, TaskEdges;
    DependencyEdgeFacts(p);
    forall a, b ensures (a, b) in pairs <==> exists t :: t in p.tasks && t.id == a && b in t.dependsOn {
      TaskEdgeMeaning(p.tasks, (a, b));
      assert (a, b) in pairs <==> (a, b) in Elements(pairs);
    }
    forall i, j | 0 <= i < j < |pairs| ensures TupleLe([pairs[i].0, pairs[i].1], [pairs[j].0, pairs[j].1]) {
      assert EdgeLe(pairs[i], pairs[j]);
    }
  }

  lemma EdgesShown(m: Fields, p: FrozenPlan)
    requires Has(m, "dependency_edges", PrintEdges(DependencyEdges(p)))
    ensures EdgesDoc(m, p.tasks)
  {
    EdgesListed(p);
    hide DependencyEdges, EdgeListing;
    var pairs := DependencyEdges(p);
    forall i | 0 <= i < |pairs| ensures m["dependency_edges"].items[i] == List([Str(pairs[i].0), Str(pairs[i].1)]) {
      assert StrList([pairs[i].0, pairs[i].1]).items == [Str(pairs[i].0), Str(pairs[i].1)];
    }
    assert HasPairs(m, "dependency_edges", pairs);
  }

  lemma GatesShown(env: Env, m: Fields, gates: seq<Fields>)
    requires Has(m, "human_gate_definitions", PrintGates(env, SortGates(env, gates)))
    ensures GatesDoc(env, m, gates)
  {
    var order := SortGates(env, gates);
    GateOrderTotal(env);
    SortAscends(GateOrder(env), gates);
    SortPermutes(GateOrder(env), gates);
    hide SortGates, Record, RedactMapping, RedactionPaths.Masked, TotalPreorder, StrLe;
    forall i | 0 <= i < |order| ensures RedactionPaths.Masked(env.secretKey, Obj(order[i], []), m["human_gate_definitions"].items[i]) {
      RedactsToRecord(env.secretKey, Obj(order[i], []));
      RedactionPaths.RedactionMasks(env.secretKey, Obj(order[i], []));
    }
    var texts := seq(|order|, i requires 0 <= i < |order| => TextOf(env, order[i], "id"));
    forall i, j | 0 <= i < j < |order| ensures StrLe(texts[i], texts[j]) {
      assert GateOrder(env)(order[i], order[j]);
    }
    assert IdsAscend(env, order, texts) && HasGates(env, m, order);
  }

  predicate FrozenTexts(m: Fields, p: FrozenPlan) {
    && Has(m, "record_kind", Str("external_project_frozen_plan"))
    && Has(m, "schema_version", Str(p.project.schemaVersion)) && Has(m, "contract_version", Str(p.project.contractVersion))
    && Has(m, "dependency_edges", PrintEdges(DependencyEdges(p)))
  }

  lemma FrozenTextsPrinted(env: Env, p: FrozenPlan)
    ensures FrozenTexts(PrintFrozenPlan(env, p), p)
  {
    hide Record, PrintProject, PrintTasks, PrintEdges, PrintGates, SortGates, DependencyEdges, FrozenPlanHash, Sort;
  }

  lemma FrozenHashed(env: Env, p: FrozenPlan)
    ensures HasHash(env, PrintFrozenPlan(env, p), "frozen_plan_hash")
  {
    hide Record, PrintProject, PrintTasks, PrintEdges, PrintGates, SortGates, DependencyEdges, Sort;
    assert "frozen_plan_hash" !in FrozenPayload(env, p);
    hide FrozenPayload;
    HashPrinted(env, FrozenPayload(env, p), "frozen_plan_hash", env.hash(Record(FrozenPayload(env, p))));
  }

  /** The printed document is that of the plan: every value in its place, secrets masked, lists in order, hashes over the rest. */
  lemma FrozenPlanPrinted(env: Env, p: FrozenPlan)
    ensures FrozenDoc(env, PrintFrozenPlan(env, p), p)
  {
    FrozenSectionsPrinted(env, p);
    FrozenTextsPrinted(env, p);
    FrozenHashed(env, p);
    ProjectPrinted(env, p.project);
    hide PrintFrozenPlan, PrintProject, ProjectDoc, TasksDoc, EdgesDoc, GatesDoc, HasHash, PrintTasks, PrintEdges, PrintGates;
    TasksShown(env, PrintFrozenPlan(env, p), p.tasks);
    EdgesShown(PrintFrozenPlan(env, p), p);
    GatesShown(env, PrintFrozenPlan(env, p), p.humanGateDefinitions);
  }
}
