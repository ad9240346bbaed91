/** Which documents the readers of a frozen plan accept, and what each says: key by key, with what an absent key stands for. */
module DocumentSchema {
  import opened Order
  import opened JsonValues
  import opened ExternalProjectModel
  import opened Wrappers

  // ----- Fields -----

  /** A text that is not empty. */
  predicate TextField(m: Fields, key: string, x: string) {
    key in m && m[key] == Str(x) && x != ""
  }

  predicate TextOr(m: Fields, key: string, default: string, x: string) {
    if key in m then TextField(m, key, x) else x == default
  }

  /** A text, or none for null or an absent key. */
  predicate NullableText(m: Fields, key: string, x: Option<string>) {
    if key in m && m[key] != Null then x.Some? && m[key] == Str(x.value) else x == None
  }

  predicate TextsField(m: Fields, key: string, xs: seq<string>) {
    key in m && m[key].List? && |m[key].items| == |xs| && forall i | 0 <= i < |xs| :: m[key].items[i] == Str(xs[i])
  }

  predicate TextsOr(m: Fields, key: string, default: seq<string>, xs: seq<string>) {
    if key in m then TextsField(m, key, xs) else xs == default
  }

  predicate FlagOr(m: Fields, key: string, default: bool, b: bool) {
    if key in m then m[key] == Bool(b) else b == default
  }

  predicate Section(m: Fields, key: string) {
    key in m && m[key].Obj?
  }

  lemma ReadsText(m: Fields, key: string)
    ensures forall x :: RequiredStr(m, key) == Ok(x) <==> TextField(m, key, x)
  {}

  lemma ReadsTextOr(m: Fields, key: string, default: string)
    requires default != ""
    ensures forall x :: OptionalStr(m, key, default) == Ok(x) <==> TextOr(m, key, default, x)
  {}

  lemma ReadsNullable(m: Fields, key: string)
    ensures forall x :: NullableStr(m, key) == Ok(x) <==> NullableText(m, key, x)
  {}

  lemma ReadsTexts(m: Fields, key: string)
    ensures forall xs :: RequiredStrs(m, key) == Ok(xs) <==> TextsField(m, key, xs)
  {
    forall xs ensures RequiredStrs(m, key) == Ok(xs) <==> TextsField(m, key, xs) {
      if TextsField(m, key, xs) {
        assert StrItems(m[key]) == xs;
      }
    }
  }

  lemma ReadsTextsOr(m: Fields, key: string, default: seq<string>)
    ensures forall xs :: OptionalStrs(m, key, default) == Ok(xs) <==> TextsOr(m, key, default, xs)
  {
    ReadsTexts(m, key);
    hide RequiredStrs, TextsField;
  }

  lemma ReadsFlagOr(m: Fields, key: string, default: bool)
    ensures forall b :: OptionalBool(m, key, default) == Ok(b) <==> FlagOr(m, key, default, b)
  {}

  // ----- The parts of a project -----

  predicate DescribesWorkspace(m: Fields, w: Workspace) {
    && TextField(m, "workspace_id", w.workspaceId) && TextField(m, "root_path", w.rootPath) && TextOr(m, "state", "DECLARED", w.state)
    && NullableText(m, "owner_project_id", w.ownerProjectId) && TextsOr(m, "allowed_roots", [], w.allowedRoots)
    && TextsOr(m, "prohibited_paths", DEFAULT_PROHIBITED_PATHS, w.prohibitedPaths)
  }

  lemma WorkspaceRead(m: Fields, w: Workspace)
    ensures ReadWorkspace(m) == Ok(w) <==> DescribesWorkspace(m, w)
  {
    ReadsText(m, "workspace_id");
    ReadsText(m, "root_path");
    ReadsTextOr(m, "state", "DECLARED");
    ReadsNullable(m, "owner_project_id");
    ReadsTextsOr(m, "allowed_roots", []);
    ReadsTextsOr(m, "prohibited_paths", DEFAULT_PROHIBITED_PATHS);
    hide RequiredStr, OptionalStr, NullableStr, OptionalStrs, TextField, TextOr, NullableText, TextsOr, DEFAULT_PROHIBITED_PATHS;
  }

  predicate DescribesRepository(m: Fields, r: Repository) {
    && TextField(m, "repository_id", r.repositoryId) && TextField(m, "workspace_id", r.workspaceId)
    && NullableText(m, "remote_url", r.remoteUrl) && TextOr(m, "default_branch", "main", r.defaultBranch)
    && TextOr(m, "state", "DECLARED", r.state) && TextOr(m, "commit_policy", "verified_commits_only", r.commitPolicy)
    && FlagOr(m, "control_plane_write_authority", false, r.controlPlaneWriteAuthority)
    && FlagOr(m, "push_requires_human_gate", true, r.pushRequiresHumanGate)
  }

  lemma RepositoryRead(m: Fields, r: Repository)
    ensures ReadRepository(m) == Ok(r) <==> DescribesRepository(m, r)
  {
    ReadsText(m, "repository_id");
    ReadsText(m, "workspace_id");
    ReadsNullable(m, "remote_url");
    ReadsTextOr(m, "default_branch", "main");
    ReadsTextOr(m, "state", "DECLARED");
    ReadsTextOr(m, "commit_policy", "verified_commits_only");
    ReadsFlagOr(m, "control_plane_write_authority", false);
    ReadsFlagOr(m, "push_requires_human_gate", true);
    hide RequiredStr, OptionalStr, NullableStr, OptionalBool, TextField, TextOr, NullableText, FlagOr;
  }

  predicate DescribesPlan(m: Fields, p: Plan) {
    && TextField(m, "plan_id", p.planId) && TextField(m, "version", p.version) && TextOr(m, "state", "DRAFT", p.state)
    && TextsOr(m, "task_ids", [], p.taskIds) && NullableText(m, "plan_hash", p.planHash)
    && TextsOr(m, "required_human_gates", [], p.requiredHumanGates)
    && TextsOr(m, "verification_commands", MANDATORY_VERIFICATION_COMMANDS, p.verificationCommands)
    && FlagOr(m, "independent_verification_required", true, p.independentVerificationRequired)
    && TextOr(m, "control_plane_authority", "existing_ai_enterprise_control_plane", p.controlPlaneAuthority)
  }

  lemma PlanRead(m: Fields, p: Plan)
    ensures ReadPlan(m) == Ok(p) <==> DescribesPlan(m, p)
  {
    ReadsText(m, "plan_id");
    ReadsText(m, "version");
    ReadsTextOr(m, "state", "DRAFT");
    ReadsTextsOr(m, "task_ids", []);
    ReadsNullable(m, "plan_hash");
    ReadsTextsOr(m, "required_human_gates", []);
    ReadsTextsOr(m, "verification_commands", MANDATORY_VERIFICATION_COMMANDS);
    ReadsFlagOr(m, "independent_verification_required", true);
    ReadsTextOr(m, "control_plane_authority", CONTROL_PLANE_AUTHORITY);
    hide RequiredStr, OptionalStr, NullableStr, OptionalStrs, OptionalBool, TextField, TextOr, NullableText, TextsOr, FlagOr;
    hide MANDATORY_VERIFICATION_COMMANDS;
  }

  predicate DescribesBinding(m: Fields, b: RuntimeBinding) {
    DescribesBindingIds(m, b) && DescribesBindingSettings(m, b)
  }

  predicate DescribesBindingIds(m: Fields, b: RuntimeBinding) {
    && TextField(m, "binding_id", b.bindingId) && TextField(m, "project_id", b.projectId) && TextField(m, "workspace_id", b.workspaceId)
    && TextField(m, "repository_id", b.repositoryId) && TextField(m, "plan_id", b.planId) && TextField(m, "plan_version", b.planVersion)
    && TextOr(m, "state", "PENDING_GATES", b.state)
  }

  predicate DescribesBindingSettings(m: Fields, b: RuntimeBinding) {
    && TextsOr(m, "pending_human_gates", [], b.pendingHumanGates) && TextsOr(m, "approved_human_gates", [], b.approvedHumanGates)
    && TextsOr(m, "verification_commands", MANDATORY_VERIFICATION_COMMANDS, b.verificationCommands)
    && TextOr(m, "control_plane_authority", "existing_ai_enterprise_control_plane", b.controlPlaneAuthority)
    && FlagOr(m, "grants_control_plane_authority", false, b.grantsControlPlaneAuthority)
    && FlagOr(m, "verifier_bypass_authority", false, b.verifierBypassAuthority)
    && FlagOr(m, "implicit_human_gate_approval", false, b.implicitHumanGateApproval)
  }

  lemma BindingRead(m: Fields, b: RuntimeBinding)
    ensures ReadBinding(m) == Ok(b) <==> DescribesBinding(m, b)
  {
    ReadsText(m, "binding_id");
    ReadsText(m, "project_id");
    ReadsText(m, "workspace_id");
    ReadsText(m, "repository_id");
    ReadsText(m, "plan_id");
    ReadsText(m, "plan_version");
    ReadsTextOr(m, "state", "PENDING_GATES");
    ReadsTextsOr(m, "pending_human_gates", []);
    ReadsTextsOr(m, "approved_human_gates", []);
    ReadsTextsOr(m, "verification_commands", MANDATORY_VERIFICATION_COMMANDS);
    ReadsTextOr(m, "control_plane_authority", CONTROL_PLANE_AUTHORITY);
    ReadsFlagOr(m, "grants_control_plane_authority", false);
    ReadsFlagOr(m, "verifier_bypass_authority", false);
    ReadsFlagOr(m, "implicit_human_gate_approval", false);
    hide RequiredStr, OptionalStr, OptionalStrs, OptionalBool, TextField, TextOr, TextsOr, FlagOr, MANDATORY_VERIFICATION_COMMANDS;
  }

  /** Metadata is an object, or none for null or an absent key. */
  predicate DescribesMetadata(m: Fields, metadata: Option<Fields>) {
    if "metadata" in m && m["metadata"] != Null then Section(m, "metadata") && metadata == Some(m["metadata"].fields) else metadata == None
  }

  predicate DescribesArtifact(m: Fields, a: Artifact) {
    && TextField(m, "artifact_id", a.artifactId) && TextField(m, "project_id", a.projectId) && TextField(m, "workspace_id", a.workspaceId)
    && TextField(m, "kind", a.kind) && TextField(m, "relative_path", a.relativePath) && TextField(m, "content_hash", a.contentHash)
    && TextOr(m, "producer", "external_project_runtime", a.producer) && TextOr(m, "authority_state", "NON_AUTHORITATIVE", a.authorityState)
    && FlagOr(m, "contains_secret", false, a.containsSecret) && DescribesMetadata(m, a.metadata)
  }

  lemma MetadataRead(m: Fields)
    ensures forall x :: ReadMetadata(m) == Ok(x) <==> DescribesMetadata(m, x)
  {}

  lemma ArtifactRead(m: Fields, a: Artifact)
    ensures ReadArtifact(m) == Ok(a) <==> DescribesArtifact(m, a)
  {
    ReadsText(m, "artifact_id");
    ReadsText(m, "project_id");
    ReadsText(m, "workspace_id");
    ReadsText(m, "kind");
    ReadsText(m, "relative_path");
    ReadsText(m, "content_hash");
    ReadsTextOr(m, "producer", "external_project_runtime");
    ReadsTextOr(m, "authority_state", "NON_AUTHORITATIVE");
    ReadsFlagOr(m, "contains_secret", false);
    MetadataRead(m);
    hide RequiredStr, OptionalStr, OptionalBool, ReadMetadata, TextField, TextOr, FlagOr, DescribesMetadata;
  }

  // ----- Tasks -----

  predicate DescribesImplements(m: Fields, t: RuntimeTask) {
    && TextsField(m, "requirements", t.requirementIds) && TextsField(m, "capabilities", t.capabilityIds)
    && TextsOr(m, "components", [], t.componentIds) && TextsOr(m, "interfaces", [], t.interfaceIds)
  }

  predicate DescribesScope(m: Fields, t: RuntimeTask) {
    TextsField(m, "allowed", t.allowedPaths) && TextsOr(m, "prohibited", DEFAULT_PROHIBITED_PATHS, t.prohibitedPaths)
  }

  predicate DescribesExecution(m: Fields, t: RuntimeTask) {
    && TextOr(m, "agent_role", "external-project-implementation", t.agentRole) && TextOr(m, "model_profile", "STANDARD_CODING", t.modelProfile)
    && TextOr(m, "executor", "codex", t.executor)
  }

  predicate DescribesVerification(m: Fields, t: RuntimeTask) {
    && TextOr(m, "profile", "STANDARD_REGRESSION", t.verificationProfile)
    && TextsOr(m, "commands", MANDATORY_VERIFICATION_COMMANDS, t.verificationCommands)
    && TextsOr(m, "acceptance_criteria", [], t.acceptanceCriteria)
  }

  predicate DescribesRisk(m: Fields, t: RuntimeTask) {
    && TextOr(m, "level", "LOW", t.riskLevel) && TextOr(m, "reason", "bounded external-project runtime task", t.riskReason)
  }

  predicate DescribesSections(m: Fields, t: RuntimeTask) {
    && Section(m, "implements") && DescribesImplements(m["implements"].fields, t)
    && Section(m, "write_scope") && DescribesScope(m["write_scope"].fields, t)
    && Section(m, "execution") && DescribesExecution(m["execution"].fields, t)
    && Section(m, "verification") && DescribesVerification(m["verification"].fields, t)
    && Section(m, "risk") && DescribesRisk(m["risk"].fields, t)
  }

  /** Provenance is an object, empty for an absent key. */
  predicate DescribesProvenance(m: Fields, provenance: Fields) {
    if "provenance" in m then Section(m, "provenance") && provenance == m["provenance"].fields else provenance == map[]
  }

  predicate DescribesTask(m: Fields, t: RuntimeTask) {
    && TextField(m, "id", t.id) && TextField(m, "title", t.title) && TextField(m, "objective", t.objective)
    && TextsOr(m, "depends_on", [], t.dependsOn) && DescribesProvenance(m, t.provenance) && NullableText(m, "fingerprint", t.fingerprint)
    && DescribesSections(m, t)
  }

  function ImplementsOf(t: RuntimeTask): Implements {
    Implements(t.requirementIds, t.capabilityIds, t.componentIds, t.interfaceIds)
  }

  function SectionsOf(t: RuntimeTask): Sections {
    Sections(ImplementsOf(t), (t.allowedPaths, t.prohibitedPaths), (t.agentRole, t.modelProfile, t.executor),
             (t.verificationProfile, t.verificationCommands, t.acceptanceCriteria), (t.riskLevel, t.riskReason))
  }

  lemma ImplementsRead(m: Fields, t: RuntimeTask)
    ensures ReadImplements(m) == Ok(ImplementsOf(t)) <==> DescribesImplements(m, t)
  {
    ReadsTexts(m, "requirements");
    ReadsTexts(m, "capabilities");
    ReadsTextsOr(m, "components", []);
    ReadsTextsOr(m, "interfaces", []);
    hide RequiredStrs, OptionalStrs, TextsField, TextsOr;
  }

  lemma ScopeRead(m: Fields, t: RuntimeTask)
    ensures ReadWriteScope(m) == Ok((t.allowedPaths, t.prohibitedPaths)) <==> DescribesScope(m, t)
  {
    ReadsTexts(m, "allowed");
    ReadsTextsOr(m, "prohibited", DEFAULT_PROHIBITED_PATHS);
    hide RequiredStrs, OptionalStrs, TextsField, TextsOr, DEFAULT_PROHIBITED_PATHS;
  }

  lemma ExecutionRead(m: Fields, t: RuntimeTask)
    ensures ReadExecution(m) == Ok((t.agentRole, t.modelProfile, t.executor)) <==> DescribesExecution(m, t)
  {
    ReadsTextOr(m, "agent_role", "external-project-implementation");
    ReadsTextOr(m, "model_profile", "STANDARD_CODING");
    ReadsTextOr(m, "executor", "codex");
    hide OptionalStr, TextOr;
  }

  lemma VerificationRead(m: Fields, t: RuntimeTask)
    ensures ReadVerification(m) == Ok((t.verificationProfile, t.verificationCommands, t.acceptanceCriteria)) <==> DescribesVerification(m, t)
  {
    ReadsTextOr(m, "profile", "STANDARD_REGRESSION");
    ReadsTextsOr(m, "commands", MANDATORY_VERIFICATION_COMMANDS);
    ReadsTextsOr(m, "acceptance_criteria", []);
    hide OptionalStr, OptionalStrs, TextOr, TextsOr, MANDATORY_VERIFICATION_COMMANDS;
  }

  lemma RiskRead(m: Fields, t: RuntimeTask)
    ensures ReadRisk(m) == Ok((t.riskLevel, t.riskReason)) <==> DescribesRisk(m, t)
  {
    ReadsTextOr(m, "level", "LOW");
    ReadsTextOr(m, "reason", "bounded external-project runtime task");
    hide OptionalStr, TextOr;
  }

  lemma SectionsRead(m: Fields, t: RuntimeTask)
    ensures ReadSections(m) == Ok(SectionsOf(t)) <==> DescribesSections(m, t)
  {
    if Section(m, "implements") { ImplementsRead(m["implements"].fields, t); }
    if Section(m, "write_scope") { ScopeRead(m["write_scope"].fields, t); }
    if Section(m, "execution") { ExecutionRead(m["execution"].fields, t); }
    if Section(m, "verification") { VerificationRead(m["verification"].fields, t); }
    if Section(m, "risk") { RiskRead(m["risk"].fields, t); }
    hide ReadImplements, ReadWriteScope, ReadExecution, ReadVerification, ReadRisk;
    hide DescribesImplements, DescribesScope, DescribesExecution, DescribesVerification, DescribesRisk;
  }

  lemma ProvenanceRead(m: Fields)
    ensures forall x :: ReadProvenance(m) == Ok(x) <==> DescribesProvenance(m, x)
  {}

  lemma TaskRead(m: Fields, t: RuntimeTask)
    ensures ReadTask(m) == Ok(t) <==> DescribesTask(m, t)
  {
    ReadsText(m, "id");
    ReadsText(m, "title");
    ReadsText(m, "objective");
    ReadsTextsOr(m, "depends_on", []);
    ProvenanceRead(m);
    ReadsNullable(m, "fingerprint");
    SectionsRead(m, t);
    hide RequiredStr, OptionalStrs, ReadProvenance, NullableStr, ReadSections, TextField, TextsOr, DescribesProvenance, NullableText, DescribesSections;
    if ReadTask(m) == Ok(t) {
      assert ReadSections(m).value == SectionsOf(t);
    }
  }

  // ----- Lists of records -----

  /** A list of objects, each describing one of these. */
  ghost predicate Lists<T>(m: Fields, key: string, describes: (Fields, T) -> bool, xs: seq<T>) {
    && key in m && m[key].List? && |m[key].items| == |xs|
    && forall i :: 0 <= i < |xs| ==> m[key].items[i].Obj? && describes(m[key].items[i].fields, xs[i])
  }

  lemma AllRead<T>(f: Fields -> Read<T>, describes: (Fields, T) -> bool, items: seq<Fields>, xs: seq<T>)
    requires forall m, x :: f(m) == Ok(x) <==> describes(m, x)
    ensures ReadAll(f, items) == Ok(xs) <==> |items| == |xs| && forall i :: 0 <= i < |xs| ==> describes(items[i], xs[i])
  {
    if |items| == |xs| && forall i :: 0 <= i < |xs| ==> describes(items[i], xs[i]) {
      ReadAllOk(f, items, xs);
    }
    if ReadAll(f, items) == Ok(xs) {
      AllReadBack(f, items, xs);
    }
  }

  lemma {:induction false} AllReadBack<T>(f: Fields -> Read<T>, items: seq<Fields>, xs: seq<T>)
    requires ReadAll(f, items) == Ok(xs)
    ensures |items| == |xs| && forall i :: 0 <= i < |xs| ==> f(items[i]) == Ok(xs[i])
  {
    if items != [] {
      AllReadBack(f, items[1..], xs[1..]);
    }
  }

  lemma ListRead<T>(m: Fields, key: string, f: Fields -> Read<T>, describes: (Fields, T) -> bool, xs: seq<T>)
    requires forall m, x :: f(m) == Ok(x) <==> describes(m, x)
    ensures (RequiredMappings(m, key).Ok? && ReadAll(f, RequiredMappings(m, key).value) == Ok(xs)) <==> Lists(m, key, describes, xs)
  {
    if RequiredMappings(m, key).Ok? {
      AllRead(f, describes, RequiredMappings(m, key).value, xs);
    }
  }

  /** Such a list, or none for null or an absent key. */
  ghost predicate ListsOr<T>(m: Fields, key: string, describes: (Fields, T) -> bool, xs: seq<T>) {
    if key in m && m[key] != Null then Lists(m, key, describes, xs) else xs == []
  }

  lemma OptionalListRead<T>(m: Fields, key: string, f: Fields -> Read<T>, describes: (Fields, T) -> bool, xs: seq<T>)
    requires forall m, x :: f(m) == Ok(x) <==> describes(m, x)
    ensures (OptionalMappings(m, key).Ok? && ReadAll(f, OptionalMappings(m, key).value) == Ok(xs)) <==> ListsOr(m, key, describes, xs)
  {
    ListRead(m, key, f, describes, xs);
  }

  // ----- The plan -----

  ghost predicate DescribesParts(m: Fields, p: Project) {
    && Section(m, "workspace") && DescribesWorkspace(m["workspace"].fields, p.workspace)
    && Section(m, "repository") && DescribesRepository(m["repository"].fields, p.repository)
    && Section(m, "plan") && DescribesPlan(m["plan"].fields, p.plan)
    && Section(m, "runtime_binding") && DescribesBinding(m["runtime_binding"].fields, p.binding)
    && ListsOr(m, "artifacts", DescribesArtifact, p.artifacts)
  }

  ghost predicate DescribesProject(m: Fields, p: Project) {
    && TextField(m, "project_id", p.projectId) && TextField(m, "name", p.name) && TextField(m, "lifecycle_state", p.lifecycleState)
    && TextOr(m, "schema_version", "ai-ent-external-project-model-v0.1", p.schemaVersion)
    && TextOr(m, "contract_version", "prd-task-001.1", p.contractVersion)
    && DescribesParts(m, p)
  }

  /** The fields of each object of a list, or none for null or an absent key. */
  predicate DescribesGates(m: Fields, gates: seq<Fields>) {
    if "human_gate_definitions" in m && m["human_gate_definitions"] != Null then
      var items := m["human_gate_definitions"];
      items.List? && |items.items| == |gates| && forall i | 0 <= i < |gates| :: items.items[i].Obj? && items.items[i].fields == gates[i]
    else gates == []
  }

  /** A whole number or a flag, which Python counts as one; absent, it is 1. */
  predicate DescribesConcurrency(m: Fields, n: Json) {
    if "effective_concurrency" in m then n == m["effective_concurrency"] && (n.Int? || n.Bool?) else n == Int(1)
  }

  ghost predicate DescribesBarePlan(m: Fields, p: FrozenPlan) {
    && Section(m, "project") && DescribesProject(m["project"].fields, p.project)
    && Lists(m, "tasks", DescribesTask, p.tasks)
    && DescribesGates(m, p.humanGateDefinitions) && DescribesConcurrency(m, p.effectiveConcurrency)
  }

  /** A plan stands in its document as it is, or under `frozen_plan`. */
  ghost predicate DescribesFrozenPlan(m: Fields, p: FrozenPlan) {
    if "frozen_plan" in m then Section(m, "frozen_plan") && DescribesBarePlan(m["frozen_plan"].fields, p) else DescribesBarePlan(m, p)
  }

  function PartsOf(p: Project): Parts {
    Parts(p.workspace, p.repository, p.plan, p.binding, p.artifacts)
  }

  lemma ArtifactsRead(m: Fields, xs: seq<Artifact>)
    ensures (OptionalMappings(m, "artifacts").Ok? && ReadAll(ReadArtifact, OptionalMappings(m, "artifacts").value) == Ok(xs))
            <==> ListsOr(m, "artifacts", DescribesArtifact, xs)
  {
    forall n, x ensures ReadArtifact(n) == Ok(x) <==> DescribesArtifact(n, x) {
      ArtifactRead(n, x);
    }
    hide ReadArtifact, DescribesArtifact;
    OptionalListRead(m, "artifacts", ReadArtifact, DescribesArtifact, xs);
  }

  lemma PartsRead(m: Fields, p: Project)
    ensures ReadParts(m) == Ok(PartsOf(p)) <==> DescribesParts(m, p)
  {
    if Section(m, "workspace") { WorkspaceRead(m["workspace"].fields, p.workspace); }
    if Section(m, "repository") { RepositoryRead(m["repository"].fields, p.repository); }
    if Section(m, "plan") { PlanRead(m["plan"].fields, p.plan); }
    if Section(m, "runtime_binding") { BindingRead(m["runtime_binding"].fields, p.binding); }
    ArtifactsRead(m, p.artifacts);
    hide ReadWorkspace, ReadRepository, ReadPlan, ReadBinding, ReadAll, ReadArtifact, OptionalMappings;
    hide DescribesWorkspace, DescribesRepository, DescribesPlan, DescribesBinding, ListsOr;
  }

  lemma ProjectRead(m: Fields, p: Project)
    ensures ReadProject(m) == Ok(p) <==> DescribesProject(m, p)
  {
    ReadsText(m, "project_id");
    ReadsText(m, "name");
    ReadsText(m, "lifecycle_state");
    ReadsTextOr(m, "schema_version", MODEL_SCHEMA_VERSION);
    ReadsTextOr(m, "contract_version", MODEL_CONTRACT_VERSION);
    PartsRead(m, p);
    hide RequiredStr, OptionalStr, ReadParts, TextField, TextOr, DescribesParts;
    if ReadProject(m) == Ok(p) {
      assert ReadParts(m).value == PartsOf(p);
    }
  }

  lemma TasksRead(m: Fields, xs: seq<RuntimeTask>)
    ensures (RequiredMappings(m, "tasks").Ok? && ReadAll(ReadTask, RequiredMappings(m, "tasks").value) == Ok(xs))
            <==> Lists(m, "tasks", DescribesTask, xs)
  {
    forall n, x ensures ReadTask(n) == Ok(x) <==> DescribesTask(n, x) {
      TaskRead(n, x);
    }
    hide ReadTask, DescribesTask;
    ListRead(m, "tasks", ReadTask, DescribesTask, xs);
  }

  lemma GatesRead(m: Fields)
    ensures forall gates :: OptionalMappings(m, "human_gate_definitions") == Ok(gates) <==> DescribesGates(m, gates)
  {
    forall gates ensures OptionalMappings(m, "human_gate_definitions") == Ok(gates) <==> DescribesGates(m, gates) {
      if "human_gate_definitions" in m && IsMappingList(m["human_gate_definitions"]) && DescribesGates(m, gates) {
        assert Mappings(m["human_gate_definitions"]) == gates;
      }
    }
  }

  lemma ConcurrencyRead(m: Fields)
    ensures forall n :: OptionalInt(m, "effective_concurrency", 1) == Ok(n) <==> DescribesConcurrency(m, n)
  {}

  lemma BarePlanRead(m: Fields, p: FrozenPlan)
    ensures ReadBarePlan(m) == Ok(p) <==> DescribesBarePlan(m, p)
  {
    if Section(m, "project") { ProjectRead(m["project"].fields, p.project); }
    TasksRead(m, p.tasks);
    GatesRead(m);
    ConcurrencyRead(m);
    hide ReadProject, ReadAll, ReadTask, RequiredMappings, OptionalMappings, OptionalInt;
    hide DescribesProject, Lists, DescribesGates, DescribesConcurrency;
  }

  /** A document can be read exactly when it describes a plan, which then is what is read. */
  lemma FrozenPlanRead(m: Fields, p: FrozenPlan)
    ensures ReadFrozenPlan(m) == Ok(p) <==> DescribesFrozenPlan(m, p)
  {
    hide ReadBarePlan, DescribesBarePlan;
    BarePlanRead(if "frozen_plan" in m && m["frozen_plan"].Obj? then m["frozen_plan"].fields else m, p);
  }
}
