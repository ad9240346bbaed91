/** External frozen plans and their document form: the records, the printers and the readers. */
module ExternalProjectModel {
  import opened Order
  import opened JsonValues
  import opened DependencyGraph
  import opened Wrappers
  import RemoteUrls

  const MODEL_SCHEMA_VERSION := "ai-ent-external-project-model-v0.1"
  const MODEL_CONTRACT_VERSION := "prd-task-001.1"
  const CONTROL_PLANE_AUTHORITY := "existing_ai_enterprise_control_plane"
  const MANDATORY_VERIFICATION_COMMANDS := [
    "/home/user/projects/ai_ent/aient/bin/python -m pytest -q",
    "/home/user/projects/ai_ent/aient/bin/python -m ruff check .",
    "/home/user/projects/ai_ent/aient/bin/python -m pyright"
  ]
  const DEFAULT_PROHIBITED_PATHS := [".bootstrap/**", ".build/**", ".env", ".env.*", "aient/**"]

  /** What the model leaves open: the digest, the test for secret markers and Python's `str`. */
  datatype Env = Env(
    hash: Json -> string,
    secretKey: string -> bool,
    show: Json -> string
  )

  datatype Workspace = Workspace(
    workspaceId: string,
    rootPath: string,
    state: string,
    ownerProjectId: Option<string>,
    allowedRoots: seq<string>,
    prohibitedPaths: seq<string>
  )

  datatype Repository = Repository(
    repositoryId: string,
    workspaceId: string,
    remoteUrl: Option<string>,
    defaultBranch: string,
    state: string,
    commitPolicy: string,
    controlPlaneWriteAuthority: bool,
    pushRequiresHumanGate: bool
  )

  datatype Plan = Plan(
    planId: string,
    version: string,
    state: string,
    taskIds: seq<string>,
    planHash: Option<string>,
    requiredHumanGates: seq<string>,
    verificationCommands: seq<string>,
    independentVerificationRequired: bool,
    controlPlaneAuthority: string
  )

  datatype RuntimeBinding = RuntimeBinding(
    bindingId: string,
    projectId: string,
    workspaceId: string,
    repositoryId: string,
    planId: string,
    planVersion: string,
    state: string,
    pendingHumanGates: seq<string>,
    approvedHumanGates: seq<string>,
    verificationCommands: seq<string>,
    controlPlaneAuthority: string,
    grantsControlPlaneAuthority: bool,
    verifierBypassAuthority: bool,
    implicitHumanGateApproval: bool
  )

  datatype Artifact = Artifact(
    artifactId: string,
    projectId: string,
    workspaceId: string,
    kind: string,
    relativePath: string,
    contentHash: string,
    producer: string,
    authorityState: string,
    containsSecret: bool,
    metadata: Option<Fields>
  )

  datatype RuntimeTask = RuntimeTask(
    id: Id,
    title: string,
    objective: string,
    requirementIds: seq<string>,
    capabilityIds: seq<string>,
    componentIds: seq<string>,
    interfaceIds: seq<string>,
    dependsOn: seq<Id>,
    allowedPaths: seq<string>,
    prohibitedPaths: seq<string>,
    agentRole: string,
    modelProfile: string,
    executor: string,
    verificationProfile: string,
    verificationCommands: seq<string>,
    acceptanceCriteria: seq<string>,
    riskLevel: string,
    riskReason: string,
    provenance: Fields,
    fingerprint: Option<string>
  )

  datatype Project = Project(
    projectId: string,
    name: string,
    lifecycleState: string,
    workspace: Workspace,
    repository: Repository,
    plan: Plan,
    binding: RuntimeBinding,
    artifacts: seq<Artifact>,
    schemaVersion: string,
    contractVersion: string
  )

  datatype FrozenPlan = FrozenPlan(
    project: Project,
    tasks: seq<RuntimeTask>,
    humanGateDefinitions: seq<Fields>,
    effectiveConcurrency: Json
  )

  // ----- Derived values -----

  function TaskIdsOf(tasks: seq<RuntimeTask>): seq<Id> {
    seq(|tasks|, i requires 0 <= i < |tasks| => tasks[i].id)
  }

  /** The plan's task ids, sorted and with repeats. */
  function TaskIds(p: FrozenPlan): seq<Id> {
    SortStrings(TaskIdsOf(p.tasks))
  }

  predicate EdgeLe(a: Edge, b: Edge) {
    TupleLe([a.0, a.1], [b.0, b.1])
  }

  function TaskEdges(tasks: seq<RuntimeTask>): seq<Edge> {
    if tasks == [] then []
    else EdgesFrom(tasks[0].id, tasks[0].dependsOn) + TaskEdges(tasks[1..])
  }

  function EdgesFrom(id: Id, dependsOn: seq<Id>): seq<Edge> {
    seq(|dependsOn|, i requires 0 <= i < |dependsOn| => (id, dependsOn[i]))
  }

  function DependencyEdges(p: FrozenPlan): seq<Edge> {
    Sort(EdgeLe, TaskEdges(p.tasks))
  }

  predicate TaskLe(a: RuntimeTask, b: RuntimeTask) { StrLe(a.id, b.id) }

  /** `str(gate.get("id", ""))`: a string is its own text. */
  function TextOf(env: Env, g: Fields, key: string): string {
    if key !in g then ""
    else if g[key].Str? then g[key].s
    else env.show(g[key])
  }

  // ----- Printers -----

  function PrintWorkspace(w: Workspace): Fields {
    map[
      "workspace_id" := Str(w.workspaceId),
      "root_path" := Str(w.rootPath),
      "state" := Str(w.state),
      "owner_project_id" := Nullable(w.ownerProjectId),
      "allowed_roots" := StrList(w.allowedRoots),
      "prohibited_paths" := StrList(w.prohibitedPaths)
    ]
  }

  function RedactRemote(env: Env, url: Option<string>): Option<string> {
    match url case None => None case Some(u) => Some(RemoteUrls.RedactUrl(env.secretKey, u))
  }

  function PrintRepository(env: Env, r: Repository): Fields {
    map[
      "repository_id" := Str(r.repositoryId),
      "workspace_id" := Str(r.workspaceId),
      "remote_url" := Nullable(RedactRemote(env, r.remoteUrl)),
      "default_branch" := Str(r.defaultBranch),
      "state" := Str(r.state),
      "commit_policy" := Str(r.commitPolicy),
      "control_plane_write_authority" := Bool(r.controlPlaneWriteAuthority),
      "push_requires_human_gate" := Bool(r.pushRequiresHumanGate)
    ]
  }

  function PlanPayload(p: Plan): Fields {
    map[
      "control_plane_authority" := Str(p.controlPlaneAuthority),
      "independent_verification_required" := Bool(p.independentVerificationRequired),
      "plan_id" := Str(p.planId),
      "required_human_gates" := StrList(SortStrings(p.requiredHumanGates)),
      "state" := Str(p.state),
      "task_ids" := StrList(SortStrings(p.taskIds)),
      "verification_commands" := StrList(p.verificationCommands),
      "version" := Str(p.version)
    ]
  }

  function EffectivePlanHash(env: Env, p: Plan): string {
    match p.planHash case Some(h) => h case None => env.hash(Record(PlanPayload(p)))
  }

  function PrintPlan(env: Env, p: Plan): Fields {
    map[
      "plan_id" := Str(p.planId),
      "version" := Str(p.version),
      "state" := Str(p.state),
      "task_ids" := StrList(p.taskIds),
      "plan_hash" := Str(EffectivePlanHash(env, p)),
      "required_human_gates" := StrList(p.requiredHumanGates),
      "verification_commands" := StrList(p.verificationCommands),
      "independent_verification_required" := Bool(p.independentVerificationRequired),
      "control_plane_authority" := Str(p.controlPlaneAuthority)
    ]
  }

  function PrintBinding(b: RuntimeBinding): Fields {
    map[
      "binding_id" := Str(b.bindingId),
      "project_id" := Str(b.projectId),
      "workspace_id" := Str(b.workspaceId),
      "repository_id" := Str(b.repositoryId),
      "plan_id" := Str(b.planId),
      "plan_version" := Str(b.planVersion),
      "state" := Str(b.state),
      "pending_human_gates" := StrList(b.pendingHumanGates),
      "approved_human_gates" := StrList(b.approvedHumanGates),
      "verification_commands" := StrList(b.verificationCommands),
      "control_plane_authority" := Str(b.controlPlaneAuthority),
      "grants_control_plane_authority" := Bool(b.grantsControlPlaneAuthority),
      "verifier_bypass_authority" := Bool(b.verifierBypassAuthority),
      "implicit_human_gate_approval" := Bool(b.implicitHumanGateApproval)
    ]
  }

  function MetadataOf(a: Artifact): Fields {
    match a.metadata case Some(m) => m case None => map[]
  }

  function PrintArtifact(env: Env, a: Artifact): Fields {
    map[
      "artifact_id" := Str(a.artifactId),
      "project_id" := Str(a.projectId),
      "workspace_id" := Str(a.workspaceId),
      "kind" := Str(a.kind),
      "relative_path" := Str(a.relativePath),
      "content_hash" := Str(a.contentHash),
      "producer" := Str(a.producer),
      "authority_state" := Str(a.authorityState),
      "contains_secret" := Bool(a.containsSecret),
      "metadata" := Record(RedactMapping(env.secretKey, MetadataOf(a)))
    ]
  }

  function PrintImplements(t: RuntimeTask): Fields {
    map[
      "requirements" := StrList(SortStrings(t.requirementIds)),
      "capabilities" := StrList(SortStrings(t.capabilityIds)),
      "components" := StrList(SortStrings(t.componentIds)),
      "interfaces" := StrList(SortStrings(t.interfaceIds))
    ]
  }

  function PrintWriteScope(t: RuntimeTask): Fields {
    map["allowed" := StrList(SortStrings(t.allowedPaths)), "prohibited" := StrList(SortStrings(t.prohibitedPaths))]
  }

  function PrintExecution(t: RuntimeTask): Fields {
    map["agent_role" := Str(t.agentRole), "model_profile" := Str(t.modelProfile), "executor" := Str(t.executor)]
  }

  function PrintVerification(t: RuntimeTask): Fields {
    map[
      "profile" := Str(t.verificationProfile),
      "commands" := StrList(t.verificationCommands),
      "acceptance_criteria" := StrList(t.acceptanceCriteria)
    ]
  }

  function PrintRisk(t: RuntimeTask): Fields {
    map["level" := Str(t.riskLevel), "reason" := Str(t.riskReason)]
  }

  function TaskPayload(env: Env, t: RuntimeTask): Fields {
    map[
      "id" := Str(t.id),
      "title" := Str(t.title),
      "objective" := Str(t.objective),
      "implements" := Record(PrintImplements(t)),
      "depends_on" := StrList(SortStrings(t.dependsOn)),
      "write_scope" := Record(PrintWriteScope(t)),
      "execution" := Record(PrintExecution(t)),
      "verification" := Record(PrintVerification(t)),
      "risk" := Record(PrintRisk(t)),
      "provenance" := Record(RedactMapping(env.secretKey, t.provenance))
    ]
  }

  function EffectiveFingerprint(env: Env, t: RuntimeTask): string {
    match t.fingerprint case Some(f) => f case None => env.hash(Record(TaskPayload(env, t)))
  }

  function PrintTask(env: Env, t: RuntimeTask): Fields {
    TaskPayload(env, t)["fingerprint" := Str(EffectiveFingerprint(env, t))]
  }

  function ProjectPayload(env: Env, p: Project): Fields {
    map[
      "schema_version" := Str(p.schemaVersion),
      "contract_version" := Str(p.contractVersion),
      "project_id" := Str(p.projectId),
      "name" := Str(p.name),
      "lifecycle_state" := Str(p.lifecycleState),
      "workspace" := Record(PrintWorkspace(p.workspace)),
      "repository" := Record(PrintRepository(env, p.repository)),
      "plan" := Record(PrintPlan(env, p.plan)),
      "runtime_binding" := Record(PrintBinding(p.binding)),
      "artifacts" := List(seq(|p.artifacts|, i requires 0 <= i < |p.artifacts| => Record(PrintArtifact(env, p.artifacts[i]))))
    ]
  }

  function PrintProject(env: Env, p: Project): Fields {
    ProjectPayload(env, p)["model_hash" := Str(env.hash(Record(ProjectPayload(env, p))))]
  }

  function PrintTasks(env: Env, tasks: seq<RuntimeTask>): Json {
    List(seq(|tasks|, i requires 0 <= i < |tasks| => Record(PrintTask(env, tasks[i]))))
  }

  function PrintEdges(edges: seq<Edge>): Json {
    List(seq(|edges|, i requires 0 <= i < |edges| => StrList([edges[i].0, edges[i].1])))
  }

  function GateOrder(env: Env): (Fields, Fields) -> bool {
    (a: Fields, b: Fields) => StrLe(TextOf(env, a, "id"), TextOf(env, b, "id"))
  }

  function SortGates(env: Env, gates: seq<Fields>): seq<Fields> {
    Sort(GateOrder(env), gates)
  }

  function PrintGates(env: Env, gates: seq<Fields>): Json {
    List(seq(|gates|, i requires 0 <= i < |gates| => Record(RedactMapping(env.secretKey, gates[i]))))
  }

  function FrozenPayload(env: Env, p: FrozenPlan): Fields {
    map[
      "record_kind" := Str("external_project_frozen_plan"),
      "schema_version" := Str(p.project.schemaVersion),
      "contract_version" := Str(p.project.contractVersion),
      "project" := Record(PrintProject(env, p.project)),
      "tasks" := PrintTasks(env, Sort(TaskLe, p.tasks)),
      "dependency_edges" := PrintEdges(DependencyEdges(p)),
      "human_gate_definitions" := PrintGates(env, SortGates(env, p.humanGateDefinitions)),
      "effective_concurrency" := p.effectiveConcurrency
    ]
  }

  function FrozenPlanHash(env: Env, p: FrozenPlan): string {
    env.hash(Record(FrozenPayload(env, p)))
  }

  function PrintFrozenPlan(env: Env, p: FrozenPlan): Fields {
    FrozenPayload(env, p)["frozen_plan_hash" := Str(FrozenPlanHash(env, p))]
  }

  // ----- Readers -----

  function ReadWorkspace(m: Fields): Read<Workspace> {
    var workspaceId :- RequiredStr(m, "workspace_id");
    var rootPath :- RequiredStr(m, "root_path");
    var state :- OptionalStr(m, "state", "DECLARED");
    var owner :- NullableStr(m, "owner_project_id");
    var allowedRoots :- OptionalStrs(m, "allowed_roots", []);
    var prohibitedPaths :- OptionalStrs(m, "prohibited_paths", DEFAULT_PROHIBITED_PATHS);
    Ok(Workspace(workspaceId, rootPath, state, owner, allowedRoots, prohibitedPaths))
  }

  function ReadRepository(m: Fields): Read<Repository> {
    var repositoryId :- RequiredStr(m, "repository_id");
    var workspaceId :- RequiredStr(m, "workspace_id");
    var remoteUrl :- NullableStr(m, "remote_url");
    var defaultBranch :- OptionalStr(m, "default_branch", "main");
    var state :- OptionalStr(m, "state", "DECLARED");
    var commitPolicy :- OptionalStr(m, "commit_policy", "verified_commits_only");
    var writeAuthority :- OptionalBool(m, "control_plane_write_authority", false);
    var pushGate :- OptionalBool(m, "push_requires_human_gate", true);
    Ok(Repository(repositoryId, workspaceId, remoteUrl, defaultBranch, state, commitPolicy, writeAuthority, pushGate))
  }

  function ReadPlan(m: Fields): Read<Plan> {
    var planId :- RequiredStr(m, "plan_id");
    var version :- RequiredStr(m, "version");
    var state :- OptionalStr(m, "state", "DRAFT");
    var taskIds :- OptionalStrs(m, "task_ids", []);
    var planHash :- NullableStr(m, "plan_hash");
    var gates :- OptionalStrs(m, "required_human_gates", []);
    var commands :- OptionalStrs(m, "verification_commands", MANDATORY_VERIFICATION_COMMANDS);
    var independent :- OptionalBool(m, "independent_verification_required", true);
    var authority :- OptionalStr(m, "control_plane_authority", CONTROL_PLANE_AUTHORITY);
    Ok(Plan(planId, version, state, taskIds, planHash, gates, commands, independent, authority))
  }

  function ReadBinding(m: Fields): Read<RuntimeBinding> {
    var bindingId :- RequiredStr(m, "binding_id");
    var projectId :- RequiredStr(m, "project_id");
    var workspaceId :- RequiredStr(m, "workspace_id");
    var repositoryId :- RequiredStr(m, "repository_id");
    var planId :- RequiredStr(m, "plan_id");
    var planVersion :- RequiredStr(m, "plan_version");
    var state :- OptionalStr(m, "state", "PENDING_GATES");
    var pending :- OptionalStrs(m, "pending_human_gates", []);
    var approved :- OptionalStrs(m, "approved_human_gates", []);
    var commands :- OptionalStrs(m, "verification_commands", MANDATORY_VERIFICATION_COMMANDS);
    var authority :- OptionalStr(m, "control_plane_authority", CONTROL_PLANE_AUTHORITY);
    var grants :- OptionalBool(m, "grants_control_plane_authority", false);
    var bypass :- OptionalBool(m, "verifier_bypass_authority", false);
    var implicit :- OptionalBool(m, "implicit_human_gate_approval", false);
    Ok(RuntimeBinding(bindingId, projectId, workspaceId, repositoryId, planId, planVersion, state, pending, approved,
                      commands, authority, grants, bypass, implicit))
  }

  function ReadArtifact(m: Fields): Read<Artifact> {
    var artifactId :- RequiredStr(m, "artifact_id");
    var projectId :- RequiredStr(m, "project_id");
    var workspaceId :- RequiredStr(m, "workspace_id");
    var kind :- RequiredStr(m, "kind");
    var relativePath :- RequiredStr(m, "relative_path");
    var contentHash :- RequiredStr(m, "content_hash");
    var producer :- OptionalStr(m, "producer", "external_project_runtime");
    var authorityState :- OptionalStr(m, "authority_state", "NON_AUTHORITATIVE");
    var containsSecret :- OptionalBool(m, "contains_secret", false);
    var metadata :- ReadMetadata(m);
    Ok(Artifact(artifactId, projectId, workspaceId, kind, relativePath, contentHash, producer, authorityState,
                containsSecret, metadata))
  }

  function ReadMetadata(m: Fields): Read<Option<Fields>> {
    if "metadata" !in m || m["metadata"].Null? then Ok(None)
    else
      var metadata :- RequireMapping(m, "metadata");
      Ok(Some(metadata))
  }

  datatype Implements = Implements(requirements: seq<string>, capabilities: seq<string>, components: seq<string>, interfaces: seq<string>)

  function ReadImplements(m: Fields): Read<Implements> {
    var requirements :- RequiredStrs(m, "requirements");
    var capabilities :- RequiredStrs(m, "capabilities");
    var components :- OptionalStrs(m, "components", []);
    var interfaces :- OptionalStrs(m, "interfaces", []);
    Ok(Implements(requirements, capabilities, components, interfaces))
  }

  /** The allowed and the prohibited paths. */
  function ReadWriteScope(m: Fields): Read<(seq<string>, seq<string>)> {
    var allowed :- RequiredStrs(m, "allowed");
    var prohibited :- OptionalStrs(m, "prohibited", DEFAULT_PROHIBITED_PATHS);
    Ok((allowed, prohibited))
  }

  /** Role, model profile and executor. */
  function ReadExecution(m: Fields): Read<(string, string, string)> {
    var agentRole :- OptionalStr(m, "agent_role", "external-project-implementation");
    var modelProfile :- OptionalStr(m, "model_profile", "STANDARD_CODING");
    var executor :- OptionalStr(m, "executor", "codex");
    Ok((agentRole, modelProfile, executor))
  }

  /** Profile, commands and acceptance criteria. */
  function ReadVerification(m: Fields): Read<(string, seq<string>, seq<string>)> {
    var profile :- OptionalStr(m, "profile", "STANDARD_REGRESSION");
    var commands :- OptionalStrs(m, "commands", MANDATORY_VERIFICATION_COMMANDS);
    var criteria :- OptionalStrs(m, "acceptance_criteria", []);
    Ok((profile, commands, criteria))
  }

  /** Level and reason. */
  function ReadRisk(m: Fields): Read<(string, string)> {
    var level :- OptionalStr(m, "level", "LOW");
    var reason :- OptionalStr(m, "reason", "bounded external-project runtime task");
    Ok((level, reason))
  }

  datatype Sections = Sections(
    implements: Implements,
    scope: (seq<string>, seq<string>),
    execution: (string, string, string),
    verification: (string, seq<string>, seq<string>),
    risk: (string, string)
  )

  function ReadSections(m: Fields): Read<Sections> {
    var implementsFields :- RequireMapping(m, "implements");
    var scopeFields :- RequireMapping(m, "write_scope");
    var executionFields :- RequireMapping(m, "execution");
    var verificationFields :- RequireMapping(m, "verification");
    var riskFields :- RequireMapping(m, "risk");
    var implements :- ReadImplements(implementsFields);
    var scope :- ReadWriteScope(scopeFields);
    var execution :- ReadExecution(executionFields);
    var verification :- ReadVerification(verificationFields);
    var risk :- ReadRisk(riskFields);
    Ok(Sections(implements, scope, execution, verification, risk))
  }

  function ReadTask(m: Fields): Read<RuntimeTask> {
    var sections :- ReadSections(m);
    var id :- RequiredStr(m, "id");
    var title :- RequiredStr(m, "title");
    var objective :- RequiredStr(m, "objective");
    var dependsOn :- OptionalStrs(m, "depends_on", []);
    var provenance :- ReadProvenance(m);
    var fingerprint :- NullableStr(m, "fingerprint");
    var Sections(implements, scope, execution, verification, risk) := sections;
    Ok(RuntimeTask(id, title, objective, implements.requirements, implements.capabilities, implements.components,
                   implements.interfaces, dependsOn, scope.0, scope.1, execution.0, execution.1, execution.2,
                   verification.0, verification.1, verification.2, risk.0, risk.1, provenance, fingerprint))
  }

  function ReadProvenance(m: Fields): Read<Fields> {
    if "provenance" !in m then Ok(map[]) else RequireMapping(m, "provenance")
  }

  datatype Parts = Parts(workspace: Workspace, repository: Repository, plan: Plan, binding: RuntimeBinding, artifacts: seq<Artifact>)

  function ReadParts(m: Fields): Read<Parts> {
    var workspaceFields :- RequireMapping(m, "workspace");
    var workspace :- ReadWorkspace(workspaceFields);
    var repositoryFields :- RequireMapping(m, "repository");
    var repository :- ReadRepository(repositoryFields);
    var planFields :- RequireMapping(m, "plan");
    var plan :- ReadPlan(planFields);
    var bindingFields :- RequireMapping(m, "runtime_binding");
    var binding :- ReadBinding(bindingFields);
    var artifactFields :- OptionalMappings(m, "artifacts");
    var artifacts :- ReadAll(ReadArtifact, artifactFields);
    Ok(Parts(workspace, repository, plan, binding, artifacts))
  }

  function ReadProject(m: Fields): Read<Project> {
    var parts :- ReadParts(m);
    var projectId :- RequiredStr(m, "project_id");
    var name :- RequiredStr(m, "name");
    var lifecycleState :- RequiredStr(m, "lifecycle_state");
    var schemaVersion :- OptionalStr(m, "schema_version", MODEL_SCHEMA_VERSION);
    var contractVersion :- OptionalStr(m, "contract_version", MODEL_CONTRACT_VERSION);
    Ok(Project(projectId, name, lifecycleState, parts.workspace, parts.repository, parts.plan, parts.binding,
               parts.artifacts, schemaVersion, contractVersion))
  }

  function ReadFrozenPlan(payload: Fields): Read<FrozenPlan> {
    var plan :- if "frozen_plan" in payload then RequireMapping(payload, "frozen_plan") else Ok(payload);
    ReadBarePlan(plan)
  }

  function ReadBarePlan(plan: Fields): Read<FrozenPlan> {
    var projectFields :- RequireMapping(plan, "project");
    var project :- ReadProject(projectFields);
    var taskFields :- RequiredMappings(plan, "tasks");
    var tasks :- ReadAll(ReadTask, taskFields);
    var gates :- OptionalMappings(plan, "human_gate_definitions");
    var concurrency :- OptionalInt(plan, "effective_concurrency", 1);
    Ok(FrozenPlan(project, tasks, gates, concurrency))
  }
}
