/** Printing a frozen plan, reading it back and printing it again. */
module ExternalProjectDocument {
  import opened Order
  import opened JsonValues
  import opened DependencyGraph
  import opened ExternalProjectModel
  import opened Wrappers
  import RemoteUrls
  import SortPlaces

  // ----- What a plan becomes when it is read back -----

  function ReadBackRepository(env: Env, r: Repository): Repository {
    r.(remoteUrl := RedactRemote(env, r.remoteUrl))
  }

  function ReadBackPlan(env: Env, p: Plan): Plan {
    p.(planHash := Some(EffectivePlanHash(env, p)))
  }

  function ReadBackArtifact(env: Env, a: Artifact): Artifact {
    a.(metadata := Some(RedactMapping(env.secretKey, MetadataOf(a))))
  }

  function ReadBackTask(env: Env, t: RuntimeTask): RuntimeTask {
    t.(requirementIds := SortStrings(t.requirementIds),
       capabilityIds := SortStrings(t.capabilityIds),
       componentIds := SortStrings(t.componentIds),
       interfaceIds := SortStrings(t.interfaceIds),
       dependsOn := SortStrings(t.dependsOn),
       allowedPaths := SortStrings(t.allowedPaths),
       prohibitedPaths := SortStrings(t.prohibitedPaths),
       provenance := RedactMapping(env.secretKey, t.provenance),
       fingerprint := Some(EffectiveFingerprint(env, t)))
  }

  function ReadBackProject(env: Env, p: Project): Project {
    p.(repository := ReadBackRepository(env, p.repository),
       plan := ReadBackPlan(env, p.plan),
       artifacts := seq(|p.artifacts|, i requires 0 <= i < |p.artifacts| => ReadBackArtifact(env, p.artifacts[i])))
  }

  function ReadBackTasks(env: Env, tasks: seq<RuntimeTask>): seq<RuntimeTask> {
    seq(|tasks|, i requires 0 <= i < |tasks| => ReadBackTask(env, tasks[i]))
  }

  function ReadBackGates(env: Env, gates: seq<Fields>): seq<Fields> {
    seq(|gates|, i requires 0 <= i < |gates| => RedactMapping(env.secretKey, gates[i]))
  }

  function ReadBack(env: Env, p: FrozenPlan): FrozenPlan {
    FrozenPlan(
      ReadBackProject(env, p.project),
      ReadBackTasks(env, Sort(TaskLe, p.tasks)),
      ReadBackGates(env, SortGates(env, p.humanGateDefinitions)),
      p.effectiveConcurrency)
  }

  // ----- Which plans can be read back: the required texts are there -----

  predicate SolidWorkspace(w: Workspace) {
    w.workspaceId != "" && w.rootPath != "" && w.state != ""
  }

  predicate SolidRepository(r: Repository) {
    r.repositoryId != "" && r.workspaceId != "" && r.defaultBranch != "" && r.state != "" && r.commitPolicy != ""
  }

  predicate SolidPlan(p: Plan) {
    p.planId != "" && p.version != "" && p.state != "" && p.controlPlaneAuthority != ""
  }

  predicate SolidBinding(b: RuntimeBinding) {
    && b.bindingId != "" && b.projectId != "" && b.workspaceId != "" && b.repositoryId != ""
    && b.planId != "" && b.planVersion != "" && b.state != "" && b.controlPlaneAuthority != ""
  }

  predicate SolidArtifact(a: Artifact) {
    && a.artifactId != "" && a.projectId != "" && a.workspaceId != "" && a.kind != ""
    && a.relativePath != "" && a.contentHash != "" && a.producer != "" && a.authorityState != ""
  }

  predicate SolidSections(t: RuntimeTask) {
    && t.agentRole != "" && t.modelProfile != "" && t.executor != ""
    && t.verificationProfile != "" && t.riskLevel != "" && t.riskReason != ""
  }

  predicate SolidTask(t: RuntimeTask) {
    t.id != "" && t.title != "" && t.objective != "" && SolidSections(t)
  }

  predicate SolidArtifacts(artifacts: seq<Artifact>) {
    forall a :: a in artifacts ==> SolidArtifact(a)
  }

  predicate SolidTasks(tasks: seq<RuntimeTask>) {
    forall t :: t in tasks ==> SolidTask(t)
  }

  predicate SolidParts(p: Project) {
    && SolidWorkspace(p.workspace) && SolidRepository(p.repository) && SolidPlan(p.plan) && SolidBinding(p.binding)
    && SolidArtifacts(p.artifacts)
  }

  predicate SolidProject(p: Project) {
    && p.projectId != "" && p.name != "" && p.lifecycleState != ""
    && p.schemaVersion != "" && p.contractVersion != ""
    && SolidParts(p)
  }

  predicate Solid(p: FrozenPlan) {
    && SolidProject(p.project)
    && SolidTasks(p.tasks)
    && (p.effectiveConcurrency.Int? || p.effectiveConcurrency.Bool?)
  }

  // ----- Reading what was printed -----

  /** A reader succeeds exactly under the condition, and then with the value. */
  predicate ReadsAs<T(==)>(r: Read<T>, condition: bool, value: T) {
    if condition then r == Ok(value) else r.Bad?
  }

  lemma WorkspaceReadsBack(w: Workspace)
    ensures ReadsAs(ReadWorkspace(PrintWorkspace(w)), SolidWorkspace(w), w)
  {
    StrListReadsBack(w.allowedRoots);
    StrListReadsBack(w.prohibitedPaths);
  }

  lemma RepositoryReadsBack(env: Env, r: Repository)
    ensures ReadsAs(ReadRepository(PrintRepository(env, r)), SolidRepository(r), ReadBackRepository(env, r))
  {
    hide PrintRepository, ReadRepository, SolidRepository, RedactRemote, RepositoryTexts, RepositorySettings;
    RepositoryPrinted(env, r);
    RepositoryAssembles(PrintRepository(env, r), r, RedactRemote(env, r.remoteUrl));
  }

  lemma PlanReadsBack(env: Env, p: Plan)
    ensures ReadsAs(ReadPlan(PrintPlan(env, p)), SolidPlan(p), ReadBackPlan(env, p))
  {
    StrListReadsBack(p.taskIds);
    StrListReadsBack(p.requiredHumanGates);
    StrListReadsBack(p.verificationCommands);
  }

  /** The field a reader will find under a key. */
  predicate At(m: Fields, key: string, value: Json) {
    key in m && m[key] == value
  }

  predicate RepositoryTexts(m: Fields, r: Repository) {
    && At(m, "repository_id", Str(r.repositoryId))
    && At(m, "workspace_id", Str(r.workspaceId))
    && At(m, "default_branch", Str(r.defaultBranch))
    && At(m, "state", Str(r.state))
    && At(m, "commit_policy", Str(r.commitPolicy))
  }

  predicate RepositorySettings(m: Fields, r: Repository, url: Option<string>) {
    && At(m, "remote_url", Nullable(url))
    && At(m, "control_plane_write_authority", Bool(r.controlPlaneWriteAuthority))
    && At(m, "push_requires_human_gate", Bool(r.pushRequiresHumanGate))
  }

  lemma RepositoryPrinted(env: Env, r: Repository)
    ensures RepositoryTexts(PrintRepository(env, r), r)
    ensures RepositorySettings(PrintRepository(env, r), r, RedactRemote(env, r.remoteUrl))
  {
    hide RedactRemote;
  }

  lemma RepositoryAssembles(m: Fields, r: Repository, url: Option<string>)
    requires RepositoryTexts(m, r) && RepositorySettings(m, r, url)
    ensures ReadsAs(ReadRepository(m), SolidRepository(r), r.(remoteUrl := url))
  {}

  predicate BindingTexts(m: Fields, b: RuntimeBinding) {
    && At(m, "binding_id", Str(b.bindingId))
    && At(m, "project_id", Str(b.projectId))
    && At(m, "workspace_id", Str(b.workspaceId))
    && At(m, "repository_id", Str(b.repositoryId))
    && At(m, "plan_id", Str(b.planId))
    && At(m, "plan_version", Str(b.planVersion))
    && At(m, "state", Str(b.state))
  }

  predicate BindingSettings(m: Fields, b: RuntimeBinding) {
    && At(m, "pending_human_gates", StrList(b.pendingHumanGates))
    && At(m, "approved_human_gates", StrList(b.approvedHumanGates))
    && At(m, "verification_commands", StrList(b.verificationCommands))
    && At(m, "control_plane_authority", Str(b.controlPlaneAuthority))
    && At(m, "grants_control_plane_authority", Bool(b.grantsControlPlaneAuthority))
    && At(m, "verifier_bypass_authority", Bool(b.verifierBypassAuthority))
    && At(m, "implicit_human_gate_approval", Bool(b.implicitHumanGateApproval))
  }

  lemma BindingTextsPrinted(b: RuntimeBinding)
    ensures BindingTexts(PrintBinding(b), b)
  {}

  lemma BindingSettingsPrinted(b: RuntimeBinding)
    ensures BindingSettings(PrintBinding(b), b)
  {}

  lemma BindingAssembles(m: Fields, b: RuntimeBinding)
    requires BindingTexts(m, b) && BindingSettings(m, b)
    ensures ReadsAs(ReadBinding(m), SolidBinding(b), b)
  {
    StrListReadsBack(b.pendingHumanGates);
    StrListReadsBack(b.approvedHumanGates);
    StrListReadsBack(b.verificationCommands);
  }

  lemma BindingReadsBack(b: RuntimeBinding)
    ensures ReadsAs(ReadBinding(PrintBinding(b)), SolidBinding(b), b)
  {
    BindingTextsPrinted(b);
    BindingSettingsPrinted(b);
    BindingAssembles(PrintBinding(b), b);
  }

  lemma ArtifactReadsBack(env: Env, a: Artifact)
    ensures ReadsAs(ReadArtifact(PrintArtifact(env, a)), SolidArtifact(a), ReadBackArtifact(env, a))
  {}

  lemma ImplementsReadsBack(t: RuntimeTask)
    ensures ReadImplements(PrintImplements(t)) == Ok(Implements(
                SortStrings(t.requirementIds), SortStrings(t.capabilityIds),
                SortStrings(t.componentIds), SortStrings(t.interfaceIds)))
  {
    StrListReadsBack(SortStrings(t.requirementIds));
    StrListReadsBack(SortStrings(t.capabilityIds));
    StrListReadsBack(SortStrings(t.componentIds));
    StrListReadsBack(SortStrings(t.interfaceIds));
  }

  lemma WriteScopeReadsBack(t: RuntimeTask)
    ensures ReadWriteScope(PrintWriteScope(t)) == Ok((SortStrings(t.allowedPaths), SortStrings(t.prohibitedPaths)))
  {
    StrListReadsBack(SortStrings(t.allowedPaths));
    StrListReadsBack(SortStrings(t.prohibitedPaths));
  }

  lemma ExecutionReadsBack(t: RuntimeTask)
    ensures ReadsAs(ReadExecution(PrintExecution(t)), t.agentRole != "" && t.modelProfile != "" && t.executor != "",
                    (t.agentRole, t.modelProfile, t.executor))
  {}

  lemma VerificationReadsBack(t: RuntimeTask)
    ensures ReadsAs(ReadVerification(PrintVerification(t)), t.verificationProfile != "",
                    (t.verificationProfile, t.verificationCommands, t.acceptanceCriteria))
  {
    StrListReadsBack(t.verificationCommands);
    StrListReadsBack(t.acceptanceCriteria);
  }

  lemma RiskReadsBack(t: RuntimeTask)
    ensures ReadsAs(ReadRisk(PrintRisk(t)), t.riskLevel != "" && t.riskReason != "", (t.riskLevel, t.riskReason))
  {}

  predicate TaskSections(m: Fields, t: RuntimeTask) {
    && At(m, "implements", Record(PrintImplements(t)))
    && At(m, "write_scope", Record(PrintWriteScope(t)))
    && At(m, "execution", Record(PrintExecution(t)))
    && At(m, "verification", Record(PrintVerification(t)))
    && At(m, "risk", Record(PrintRisk(t)))
  }

  predicate TaskTexts(env: Env, m: Fields, t: RuntimeTask) {
    && At(m, "id", Str(t.id))
    && At(m, "title", Str(t.title))
    && At(m, "objective", Str(t.objective))
    && At(m, "depends_on", StrList(SortStrings(t.dependsOn)))
    && At(m, "provenance", Record(RedactMapping(env.secretKey, t.provenance)))
    && At(m, "fingerprint", Str(EffectiveFingerprint(env, t)))
  }

  lemma TaskSectionsPrinted(env: Env, t: RuntimeTask)
    ensures TaskSections(PrintTask(env, t), t)
  {
    hide Record, PrintImplements, PrintWriteScope, PrintExecution, PrintVerification, PrintRisk;
  }

  lemma TaskTextsPrinted(env: Env, t: RuntimeTask)
    ensures TaskTexts(env, PrintTask(env, t), t)
  {
    hide RedactMapping, SortStrings, EffectiveFingerprint;
    hide Record, PrintImplements, PrintWriteScope, PrintExecution, PrintVerification, PrintRisk;
  }

  function ReadBackSections(t: RuntimeTask): Sections {
    Sections(
      Implements(SortStrings(t.requirementIds), SortStrings(t.capabilityIds),
                 SortStrings(t.componentIds), SortStrings(t.interfaceIds)),
      (SortStrings(t.allowedPaths), SortStrings(t.prohibitedPaths)),
      (t.agentRole, t.modelProfile, t.executor),
      (t.verificationProfile, t.verificationCommands, t.acceptanceCriteria),
      (t.riskLevel, t.riskReason))
  }

  lemma SectionsAssemble(m: Fields, implements: Fields, scope: Fields, execution: Fields, verification: Fields,
                         risk: Fields, t: RuntimeTask)
    requires At(m, "implements", Record(implements)) && At(m, "write_scope", Record(scope))
    requires At(m, "execution", Record(execution)) && At(m, "verification", Record(verification)) && At(m, "risk", Record(risk))
    requires ReadImplements(implements) == Ok(ReadBackSections(t).implements)
    requires ReadWriteScope(scope) == Ok(ReadBackSections(t).scope)
    requires ReadsAs(ReadExecution(execution), t.agentRole != "" && t.modelProfile != "" && t.executor != "",
                     (t.agentRole, t.modelProfile, t.executor))
    requires ReadsAs(ReadVerification(verification), t.verificationProfile != "",
                     (t.verificationProfile, t.verificationCommands, t.acceptanceCriteria))
    requires ReadsAs(ReadRisk(risk), t.riskLevel != "" && t.riskReason != "", (t.riskLevel, t.riskReason))
    ensures ReadsAs(ReadSections(m), SolidSections(t), ReadBackSections(t))
  {
    hide Record, ReadImplements, ReadWriteScope, ReadExecution, ReadVerification, ReadRisk;
  }

  lemma SectionsReadBack(env: Env, t: RuntimeTask)
    ensures ReadsAs(ReadSections(PrintTask(env, t)), SolidSections(t), ReadBackSections(t))
  {
    TaskSectionsPrinted(env, t);
    ImplementsReadsBack(t);
    WriteScopeReadsBack(t);
    ExecutionReadsBack(t);
    VerificationReadsBack(t);
    RiskReadsBack(t);
    SectionsAssemble(PrintTask(env, t), PrintImplements(t), PrintWriteScope(t), PrintExecution(t),
                     PrintVerification(t), PrintRisk(t), t);
  }

  lemma TaskAssembles(env: Env, m: Fields, t: RuntimeTask)
    requires ReadsAs(ReadSections(m), SolidSections(t), ReadBackSections(t))
    requires TaskTexts(env, m, t)
    ensures ReadsAs(ReadTask(m), SolidTask(t), ReadBackTask(env, t))
  {
    StrListReadsBack(SortStrings(t.dependsOn));
  }

  lemma TaskReadsBack(env: Env, t: RuntimeTask)
    ensures ReadsAs(ReadTask(PrintTask(env, t)), SolidTask(t), ReadBackTask(env, t))
  {
    SectionsReadBack(env, t);
    TaskTextsPrinted(env, t);
    TaskAssembles(env, PrintTask(env, t), t);
  }

  lemma ArtifactsReadBack(env: Env, p: Project)
    ensures var items := seq(|p.artifacts|, i requires 0 <= i < |p.artifacts| => PrintArtifact(env, p.artifacts[i]));
            ReadsAs(ReadAll(ReadArtifact, items), SolidArtifacts(p.artifacts), ReadBackProject(env, p).artifacts)
  {
    var items := seq(|p.artifacts|, i requires 0 <= i < |p.artifacts| => PrintArtifact(env, p.artifacts[i]));
    forall i | 0 <= i < |items| {
      ArtifactReadsBack(env, p.artifacts[i]);
    }
    if a :| a in p.artifacts && !SolidArtifact(a) {
      var i :| 0 <= i < |p.artifacts| && p.artifacts[i] == a;
      ReadAllBad(ReadArtifact, items, i);
    } else {
      ReadAllOk(ReadArtifact, items, ReadBackProject(env, p).artifacts);
    }
  }

  lemma TasksReadBack(env: Env, tasks: seq<RuntimeTask>)
    ensures var items := seq(|tasks|, i requires 0 <= i < |tasks| => PrintTask(env, tasks[i]));
            ReadsAs(ReadAll(ReadTask, items), SolidTasks(tasks), ReadBackTasks(env, tasks))
  {
    var items := seq(|tasks|, i requires 0 <= i < |tasks| => PrintTask(env, tasks[i]));
    forall i | 0 <= i < |items| {
      TaskReadsBack(env, tasks[i]);
    }
    if t :| t in tasks && !SolidTask(t) {
      var i :| 0 <= i < |tasks| && tasks[i] == t;
      ReadAllBad(ReadTask, items, i);
    } else {
      ReadAllOk(ReadTask, items, ReadBackTasks(env, tasks));
    }
  }

  function PrintArtifacts(env: Env, p: Project): Json {
    List(seq(|p.artifacts|, i requires 0 <= i < |p.artifacts| => Record(PrintArtifact(env, p.artifacts[i]))))
  }

  predicate ProjectSections(env: Env, m: Fields, p: Project) {
    && At(m, "workspace", Record(PrintWorkspace(p.workspace)))
    && At(m, "repository", Record(PrintRepository(env, p.repository)))
    && At(m, "plan", Record(PrintPlan(env, p.plan)))
    && At(m, "runtime_binding", Record(PrintBinding(p.binding)))
    && At(m, "artifacts", PrintArtifacts(env, p))
  }

  predicate ProjectTexts(m: Fields, p: Project) {
    && At(m, "schema_version", Str(p.schemaVersion))
    && At(m, "contract_version", Str(p.contractVersion))
    && At(m, "project_id", Str(p.projectId))
    && At(m, "name", Str(p.name))
    && At(m, "lifecycle_state", Str(p.lifecycleState))
  }

  lemma ProjectSectionsPrinted(env: Env, p: Project)
    ensures ProjectSections(env, PrintProject(env, p), p)
  {
    hide Record, PrintWorkspace, PrintRepository, PrintPlan, PrintBinding, PrintArtifact;
  }

  lemma ProjectTextsPrinted(env: Env, p: Project)
    ensures ProjectTexts(PrintProject(env, p), p)
  {
    hide Record, PrintWorkspace, PrintRepository, PrintPlan, PrintBinding, PrintArtifact;
  }

  function ReadBackParts(env: Env, p: Project): Parts {
    Parts(p.workspace, ReadBackRepository(env, p.repository), ReadBackPlan(env, p.plan), p.binding, ReadBackProject(env, p).artifacts)
  }

  lemma PartsAssemble(env: Env, m: Fields, workspace: Fields, repository: Fields, plan: Fields, binding: Fields,
                      artifacts: seq<Fields>, p: Project)
    requires At(m, "workspace", Record(workspace)) && At(m, "repository", Record(repository))
    requires At(m, "plan", Record(plan)) && At(m, "runtime_binding", Record(binding))
    requires "artifacts" in m && IsMappingList(m["artifacts"]) && Mappings(m["artifacts"]) == artifacts
    requires ReadsAs(ReadWorkspace(workspace), SolidWorkspace(p.workspace), p.workspace)
    requires ReadsAs(ReadRepository(repository), SolidRepository(p.repository), ReadBackRepository(env, p.repository))
    requires ReadsAs(ReadPlan(plan), SolidPlan(p.plan), ReadBackPlan(env, p.plan))
    requires ReadsAs(ReadBinding(binding), SolidBinding(p.binding), p.binding)
    requires ReadsAs(ReadAll(ReadArtifact, artifacts), SolidArtifacts(p.artifacts), ReadBackProject(env, p).artifacts)
    ensures ReadsAs(ReadParts(m), SolidParts(p), ReadBackParts(env, p))
  {
    hide Record, ReadWorkspace, ReadRepository, ReadPlan, ReadBinding;
  }

  lemma ArtifactsPrinted(env: Env, p: Project)
    ensures IsMappingList(PrintArtifacts(env, p))
    ensures Mappings(PrintArtifacts(env, p)) ==
            seq(|p.artifacts|, i requires 0 <= i < |p.artifacts| => PrintArtifact(env, p.artifacts[i]))
  {}

  lemma PartsReadBack(env: Env, p: Project)
    ensures ReadsAs(ReadParts(PrintProject(env, p)), SolidParts(p), ReadBackParts(env, p))
  {
    ProjectSectionsPrinted(env, p);
    WorkspaceReadsBack(p.workspace);
    RepositoryReadsBack(env, p.repository);
    PlanReadsBack(env, p.plan);
    BindingReadsBack(p.binding);
    ArtifactsPrinted(env, p);
    ArtifactsReadBack(env, p);
    PartsAssemble(env, PrintProject(env, p), PrintWorkspace(p.workspace), PrintRepository(env, p.repository),
                  PrintPlan(env, p.plan), PrintBinding(p.binding), Mappings(PrintArtifacts(env, p)), p);
  }

  lemma ProjectAssembles(env: Env, m: Fields, p: Project)
    requires ReadsAs(ReadParts(m), SolidParts(p), ReadBackParts(env, p))
    requires ProjectTexts(m, p)
    ensures ReadsAs(ReadProject(m), SolidProject(p), ReadBackProject(env, p))
  {}

  lemma ProjectReadsBack(env: Env, p: Project)
    ensures ReadsAs(ReadProject(PrintProject(env, p)), SolidProject(p), ReadBackProject(env, p))
  {
    PartsReadBack(env, p);
    ProjectTextsPrinted(env, p);
    ProjectAssembles(env, PrintProject(env, p), p);
  }

  predicate FrozenSections(env: Env, m: Fields, p: FrozenPlan) {
    && At(m, "project", Record(PrintProject(env, p.project)))
    && At(m, "tasks", PrintTasks(env, Sort(TaskLe, p.tasks)))
    && At(m, "human_gate_definitions", PrintGates(env, SortGates(env, p.humanGateDefinitions)))
    && At(m, "effective_concurrency", p.effectiveConcurrency)
    && "frozen_plan" !in m
  }

  lemma FrozenSectionsPrinted(env: Env, p: FrozenPlan)
    ensures FrozenSections(env, PrintFrozenPlan(env, p), p)
  {
    hide Record, PrintProject, PrintTasks, PrintGates, PrintEdges;
  }

  lemma FrozenAssembles(env: Env, m: Fields, project: Fields, tasks: seq<Fields>, p: FrozenPlan)
    requires "frozen_plan" !in m
    requires At(m, "project", Record(project))
    requires "tasks" in m && IsMappingList(m["tasks"]) && Mappings(m["tasks"]) == tasks
    requires "human_gate_definitions" in m && IsMappingList(m["human_gate_definitions"])
    requires Mappings(m["human_gate_definitions"]) == ReadBackGates(env, SortGates(env, p.humanGateDefinitions))
    requires At(m, "effective_concurrency", p.effectiveConcurrency)
    requires ReadsAs(ReadProject(project), SolidProject(p.project), ReadBackProject(env, p.project))
    requires ReadsAs(ReadAll(ReadTask, tasks), SolidTasks(p.tasks), ReadBackTasks(env, Sort(TaskLe, p.tasks)))
    ensures ReadsAs(ReadFrozenPlan(m), Solid(p), ReadBack(env, p))
  {
    hide Record, ReadProject, ReadTask;
  }

  lemma TasksPrinted(env: Env, tasks: seq<RuntimeTask>)
    ensures IsMappingList(PrintTasks(env, tasks))
    ensures Mappings(PrintTasks(env, tasks)) == seq(|tasks|, i requires 0 <= i < |tasks| => PrintTask(env, tasks[i]))
  {}

  lemma GatesPrinted(env: Env, gates: seq<Fields>)
    ensures IsMappingList(PrintGates(env, gates)) && Mappings(PrintGates(env, gates)) == ReadBackGates(env, gates)
  {}

  /** A printed plan can be read exactly when its required texts are non-empty, bare or wrapped in a record. */
  lemma PrintedPlanReads(env: Env, p: FrozenPlan)
    ensures ReadsAs(ReadFrozenPlan(PrintFrozenPlan(env, p)), Solid(p), ReadBack(env, p))
  {
    var tasks := Sort(TaskLe, p.tasks);
    FrozenSectionsPrinted(env, p);
    SortKeepsElements(TaskLe, p.tasks);
    ProjectReadsBack(env, p.project);
    TasksReadBack(env, tasks);
    TasksPrinted(env, tasks);
    GatesPrinted(env, SortGates(env, p.humanGateDefinitions));
    FrozenAssembles(env, PrintFrozenPlan(env, p), PrintProject(env, p.project), Mappings(PrintTasks(env, tasks)), p);
  }

  /** Whatever else a record holds beside the plan, it reads as the plan itself. */
  lemma RecordReadsLikePlan(record: Fields, plan: Fields, order: seq<string>)
    requires At(record, "frozen_plan", Obj(plan, order)) && "frozen_plan" !in plan
    ensures ReadFrozenPlan(record) == ReadFrozenPlan(plan)
  {}

  /** So does any record that holds the printed plan. */
  lemma PrintedRecordReads(env: Env, p: FrozenPlan, record: Fields, order: seq<string>)
    requires At(record, "frozen_plan", Obj(PrintFrozenPlan(env, p), order))
    ensures ReadsAs(ReadFrozenPlan(record), Solid(p), ReadBack(env, p))
  {
    PlanHoldsNoPlan(env, p);
    hide PrintFrozenPlan, ReadFrozenPlan, Solid, ReadBack;
    PrintedPlanReads(env, p);
    RecordReadsLikePlan(record, PrintFrozenPlan(env, p), order);
  }

  lemma PlanHoldsNoPlan(env: Env, p: FrozenPlan)
    ensures "frozen_plan" !in PrintFrozenPlan(env, p)
  {
    hide Record, PrintProject, PrintTasks, PrintEdges, PrintGates, SortGates, DependencyEdges, FrozenPlanHash, Sort;
  }

  // ----- Printing what was read back -----

  lemma TaskPrintsSame(env: Env, t: RuntimeTask)
    ensures PrintTask(env, ReadBackTask(env, t)) == PrintTask(env, t)
  {
    SortStringsIdempotent(t.requirementIds);
    SortStringsIdempotent(t.capabilityIds);
    SortStringsIdempotent(t.componentIds);
    SortStringsIdempotent(t.interfaceIds);
    SortStringsIdempotent(t.dependsOn);
    SortStringsIdempotent(t.allowedPaths);
    SortStringsIdempotent(t.prohibitedPaths);
    RedactMappingIdempotent(env.secretKey, t.provenance);
    assert TaskPayload(env, ReadBackTask(env, t)) == TaskPayload(env, t);
  }

  lemma SortedTasksReadBack(env: Env, tasks: seq<RuntimeTask>)
    ensures Sort(TaskLe, ReadBackTasks(env, Sort(TaskLe, tasks))) == ReadBackTasks(env, Sort(TaskLe, tasks))
  {
    var sorted := Sort(TaskLe, tasks);
    var back := ReadBackTasks(env, sorted);
    StrOrder();
    SortAscends(TaskLe, tasks);
    forall i, j | 0 <= i < j < |back| ensures TaskLe(back[i], back[j]) {
      assert TaskLe(sorted[i], sorted[j]);
    }
    SortOfAscending(TaskLe, back);
  }

  lemma ReadBackTasksPrintSame(env: Env, tasks: seq<RuntimeTask>)
    ensures PrintTasks(env, ReadBackTasks(env, tasks)) == PrintTasks(env, tasks)
  {
    forall i | 0 <= i < |tasks| ensures PrintTask(env, ReadBackTasks(env, tasks)[i]) == PrintTask(env, tasks[i]) {
      TaskPrintsSame(env, tasks[i]);
    }
  }

  lemma ArtifactPrintsSame(env: Env, a: Artifact)
    ensures PrintArtifact(env, ReadBackArtifact(env, a)) == PrintArtifact(env, a)
  {
    RedactMappingIdempotent(env.secretKey, MetadataOf(a));
  }

  /** The remote URL is none that a second redaction changes again. */
  predicate UrlSettles(env: Env, r: Repository) {
    r.remoteUrl.Some? ==> !RemoteUrls.Unsettled(env.secretKey, r.remoteUrl.value)
  }

  lemma RemoteSettles(env: Env, r: Repository)
    ensures RedactRemote(env, RedactRemote(env, r.remoteUrl)) == RedactRemote(env, r.remoteUrl) <==> UrlSettles(env, r)
  {
    hide RemoteUrls.RedactUrl, RemoteUrls.Unsettled;
    if r.remoteUrl.Some? {
      RemoteUrls.SettlesIff(env.secretKey, r.remoteUrl.value);
    }
  }

  lemma RepositoryPrintsSame(env: Env, r: Repository)
    ensures PrintRepository(env, ReadBackRepository(env, r)) == PrintRepository(env, r) <==> UrlSettles(env, r)
  {
    hide PrintRepository, RedactRemote, UrlSettles, RepositoryTexts;
    RemoteSettles(env, r);
    var back := ReadBackRepository(env, r);
    RepositoryPrinted(env, r);
    RepositoryPrinted(env, back);
    SameUrlSamePrint(env, r, back);
  }

  lemma SameUrlSamePrint(env: Env, r: Repository, s: Repository)
    requires s == r.(remoteUrl := s.remoteUrl)
    ensures RedactRemote(env, s.remoteUrl) == RedactRemote(env, r.remoteUrl) ==> PrintRepository(env, s) == PrintRepository(env, r)
  {
    hide RedactRemote;
  }

  lemma PlanPrintsSame(env: Env, p: Plan)
    ensures PrintPlan(env, ReadBackPlan(env, p)) == PrintPlan(env, p)
  {}

  lemma ProjectPrintsSame(env: Env, p: Project)
    ensures PrintProject(env, ReadBackProject(env, p)) == PrintProject(env, p) <==> UrlSettles(env, p.repository)
  {
    RepositoryPrintsSame(env, p.repository);
    PlanPrintsSame(env, p.plan);
    forall a: Artifact {
      ArtifactPrintsSame(env, a);
    }
    ProjectSectionsPrinted(env, p);
    ProjectSectionsPrinted(env, ReadBackProject(env, p));
    hide Record, PrintWorkspace, PrintRepository, PrintPlan, PrintBinding, PrintArtifact, ReadBackRepository, ReadBackPlan, UrlSettles;
    var first, second := ProjectPayload(env, p), ProjectPayload(env, ReadBackProject(env, p));
    assert second["artifacts"] == first["artifacts"];
    assert second["plan"] == first["plan"];
    assert second == first["repository" := second["repository"]];
  }

  // Edges: the same ones with the same multiplicities, hence the same sorted listing.

  lemma EdgeOrder()
    ensures TotalOrder(EdgeLe)
  {
    TupleOrder();
    forall a: Edge, b: Edge | EdgeLe(a, b) && EdgeLe(b, a) ensures a == b {
      assert [a.0, a.1] == [b.0, b.1];
      assert [a.0, a.1][0] == [b.0, b.1][0] && [a.0, a.1][1] == [b.0, b.1][1];
    }
  }

  lemma {:induction false} EdgesOfInserted(id: Id, x: Id, ys: seq<Id>)
    ensures multiset(EdgesFrom(id, Insert(StrLe, x, ys))) == multiset{(id, x)} + multiset(EdgesFrom(id, ys))
  {
    if ys == [] || StrLe(x, ys[0]) {
      assert EdgesFrom(id, [x] + ys) == [(id, x)] + EdgesFrom(id, ys);
    } else {
      EdgesOfInserted(id, x, ys[1..]);
      var rest := Insert(StrLe, x, ys[1..]);
      assert EdgesFrom(id, [ys[0]] + rest) == [(id, ys[0])] + EdgesFrom(id, rest);
      assert EdgesFrom(id, ys) == [(id, ys[0])] + EdgesFrom(id, ys[1..]);
    }
  }

  lemma {:induction false} EdgesOfSorted(id: Id, xs: seq<Id>)
    ensures multiset(EdgesFrom(id, SortStrings(xs))) == multiset(EdgesFrom(id, xs))
  {
    if xs != [] {
      EdgesOfSorted(id, xs[1..]);
      EdgesOfInserted(id, xs[0], SortStrings(xs[1..]));
      assert EdgesFrom(id, xs) == [(id, xs[0])] + EdgesFrom(id, xs[1..]);
    }
  }

  lemma {:induction false} TaskEdgesOfInserted(t: RuntimeTask, ts: seq<RuntimeTask>)
    ensures multiset(TaskEdges(Insert(TaskLe, t, ts))) == multiset(EdgesFrom(t.id, t.dependsOn)) + multiset(TaskEdges(ts))
  {
    if ts == [] || TaskLe(t, ts[0]) {
      assert ([t] + ts)[1..] == ts;
    } else {
      TaskEdgesOfInserted(t, ts[1..]);
      var rest := Insert(TaskLe, t, ts[1..]);
      assert ([ts[0]] + rest)[1..] == rest;
    }
  }

  lemma {:induction false} TaskEdgesOfSorted(ts: seq<RuntimeTask>)
    ensures multiset(TaskEdges(Sort(TaskLe, ts))) == multiset(TaskEdges(ts))
  {
    if ts != [] {
      TaskEdgesOfSorted(ts[1..]);
      TaskEdgesOfInserted(ts[0], Sort(TaskLe, ts[1..]));
    }
  }

  lemma {:induction false} TaskEdgesReadBack(env: Env, ts: seq<RuntimeTask>)
    ensures multiset(TaskEdges(ReadBackTasks(env, ts))) == multiset(TaskEdges(ts))
  {
    if ts != [] {
      TaskEdgesReadBack(env, ts[1..]);
      EdgesOfSorted(ts[0].id, ts[0].dependsOn);
      assert ReadBackTasks(env, ts)[1..] == ReadBackTasks(env, ts[1..]);
    }
  }

  lemma DependencyEdgesSame(env: Env, p: FrozenPlan)
    ensures DependencyEdges(ReadBack(env, p)) == DependencyEdges(p)
  {
    TaskEdgesReadBack(env, Sort(TaskLe, p.tasks));
    TaskEdgesOfSorted(p.tasks);
    EdgeOrder();
    SortCanonical(EdgeLe, TaskEdges(ReadBack(env, p).tasks), TaskEdges(p.tasks));
  }

  lemma {:induction false} IdsOfInserted(t: RuntimeTask, ts: seq<RuntimeTask>)
    ensures multiset(TaskIdsOf(Insert(TaskLe, t, ts))) == multiset{t.id} + multiset(TaskIdsOf(ts))
  {
    if ts == [] || TaskLe(t, ts[0]) {
      assert TaskIdsOf([t] + ts) == [t.id] + TaskIdsOf(ts);
    } else {
      IdsOfInserted(t, ts[1..]);
      var rest := Insert(TaskLe, t, ts[1..]);
      assert TaskIdsOf([ts[0]] + rest) == [ts[0].id] + TaskIdsOf(rest);
      assert TaskIdsOf(ts) == [ts[0].id] + TaskIdsOf(ts[1..]);
    }
  }

  lemma {:induction false} IdsOfSorted(ts: seq<RuntimeTask>)
    ensures multiset(TaskIdsOf(Sort(TaskLe, ts))) == multiset(TaskIdsOf(ts))
  {
    if ts != [] {
      IdsOfSorted(ts[1..]);
      IdsOfInserted(ts[0], Sort(TaskLe, ts[1..]));
      assert TaskIdsOf(ts) == [ts[0].id] + TaskIdsOf(ts[1..]);
    }
  }

  lemma TaskIdsSame(env: Env, p: FrozenPlan)
    ensures TaskIds(ReadBack(env, p)) == TaskIds(p)
    ensures multiset(TaskIdsOf(ReadBack(env, p).tasks)) == multiset(TaskIdsOf(p.tasks))
  {
    var sorted := Sort(TaskLe, p.tasks);
    assert TaskIdsOf(ReadBackTasks(env, sorted)) == TaskIdsOf(sorted);
    IdsOfSorted(p.tasks);
    StrOrder();
    SortCanonical(StrLe, TaskIdsOf(ReadBack(env, p).tasks), TaskIdsOf(p.tasks));
  }

  // Gates: they are sorted by the text of their id before redaction, and by the text after it when read back.

  /** A gate that goes before another by the text of its id does not have the greater one after redaction. */
  predicate GatesStayOrdered(env: Env, gates: seq<Fields>) {
    forall i: nat, j: nat | i < |gates| && j < |gates| ::
      i != j && SortPlaces.Precedes(GateOrder(env), gates, i, j) ==> RedactedOrder(env)(gates[i], gates[j])
  }

  function RedactedOrder(env: Env): (Fields, Fields) -> bool {
    (a, b) => GateOrder(env)(RedactMapping(env.secretKey, a), RedactMapping(env.secretKey, b))
  }

  lemma StayOrderedMeaning(env: Env, gates: seq<Fields>)
    ensures Ascending(GateOrder(env), ReadBackGates(env, SortGates(env, gates))) <==> GatesStayOrdered(env, gates)
  {
    GateOrderTotal(env);
    SortPlaces.SortedPairs(GateOrder(env), RedactedOrder(env), gates);
    hide SortPlaces.Precedes, RedactMapping, Sort, TotalPreorder;
    var once := SortGates(env, gates);
    var back := ReadBackGates(env, once);
    assert forall i, j :: 0 <= i < j < |once| ==> (GateOrder(env)(back[i], back[j]) <==> RedactedOrder(env)(once[i], once[j]));
  }

  lemma GateOrderTotal(env: Env)
    ensures TotalPreorder(GateOrder(env))
  {
    StrOrder();
  }

  lemma SortIsIdentityOnlyIfAscending<T(!new)>(le: (T, T) -> bool, xs: seq<T>)
    requires TotalPreorder(le)
    ensures Sort(le, xs) == xs <==> Ascending(le, xs)
  {
    SortAscends(le, xs);
    if Ascending(le, xs) {
      SortOfAscending(le, xs);
    }
  }

  /** Gates that are redacted already are printed as they are. */
  lemma RedactedGatesPrint(env: Env, gates: seq<Fields>, other: seq<Fields>)
    requires forall g :: g in gates || g in other ==> RedactMapping(env.secretKey, g) == g
    ensures PrintGates(env, gates) == PrintGates(env, other) <==> gates == other
  {
    assert |PrintGates(env, gates).items| == |gates| && |PrintGates(env, other).items| == |other|;
    if PrintGates(env, gates) == PrintGates(env, other) {
      forall i | 0 <= i < |gates| ensures gates[i] == other[i] {
        assert PrintGates(env, gates).items[i] == PrintGates(env, other).items[i];
      }
    }
  }

  lemma GatesPrintSame(env: Env, gates: seq<Fields>)
    ensures var again := SortGates(env, ReadBackGates(env, SortGates(env, gates)));
            PrintGates(env, again) == PrintGates(env, SortGates(env, gates)) <==> GatesStayOrdered(env, gates)
  {
    var once := SortGates(env, gates);
    var back := ReadBackGates(env, once);
    var again := SortGates(env, back);
    GateOrderTotal(env);
    StayOrderedMeaning(env, gates);
    hide GatesStayOrdered;
    SortIsIdentityOnlyIfAscending(GateOrder(env), back);
    SortKeepsElements(GateOrder(env), back);
    forall g | g in back ensures RedactMapping(env.secretKey, g) == g {
      var j :| 0 <= j < |back| && back[j] == g;
      RedactMappingIdempotent(env.secretKey, once[j]);
    }
    RedactedGatesPrint(env, again, back);
    assert PrintGates(env, back) == PrintGates(env, once) by {
      forall j | 0 <= j < |back| {
        RedactMappingIdempotent(env.secretKey, once[j]);
      }
    }
  }

  /** Redaction, which masks secrets and sorts keys, leaves the text of this field alone. */
  predicate TextStays(env: Env, g: Fields, key: string) {
    TextOf(env, RedactMapping(env.secretKey, g), key) == TextOf(env, g, key)
  }

  /** Gates whose id texts redaction leaves alone stay in order. */
  lemma StableTextsStayOrdered(env: Env, gates: seq<Fields>)
    requires forall g: Fields :: g in gates ==> TextStays(env, g, "id")
    ensures GatesStayOrdered(env, gates)
  {
    hide RedactMapping, TextOf, StrLe;
    StrOrder();
    forall g: Fields | g in gates ensures TextOf(env, RedactMapping(env.secretKey, g), "id") == TextOf(env, g, "id") {
      assert TextStays(env, g, "id");
    }
  }

  /** That is so when the id is neither an object nor a list. */
  lemma PlainTextStays(env: Env, g: Fields, key: string)
    requires !env.secretKey(key)
    requires key in g ==> !g[key].Obj? && !g[key].List?
    ensures TextStays(env, g, key)
  {}

  lemma PlainGatesStayOrdered(env: Env, gates: seq<Fields>)
    requires !env.secretKey("id")
    requires forall g: Fields :: g in gates && "id" in g ==> !g["id"].Obj? && !g["id"].List?
    ensures GatesStayOrdered(env, gates)
  {
    forall g: Fields | g in gates ensures TextStays(env, g, "id") {
      PlainTextStays(env, g, "id");
    }
    StableTextsStayOrdered(env, gates);
  }

  /**
   * Printing, reading and printing again gives the identical document, and the identical frozen hash with it,
   * exactly when the remote URL settles under redaction and redaction leaves the gates in order.
   */
  lemma RoundTrip(env: Env, p: FrozenPlan)
    requires Solid(p)
    ensures ReadFrozenPlan(PrintFrozenPlan(env, p)) == Ok(ReadBack(env, p))
    ensures PrintFrozenPlan(env, ReadBack(env, p)) == PrintFrozenPlan(env, p)
            <==> UrlSettles(env, p.project.repository) && GatesStayOrdered(env, p.humanGateDefinitions)
    ensures UrlSettles(env, p.project.repository) && GatesStayOrdered(env, p.humanGateDefinitions) ==>
              FrozenPlanHash(env, ReadBack(env, p)) == FrozenPlanHash(env, p)
  {
    hide Record;
    PrintedPlanReads(env, p);
    PayloadsSame(env, p);
    FrozenSectionsPrinted(env, p);
    FrozenSectionsPrinted(env, ReadBack(env, p));
    ProjectPrintsSame(env, p.project);
    GatesPrintSame(env, p.humanGateDefinitions);
  }

  lemma PayloadsSame(env: Env, p: FrozenPlan)
    ensures UrlSettles(env, p.project.repository) && GatesStayOrdered(env, p.humanGateDefinitions) ==>
              FrozenPayload(env, ReadBack(env, p)) == FrozenPayload(env, p)
  {
    SortedTasksReadBack(env, p.tasks);
    ReadBackTasksPrintSame(env, Sort(TaskLe, p.tasks));
    DependencyEdgesSame(env, p);
    ProjectPrintsSame(env, p.project);
    GatesPrintSame(env, p.humanGateDefinitions);
  }

  /** Two gates, one with a text for an id and one with any other value. */
  function TextAndOther(text: string, id: Json): seq<Fields> {
    [map["id" := Str(text)], map["id" := id]]
  }

  /** How it fails otherwise: redaction moves the text of the second id from behind the first to before it. */
  lemma ShownIdMoves(env: Env, text: string, id: Json)
    requires !env.secretKey("id") && !id.Str?
    requires StrLe(text, env.show(id)) && !StrLe(text, env.show(Redact(env.secretKey, id)))
    ensures !GatesStayOrdered(env, TextAndOther(text, id))
  {
    hide Redact;
    var gates := TextAndOther(text, id);
    var moved := RedactMapping(env.secretKey, gates[1]);
    assert moved["id"] == Redact(env.secretKey, id);
    RedactKeepsShape(env.secretKey, id);
    hide RedactMapping;
    assert RedactMapping(env.secretKey, gates[0])["id"] == Str(text) by {
      TextUnredacted(env.secretKey, text);
    }
    MovedGates(env, gates);
  }

  lemma TextUnredacted(secretKey: string -> bool, text: string)
    requires !secretKey("id")
    ensures "id" in RedactMapping(secretKey, map["id" := Str(text)]) && RedactMapping(secretKey, map["id" := Str(text)])["id"] == Str(text)
  {}

  lemma RedactKeepsShape(secretKey: string -> bool, j: Json)
    ensures Redact(secretKey, j).Str? <==> j.Str?
  {}

  /** Masking a secret can do it, as in an id `{"token": "z"}` beside the text `{'token': 'a'}`. */
  lemma MaskedIdMoves(env: Env, text: string, secret: Fields, order: seq<string>)
    requires !env.secretKey("id")
    requires StrLe(text, env.show(Obj(secret, order)))
    requires !StrLe(text, env.show(Record(RedactMapping(env.secretKey, secret))))
    ensures !GatesStayOrdered(env, TextAndOther(text, Obj(secret, order)))
  {
    RedactsToRecord(env.secretKey, Obj(secret, order));
    hide Redact, Record, RedactMapping;
    ShownIdMoves(env, text, Obj(secret, order));
  }

  /** Two keys in the order opposite to their sorted one. */
  function Reversed(): (j: Json)
    ensures j.Obj?
  {
    Obj(map["a" := Int(1), "b" := Int(0)], ["b", "a"])
  }

  /**
   * So can sorting the keys, with no secret anywhere: Python shows the id as `{'b': 0, 'a': 1}` before redaction and
   * as `{'a': 1, 'b': 0}` after it, and the text `{'a': 2}` lies between the two.
   */
  lemma KeyOrderMoves(env: Env)
    requires !env.secretKey("id") && !env.secretKey("a") && !env.secretKey("b")
    requires env.show(Reversed()) == "{'b': 0, 'a': 1}"
    requires env.show(Obj(Reversed().fields, ["a", "b"])) == "{'a': 1, 'b': 0}"
    ensures !GatesStayOrdered(env, TextAndOther("{'a': 2}", Reversed()))
  {
    hide GatesStayOrdered, TextAndOther, Reversed, StrLe, Redact;
    KeysSorted(env.secretKey);
    ShowsInOrder();
    KeyOrderMovesBetween(env, "{'a': 2}", "{'b': 0, 'a': 1}", "{'a': 1, 'b': 0}");
  }

  lemma KeyOrderMovesBetween(env: Env, text: string, shown: string, resorted: string)
    requires !env.secretKey("id") && Redact(env.secretKey, Reversed()) == Obj(Reversed().fields, ["a", "b"])
    requires env.show(Reversed()) == shown && env.show(Obj(Reversed().fields, ["a", "b"])) == resorted
    requires StrLe(text, shown) && !StrLe(text, resorted)
    ensures !GatesStayOrdered(env, TextAndOther(text, Reversed()))
  {
    hide Redact, StrLe, Reversed, TextAndOther, GatesStayOrdered;
    ShownIdMoves(env, text, Reversed());
  }

  lemma KeysSorted(secretKey: string -> bool)
    requires !secretKey("a") && !secretKey("b")
    ensures Redact(secretKey, Reversed()) == Obj(Reversed().fields, ["a", "b"])
  {
    var m := Reversed().fields;
    RedactsToRecord(secretKey, Reversed());
    NumbersUnredacted(secretKey);
    assert m.Keys == {"a", "b"};
    hide RedactMapping, Reversed;
    SortedPair("a", "b");
  }

  lemma NumbersUnredacted(secretKey: string -> bool)
    requires !secretKey("a") && !secretKey("b")
    ensures RedactMapping(secretKey, Reversed().fields) == Reversed().fields
  {}

  lemma SortedPair(a: string, b: string)
    requires a != b && StrLe(a, b)
    ensures Sorted({a, b}) == [a, b]
  {
    hide StrLe;
    assert Elements([a, b]) == {a, b};
    SortedUnique([a, b]);
  }

  lemma ShowsInOrder()
    ensures StrLe("{'a': 2}", "{'b': 0, 'a': 1}") && !StrLe("{'a': 2}", "{'a': 1, 'b': 0}")
  {
    LexSuffix("{'", "a': 2}", "b': 0, 'a': 1}");
    assert "{'" + "a': 2}" == "{'a': 2}" && "{'" + "b': 0, 'a': 1}" == "{'b': 0, 'a': 1}";
    LexSuffix("{'a': ", "2}", "1, 'b': 0}");
    assert "{'a': " + "2}" == "{'a': 2}" && "{'a': " + "1, 'b': 0}" == "{'a': 1, 'b': 0}";
  }

  lemma {:induction false} LexSuffix(common: string, a: string, b: string)
    ensures StrLe(common + a, common + b) <==> StrLe(a, b)
  {
    if common == "" {
      assert common + a == a && common + b == b;
    } else {
      LexSuffix(common[1..], a, b);
      assert (common + a)[1..] == common[1..] + a && (common + b)[1..] == common[1..] + b;
    }
  }

  /** A plan with those gates changes its document and its hashed payload on the way. */
  lemma KeyOrderBreaksRoundTrip(env: Env, p: FrozenPlan)
    requires Solid(p) && p.humanGateDefinitions == TextAndOther("{'a': 2}", Reversed())
    requires !env.secretKey("id") && !env.secretKey("a") && !env.secretKey("b")
    requires env.show(Reversed()) == "{'b': 0, 'a': 1}"
    requires env.show(Obj(Reversed().fields, ["a", "b"])) == "{'a': 1, 'b': 0}"
    ensures PrintFrozenPlan(env, ReadBack(env, p)) != PrintFrozenPlan(env, p)
    ensures FrozenPayload(env, ReadBack(env, p)) != FrozenPayload(env, p)
  {
    hide Solid, GatesStayOrdered, FrozenPayload, ReadBack, Reversed, TextAndOther;
    KeyOrderMoves(env);
    RoundTrip(env, p);
  }

  lemma MovedGates(env: Env, gates: seq<Fields>)
    requires |gates| == 2 && GateOrder(env)(gates[0], gates[1])
    requires !GateOrder(env)(RedactMapping(env.secretKey, gates[0]), RedactMapping(env.secretKey, gates[1]))
    ensures !GatesStayOrdered(env, gates)
  {
    hide GateOrder, RedactMapping;
    assert SortPlaces.Precedes(GateOrder(env), gates, 0, 1);
  }
}
