/** The import verdict on a frozen plan, and that it does not change when the plan goes through its document. */
module ExternalProjectVerdict {
  import opened Order
  import opened JsonValues
  import opened DependencyGraph
  import opened ExternalProjectModel
  import opened ExternalProjectDocument
  import opened ExternalProject
  import opened Wrappers
  import RemoteUrls
  import RemoteSecrets
  import opened GateDefinitions

  /** The text tests the validators apply to paths, commands and digests. */
  datatype Policy = Policy(
    commands: CommandPolicy,
    unsafePath: string -> bool,
    prohibited: (string, seq<string>) -> bool,
    inRoots: (string, seq<string>) -> bool,
    sha256: string -> bool
  )

  predicate BoundToProject(p: Project) {
    && (p.workspace.ownerProjectId == None || p.workspace.ownerProjectId == Some(p.projectId))
    && p.repository.workspaceId == p.workspace.workspaceId
    && p.binding.projectId == p.projectId
    && p.binding.workspaceId == p.workspace.workspaceId
    && p.binding.repositoryId == p.repository.repositoryId
    && p.binding.planId == p.plan.planId
    && p.binding.planVersion == p.plan.version
  }

  predicate ScopedWorkspace(policy: Policy, w: Workspace) {
    && Elements(DEFAULT_PROHIBITED_PATHS) <= Elements(w.prohibitedPaths)
    && forall root :: root in w.allowedRoots ==> !policy.unsafePath(root) && !policy.prohibited(root, w.prohibitedPaths)
  }

  predicate AuthorityPreserved(p: Project) {
    && !p.repository.controlPlaneWriteAuthority
    && p.repository.pushRequiresHumanGate
    && p.plan.controlPlaneAuthority == CONTROL_PLANE_AUTHORITY
    && p.binding.controlPlaneAuthority == CONTROL_PLANE_AUTHORITY
    && !p.binding.grantsControlPlaneAuthority
    && !p.binding.verifierBypassAuthority
  }

  predicate GatesScoped(p: Project) {
    var scoped, approved := Elements(p.plan.requiredHumanGates), Elements(p.binding.approvedHumanGates);
    && !p.binding.implicitHumanGateApproval
    && approved + Elements(p.binding.pendingHumanGates) <= scoped
    && (p.lifecycleState in {"IMPORT", "EXECUTE", "VERIFY", "COMPLETE", "RUN", "ARCHIVE"} ==> scoped <= approved)
  }

  predicate Verified(policy: Policy, p: Project) {
    && p.plan.independentVerificationRequired
    && Elements(policy.commands.mandatory) <= Elements(p.plan.verificationCommands)
    && Elements(policy.commands.mandatory) <= Elements(p.binding.verificationCommands)
    && (forall c :: c in p.plan.verificationCommands ==> !policy.commands.secret(c))
    && (forall c :: c in p.binding.verificationCommands ==> !policy.commands.secret(c))
  }

  predicate CleanArtifact(policy: Policy, env: Env, p: Project, a: Artifact) {
    && a.projectId == p.projectId
    && a.workspaceId == p.workspace.workspaceId
    && policy.sha256(a.contentHash)
    && !a.containsSecret
    && !policy.unsafePath(a.relativePath)
    && !policy.prohibited(a.relativePath, p.workspace.prohibitedPaths)
    && !HasSecretField(env.secretKey, Record(MetadataOf(a)))
  }

  predicate CleanModel(policy: Policy, env: Env, p: Project) {
    && BoundToProject(p)
    && ScopedWorkspace(policy, p.workspace)
    && AuthorityPreserved(p)
    && GatesScoped(p)
    && Verified(policy, p)
    && forall a :: a in p.artifacts ==> CleanArtifact(policy, env, p, a)
  }

  /** Python reads a boolean as 0 or 1 when it compares. */
  function NumberOf(j: Json): int {
    match j
    case Int(i) => i
    case Bool(b) => if b then 1 else 0
    case _ => 0
  }

  predicate ReadyForImport(p: FrozenPlan) {
    && p.project.plan.state == "FROZEN"
    && p.project.binding.state == "READY_FOR_IMPORT"
    && NumberOf(p.effectiveConcurrency) >= 1
  }

  predicate TaskInScope(policy: Policy, w: Workspace, t: RuntimeTask) {
    && (forall path :: path in t.allowedPaths + t.prohibitedPaths ==> !policy.unsafePath(path))
    && (forall path :: path in t.allowedPaths ==>
          policy.inRoots(path, w.allowedRoots) && !policy.prohibited(path, w.prohibitedPaths))
  }

  /** The remote URL is there and carries secret material. */
  predicate SecretRemote(env: Env, r: Repository) {
    r.remoteUrl.Some? && r.remoteUrl.value != "" && RemoteSecrets.Secret(env.secretKey, r.remoteUrl.value)
  }

  predicate NoSecretFields(env: Env, p: FrozenPlan) {
    && (forall t :: t in p.tasks ==> !HasSecretField(env.secretKey, Record(t.provenance)))
    && (forall g :: g in p.humanGateDefinitions ==> !HasSecretField(env.secretKey, Record(g)))
  }

  /** Everything validation looks at but the gate definitions and the remote URL. */
  ghost predicate CleanBesides(policy: Policy, env: Env, p: FrozenPlan) {
    && CleanModel(policy, env, p.project)
    && ReadyForImport(p)
    && (forall f :: !Warranted(policy.commands, p, f))
    && (forall t :: t in p.tasks ==> TaskInScope(policy, p.project.workspace, t))
    && NoSecretFields(env, p)
  }

  /** Validation of the frozen plan ends without a finding. */
  ghost predicate Importable(policy: Policy, env: Env, p: FrozenPlan) {
    CleanBesides(policy, env, p) && GatesDefined(env, p) && !SecretRemote(env, p.project.repository)
  }

  // ----- The verdict survives the round trip -----

  lemma ModelVerdictSame(policy: Policy, env: Env, p: Project)
    ensures CleanModel(policy, env, ReadBackProject(env, p)) <==> CleanModel(policy, env, p)
  {
    hide Record;
    var q := ReadBackProject(env, p);
    forall i | 0 <= i < |p.artifacts|
      ensures CleanArtifact(policy, env, q, q.artifacts[i]) <==> CleanArtifact(policy, env, p, p.artifacts[i])
    {
      RedactionKeepsSecretFields(env.secretKey, Record(MetadataOf(p.artifacts[i])));
      assert Redact(env.secretKey, Record(MetadataOf(p.artifacts[i]))) == Record(MetadataOf(q.artifacts[i]));
    }
    assert (forall a :: a in p.artifacts ==> CleanArtifact(policy, env, p, a)) <==>
           forall i :: 0 <= i < |p.artifacts| ==> CleanArtifact(policy, env, p, p.artifacts[i]);
    assert (forall a :: a in q.artifacts ==> CleanArtifact(policy, env, q, a)) <==>
           forall i :: 0 <= i < |q.artifacts| ==> CleanArtifact(policy, env, q, q.artifacts[i]);
  }

  /** The tasks of the plan read back are the read-back tasks, in another order. */
  lemma ReadBackTaskIn(env: Env, p: FrozenPlan, t: RuntimeTask)
    ensures t in ReadBack(env, p).tasks <==> exists s :: s in p.tasks && t == ReadBackTask(env, s)
  {
    var sorted := Sort(TaskLe, p.tasks);
    SortKeepsElements(TaskLe, p.tasks);
    if t in ReadBack(env, p).tasks {
      var i :| 0 <= i < |sorted| && ReadBackTasks(env, sorted)[i] == t;
      assert sorted[i] in p.tasks;
    }
    if s :| s in p.tasks && t == ReadBackTask(env, s) {
      assert s in sorted;
      var i :| 0 <= i < |sorted| && sorted[i] == s;
      assert ReadBackTasks(env, sorted)[i] == t;
    }
  }

  lemma FindingsSame(policy: CommandPolicy, env: Env, p: FrozenPlan, f: Finding)
    ensures Warranted(policy, ReadBack(env, p), f) <==> Warranted(policy, p, f)
  {
    hide ReadBack, TaskWarrants, TaskIds, TaskIdsOf, Elements, Distinct, DependencyEdges, TaskEdges, Cyclic, SortStrings;
    var q := ReadBack(env, p);
    TaskIdFacts(p);
    TaskIdFacts(q);
    TaskIdsSame(env, p);
    DeclaredIdsSame(env, p);
    if f.DependencyCycle? {
      DependencyEdgeFacts(p);
      DependencyEdgeFacts(q);
      DependencyEdgesSame(env, p);
    }
    WarrantsSame(policy, env, p, Elements(TaskIdsOf(p.tasks)), f);
  }

  lemma DeclaredIdsSame(env: Env, p: FrozenPlan)
    ensures ReadBack(env, p).project.plan.taskIds == p.project.plan.taskIds
  {}

  ghost predicate SomeWarrants(policy: CommandPolicy, tasks: seq<RuntimeTask>, ids: set<Id>, f: Finding) {
    exists t :: t in tasks && TaskWarrants(policy, ids, t, f)
  }

  lemma WarrantsSame(policy: CommandPolicy, env: Env, p: FrozenPlan, ids: set<Id>, f: Finding)
    ensures SomeWarrants(policy, ReadBack(env, p).tasks, ids, f) <==> SomeWarrants(policy, p.tasks, ids, f)
  {
    hide ReadBack, TaskWarrants, ReadBackTask;
    if s :| s in p.tasks && TaskWarrants(policy, ids, s, f) {
      TaskFindingsSame(policy, env, ids, s, f);
      ReadBackTaskIn(env, p, ReadBackTask(env, s));
      assert ReadBackTask(env, s) in ReadBack(env, p).tasks;
      assert TaskWarrants(policy, ids, ReadBackTask(env, s), f);
    }
    if t :| t in ReadBack(env, p).tasks && TaskWarrants(policy, ids, t, f) {
      ReadBackTaskIn(env, p, t);
      var s :| s in p.tasks && t == ReadBackTask(env, s);
      TaskFindingsSame(policy, env, ids, s, f);
      assert TaskWarrants(policy, ids, s, f);
    }
  }

  lemma TaskFindingsSame(policy: CommandPolicy, env: Env, ids: set<Id>, t: RuntimeTask, f: Finding)
    ensures TaskWarrants(policy, ids, ReadBackTask(env, t), f) <==> TaskWarrants(policy, ids, t, f)
  {
    SortKeepsElements(StrLe, t.dependsOn);
  }

  lemma ScopeSame(policy: Policy, env: Env, w: Workspace, t: RuntimeTask)
    ensures TaskInScope(policy, w, ReadBackTask(env, t)) <==> TaskInScope(policy, w, t)
  {
    SortKeepsElements(StrLe, t.allowedPaths);
    SortKeepsElements(StrLe, t.prohibitedPaths);
  }

  lemma ProvenanceSame(env: Env, t: RuntimeTask)
    ensures HasSecretField(env.secretKey, Record(ReadBackTask(env, t).provenance)) <==> HasSecretField(env.secretKey, Record(t.provenance))
  {
    RedactionKeepsSecretFields(env.secretKey, Record(t.provenance));
    assert Redact(env.secretKey, Record(t.provenance)) == Record(ReadBackTask(env, t).provenance);
  }

  lemma SecretFieldsSame(env: Env, p: FrozenPlan)
    ensures NoSecretFields(env, ReadBack(env, p)) <==> NoSecretFields(env, p)
  {
    hide Record;
    var q := ReadBack(env, p);
    var gates := SortGates(env, p.humanGateDefinitions);
    SortKeepsElements(GateOrder(env), p.humanGateDefinitions);
    forall i | 0 <= i < |gates|
      ensures HasSecretField(env.secretKey, Record(q.humanGateDefinitions[i])) <==> HasSecretField(env.secretKey, Record(gates[i]))
    {
      RedactionKeepsSecretFields(env.secretKey, Record(gates[i]));
      assert Redact(env.secretKey, Record(gates[i])) == Record(q.humanGateDefinitions[i]);
    }
    assert (forall g :: g in p.humanGateDefinitions ==> !HasSecretField(env.secretKey, Record(g))) <==>
           forall i :: 0 <= i < |gates| ==> !HasSecretField(env.secretKey, Record(gates[i]));
    assert (forall g :: g in q.humanGateDefinitions ==> !HasSecretField(env.secretKey, Record(g))) <==>
           forall i :: 0 <= i < |gates| ==> !HasSecretField(env.secretKey, Record(q.humanGateDefinitions[i]));
    forall t: RuntimeTask {
      ProvenanceSame(env, t);
    }
    TasksVerdictSame(env, p, (t: RuntimeTask) => !HasSecretField(env.secretKey, Record(t.provenance)));
  }

  /** A test that reading back does not change holds of all tasks before exactly when it does after. */
  lemma TasksVerdictSame(env: Env, p: FrozenPlan, ok: RuntimeTask -> bool)
    requires forall t :: ok(ReadBackTask(env, t)) <==> ok(t)
    ensures (forall t :: t in ReadBack(env, p).tasks ==> ok(t)) <==> forall t :: t in p.tasks ==> ok(t)
  {
    forall t: RuntimeTask {
      ReadBackTaskIn(env, p, t);
    }
    if forall t :: t in ReadBack(env, p).tasks ==> ok(t) {
      forall s | s in p.tasks ensures ok(s) {
        assert ReadBackTask(env, s) in ReadBack(env, p).tasks;
      }
    }
  }

  lemma CleanBesidesSame(policy: Policy, env: Env, p: FrozenPlan)
    ensures CleanBesides(policy, env, ReadBack(env, p)) <==> CleanBesides(policy, env, p)
  {
    ModelVerdictSame(policy, env, p.project);
    forall f: Finding {
      FindingsSame(policy.commands, env, p, f);
    }
    forall t: RuntimeTask {
      ScopeSame(policy, env, p.project.workspace, t);
    }
    TasksVerdictSame(env, p, (t: RuntimeTask) => TaskInScope(policy, p.project.workspace, t));
    SecretFieldsSame(env, p);
  }

  /** The test's answer on the remote URL that is read back, told from the URL that was printed. */
  predicate SecretRemoteReadBack(env: Env, r: Repository) {
    r.remoteUrl.Some? && RemoteSecrets.SecretOnceRedacted(env.secretKey, r.remoteUrl.value)
  }

  lemma RemoteVerdict(env: Env, r: Repository)
    requires RemoteSecrets.Separable(env.secretKey)
    ensures SecretRemote(env, ReadBackRepository(env, r)) <==> SecretRemoteReadBack(env, r)
  {
    hide RemoteSecrets.SecretOnceRedacted, RemoteUrls.RedactUrl, RemoteSecrets.Separable;
    if r.remoteUrl.Some? {
      RemoteSecrets.SecretRedacted(env.secretKey, r.remoteUrl.value);
    }
  }

  /** The verdict on a plan that went through its document, told from the plan before, whatever its gates and URL. */
  lemma VerdictReadBack(policy: Policy, env: Env, p: FrozenPlan)
    requires RemoteSecrets.Separable(env.secretKey)
    ensures Importable(policy, env, ReadBack(env, p))
            <==> CleanBesides(policy, env, p) && GatesDefinedReadBack(env, p) && !SecretRemoteReadBack(env, p.project.repository)
  {
    hide CleanBesides, GatesDefined, GatesDefinedReadBack, SecretRemote, SecretRemoteReadBack, RemoteSecrets.Separable;
    CleanBesidesSame(policy, env, p);
    GatesReadBack(env, p);
    RemoteVerdict(env, p.project.repository);
  }

  /** The verdict survives exactly when gates and URL are judged together as before, or something else is wrong anyway. */
  lemma VerdictSurvives(policy: Policy, env: Env, p: FrozenPlan)
    requires RemoteSecrets.Separable(env.secretKey)
    ensures (Importable(policy, env, ReadBack(env, p)) <==> Importable(policy, env, p))
            <==> (CleanBesides(policy, env, p) ==>
                    (GatesDefinedReadBack(env, p) && !SecretRemoteReadBack(env, p.project.repository)
                     <==> GatesDefined(env, p) && !SecretRemote(env, p.project.repository)))
  {
    hide CleanBesides, GatesDefined, GatesDefinedReadBack, SecretRemote, SecretRemoteReadBack, RemoteSecrets.Separable;
    VerdictReadBack(policy, env, p);
  }

  predicate WebUser(r: Repository) {
    r.remoteUrl.Some? && var v := r.remoteUrl.value; var k := RemoteUrls.Sep(v);
    k < |v| && RemoteSecrets.Web(v[..k]) && '@' in v
  }

  /**
   * An importable plan stays importable exactly when redaction keeps the id texts of its gates, those that count then
   * name tasks, and its URL is none of the web with an `@`, as in `https://@host`.
   */
  lemma ImportableStays(policy: Policy, env: Env, p: FrozenPlan)
    requires RemoteSecrets.Separable(env.secretKey) && Importable(policy, env, p)
    ensures Importable(policy, env, ReadBack(env, p)) <==> GatesKept(env, p) && !WebUser(p.project.repository)
  {
    hide CleanBesides, GatesDefined, GatesKept, GatesDefinedReadBack, RemoteSecrets.Separable, SecretRemoteReadBack;
    VerdictReadBack(policy, env, p);
    DefinedGatesKept(env, p);
    CleanRemoteReadBack(env, p.project.repository);
  }

  lemma CleanRemoteReadBack(env: Env, r: Repository)
    requires RemoteSecrets.Separable(env.secretKey) && !SecretRemote(env, r)
    ensures SecretRemoteReadBack(env, r) <==> WebUser(r)
  {
    hide RemoteSecrets.Separable, RemoteSecrets.Secret, RemoteSecrets.Web;
    if r.remoteUrl.Some? && r.remoteUrl.value != "" {
      RemoteSecrets.CleanOnceRedacted(env.secretKey, r.remoteUrl.value);
      RemoteSecrets.SecretRedacted(env.secretKey, r.remoteUrl.value);
    }
  }
}
