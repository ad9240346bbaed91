/** Validation of a frozen plan as the import runs it: which findings it reports, and that none means the plan is importable. */
module ExternalProjectValidation {
  import opened Order
  import opened JsonValues
  import opened DependencyGraph
  import opened ExternalProjectModel
  import opened ExternalProjectDocument
  import opened GateDefinitions
  import opened ExternalProjectVerdict
  import P = ExternalProject
  import opened Wrappers
  import RemoteSecrets

  /** Commands are counted from one, gate definitions by their place. */
  datatype Report =
    | OwnerMismatch | RepositoryUnbound | BindingMismatch(key: string)
    | MissingProhibited(path: string) | UnsafeRoot(root: string) | ProhibitedRoot(root: string)
    | RepositoryWrites | PushUngated | PlanAuthority | BindingAuthority | AuthorityGranted | VerifierBypass
    | ImplicitApproval | UnknownGate(gate: string) | PendingGate(gate: string)
    | VerificationDisabled | PlanLacksCommand(command: string) | BindingLacksCommand(command: string)
    | PlanSecretCommand(at: nat) | BindingSecretCommand(at: nat)
    | ArtifactProject(artifact: string) | ArtifactWorkspace(artifact: string) | ArtifactHash(artifact: string)
    | ArtifactSecret(artifact: string) | ArtifactPath(artifact: string) | ArtifactProhibited(artifact: string) | ArtifactMetadata(artifact: string)
    | PlanNotFrozen | BindingNotReady | NoConcurrency
    | Task(finding: P.Finding)
    | GateInBothStates | GateUnbound(gate: string) | DefinitionMissing(gate: string) | DefinitionUnknown(gate: string) | GateWithoutTask(gate: string)
    | ScopePath(task: string, path: string) | ScopeOutside(task: string) | ScopeConflict(task: string, path: string)
    | RemoteSecret | ProvenanceSecret(task: string) | GateSecret(place: nat)

  // ----- What is to be reported, check by check -----

  predicate IdentityReported(p: Project, r: Report) {
    match r
    case OwnerMismatch => p.workspace.ownerProjectId.Some? && p.workspace.ownerProjectId.value != p.projectId
    case RepositoryUnbound => p.repository.workspaceId != p.workspace.workspaceId
    case BindingMismatch(key) =>
      || (key == "project_id" && p.binding.projectId != p.projectId)
      || (key == "workspace_id" && p.binding.workspaceId != p.workspace.workspaceId)
      || (key == "repository_id" && p.binding.repositoryId != p.repository.repositoryId)
      || (key == "plan_id" && p.binding.planId != p.plan.planId)
      || (key == "plan_version" && p.binding.planVersion != p.plan.version)
    case _ => false
  }

  predicate PolicyReported(policy: Policy, w: Workspace, r: Report) {
    match r
    case MissingProhibited(path) => path in [".bootstrap/**", ".build/**", ".env", ".env.*", "aient/**"] && path !in w.prohibitedPaths
    case UnsafeRoot(root) => root in w.allowedRoots && policy.unsafePath(root)
    case ProhibitedRoot(root) => root in w.allowedRoots && policy.prohibited(root, w.prohibitedPaths)
    case _ => false
  }

  predicate AuthorityReported(p: Project, r: Report) {
    match r
    case RepositoryWrites => p.repository.controlPlaneWriteAuthority
    case PushUngated => !p.repository.pushRequiresHumanGate
    case PlanAuthority => p.plan.controlPlaneAuthority != "existing_ai_enterprise_control_plane"
    case BindingAuthority => p.binding.controlPlaneAuthority != "existing_ai_enterprise_control_plane"
    case AuthorityGranted => p.binding.grantsControlPlaneAuthority
    case VerifierBypass => p.binding.verifierBypassAuthority
    case _ => false
  }

  predicate Executing(state: string) {
    state == "IMPORT" || state == "EXECUTE" || state == "VERIFY" || state == "COMPLETE" || state == "RUN" || state == "ARCHIVE"
  }

  predicate GateStateReported(p: Project, r: Report) {
    match r
    case ImplicitApproval => p.binding.implicitHumanGateApproval
    case UnknownGate(g) => (g in p.binding.approvedHumanGates || g in p.binding.pendingHumanGates) && g !in p.plan.requiredHumanGates
    case PendingGate(g) => Executing(p.lifecycleState) && g in p.plan.requiredHumanGates && g !in p.binding.approvedHumanGates
    case _ => false
  }

  predicate SecretAt(policy: Policy, commands: seq<string>, at: int) {
    1 <= at <= |commands| && policy.commands.secret(commands[at - 1])
  }

  predicate VerificationReported(policy: Policy, p: Project, r: Report) {
    match r
    case VerificationDisabled => !p.plan.independentVerificationRequired
    case PlanLacksCommand(c) => c in policy.commands.mandatory && c !in p.plan.verificationCommands
    case BindingLacksCommand(c) => c in policy.commands.mandatory && c !in p.binding.verificationCommands
    case PlanSecretCommand(at) => SecretAt(policy, p.plan.verificationCommands, at)
    case BindingSecretCommand(at) => SecretAt(policy, p.binding.verificationCommands, at)
    case _ => false
  }

  predicate ArtifactReported(policy: Policy, env: Env, p: Project, a: Artifact, r: Report) {
    match r
    case ArtifactProject(id) => id == a.artifactId && a.projectId != p.projectId
    case ArtifactWorkspace(id) => id == a.artifactId && a.workspaceId != p.workspace.workspaceId
    case ArtifactHash(id) => id == a.artifactId && !policy.sha256(a.contentHash)
    case ArtifactSecret(id) => id == a.artifactId && a.containsSecret
    case ArtifactPath(id) => id == a.artifactId && policy.unsafePath(a.relativePath)
    case ArtifactProhibited(id) => id == a.artifactId && policy.prohibited(a.relativePath, p.workspace.prohibitedPaths)
    case ArtifactMetadata(id) =>
      id == a.artifactId && a.metadata.Some? && HasSecretField(env.secretKey, Record(a.metadata.value))
    case _ => false
  }

  predicate StateReported(p: FrozenPlan, r: Report) {
    match r
    case PlanNotFrozen => p.project.plan.state != "FROZEN"
    case BindingNotReady => p.project.binding.state != "READY_FOR_IMPORT"
    case NoConcurrency =>
      !(p.effectiveConcurrency.Int? && p.effectiveConcurrency.i >= 1) && !(p.effectiveConcurrency.Bool? && p.effectiveConcurrency.b)
    case _ => false
  }

  /** The last definition with this id text. */
  ghost predicate LastDefinition(env: Env, gates: seq<Fields>, id: string, at: int) {
    && 0 <= at < |gates| && TextOf(env, gates[at], "id") == id
    && forall j :: at < j < |gates| ==> TextOf(env, gates[j], "id") != id
  }

  ghost predicate BindingsReported(p: FrozenPlan, r: Report) {
    var approved, pending := p.project.binding.approvedHumanGates, p.project.binding.pendingHumanGates;
    || (r.GateInBothStates? && exists g :: g in approved && g in pending)
    || (r.GateUnbound? && r.gate in p.project.plan.requiredHumanGates && r.gate !in approved && r.gate !in pending)
  }

  ghost predicate TextAmong(env: Env, gates: seq<Fields>, id: string) {
    exists i :: 0 <= i < |gates| && TextOf(env, gates[i], "id") == id
  }

  ghost predicate LastWithoutTask(env: Env, p: FrozenPlan, id: string) {
    exists at :: LastDefinition(env, p.humanGateDefinitions, id, at)
                 && !exists t :: t in p.tasks && t.id == TextOf(env, p.humanGateDefinitions[at], "task_id")
  }

  ghost predicate DefinitionReported(env: Env, p: FrozenPlan, r: Report) {
    || BindingsReported(p, r)
    || (r.DefinitionMissing? && r.gate in p.project.plan.requiredHumanGates && !TextAmong(env, p.humanGateDefinitions, r.gate))
    || (r.DefinitionUnknown? && r.gate !in p.project.plan.requiredHumanGates && TextAmong(env, p.humanGateDefinitions, r.gate))
    || (r.GateWithoutTask? && LastWithoutTask(env, p, r.gate))
  }

  predicate ScopeReported(policy: Policy, w: Workspace, t: RuntimeTask, r: Report) {
    match r
    case ScopePath(id, path) => id == t.id && (path in t.allowedPaths || path in t.prohibitedPaths) && policy.unsafePath(path)
    case ScopeOutside(id) =>
      id == t.id && exists i | 0 <= i < |t.allowedPaths| :: !policy.unsafePath(t.allowedPaths[i]) && !policy.inRoots(t.allowedPaths[i], w.allowedRoots)
    case ScopeConflict(id, path) =>
      id == t.id && path in t.allowedPaths && !policy.unsafePath(path) && policy.prohibited(path, w.prohibitedPaths)
    case _ => false
  }

  ghost predicate SurfaceReported(env: Env, p: FrozenPlan, r: Report) {
    match r
    case RemoteSecret =>
      var url := p.project.repository.remoteUrl;
      url.Some? && url.value != "" && RemoteSecrets.Secret(env.secretKey, url.value)
    case ProvenanceSecret(id) => exists t :: t in p.tasks && t.id == id && HasSecretField(env.secretKey, Record(t.provenance))
    case GateSecret(place) => place < |p.humanGateDefinitions| && HasSecretField(env.secretKey, Record(p.humanGateDefinitions[place]))
    case _ => false
  }

  ghost predicate ModelReported(policy: Policy, env: Env, p: Project, r: Report) {
    || IdentityReported(p, r) || PolicyReported(policy, p.workspace, r) || AuthorityReported(p, r) || GateStateReported(p, r)
    || VerificationReported(policy, p, r) || exists a :: a in p.artifacts && ArtifactReported(policy, env, p, a, r)
  }

  /** All that validation reports. */
  ghost predicate Reported(policy: Policy, env: Env, p: FrozenPlan, r: Report) {
    || ModelReported(policy, env, p.project, r) || StateReported(p, r) || (r.Task? && P.Warranted(policy.commands, p, r.finding))
    || DefinitionReported(env, p, r) || (exists t :: t in p.tasks && ScopeReported(policy, p.project.workspace, t, r))
    || SurfaceReported(env, p, r)
  }

  // ----- The checks -----

  /** What is reported when the condition holds; reports are listed by their text, so a set says it all. */
  function When(condition: bool, r: Report): set<Report> {
    if condition then {r} else {}
  }

  method IdentityBindings(p: Project) returns (found: set<Report>)
    ensures forall r :: r in found <==> IdentityReported(p, r)
  {
    found := When(p.workspace.ownerProjectId.Some? && p.workspace.ownerProjectId != Some(p.projectId), OwnerMismatch)
             + When(p.repository.workspaceId != p.workspace.workspaceId, RepositoryUnbound)
             + When(p.binding.projectId != p.projectId, BindingMismatch("project_id"))
             + When(p.binding.workspaceId != p.workspace.workspaceId, BindingMismatch("workspace_id"))
             + When(p.binding.repositoryId != p.repository.repositoryId, BindingMismatch("repository_id"))
             + When(p.binding.planId != p.plan.planId, BindingMismatch("plan_id"))
             + When(p.binding.planVersion != p.plan.version, BindingMismatch("plan_version"));
  }

  /** One report for each of these texts. */
  method ForEach(texts: seq<string>, report: string -> Report) returns (found: set<Report>)
    ensures forall r :: r in found <==> exists x :: x in texts && r == report(x)
  {
    found := {};
    for i := 0 to |texts|
      invariant forall r :: r in found <==> exists x :: x in texts[..i] && r == report(x)
    {
      assert texts[..i + 1] == texts[..i] + [texts[i]];
      found := found + {report(texts[i])};
    }
    assert texts[..|texts|] == texts;
  }

  lemma SortedMembers(texts: set<string>)
    ensures forall x :: x in Sorted(texts) <==> x in texts
  {
    assert forall x :: x in Sorted(texts) <==> x in Elements(Sorted(texts));
  }

  predicate PolicyPath(path: string) {
    path in [".bootstrap/**", ".build/**", ".env", ".env.*", "aient/**"]
  }

  method MissingPaths(w: Workspace) returns (found: set<Report>)
    ensures forall r :: r in found <==> r.MissingProhibited? && PolicyPath(r.path) && r.path !in w.prohibitedPaths
  {
    var missing := Elements(DEFAULT_PROHIBITED_PATHS) - Elements(w.prohibitedPaths);
    SortedMembers(missing);
    found := ForEach(Sorted(missing), path => MissingProhibited(path));
    assert forall path :: path in missing <==> PolicyPath(path) && path !in w.prohibitedPaths;
    hide PolicyPath, DEFAULT_PROHIBITED_PATHS;
  }

  method ScopePolicy(policy: Policy, w: Workspace) returns (found: set<Report>)
    ensures forall r :: r in found <==> PolicyReported(policy, w, r)
  {
    var missing := MissingPaths(w);
    var roots: set<Report> := {};
    for i := 0 to |w.allowedRoots|
      invariant forall r :: r in roots <==> RootReported(policy, w, w.allowedRoots[..i], r)
    {
      var root := w.allowedRoots[i];
      assert w.allowedRoots[..i + 1] == w.allowedRoots[..i] + [root];
      roots := roots + When(policy.unsafePath(root), UnsafeRoot(root)) + When(policy.prohibited(root, w.prohibitedPaths), ProhibitedRoot(root));
    }
    assert w.allowedRoots[..|w.allowedRoots|] == w.allowedRoots;
    found := missing + roots;
  }

  predicate RootReported(policy: Policy, w: Workspace, roots: seq<string>, r: Report) {
    || (r.UnsafeRoot? && r.root in roots && policy.unsafePath(r.root))
    || (r.ProhibitedRoot? && r.root in roots && policy.prohibited(r.root, w.prohibitedPaths))
  }

  method ControlPlaneAuthority(p: Project) returns (found: set<Report>)
    ensures forall r :: r in found <==> AuthorityReported(p, r)
  {
    found := When(p.repository.controlPlaneWriteAuthority, RepositoryWrites) + When(!p.repository.pushRequiresHumanGate, PushUngated)
             + When(p.plan.controlPlaneAuthority != CONTROL_PLANE_AUTHORITY, PlanAuthority)
             + When(p.binding.controlPlaneAuthority != CONTROL_PLANE_AUTHORITY, BindingAuthority)
             + When(p.binding.grantsControlPlaneAuthority, AuthorityGranted) + When(p.binding.verifierBypassAuthority, VerifierBypass);
  }

  method UnknownGates(gates: set<string>) returns (found: set<Report>)
    ensures forall r :: r in found <==> r.UnknownGate? && r.gate in gates
  {
    SortedMembers(gates);
    found := ForEach(Sorted(gates), g => UnknownGate(g));
  }

  method PendingGates(gates: set<string>) returns (found: set<Report>)
    ensures forall r :: r in found <==> r.PendingGate? && r.gate in gates
  {
    SortedMembers(gates);
    found := ForEach(Sorted(gates), g => PendingGate(g));
  }

  method HumanGates(p: Project) returns (found: set<Report>)
    ensures forall r :: r in found <==> GateStateReported(p, r)
  {
    var executing := p.lifecycleState in {"IMPORT", "EXECUTE", "VERIFY", "COMPLETE", "RUN", "ARCHIVE"};
    assert executing <==> Executing(p.lifecycleState);
    hide Executing;
    var scoped, approved, pending := Elements(p.plan.requiredHumanGates), Elements(p.binding.approvedHumanGates), Elements(p.binding.pendingHumanGates);
    var unknown := UnknownGates((approved + pending) - scoped);
    var missing: set<Report> := {};
    if executing {
      missing := PendingGates(scoped - approved);
    }
    found := When(p.binding.implicitHumanGateApproval, ImplicitApproval) + unknown + missing;
  }

  method SecretCommands(policy: Policy, commands: seq<string>, report: nat -> Report) returns (found: set<Report>)
    ensures forall r :: r in found <==> exists n: nat :: SecretAt(policy, commands, n) && r == report(n)
  {
    found := {};
    for i := 0 to |commands|
      invariant forall r :: r in found <==> exists n: nat :: n <= i && SecretAt(policy, commands, n) && r == report(n)
    {
      ghost var before := found;
      found := found + if policy.commands.secret(commands[i]) then {report(i + 1)} else {};
      forall r ensures r in found <==> exists n: nat :: n <= i + 1 && SecretAt(policy, commands, n) && r == report(n) {
        assert SecretAt(policy, commands, i + 1) <==> policy.commands.secret(commands[i]);
      }
    }
    forall r ensures r in found <==> exists n: nat :: SecretAt(policy, commands, n) && r == report(n) {}
  }

  method CommandCheck(policy: Policy, commands: seq<string>, lacks: string -> Report, secret: nat -> Report) returns (found: set<Report>)
    ensures forall r :: r in found <==>
              || (exists c :: c in policy.commands.mandatory && c !in commands && r == lacks(c))
              || (exists n: nat :: SecretAt(policy, commands, n) && r == secret(n))
  {
    var missing := Elements(policy.commands.mandatory) - Elements(commands);
    SortedMembers(missing);
    var lacking := ForEach(Sorted(missing), lacks);
    var secrets := SecretCommands(policy, commands, secret);
    hide SecretAt;
    assert forall c :: c in Sorted(missing) <==> c in policy.commands.mandatory && c !in commands;
    found := lacking + secrets;
  }

  method Verification(policy: Policy, p: Project) returns (found: set<Report>)
    ensures forall r :: r in found <==> VerificationReported(policy, p, r)
  {
    hide SecretAt;
    var plan := CommandCheck(policy, p.plan.verificationCommands, c => PlanLacksCommand(c), (n: nat) => PlanSecretCommand(n));
    var binding := CommandCheck(policy, p.binding.verificationCommands, c => BindingLacksCommand(c), (n: nat) => BindingSecretCommand(n));
    assert forall r :: r in plan <==> (r.PlanLacksCommand? || r.PlanSecretCommand?) && VerificationReported(policy, p, r);
    assert forall r :: r in binding <==> (r.BindingLacksCommand? || r.BindingSecretCommand?) && VerificationReported(policy, p, r);
    found := When(!p.plan.independentVerificationRequired, VerificationDisabled) + plan + binding;
  }

  method ArtifactCheck(policy: Policy, env: Env, p: Project, a: Artifact) returns (found: set<Report>)
    ensures forall r :: r in found <==> ArtifactReported(policy, env, p, a, r)
  {
    var id := a.artifactId;
    NoSecretInNothing(env);
    hide HasSecretField, Record;
    found := When(a.projectId != p.projectId, ArtifactProject(id)) + When(a.workspaceId != p.workspace.workspaceId, ArtifactWorkspace(id))
             + When(!policy.sha256(a.contentHash), ArtifactHash(id)) + When(a.containsSecret, ArtifactSecret(id))
             + When(policy.unsafePath(a.relativePath), ArtifactPath(id))
             + When(policy.prohibited(a.relativePath, p.workspace.prohibitedPaths), ArtifactProhibited(id))
             + When(HasSecretField(env.secretKey, Record(MetadataOf(a))), ArtifactMetadata(id));
  }

  lemma NoSecretInNothing(env: Env)
    ensures !HasSecretField(env.secretKey, Record(map[]))
  {}

  method Artifacts(policy: Policy, env: Env, p: Project) returns (found: set<Report>)
    ensures forall r :: r in found <==> exists a :: a in p.artifacts && ArtifactReported(policy, env, p, a, r)
  {
    hide ArtifactReported;
    found := {};
    for i := 0 to |p.artifacts|
      invariant forall r :: r in found <==> exists a :: a in p.artifacts[..i] && ArtifactReported(policy, env, p, a, r)
    {
      assert p.artifacts[..i + 1] == p.artifacts[..i] + [p.artifacts[i]];
      var more := ArtifactCheck(policy, env, p, p.artifacts[i]);
      found := found + more;
    }
    assert p.artifacts[..|p.artifacts|] == p.artifacts;
  }

  method ValidateModel(policy: Policy, env: Env, p: Project) returns (found: set<Report>)
    ensures forall r :: r in found <==> ModelReported(policy, env, p, r)
  {
    hide IdentityReported, PolicyReported, AuthorityReported, GateStateReported, VerificationReported, ArtifactReported;
    var identity := IdentityBindings(p);
    var scope := ScopePolicy(policy, p.workspace);
    var authority := ControlPlaneAuthority(p);
    var gates := HumanGates(p);
    var verification := Verification(policy, p);
    var artifacts := Artifacts(policy, env, p);
    found := identity + scope + authority + gates + verification + artifacts;
  }

  method ImportState(p: FrozenPlan) returns (found: set<Report>)
    ensures forall r :: r in found <==> StateReported(p, r)
  {
    found := When(p.project.plan.state != "FROZEN", PlanNotFrozen) + When(p.project.binding.state != "READY_FOR_IMPORT", BindingNotReady)
             + When(NumberOf(p.effectiveConcurrency) < 1, NoConcurrency);
  }

  method TaskBindings(policy: Policy, p: FrozenPlan) returns (found: set<Report>)
    ensures forall r :: r in found <==> r.Task? && P.Warranted(policy.commands, p, r.finding)
  {
    var findings := P.ValidateTaskBindings(policy.commands, p, []);
    assert findings[0..] == findings;
    hide P.Warranted;
    found := set f | f in findings :: Task(f);
  }

  method ScopeCheck(policy: Policy, w: Workspace, t: RuntimeTask) returns (found: set<Report>)
    ensures forall r :: r in found <==> ScopeReported(policy, w, t, r)
  {
    var paths := t.allowedPaths + t.prohibitedPaths;
    var unsafe: set<Report> := {};
    for i := 0 to |paths|
      invariant forall r :: r in unsafe <==> r.ScopePath? && r.task == t.id && r.path in paths[..i] && policy.unsafePath(r.path)
    {
      assert paths[..i + 1] == paths[..i] + [paths[i]];
      unsafe := unsafe + When(policy.unsafePath(paths[i]), ScopePath(t.id, paths[i]));
    }
    assert paths[..|paths|] == paths;
    var allowed := AllowedPaths(policy, w, t);
    found := unsafe + allowed;
  }

  predicate AllowedReported(policy: Policy, w: Workspace, t: RuntimeTask, upTo: int, r: Report)
    requires 0 <= upTo <= |t.allowedPaths|
  {
    || (r == ScopeOutside(t.id) && exists i | 0 <= i < upTo :: Outside(policy, w, t.allowedPaths[i]))
    || (r.ScopeConflict? && r.task == t.id && r.path in t.allowedPaths[..upTo] && !policy.unsafePath(r.path) && policy.prohibited(r.path, w.prohibitedPaths))
  }

  predicate Outside(policy: Policy, w: Workspace, path: string) {
    !policy.unsafePath(path) && !policy.inRoots(path, w.allowedRoots)
  }

  method AllowedPaths(policy: Policy, w: Workspace, t: RuntimeTask) returns (found: set<Report>)
    ensures forall r :: r in found <==> AllowedReported(policy, w, t, |t.allowedPaths|, r)
  {
    found := {};
    for i := 0 to |t.allowedPaths|
      invariant forall r :: r in found <==> AllowedReported(policy, w, t, i, r)
    {
      var path := t.allowedPaths[i];
      assert t.allowedPaths[..i + 1] == t.allowedPaths[..i] + [path];
      if policy.unsafePath(path) {
        continue;
      }
      found := found + When(!policy.inRoots(path, w.allowedRoots), ScopeOutside(t.id))
               + When(policy.prohibited(path, w.prohibitedPaths), ScopeConflict(t.id, path));
    }
  }

  method RuntimeScope(policy: Policy, p: FrozenPlan) returns (found: set<Report>)
    ensures forall r :: r in found <==> exists t :: t in p.tasks && ScopeReported(policy, p.project.workspace, t, r)
  {
    hide ScopeReported;
    found := {};
    for i := 0 to |p.tasks|
      invariant forall r :: r in found <==> exists t :: t in p.tasks[..i] && ScopeReported(policy, p.project.workspace, t, r)
    {
      assert p.tasks[..i + 1] == p.tasks[..i] + [p.tasks[i]];
      var more := ScopeCheck(policy, p.project.workspace, p.tasks[i]);
      found := found + more;
    }
    assert p.tasks[..|p.tasks|] == p.tasks;
  }

  method SecretProvenance(env: Env, tasks: seq<RuntimeTask>) returns (found: set<Report>)
    ensures forall r :: r in found <==>
              r.ProvenanceSecret? && exists t :: t in tasks && t.id == r.task && HasSecretField(env.secretKey, Record(t.provenance))
  {
    hide HasSecretField, Record;
    found := {};
    for i := 0 to |tasks|
      invariant forall r :: r in found <==>
                  r.ProvenanceSecret? && exists t :: t in tasks[..i] && t.id == r.task && HasSecretField(env.secretKey, Record(t.provenance))
    {
      assert tasks[..i + 1] == tasks[..i] + [tasks[i]];
      found := found + When(HasSecretField(env.secretKey, Record(tasks[i].provenance)), ProvenanceSecret(tasks[i].id));
    }
    assert tasks[..|tasks|] == tasks;
  }

  method SecretDefinitions(env: Env, gates: seq<Fields>) returns (found: set<Report>)
    ensures forall r :: r in found <==> r.GateSecret? && r.place < |gates| && HasSecretField(env.secretKey, Record(gates[r.place]))
  {
    hide HasSecretField, Record;
    found := {};
    for i := 0 to |gates|
      invariant forall r :: r in found <==> r.GateSecret? && r.place < i && HasSecretField(env.secretKey, Record(gates[r.place]))
    {
      found := found + When(HasSecretField(env.secretKey, Record(gates[i])), GateSecret(i));
    }
  }

  method SecretSurfaces(env: Env, p: FrozenPlan) returns (found: set<Report>)
    ensures forall r :: r in found <==> SurfaceReported(env, p, r)
  {
    hide HasSecretField, Record, RemoteSecrets.Secret;
    var provenance := SecretProvenance(env, p.tasks);
    var definitions := SecretDefinitions(env, p.humanGateDefinitions);
    found := When(SecretRemote(env, p.project.repository), RemoteSecret) + provenance + definitions;
  }

  // ----- Gate definitions -----

  ghost predicate Defined(env: Env, gates: seq<Fields>, definitions: map<string, Fields>) {
    && (forall id :: id in definitions <==> TextAmong(env, gates, id))
    && (forall id, at :: LastDefinition(env, gates, id, at) ==> id in definitions && definitions[id] == gates[at])
  }

  lemma DefinedMore(env: Env, gates: seq<Fields>, g: Fields, definitions: map<string, Fields>)
    requires Defined(env, gates, definitions)
    ensures Defined(env, gates + [g], definitions[TextOf(env, g, "id") := g])
  {
    hide TextOf;
    var more, text := gates + [g], TextOf(env, g, "id");
    forall id ensures id in definitions[text := g] <==> TextAmong(env, more, id) {
      if TextAmong(env, gates, id) {
        var i :| 0 <= i < |gates| && TextOf(env, gates[i], "id") == id;
        assert more[i] == gates[i];
      }
      if id == text {
        assert more[|gates|] == g;
      }
    }
    forall id, at | LastDefinition(env, more, id, at) ensures id in definitions[text := g] && definitions[text := g][id] == more[at] {
      if at < |gates| {
        assert TextOf(env, more[|gates|], "id") != id;
        forall j | at < j < |gates| ensures TextOf(env, gates[j], "id") != id {
          assert more[j] == gates[j];
        }
        assert LastDefinition(env, gates, id, at);
      }
    }
  }

  /** The dictionary of definitions. */
  method Definitions(env: Env, gates: seq<Fields>) returns (definitions: map<string, Fields>)
    ensures Defined(env, gates, definitions)
  {
    hide TextOf;
    definitions := map[];
    for i := 0 to |gates|
      invariant Defined(env, gates[..i], definitions)
    {
      assert gates[..i + 1] == gates[..i] + [gates[i]];
      DefinedMore(env, gates[..i], gates[i], definitions);
      hide Defined;
      definitions := definitions[TextOf(env, gates[i], "id") := gates[i]];
    }
    assert gates[..|gates|] == gates;
  }

  lemma {:induction false} LastThere(env: Env, gates: seq<Fields>, id: string, first: nat) returns (at: nat)
    requires first < |gates| && TextOf(env, gates[first], "id") == id
    ensures LastDefinition(env, gates, id, at)
    decreases |gates| - first
  {
    at := first;
    if j :| first < j < |gates| && TextOf(env, gates[j], "id") == id {
      at := LastThere(env, gates, id, j);
    }
  }

  predicate NamesTask(env: Env, tasks: seq<RuntimeTask>, g: Fields) {
    exists i | 0 <= i < |tasks| :: tasks[i].id == TextOf(env, g, "task_id")
  }

  lemma DefinitionTasks(env: Env, p: FrozenPlan, definitions: map<string, Fields>, id: string)
    requires Defined(env, p.humanGateDefinitions, definitions)
    ensures LastWithoutTask(env, p, id) <==> id in definitions && !NamesTask(env, p.tasks, definitions[id])
  {
    hide TextOf;
    var gates := p.humanGateDefinitions;
    if id in definitions {
      var i :| 0 <= i < |gates| && TextOf(env, gates[i], "id") == id;
      var at := LastThere(env, gates, id, i);
      assert definitions[id] == gates[at];
    }
    forall g: Fields ensures NamesTask(env, p.tasks, g) <==> exists t :: t in p.tasks && t.id == TextOf(env, g, "task_id") {}
  }

  method GateBindings(p: FrozenPlan) returns (found: set<Report>)
    ensures forall r :: r in found <==> BindingsReported(p, r)
  {
    var scoped := Elements(p.project.plan.requiredHumanGates);
    var approved, pending := Elements(p.project.binding.approvedHumanGates), Elements(p.project.binding.pendingHumanGates);
    SortedMembers(scoped - approved - pending);
    var unbound := ForEach(Sorted(scoped - approved - pending), g => GateUnbound(g));
    assert forall r :: r in unbound <==> r.GateUnbound? && r.gate in scoped - approved - pending;
    var both := approved * pending != {};
    assert both <==> exists g :: g in p.project.binding.approvedHumanGates && g in p.project.binding.pendingHumanGates by {
      if g :| g in p.project.binding.approvedHumanGates && g in p.project.binding.pendingHumanGates {
        assert g in approved * pending;
      }
    }
    found := When(both, GateInBothStates) + unbound;
  }

  method MissingDefinitions(gates: set<string>) returns (found: set<Report>)
    ensures forall r :: r in found <==> r.DefinitionMissing? && r.gate in gates
  {
    SortedMembers(gates);
    found := ForEach(Sorted(gates), g => DefinitionMissing(g));
  }

  method UnknownDefinitions(gates: set<string>) returns (found: set<Report>)
    ensures forall r :: r in found <==> r.DefinitionUnknown? && r.gate in gates
  {
    SortedMembers(gates);
    found := ForEach(Sorted(gates), g => DefinitionUnknown(g));
  }

  method GatesWithoutTask(gates: set<string>) returns (found: set<Report>)
    ensures forall r :: r in found <==> r.GateWithoutTask? && r.gate in gates
  {
    SortedMembers(gates);
    found := ForEach(Sorted(gates), g => GateWithoutTask(g));
  }

  method DefinedGates(env: Env, p: FrozenPlan, definitions: map<string, Fields>) returns (found: set<Report>)
    ensures forall r :: r in found <==> FromDictionary(env, p, definitions, r)
  {
    hide NamesTask;
    var scoped := Elements(p.project.plan.requiredHumanGates);
    var missing := MissingDefinitions(scoped - definitions.Keys);
    var unknown := UnknownDefinitions(definitions.Keys - scoped);
    var lost := GatesWithoutTask(set id | id in definitions && !NamesTask(env, p.tasks, definitions[id]));
    found := missing + unknown + lost;
  }

  /** What the dictionary gives rise to. */
  ghost predicate FromDictionary(env: Env, p: FrozenPlan, definitions: map<string, Fields>, r: Report) {
    || (r.DefinitionMissing? && r.gate in p.project.plan.requiredHumanGates && r.gate !in definitions)
    || (r.DefinitionUnknown? && r.gate !in p.project.plan.requiredHumanGates && r.gate in definitions)
    || (r.GateWithoutTask? && r.gate in definitions && !NamesTask(env, p.tasks, definitions[r.gate]))
  }

  lemma DefinitionReports(env: Env, p: FrozenPlan, definitions: map<string, Fields>, r: Report)
    requires Defined(env, p.humanGateDefinitions, definitions)
    ensures DefinitionReported(env, p, r) <==> FromDictionary(env, p, definitions, r) || BindingsReported(p, r)
  {
    hide BindingsReported, NamesTask, TextAmong, LastWithoutTask;
    if r.GateWithoutTask? {
      DefinitionTasks(env, p, definitions, r.gate);
    }
    hide LastDefinition, TextOf;
  }

  method GateDefinitionCheck(env: Env, p: FrozenPlan) returns (found: set<Report>)
    ensures forall r :: r in found <==> DefinitionReported(env, p, r)
  {
    hide BindingsReported, FromDictionary, DefinitionReported;
    var definitions := Definitions(env, p.humanGateDefinitions);
    var bindings := GateBindings(p);
    var defined := DefinedGates(env, p, definitions);
    found := bindings + defined;
    forall r ensures r in found <==> DefinitionReported(env, p, r) {
      DefinitionReports(env, p, definitions, r);
    }
    hide Defined;
  }

  /** The whole validation. */
  method ValidateFrozenPlan(policy: Policy, env: Env, p: FrozenPlan) returns (found: set<Report>)
    ensures forall r :: r in found <==> Reported(policy, env, p, r)
  {
    hide ModelReported, StateReported, P.Warranted, DefinitionReported, ScopeReported, SurfaceReported;
    var model := ValidateModel(policy, env, p.project);
    var state := ImportState(p);
    var tasks := TaskBindings(policy, p);
    var gates := GateDefinitionCheck(env, p);
    var scope := RuntimeScope(policy, p);
    var surfaces := SecretSurfaces(env, p);
    found := model + state + tasks + gates + scope + surfaces;
  }

  // ----- No report means importable -----

  lemma IdentityClean(p: Project)
    ensures (forall r :: !IdentityReported(p, r)) <==> BoundToProject(p)
  {
    if forall r :: !IdentityReported(p, r) {
      assert !IdentityReported(p, OwnerMismatch) && !IdentityReported(p, RepositoryUnbound);
      assert !IdentityReported(p, BindingMismatch("project_id")) && !IdentityReported(p, BindingMismatch("workspace_id"));
      assert !IdentityReported(p, BindingMismatch("repository_id")) && !IdentityReported(p, BindingMismatch("plan_id"));
      assert !IdentityReported(p, BindingMismatch("plan_version"));
    }
  }

  lemma PolicyClean(policy: Policy, w: Workspace)
    ensures (forall r :: !PolicyReported(policy, w, r)) <==> ScopedWorkspace(policy, w)
  {
    if forall r :: !PolicyReported(policy, w, r) {
      forall path | path in DEFAULT_PROHIBITED_PATHS ensures path in w.prohibitedPaths {
        assert !PolicyReported(policy, w, MissingProhibited(path));
      }
      forall root | root in w.allowedRoots ensures !policy.unsafePath(root) && !policy.prohibited(root, w.prohibitedPaths) {
        assert !PolicyReported(policy, w, UnsafeRoot(root)) && !PolicyReported(policy, w, ProhibitedRoot(root));
      }
    }
    if ScopedWorkspace(policy, w) {
      forall path | path in DEFAULT_PROHIBITED_PATHS ensures path in w.prohibitedPaths {
        assert path in Elements(DEFAULT_PROHIBITED_PATHS);
      }
    }
  }

  lemma AuthorityClean(p: Project)
    ensures (forall r :: !AuthorityReported(p, r)) <==> AuthorityPreserved(p)
  {
    if forall r :: !AuthorityReported(p, r) {
      assert !AuthorityReported(p, RepositoryWrites) && !AuthorityReported(p, PushUngated) && !AuthorityReported(p, PlanAuthority);
      assert !AuthorityReported(p, BindingAuthority) && !AuthorityReported(p, AuthorityGranted) && !AuthorityReported(p, VerifierBypass);
    }
  }

  lemma GateStateClean(p: Project)
    ensures (forall r :: !GateStateReported(p, r)) <==> GatesScoped(p)
  {
    var executing := p.lifecycleState in {"IMPORT", "EXECUTE", "VERIFY", "COMPLETE", "RUN", "ARCHIVE"};
    assert executing <==> Executing(p.lifecycleState);
    hide Executing;
    if forall r :: !GateStateReported(p, r) {
      assert !GateStateReported(p, ImplicitApproval);
      forall g | g in p.binding.approvedHumanGates || g in p.binding.pendingHumanGates ensures g in p.plan.requiredHumanGates {
        assert !GateStateReported(p, UnknownGate(g));
      }
      forall g | executing && g in p.plan.requiredHumanGates ensures g in p.binding.approvedHumanGates {
        assert !GateStateReported(p, PendingGate(g));
      }
    }
    if GatesScoped(p) {
      forall r ensures !GateStateReported(p, r) {
        GateStateQuiet(p, r, executing);
      }
    }
  }

  lemma GateStateQuiet(p: Project, r: Report, executing: bool)
    requires GatesScoped(p) && (executing <==> p.lifecycleState in {"IMPORT", "EXECUTE", "VERIFY", "COMPLETE", "RUN", "ARCHIVE"})
    requires executing <==> Executing(p.lifecycleState)
    ensures !GateStateReported(p, r)
  {
    hide Executing;
    if r.UnknownGate? {
      assert r.gate in p.binding.approvedHumanGates ==> r.gate in Elements(p.binding.approvedHumanGates);
      assert r.gate in p.binding.pendingHumanGates ==> r.gate in Elements(p.binding.pendingHumanGates);
    } else if r.PendingGate? {
      assert r.gate in p.plan.requiredHumanGates ==> r.gate in Elements(p.plan.requiredHumanGates);
    }
  }

  lemma VerificationClean(policy: Policy, p: Project)
    ensures (forall r :: !VerificationReported(policy, p, r)) <==> Verified(policy, p)
  {
    if forall r :: !VerificationReported(policy, p, r) {
      assert !VerificationReported(policy, p, VerificationDisabled);
      forall c | c in policy.commands.mandatory ensures c in p.plan.verificationCommands && c in p.binding.verificationCommands {
        assert !VerificationReported(policy, p, PlanLacksCommand(c)) && !VerificationReported(policy, p, BindingLacksCommand(c));
      }
      forall i | 0 <= i < |p.plan.verificationCommands| ensures !policy.commands.secret(p.plan.verificationCommands[i]) {
        assert !VerificationReported(policy, p, PlanSecretCommand(i + 1));
      }
      forall i | 0 <= i < |p.binding.verificationCommands| ensures !policy.commands.secret(p.binding.verificationCommands[i]) {
        assert !VerificationReported(policy, p, BindingSecretCommand(i + 1));
      }
    }
    if Verified(policy, p) {
      forall c | c in policy.commands.mandatory ensures c in p.plan.verificationCommands && c in p.binding.verificationCommands {
        assert c in Elements(policy.commands.mandatory);
      }
    }
  }

  lemma ArtifactClean(policy: Policy, env: Env, p: Project, a: Artifact)
    ensures (forall r :: !ArtifactReported(policy, env, p, a, r)) <==> CleanArtifact(policy, env, p, a)
  {
    var id := a.artifactId;
    NoSecretInNothing(env);
    hide HasSecretField, Record;
    if forall r :: !ArtifactReported(policy, env, p, a, r) {
      assert !ArtifactReported(policy, env, p, a, ArtifactProject(id)) && !ArtifactReported(policy, env, p, a, ArtifactWorkspace(id));
      assert !ArtifactReported(policy, env, p, a, ArtifactHash(id)) && !ArtifactReported(policy, env, p, a, ArtifactSecret(id));
      assert !ArtifactReported(policy, env, p, a, ArtifactPath(id)) && !ArtifactReported(policy, env, p, a, ArtifactProhibited(id));
      assert !ArtifactReported(policy, env, p, a, ArtifactMetadata(id));
    }
  }

  lemma ModelClean(policy: Policy, env: Env, p: Project)
    ensures (forall r :: !ModelReported(policy, env, p, r)) <==> CleanModel(policy, env, p)
  {
    IdentityClean(p);
    PolicyClean(policy, p.workspace);
    AuthorityClean(p);
    GateStateClean(p);
    VerificationClean(policy, p);
    forall a: Artifact {
      ArtifactClean(policy, env, p, a);
    }
    hide IdentityReported, PolicyReported, AuthorityReported, GateStateReported, VerificationReported, ArtifactReported;
    hide BoundToProject, ScopedWorkspace, AuthorityPreserved, GatesScoped, Verified, CleanArtifact;
    if forall r :: !ModelReported(policy, env, p, r) {
      forall r
        ensures !IdentityReported(p, r) && !PolicyReported(policy, p.workspace, r) && !AuthorityReported(p, r)
        ensures !GateStateReported(p, r) && !VerificationReported(policy, p, r)
      {
        assert !ModelReported(policy, env, p, r);
      }
      forall a, r | a in p.artifacts ensures !ArtifactReported(policy, env, p, a, r) {
        assert !ModelReported(policy, env, p, r);
      }
    }
  }

  lemma StateClean(p: FrozenPlan)
    ensures (forall r :: !StateReported(p, r)) <==> ReadyForImport(p)
  {
    if forall r :: !StateReported(p, r) {
      assert !StateReported(p, PlanNotFrozen) && !StateReported(p, BindingNotReady) && !StateReported(p, NoConcurrency);
    }
  }

  lemma ScopeClean(policy: Policy, w: Workspace, t: RuntimeTask)
    ensures (forall r :: !ScopeReported(policy, w, t, r)) <==> TaskInScope(policy, w, t)
  {
    if forall r :: !ScopeReported(policy, w, t, r) {
      forall path | path in t.allowedPaths + t.prohibitedPaths ensures !policy.unsafePath(path) {
        assert !ScopeReported(policy, w, t, ScopePath(t.id, path));
      }
      forall i | 0 <= i < |t.allowedPaths| ensures policy.inRoots(t.allowedPaths[i], w.allowedRoots) && !policy.prohibited(t.allowedPaths[i], w.prohibitedPaths) {
        assert t.allowedPaths[i] in t.allowedPaths + t.prohibitedPaths;
        assert !ScopeReported(policy, w, t, ScopeOutside(t.id)) && !ScopeReported(policy, w, t, ScopeConflict(t.id, t.allowedPaths[i]));
      }
    }
    if TaskInScope(policy, w, t) {
      assert forall path :: path in t.allowedPaths || path in t.prohibitedPaths ==> path in t.allowedPaths + t.prohibitedPaths;
    }
  }

  lemma SurfaceClean(env: Env, p: FrozenPlan)
    ensures (forall r :: !SurfaceReported(env, p, r)) <==> NoSecretFields(env, p) && !SecretRemote(env, p.project.repository)
  {
    hide HasSecretField, Record, RemoteSecrets.Secret;
    if forall r :: !SurfaceReported(env, p, r) {
      assert !SurfaceReported(env, p, RemoteSecret);
      forall t | t in p.tasks ensures !HasSecretField(env.secretKey, Record(t.provenance)) {
        assert !SurfaceReported(env, p, ProvenanceSecret(t.id));
      }
      forall i | 0 <= i < |p.humanGateDefinitions| ensures !HasSecretField(env.secretKey, Record(p.humanGateDefinitions[i])) {
        assert !SurfaceReported(env, p, GateSecret(i));
      }
    }
  }

  lemma DefinitionsTold(env: Env, gates: seq<Fields>)
    ensures Defined(env, gates, DefinitionsById(env, gates))
  {
    hide TextOf;
    DefinedTexts(env, gates);
    forall id ensures id in DefinitionsById(env, gates) <==> TextAmong(env, gates, id) {
      assert id in DefinitionsById(env, gates) <==> id in TextsOf(PlainText(env, "id"), gates);
    }
    forall id, at | LastDefinition(env, gates, id, at) ensures id in DefinitionsById(env, gates) && DefinitionsById(env, gates)[id] == gates[at] {
      DefinitionIsLast(env, gates, at);
    }
  }

  lemma DefinitionClean(env: Env, p: FrozenPlan)
    ensures (forall r :: !DefinitionReported(env, p, r)) <==> GatesDefined(env, p)
  {
    var definitions := DefinitionsById(env, p.humanGateDefinitions);
    DefinitionsTold(env, p.humanGateDefinitions);
    TasksNamed(env, p, definitions);
    BindingsClean(p);
    hide DefinitionsById, Defined, GatesBound, BindingsReported, TaskIds, NameTasks, TextOf, NamesTask;
    forall r ensures DefinitionReported(env, p, r) <==> FromDictionary(env, p, definitions, r) || BindingsReported(p, r) {
      DefinitionReports(env, p, definitions, r);
    }
    hide DefinitionReported;
    DictionaryClean(env, p, definitions);
  }

  lemma TasksNamed(env: Env, p: FrozenPlan, definitions: map<string, Fields>)
    ensures NameTasks(env, definitions, TaskIds(p)) <==> forall id :: id in definitions ==> NamesTask(env, p.tasks, definitions[id])
  {
    hide TextOf;
    P.TaskIdFacts(p);
    forall id | id in definitions ensures TextOf(env, definitions[id], "task_id") in TaskIds(p) <==> NamesTask(env, p.tasks, definitions[id]) {
      IdListed(p.tasks, TextOf(env, definitions[id], "task_id"));
      assert TextOf(env, definitions[id], "task_id") in Elements(TaskIds(p)) <==> TextOf(env, definitions[id], "task_id") in Elements(TaskIdsOf(p.tasks));
    }
  }

  lemma IdListed(tasks: seq<RuntimeTask>, id: Id)
    ensures id in TaskIdsOf(tasks) <==> exists i :: 0 <= i < |tasks| && tasks[i].id == id
  {
    if i :| 0 <= i < |tasks| && tasks[i].id == id {
      assert TaskIdsOf(tasks)[i] == id;
    }
  }

  lemma BindingsClean(p: FrozenPlan)
    ensures (forall r :: !BindingsReported(p, r)) <==> GatesBound(p)
  {
    var scoped := p.project.plan.requiredHumanGates;
    var approved, pending := p.project.binding.approvedHumanGates, p.project.binding.pendingHumanGates;
    if forall r :: !BindingsReported(p, r) {
      assert !BindingsReported(p, GateInBothStates);
      forall g | g in scoped ensures g in approved || g in pending {
        assert !BindingsReported(p, GateUnbound(g));
      }
    }
    if GatesBound(p) {
      forall g | g in scoped ensures g in approved || g in pending {
        assert g in Required(p);
      }
      forall g | g in approved ensures g !in pending {
        assert g in Elements(approved) && (g in pending ==> g in Elements(pending));
      }
    }
  }

  lemma DictionaryClean(env: Env, p: FrozenPlan, definitions: map<string, Fields>)
    ensures (forall r :: !FromDictionary(env, p, definitions, r)) <==>
            definitions.Keys == Required(p) && forall id :: id in definitions ==> NamesTask(env, p.tasks, definitions[id])
  {
    hide NamesTask;
    if forall r :: !FromDictionary(env, p, definitions, r) {
      forall id ensures id in definitions <==> id in p.project.plan.requiredHumanGates {
        assert !FromDictionary(env, p, definitions, DefinitionMissing(id)) && !FromDictionary(env, p, definitions, DefinitionUnknown(id));
      }
      forall id | id in definitions ensures NamesTask(env, p.tasks, definitions[id]) {
        assert !FromDictionary(env, p, definitions, GateWithoutTask(id));
      }
    }
    if definitions.Keys == Required(p) {
      assert forall id :: id in definitions <==> id in p.project.plan.requiredHumanGates;
    }
  }

  /** Nothing is reported exactly for the importable plans. */
  lemma NoReportIffImportable(policy: Policy, env: Env, p: FrozenPlan)
    ensures (forall r :: !Reported(policy, env, p, r)) <==> Importable(policy, env, p)
  {
    ModelClean(policy, env, p.project);
    StateClean(p);
    DefinitionClean(env, p);
    SurfaceClean(env, p);
    forall t: RuntimeTask {
      ScopeClean(policy, p.project.workspace, t);
    }
    hide ModelReported, StateReported, P.Warranted, DefinitionReported, ScopeReported, SurfaceReported;
    hide CleanModel, ReadyForImport, GatesDefined, TaskInScope, NoSecretFields, SecretRemote;
    if forall r :: !Reported(policy, env, p, r) {
      forall r
        ensures !ModelReported(policy, env, p.project, r) && !StateReported(p, r) && !DefinitionReported(env, p, r) && !SurfaceReported(env, p, r)
      {
        assert !Reported(policy, env, p, r);
      }
      forall f: P.Finding ensures !P.Warranted(policy.commands, p, f) {
        assert !Reported(policy, env, p, Task(f));
      }
      forall t, r | t in p.tasks ensures !ScopeReported(policy, p.project.workspace, t, r) {
        assert !Reported(policy, env, p, r);
      }
    }
  }
}
