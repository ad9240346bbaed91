/** The artifact evidence graph: two passes over the project memory, with edges keyed by a digest of their contents. */
module EvidenceGraph {
  import opened Order
  import opened Wrappers

  // ----- Project memory -----

  /** A value of the binding payload: one string, a list, or anything else. */
  datatype Items = One(item: string) | Many(items: seq<string>) | Neither

  datatype Implements = NotMapping | Mapping(requirements: Items, capabilities: Items, components: Items, interfaces: Items)

  /** `gateId` is None when the payload holds no string there; `rest` stands for all other payload fields. */
  datatype MemoryPayload = MemoryPayload(implements: Implements, gateId: Option<string>, rest: string)

  datatype Entry = Entry(memoryId: string, projectId: string, source: string, summary: string,
                         taskId: Option<string>, executionId: Option<string>, payload: MemoryPayload)

  function StringItems(v: Items): seq<string> {
    match v case One(s) => [s] case Many(xs) => SortStrings(xs) case Neither => []
  }

  predicate ListsItem(v: Items, s: string) {
    (v.One? && s == v.item) || (v.Many? && s in v.items)
  }

  lemma StringItemsMeaning(v: Items, s: string)
    ensures s in StringItems(v) <==> ListsItem(v, s)
  {
    if v.Many? {
      SortKeepsElements(StrLe, v.items);
    }
  }

  predicate IsBinding(e: Entry) { e.source == "runtime-task-binding" && e.taskId.Some? }

  predicate IsGate(e: Entry) {
    e.source == "runtime-human-gate" && e.taskId.Some? && e.payload.gateId.Some? && e.payload.gateId.value != ""
  }

  // ----- Edges -----

  datatype EdgeKind =
    | Canonical(name: string)
    | RecordsArtifact | TaskHasArtifact | ExecutionHasArtifact | TaskHasExecution
    | ImplementsRequirement | EvidencesRequirement | ImplementsCapability | ImplementsComponent | ExercisesInterface
    | RequiresHumanGate | GateHasArtifact | GatesRequirement

  /** All that the digest of an edge covers; the two payload values are kept as a pair. */
  datatype Spec = Spec(kind: EdgeKind, source: string, target: string, refs: seq<string>, about: (string, string))

  function ArtifactNode(memoryId: string): string { "artifact:" + memoryId }
  function TaskNode(taskId: string): string { "task:" + taskId }
  function ExecutionNode(executionId: string): string { "execution:" + executionId }
  function GateNode(gateId: string): string { "human_gate:" + gateId }
  function RequirementNode(id: string): string { "requirement:" + id }

  function EvidenceEdge(memoryId: string, requirement: string): Spec {
    Spec(EvidencesRequirement, ArtifactNode(memoryId), RequirementNode(requirement), [memoryId], (memoryId, requirement))
  }

  function GatesEdge(memoryId: string, gateId: string, requirement: string): Spec {
    Spec(GatesRequirement, GateNode(gateId), RequirementNode(requirement), [memoryId], (gateId, requirement))
  }

  function LinkEdge(kind: EdgeKind, taskId: string, prefix: string, memoryId: string, id: string): Spec {
    Spec(kind, TaskNode(taskId), prefix + id, [memoryId], (taskId, id))
  }

  function LinkEdges(kind: EdgeKind, taskId: string, prefix: string, memoryId: string, ids: seq<string>): set<Spec> {
    set id | id in ids :: LinkEdge(kind, taskId, prefix, memoryId, id)
  }

  function EvidenceEdges(memoryId: string, requirements: seq<string>): set<Spec> {
    set r | r in requirements :: EvidenceEdge(memoryId, r)
  }

  function GatesEdges(memoryId: string, gateId: string, requirements: seq<string>): set<Spec> {
    set r | r in requirements :: GatesEdge(memoryId, gateId, r)
  }

  function RecordEdge(project: string, e: Entry): Spec {
    Spec(RecordsArtifact, project, ArtifactNode(e.memoryId), [e.source], (e.memoryId, e.source))
  }

  function TaskEdges(e: Entry): set<Spec> {
    if e.taskId.None? then {}
    else {Spec(TaskHasArtifact, TaskNode(e.taskId.value), ArtifactNode(e.memoryId), [e.source], (e.memoryId, e.taskId.value))}
  }

  function ExecutionEdges(e: Entry): set<Spec> {
    if e.executionId.None? then {}
    else
      var x := e.executionId.value;
      {Spec(ExecutionHasArtifact, ExecutionNode(x), ArtifactNode(e.memoryId), [e.source], (e.memoryId, x))}
      + if e.taskId.None? then {}
        else {Spec(TaskHasExecution, TaskNode(e.taskId.value), ExecutionNode(x), [e.source], (e.taskId.value, x))}
  }

  function BoundHere(e: Entry): seq<string> {
    if IsBinding(e) && e.payload.implements.Mapping? then StringItems(e.payload.implements.requirements) else []
  }

  function BindingEdges(e: Entry): set<Spec> {
    if !IsBinding(e) || e.payload.implements.NotMapping? then {}
    else
      var t, m, i := e.taskId.value, e.memoryId, e.payload.implements;
      LinkEdges(ImplementsRequirement, t, "requirement:", m, BoundHere(e))
      + EvidenceEdges(m, BoundHere(e))
      + LinkEdges(ImplementsCapability, t, "capability:", m, StringItems(i.capabilities))
      + LinkEdges(ImplementsComponent, t, "component:", m, StringItems(i.components))
      + LinkEdges(ExercisesInterface, t, "interface:", m, StringItems(i.interfaces))
  }

  function GateEdges(e: Entry): set<Spec> {
    if !IsGate(e) then {}
    else
      var t, g := e.taskId.value, e.payload.gateId.value;
      {Spec(RequiresHumanGate, TaskNode(t), GateNode(g), [e.memoryId], (t, g)),
       Spec(GateHasArtifact, GateNode(g), ArtifactNode(e.memoryId), [e.memoryId], (g, e.memoryId))}
  }

  /** What an entry asks for on its own. */
  function FirstPass(project: string, e: Entry): set<Spec> {
    {RecordEdge(project, e)} + TaskEdges(e) + ExecutionEdges(e) + BindingEdges(e) + GateEdges(e)
  }

  /** What an entry asks for once the requirements of its task are known. */
  function SecondPass(e: Entry, requirements: set<string>): set<Spec> {
    if e.taskId.None? then {}
    else
      EvidenceEdges(e.memoryId, Sorted(requirements))
      + if IsGate(e) then GatesEdges(e.memoryId, e.payload.gateId.value, Sorted(requirements)) else {}
  }

  /** The requirements bound to a task by any of the entries, wherever they stand. */
  function BoundTo(entries: set<Entry>, task: string): set<string> {
    set e, r | e in entries && e.taskId == Some(task) && r in BoundHere(e) :: r
  }

  function BoundOf(entries: set<Entry>, e: Entry): set<string> {
    if e.taskId.None? then {} else BoundTo(entries, e.taskId.value)
  }

  function FirstPasses(project: string, entries: set<Entry>): set<Spec> {
    set e, s | e in entries && s in FirstPass(project, e) :: s
  }

  /** What the second pass over some entries asks for, given all of them. */
  function SecondPasses(all: set<Entry>, entries: set<Entry>): set<Spec> {
    set e, s | e in entries && s in SecondPass(e, BoundOf(all, e)) :: s
  }

  /** The edges the graph should hold, defined from the set of entries alone. */
  function Wanted(canonical: set<Spec>, project: string, entries: set<Entry>): set<Spec> {
    canonical + FirstPasses(project, entries) + SecondPasses(entries, entries)
  }

  type Digest = Spec -> string

  /** The ids are the digests of the wanted edges, and each edge stored is a wanted one with that digest. */
  ghost predicate Indexed(d: Digest, edges: map<string, Spec>, wanted: set<Spec>) {
    && (forall id :: id in edges ==> edges[id] in wanted && d(edges[id]) == id)
    && (forall s :: s in wanted ==> d(s) in edges)
  }

  // ----- Nodes -----

  datatype NodePayload =
    | CanonicalPayload(text: string)
    | ProjectPayload(projectId: string, memoryHash: string)
    | EntryPayload(entry: Entry)
    | TaskPayload(projectId: string, task: string)
    | ExecutionPayload(projectId: string, taskId: Option<string>, execution: string)
    | GatePayload(payload: MemoryPayload)

  datatype Node = Node(kind: string, nativeId: string, name: string, source: string, payload: NodePayload)

  datatype Request = Request(id: string, node: Node)

  function ArtifactRequest(e: Entry): Request {
    Request(ArtifactNode(e.memoryId), Node("artifact_evidence_record", e.memoryId, e.summary, e.source, EntryPayload(e)))
  }

  function TaskRequests(e: Entry): seq<Request> {
    match e.taskId
    case None => []
    case Some(t) => [Request(TaskNode(t), Node("runtime_task", t, t, "runtime-handoff", TaskPayload(e.projectId, t)))]
  }

  function ExecutionRequests(e: Entry): seq<Request> {
    match e.executionId
    case None => []
    case Some(x) =>
      [Request(ExecutionNode(x), Node("runtime_execution", x, x, "runtime-persistence", ExecutionPayload(e.projectId, e.taskId, x)))]
  }

  function GateRequests(e: Entry): seq<Request> {
    if !IsGate(e) then []
    else
      var g := e.payload.gateId.value;
      [Request(GateNode(g), Node("runtime_human_gate", g, g, "runtime-handoff", GatePayload(e.payload)))]
  }

  function NodeRequests(e: Entry): seq<Request> {
    [ArtifactRequest(e)] + TaskRequests(e) + ExecutionRequests(e) + GateRequests(e)
  }

  function AllNodeRequests(entries: seq<Entry>): seq<Request> {
    if entries == [] then [] else AllNodeRequests(entries[..|entries| - 1]) + NodeRequests(entries[|entries| - 1])
  }

  /** Of the requests for one id the first counts. */
  function FirstWins(m: map<string, Node>, requests: seq<Request>): map<string, Node> {
    if requests == [] then m
    else
      var before, last := FirstWins(m, requests[..|requests| - 1]), requests[|requests| - 1];
      if last.id in before then before else before[last.id := last.node]
  }

  // ----- The builder -----

  type TaskRequirements = map<string, set<string>>

  function Required(m: TaskRequirements, task: string): set<string> {
    if task in m then m[task] else {}
  }

  /** One task, or none, has gained these requirements. */
  ghost predicate Gained(m: TaskRequirements, before: TaskRequirements, task: Option<string>, gained: set<string>) {
    forall t :: Required(m, t) == Required(before, t) + if task == Some(t) then gained else {}
  }

  lemma GainedMore(m: TaskRequirements, middle: TaskRequirements, before: TaskRequirements, task: Option<string>, first: set<string>, second: set<string>)
    requires Gained(middle, before, task, first) && Gained(m, middle, task, second)
    ensures Gained(m, before, task, first + second)
  {
    hide Required;
  }

  class Builder {
    const digest: Digest
    var nodes: map<string, Node>
    var edges: map<string, Spec>
    var taskRequirements: TaskRequirements
    ghost var asked: set<Spec>
    ghost var requested: seq<Request>

    ghost predicate Valid()
      reads this
    {
      Indexed(digest, edges, asked) && nodes == FirstWins(map[], requested)
    }

    constructor (digest: Digest)
      ensures Valid() && this.digest == digest && asked == {} && requested == [] && taskRequirements == map[]
    {
      this.digest := digest;
      nodes, edges, taskRequirements := map[], map[], map[];
      asked, requested := {}, [];
    }

    method AddNode(r: Request)
      requires Valid()
      modifies this`nodes, this`requested
      ensures Valid() && requested == old(requested) + [r]
    {
      assert (requested + [r])[..|requested + [r]| - 1] == requested;
      if r.id !in nodes {
        nodes := nodes[r.id := r.node];
      }
      requested := requested + [r];
    }

    method AddNodes(rs: seq<Request>)
      requires Valid()
      modifies this`nodes, this`requested
      ensures Valid() && requested == old(requested) + rs
    {
      for i := 0 to |rs|
        invariant Valid() && requested == old(requested) + rs[..i]
      {
        AddNode(rs[i]);
        assert rs[..i + 1] == rs[..i] + [rs[i]];
      }
      assert rs[..|rs|] == rs;
    }

    method AddEdge(s: Spec)
      requires Valid()
      modifies this`edges, this`asked
      ensures Valid() && asked == old(asked) + {s}
    {
      var id := digest(s);
      if id !in edges {
        edges := edges[id := s];
      }
      asked := asked + {s};
    }

    method AddAll(specs: seq<Spec>)
      requires Valid()
      modifies this`edges, this`asked
      ensures Valid() && asked == old(asked) + Elements(specs)
    {
      for i := 0 to |specs|
        invariant Valid() && asked == old(asked) + Elements(specs[..i])
      {
        AddEdge(specs[i]);
        assert specs[..i + 1] == specs[..i] + [specs[i]];
      }
      assert specs[..|specs|] == specs;
    }

    method AddLinks(kind: EdgeKind, task: string, prefix: string, memoryId: string, ids: seq<string>)
      requires Valid()
      modifies this`edges, this`asked
      ensures Valid() && asked == old(asked) + LinkEdges(kind, task, prefix, memoryId, ids)
    {
      for i := 0 to |ids|
        invariant Valid() && asked == old(asked) + LinkEdges(kind, task, prefix, memoryId, ids[..i])
      {
        AddEdge(LinkEdge(kind, task, prefix, memoryId, ids[i]));
        LinkEdgesPush(kind, task, prefix, memoryId, ids, i);
      }
      assert ids[..|ids|] == ids;
    }

    method BindRequirement(t: string, m: string, r: string)
      requires Valid()
      modifies this`edges, this`asked, this`taskRequirements
      ensures Valid()
      ensures asked == old(asked) + {LinkEdge(ImplementsRequirement, t, "requirement:", m, r)} + {EvidenceEdge(m, r)}
      ensures Gained(taskRequirements, old(taskRequirements), Some(t), {r})
    {
      hide Indexed, FirstWins, LinkEdge, EvidenceEdge;
      taskRequirements := taskRequirements[t := Required(taskRequirements, t) + {r}];
      AddEdge(LinkEdge(ImplementsRequirement, t, "requirement:", m, r));
      AddEdge(EvidenceEdge(m, r));
    }

    /** A binding records its requirements for the second pass besides adding its edges. */
    method BindRequirements(t: string, m: string, requirements: seq<string>)
      requires Valid()
      modifies this`edges, this`asked, this`taskRequirements
      ensures Valid()
      ensures asked == old(asked) + LinkEdges(ImplementsRequirement, t, "requirement:", m, requirements) + EvidenceEdges(m, requirements)
      ensures Gained(taskRequirements, old(taskRequirements), Some(t), Elements(requirements))
    {
      hide Indexed, FirstWins, LinkEdge, EvidenceEdge;
      assert Elements(requirements[..0]) == {};
      for i := 0 to |requirements|
        invariant Valid()
        invariant asked == old(asked) + LinkEdges(ImplementsRequirement, t, "requirement:", m, requirements[..i])
                           + EvidenceEdges(m, requirements[..i])
        invariant Gained(taskRequirements, old(taskRequirements), Some(t), Elements(requirements[..i]))
      {
        hide LinkEdges, EvidenceEdges, Gained, Elements;
        LinkEdgesPush(ImplementsRequirement, t, "requirement:", m, requirements, i);
        EvidenceEdgesPush(m, requirements, i);
        ElementsPush(requirements, i);
        ghost var middle := taskRequirements;
        BindRequirement(t, m, requirements[i]);
        GainedMore(taskRequirements, middle, old(taskRequirements), Some(t), Elements(requirements[..i]), {requirements[i]});
      }
      assert requirements[..|requirements|] == requirements;
    }

    method AddBindingEdges(e: Entry)
      requires Valid() && IsBinding(e)
      modifies this`edges, this`asked, this`taskRequirements
      ensures Valid() && asked == old(asked) + BindingEdges(e)
      ensures Gained(taskRequirements, old(taskRequirements), e.taskId, Elements(BoundHere(e)))
    {
      hide Indexed, FirstWins, LinkEdge, EvidenceEdge, LinkEdges, EvidenceEdges;
      if e.payload.implements.NotMapping? {
        return;
      }
      var t, m, implements := e.taskId.value, e.memoryId, e.payload.implements;
      BindRequirements(t, m, StringItems(implements.requirements));
      AddLinks(ImplementsCapability, t, "capability:", m, StringItems(implements.capabilities));
      AddLinks(ImplementsComponent, t, "component:", m, StringItems(implements.components));
      AddLinks(ExercisesInterface, t, "interface:", m, StringItems(implements.interfaces));
    }

    method AddGateEdges(e: Entry)
      requires Valid()
      requires e.source == "runtime-human-gate" && e.taskId.Some?
      modifies this`edges, this`asked, this`nodes, this`requested
      ensures Valid() && asked == old(asked) + GateEdges(e) && requested == old(requested) + GateRequests(e)
    {
      if e.payload.gateId.None? || e.payload.gateId.value == "" {
        return;
      }
      var t, g := e.taskId.value, e.payload.gateId.value;
      AddNode(Request(GateNode(g), Node("runtime_human_gate", g, g, "runtime-handoff", GatePayload(e.payload))));
      AddEdge(Spec(RequiresHumanGate, TaskNode(t), GateNode(g), [e.memoryId], (t, g)));
      AddEdge(Spec(GateHasArtifact, GateNode(g), ArtifactNode(e.memoryId), [e.memoryId], (g, e.memoryId)));
    }

    method AddTask(e: Entry)
      requires Valid()
      modifies this`edges, this`asked, this`nodes, this`requested
      ensures Valid() && asked == old(asked) + TaskEdges(e) && requested == old(requested) + TaskRequests(e)
    {
      hide Indexed, FirstWins, ArtifactNode, TaskNode;
      if e.taskId.None? {
        return;
      }
      var t := e.taskId.value;
      AddNode(Request(TaskNode(t), Node("runtime_task", t, t, "runtime-handoff", TaskPayload(e.projectId, t))));
      AddEdge(Spec(TaskHasArtifact, TaskNode(t), ArtifactNode(e.memoryId), [e.source], (e.memoryId, t)));
    }

    method AddExecution(e: Entry)
      requires Valid()
      modifies this`edges, this`asked, this`nodes, this`requested
      ensures Valid() && asked == old(asked) + ExecutionEdges(e) && requested == old(requested) + ExecutionRequests(e)
    {
      hide Indexed, FirstWins, ArtifactNode, TaskNode, ExecutionNode;
      if e.executionId.None? {
        return;
      }
      var x := e.executionId.value;
      AddNode(Request(ExecutionNode(x), Node("runtime_execution", x, x, "runtime-persistence", ExecutionPayload(e.projectId, e.taskId, x))));
      AddEdge(Spec(ExecutionHasArtifact, ExecutionNode(x), ArtifactNode(e.memoryId), [e.source], (e.memoryId, x)));
      if e.taskId.Some? {
        AddEdge(Spec(TaskHasExecution, TaskNode(e.taskId.value), ExecutionNode(x), [e.source], (e.taskId.value, x)));
      }
    }

    /** The first pass over one entry. */
    method AddEntry(project: string, e: Entry)
      requires Valid()
      modifies this
      ensures Valid() && asked == old(asked) + FirstPass(project, e) && requested == old(requested) + NodeRequests(e)
      ensures Gained(taskRequirements, old(taskRequirements), e.taskId, Elements(BoundHere(e)))
    {
      hide Indexed, FirstWins, ArtifactRequest, RecordEdge;
      hide TaskEdges, ExecutionEdges, BindingEdges, GateEdges, TaskRequests, ExecutionRequests, GateRequests, BoundHere;
      AddNode(ArtifactRequest(e));
      AddEdge(RecordEdge(project, e));
      AddTask(e);
      AddExecution(e);
      AddSpecial(e);
    }

    method AddSpecial(e: Entry)
      requires Valid()
      modifies this
      ensures Valid() && asked == old(asked) + BindingEdges(e) + GateEdges(e) && requested == old(requested) + GateRequests(e)
      ensures Gained(taskRequirements, old(taskRequirements), e.taskId, Elements(BoundHere(e)))
    {
      hide Indexed, FirstWins, LinkEdge, EvidenceEdge, LinkEdges, EvidenceEdges;
      if e.source == "runtime-task-binding" && e.taskId.Some? {
        AddBindingEdges(e);
      }
      if e.source == "runtime-human-gate" && e.taskId.Some? {
        AddGateEdges(e);
      }
    }

    method AddEvidence(memoryId: string, requirements: seq<string>)
      requires Valid()
      modifies this`edges, this`asked
      ensures Valid() && asked == old(asked) + EvidenceEdges(memoryId, requirements)
    {
      for i := 0 to |requirements|
        invariant Valid() && asked == old(asked) + EvidenceEdges(memoryId, requirements[..i])
      {
        AddEdge(EvidenceEdge(memoryId, requirements[i]));
        EvidenceEdgesPush(memoryId, requirements, i);
      }
      assert requirements[..|requirements|] == requirements;
    }

    method AddGates(memoryId: string, gate: string, requirements: seq<string>)
      requires Valid()
      modifies this`edges, this`asked
      ensures Valid() && asked == old(asked) + GatesEdges(memoryId, gate, requirements)
    {
      for i := 0 to |requirements|
        invariant Valid() && asked == old(asked) + GatesEdges(memoryId, gate, requirements[..i])
      {
        AddEdge(GatesEdge(memoryId, gate, requirements[i]));
        GatesEdgesPush(memoryId, gate, requirements, i);
      }
      assert requirements[..|requirements|] == requirements;
    }

    /** The second pass over one entry. */
    method AddRequirementEdges(e: Entry)
      requires Valid()
      modifies this`edges, this`asked
      ensures Valid() && asked == old(asked) + SecondPass(e, if e.taskId.None? then {} else Required(taskRequirements, e.taskId.value))
    {
      hide Indexed, FirstWins, EvidenceEdges, GatesEdges;
      if e.taskId.None? {
        return;
      }
      var requirements := Sorted(Required(taskRequirements, e.taskId.value));
      AddEvidence(e.memoryId, requirements);
      if e.source == "runtime-human-gate" && e.payload.gateId.Some? && e.payload.gateId.value != "" {
        AddGates(e.memoryId, e.payload.gateId.value, requirements);
      }
    }
  }

  lemma LinkEdgesPush(kind: EdgeKind, task: string, prefix: string, memoryId: string, ids: seq<string>, i: nat)
    requires i < |ids|
    ensures LinkEdges(kind, task, prefix, memoryId, ids[..i + 1]) ==
            LinkEdges(kind, task, prefix, memoryId, ids[..i]) + {LinkEdge(kind, task, prefix, memoryId, ids[i])}
  {
    assert ids[..i + 1] == ids[..i] + [ids[i]];
  }

  lemma EvidenceEdgesPush(memoryId: string, ids: seq<string>, i: nat)
    requires i < |ids|
    ensures EvidenceEdges(memoryId, ids[..i + 1]) == EvidenceEdges(memoryId, ids[..i]) + {EvidenceEdge(memoryId, ids[i])}
  {
    assert ids[..i + 1] == ids[..i] + [ids[i]];
  }

  lemma GatesEdgesPush(memoryId: string, gate: string, ids: seq<string>, i: nat)
    requires i < |ids|
    ensures GatesEdges(memoryId, gate, ids[..i + 1]) == GatesEdges(memoryId, gate, ids[..i]) + {GatesEdge(memoryId, gate, ids[i])}
  {
    assert ids[..i + 1] == ids[..i] + [ids[i]];
  }

  ghost predicate AllBound(m: TaskRequirements, entries: set<Entry>) {
    forall t :: Required(m, t) == BoundTo(entries, t)
  }

  lemma BoundPush(m: TaskRequirements, before: TaskRequirements, entries: set<Entry>, e: Entry)
    requires AllBound(before, entries) && Gained(m, before, e.taskId, Elements(BoundHere(e)))
    ensures AllBound(m, entries + {e})
  {
    hide BoundHere;
    forall t ensures BoundTo(entries + {e}, t) == BoundTo(entries, t) + if e.taskId == Some(t) then Elements(BoundHere(e)) else {} {}
  }

  lemma FirstPassesPush(project: string, entries: set<Entry>, e: Entry)
    ensures FirstPasses(project, entries + {e}) == FirstPasses(project, entries) + FirstPass(project, e)
  {
    hide FirstPass;
  }

  lemma SecondPassesPush(all: set<Entry>, entries: set<Entry>, e: Entry)
    ensures SecondPasses(all, entries + {e}) == SecondPasses(all, entries) + SecondPass(e, BoundOf(all, e))
  {
    hide SecondPass, BoundOf;
  }

  predicate Requests(requests: seq<Request>, id: string) {
    exists i :: 0 <= i < |requests| && requests[i].id == id
  }

  lemma {:induction false} FirstWinsKeys(m: map<string, Node>, requests: seq<Request>, id: string)
    ensures id in FirstWins(m, requests) <==> id in m || Requests(requests, id)
  {
    if requests != [] {
      var n := |requests| - 1;
      FirstWinsKeys(m, requests[..n], id);
      if Requests(requests, id) && requests[n].id != id {
        var i :| 0 <= i < |requests| && requests[i].id == id;
        assert requests[..n][i].id == id;
      }
      if Requests(requests[..n], id) {
        var i :| 0 <= i < n && requests[..n][i].id == id;
        assert requests[i].id == id;
      }
      if requests[n].id == id {
        assert Requests(requests, id);
      }
    }
  }

  // ----- Building the graph -----

  function ProjectNode(canonicalNodes: seq<Request>, projectId: string): string {
    if Requests(canonicalNodes, "project:" + projectId) then "project:" + projectId else "runtime_project:" + projectId
  }

  function InitialRequests(canonicalNodes: seq<Request>, projectId: string, memoryHash: string): seq<Request> {
    var project := ProjectNode(canonicalNodes, projectId);
    canonicalNodes
    + if Requests(canonicalNodes, project) then []
      else [Request(project, Node("runtime_project", projectId, projectId, "project-memory", ProjectPayload(projectId, memoryHash)))]
  }

  function Listing<V>(m: map<string, V>): seq<(string, V)> {
    var keys := Sorted(m.Keys);
    seq(|keys|, i requires 0 <= i < |keys| && keys[i] in Elements(keys) => (keys[i], m[keys[i]]))
  }

  /** A listing holds every entry of the table and goes by id. */
  lemma ListingMeaning<V>(m: map<string, V>)
    ensures forall i :: 0 <= i < |Listing(m)| ==> Listing(m)[i].0 in m && Listing(m)[i].1 == m[Listing(m)[i].0]
    ensures forall k :: k in m ==> exists i :: 0 <= i < |Listing(m)| && Listing(m)[i] == (k, m[k])
    ensures forall i, j :: 0 <= i < j < |Listing(m)| ==> TextBefore(Listing(m)[i].0, Listing(m)[j].0)
  {
    hide StrLe, TextBefore;
    var keys := Sorted(m.Keys);
    forall i | 0 <= i < |keys| ensures keys[i] in m {
      assert keys[i] in Elements(keys);
    }
    forall k | k in m ensures exists i :: 0 <= i < |Listing(m)| && Listing(m)[i] == (k, m[k]) {
      assert k in Elements(keys);
      var i :| 0 <= i < |keys| && keys[i] == k;
      assert Listing(m)[i] == (k, m[k]);
    }
    forall i, j | 0 <= i < j < |keys| ensures TextBefore(keys[i], keys[j]) {
      StrLeMeaning(keys[i], keys[j]);
    }
  }

  ghost predicate GraphOf(d: Digest, canonicalNodes: seq<Request>, canonicalEdges: seq<Spec>, projectId: string, memoryHash: string,
                          entries: seq<Entry>, nodes: map<string, Node>, edges: map<string, Spec>) {
    && nodes == FirstWins(map[], InitialRequests(canonicalNodes, projectId, memoryHash) + AllNodeRequests(entries))
    && Indexed(d, edges, Wanted(Elements(canonicalEdges), ProjectNode(canonicalNodes, projectId), Elements(entries)))
  }

  lemma NothingYet(project: string, all: set<Entry>)
    ensures FirstPasses(project, {}) == {} && SecondPasses(all, {}) == {} && AllBound(map[], {})
  {
    forall t ensures BoundTo({}, t) == {} {}
  }

  lemma RequestsPush(entries: seq<Entry>, i: nat)
    requires i < |entries|
    ensures AllNodeRequests(entries[..i + 1]) == AllNodeRequests(entries[..i]) + NodeRequests(entries[i])
  {
    assert entries[..i + 1][..i] == entries[..i];
  }

  method FirstLoop(b: Builder, project: string, entries: seq<Entry>)
    requires b.Valid() && b.taskRequirements == map[]
    modifies b
    ensures b.Valid()
    ensures b.asked == old(b.asked) + FirstPasses(project, Elements(entries))
    ensures b.requested == old(b.requested) + AllNodeRequests(entries)
    ensures AllBound(b.taskRequirements, Elements(entries))
  {
    hide FirstPass, FirstPasses, BoundTo, Indexed, FirstWins, NodeRequests, AllNodeRequests, BoundHere, Gained;
    NothingYet(project, {});
    assert Elements(entries[..0]) == {};
    NoRequests(entries);
    for i := 0 to |entries|
      invariant b.Valid()
      invariant b.asked == old(b.asked) + FirstPasses(project, Elements(entries[..i]))
      invariant b.requested == old(b.requested) + AllNodeRequests(entries[..i])
      invariant AllBound(b.taskRequirements, Elements(entries[..i]))
    {
      ElementsPush(entries, i);
      RequestsPush(entries, i);
      FirstPassesPush(project, Elements(entries[..i]), entries[i]);
      ghost var before := b.taskRequirements;
      b.AddEntry(project, entries[i]);
      BoundPush(b.taskRequirements, before, Elements(entries[..i]), entries[i]);
    }
    assert entries[..|entries|] == entries;
  }

  lemma NoRequests(entries: seq<Entry>)
    ensures AllNodeRequests(entries[..0]) == []
  {}

  method SecondLoop(b: Builder, entries: seq<Entry>)
    requires b.Valid() && AllBound(b.taskRequirements, Elements(entries))
    modifies b`edges, b`asked
    ensures b.Valid() && b.asked == old(b.asked) + SecondPasses(Elements(entries), Elements(entries))
  {
    hide SecondPass, SecondPasses, BoundTo, Indexed, FirstWins;
    NothingYet("", Elements(entries));
    assert Elements(entries[..0]) == {};
    for i := 0 to |entries|
      invariant b.Valid()
      invariant b.asked == old(b.asked) + SecondPasses(Elements(entries), Elements(entries[..i]))
    {
      ElementsPush(entries, i);
      SecondPassesPush(Elements(entries), Elements(entries[..i]), entries[i]);
      b.AddRequirementEdges(entries[i]);
    }
    assert entries[..|entries|] == entries;
  }

  /** The graph in listing order: nodes and edges by id. */
  method BuildArtifactEvidenceGraph(d: Digest, canonicalNodes: seq<Request>, canonicalEdges: seq<Spec>, projectId: string,
                                    memoryHash: string, entries: seq<Entry>)
    returns (nodes: seq<(string, Node)>, edges: seq<(string, Spec)>)
    ensures exists ns, es :: GraphOf(d, canonicalNodes, canonicalEdges, projectId, memoryHash, entries, ns, es)
                             && nodes == Listing(ns) && edges == Listing(es)
  {
    hide FirstWins, Indexed, FirstPasses, SecondPasses, Listing, BoundTo;
    var b := new Builder(d);
    var project := ProjectNode(canonicalNodes, projectId);
    b.AddNodes(canonicalNodes);
    assert b.requested == canonicalNodes;
    NodeKnown(b.requested, project);
    if project !in b.nodes {
      b.AddNode(Request(project, Node("runtime_project", projectId, projectId, "project-memory", ProjectPayload(projectId, memoryHash))));
    }
    assert b.requested == InitialRequests(canonicalNodes, projectId, memoryHash);
    b.AddAll(canonicalEdges);
    FirstLoop(b, project, entries);
    SecondLoop(b, entries);
    assert b.asked == Wanted(Elements(canonicalEdges), project, Elements(entries));
    assert GraphOf(d, canonicalNodes, canonicalEdges, projectId, memoryHash, entries, b.nodes, b.edges);
    nodes, edges := Listing(b.nodes), Listing(b.edges);
  }

  lemma NodeKnown(requests: seq<Request>, id: string)
    ensures id in FirstWins(map[], requests) <==> Requests(requests, id)
  {
    FirstWinsKeys(map[], requests, id);
  }

  // ----- Edges do not depend on the order of the entries -----

  ghost predicate TellsApart(d: Digest, specs: set<Spec>) {
    forall s, t :: s in specs && t in specs && d(s) == d(t) ==> s == t
  }

  /** Two listings of one set of entries give the same edge ids, and the same edges when the digest tells the wanted ones apart. */
  lemma EdgesIgnoreOrder(d: Digest, wanted: set<Spec>, a: map<string, Spec>, b: map<string, Spec>)
    requires Indexed(d, a, wanted) && Indexed(d, b, wanted)
    ensures a.Keys == b.Keys
    ensures TellsApart(d, wanted) ==> a == b
  {
    forall id | id in a ensures id in b {
      assert d(a[id]) in b;
    }
    forall id | id in b ensures id in a {
      assert d(b[id]) in a;
    }
    if TellsApart(d, wanted) {
      forall id | id in a ensures a[id] == b[id] {
        assert d(a[id]) == d(b[id]);
      }
    }
  }

  /** So the listed edges of two graphs over reordered entries are the same. */
  lemma GraphEdgesIgnoreOrder(d: Digest, canonicalNodes: seq<Request>, canonicalEdges: seq<Spec>, projectId: string, memoryHash: string,
                              first: seq<Entry>, second: seq<Entry>, ns1: map<string, Node>, es1: map<string, Spec>,
                              ns2: map<string, Node>, es2: map<string, Spec>)
    requires GraphOf(d, canonicalNodes, canonicalEdges, projectId, memoryHash, first, ns1, es1)
    requires GraphOf(d, canonicalNodes, canonicalEdges, projectId, memoryHash, second, ns2, es2)
    requires Elements(first) == Elements(second)
    ensures es1.Keys == es2.Keys && ns1.Keys == ns2.Keys
    ensures TellsApart(d, Wanted(Elements(canonicalEdges), ProjectNode(canonicalNodes, projectId), Elements(first)))
            ==> Listing(es1) == Listing(es2)
  {
    var wanted := Wanted(Elements(canonicalEdges), ProjectNode(canonicalNodes, projectId), Elements(first));
    EdgesIgnoreOrder(d, wanted, es1, es2);
    var initial := InitialRequests(canonicalNodes, projectId, memoryHash);
    forall id ensures id in ns1 <==> id in ns2 {
      NodeIds(initial, first, id);
      NodeIds(initial, second, id);
    }
  }

  // ----- Each entry evidences exactly the requirements of its task -----

  ghost predicate OnlyCanonical(specs: set<Spec>) {
    forall s :: s in specs ==> s.kind.Canonical?
  }

  predicate Evidences(s: Spec, e: Entry, r: string) {
    s.kind == EvidencesRequirement && s.source == ArtifactNode(e.memoryId) && s.target == RequirementNode(r)
  }

  predicate Gates(s: Spec, e: Entry, r: string) {
    && IsGate(e) && s.kind == GatesRequirement && s.source == GateNode(e.payload.gateId.value)
    && s.target == RequirementNode(r) && s.refs == [e.memoryId]
  }

  lemma NodeNamesDiffer(a: string, b: string)
    ensures ArtifactNode(a) == ArtifactNode(b) ==> a == b
    ensures RequirementNode(a) == RequirementNode(b) ==> a == b
    ensures GateNode(a) == GateNode(b) ==> a == b
  {
    assert ArtifactNode(a)[9..] == a && ArtifactNode(b)[9..] == b;
    assert RequirementNode(a)[12..] == a && RequirementNode(b)[12..] == b;
    assert GateNode(a)[11..] == a && GateNode(b)[11..] == b;
  }

  /** The entry binds its task to the requirement. */
  predicate Binds(e: Entry, r: string) {
    IsBinding(e) && e.payload.implements.Mapping? && ListsItem(e.payload.implements.requirements, r)
  }

  lemma BoundHereMeaning(e: Entry, r: string)
    ensures r in BoundHere(e) <==> Binds(e, r)
  {
    hide StringItems;
    if e.payload.implements.Mapping? {
      StringItemsMeaning(e.payload.implements.requirements, r);
    }
  }

  /** A requirement counts for an entry when some entry binds the entry's task to it. */
  lemma BoundOfMeaning(entries: set<Entry>, e: Entry, r: string)
    ensures r in BoundOf(entries, e) <==> e.taskId.Some? && exists b :: b in entries && b.taskId == e.taskId && Binds(b, r)
  {
    hide BoundHere, Binds;
    forall b: Entry ensures r in BoundHere(b) <==> Binds(b, r) {
      BoundHereMeaning(b, r);
    }
  }

  /** Every evidence edge comes from an entry and a requirement bound to its task. */
  lemma EvidenceWanted(canonical: set<Spec>, project: string, entries: set<Entry>, s: Spec)
    requires OnlyCanonical(canonical) && s.kind.EvidencesRequirement?
    ensures s in Wanted(canonical, project, entries) <==>
            exists e, r :: e in entries && r in BoundOf(entries, e) && s == EvidenceEdge(e.memoryId, r)
  {
    hide EvidenceEdge, LinkEdge, BoundHere, BoundTo, Binds;
    if s in Wanted(canonical, project, entries) {
      if e :| e in entries && s in FirstPass(project, e) {
        EvidenceOfFirst(project, e, s);
        var r :| r in BoundHere(e) && s == EvidenceEdge(e.memoryId, r);
        BoundHereMeaning(e, r);
        BoundOfMeaning(entries, e, r);
      } else {
        var e :| e in entries && s in SecondPass(e, BoundOf(entries, e));
        EvidenceOfSecond(e, BoundOf(entries, e), s);
      }
    }
    if e, r :| e in entries && r in BoundOf(entries, e) && s == EvidenceEdge(e.memoryId, r) {
      EvidenceOfSecond(e, BoundOf(entries, e), s);
      assert s in SecondPass(e, BoundOf(entries, e));
    }
  }

  lemma EvidenceOfFirst(project: string, e: Entry, s: Spec)
    requires s.kind.EvidencesRequirement? && s in FirstPass(project, e)
    ensures IsBinding(e) && exists r :: r in BoundHere(e) && s == EvidenceEdge(e.memoryId, r)
  {
    hide StringItems, ArtifactNode, TaskNode, ExecutionNode, GateNode, RequirementNode;
  }

  lemma EvidenceOfSecond(e: Entry, requirements: set<string>, s: Spec)
    requires s.kind.EvidencesRequirement?
    requires e.taskId.None? ==> requirements == {}
    ensures s in SecondPass(e, requirements) <==> exists r :: r in requirements && s == EvidenceEdge(e.memoryId, r)
  {
    var sorted := Sorted(requirements);
    assert forall r :: r in requirements <==> r in Elements(sorted);
    hide ArtifactNode, RequirementNode, GateNode;
  }

  /** With distinct memory ids: one evidence edge for each requirement of the entry's task, whichever entry bound it, and no other. */
  lemma EvidenceExactlyOnce(d: Digest, canonical: set<Spec>, project: string, entries: set<Entry>, edges: map<string, Spec>,
                            e: Entry, r: string)
    requires Indexed(d, edges, Wanted(canonical, project, entries)) && TellsApart(d, Wanted(canonical, project, entries))
    requires OnlyCanonical(canonical) && e in entries
    requires forall a, b :: a in entries && b in entries && a.memoryId == b.memoryId ==> a == b
    ensures (exists id :: id in edges && Evidences(edges[id], e, r)) <==> r in BoundOf(entries, e)
    ensures forall i, j :: i in edges && j in edges && Evidences(edges[i], e, r) && Evidences(edges[j], e, r) ==> i == j
  {
    hide Wanted, BoundOf, EvidenceEdge, Evidences;
    forall id | id in edges && Evidences(edges[id], e, r) ensures r in BoundOf(entries, e) && id == d(EvidenceEdge(e.memoryId, r)) {
      OneEvidence(canonical, project, entries, e, r, edges[id]);
    }
    if r in BoundOf(entries, e) {
      var s := EvidenceEdge(e.memoryId, r);
      EvidenceWantedAt(canonical, project, entries, e, r);
      assert edges[d(s)] == s;
    }
  }

  lemma EvidenceWantedAt(canonical: set<Spec>, project: string, entries: set<Entry>, e: Entry, r: string)
    requires OnlyCanonical(canonical) && e in entries && r in BoundOf(entries, e)
    ensures EvidenceEdge(e.memoryId, r) in Wanted(canonical, project, entries) && Evidences(EvidenceEdge(e.memoryId, r), e, r)
  {
    hide Wanted, BoundOf;
    EvidenceWanted(canonical, project, entries, EvidenceEdge(e.memoryId, r));
  }

  lemma OneEvidence(canonical: set<Spec>, project: string, entries: set<Entry>, e: Entry, r: string, s: Spec)
    requires OnlyCanonical(canonical) && e in entries
    requires forall a, b :: a in entries && b in entries && a.memoryId == b.memoryId ==> a == b
    requires s in Wanted(canonical, project, entries) && Evidences(s, e, r)
    ensures r in BoundOf(entries, e) && s == EvidenceEdge(e.memoryId, r)
  {
    hide Wanted, BoundOf, ArtifactNode, RequirementNode;
    EvidenceWanted(canonical, project, entries, s);
    var f, q :| f in entries && q in BoundOf(entries, f) && s == EvidenceEdge(f.memoryId, q);
    NodeNamesDiffer(f.memoryId, e.memoryId);
    NodeNamesDiffer(q, r);
  }

  lemma GatesOfSecond(e: Entry, requirements: set<string>, s: Spec)
    requires s.kind.GatesRequirement?
    ensures s in SecondPass(e, requirements) <==>
            IsGate(e) && exists r :: r in requirements && s == GatesEdge(e.memoryId, e.payload.gateId.value, r)
  {
    var sorted := Sorted(requirements);
    assert forall r :: r in requirements <==> r in Elements(sorted);
    hide ArtifactNode, RequirementNode, GateNode;
  }

  lemma GatesNotInFirst(project: string, e: Entry, s: Spec)
    requires s.kind.GatesRequirement?
    ensures s !in FirstPass(project, e)
  {
    hide StringItems, ArtifactNode, TaskNode, ExecutionNode, GateNode, RequirementNode;
  }

  /** Every gating edge comes from a human-gate entry and a requirement bound to its task. */
  lemma GatesWanted(canonical: set<Spec>, project: string, entries: set<Entry>, s: Spec)
    requires OnlyCanonical(canonical) && s.kind.GatesRequirement?
    ensures s in Wanted(canonical, project, entries) <==>
            exists e, r :: e in entries && IsGate(e) && r in BoundOf(entries, e) && s == GatesEdge(e.memoryId, e.payload.gateId.value, r)
  {
    hide FirstPass, SecondPass, GatesEdge, BoundOf;
    if s in Wanted(canonical, project, entries) {
      if e :| e in entries && s in FirstPass(project, e) {
        GatesNotInFirst(project, e, s);
      }
      var e :| e in entries && s in SecondPass(e, BoundOf(entries, e));
      GatesOfSecond(e, BoundOf(entries, e), s);
    }
    if e, r :| e in entries && IsGate(e) && r in BoundOf(entries, e) && s == GatesEdge(e.memoryId, e.payload.gateId.value, r) {
      GatesOfSecond(e, BoundOf(entries, e), s);
      assert s in SecondPass(e, BoundOf(entries, e));
    }
  }

  lemma OneGating(canonical: set<Spec>, project: string, entries: set<Entry>, e: Entry, r: string, s: Spec)
    requires OnlyCanonical(canonical) && e in entries
    requires forall a, b :: a in entries && b in entries && a.memoryId == b.memoryId ==> a == b
    requires s in Wanted(canonical, project, entries) && Gates(s, e, r)
    ensures r in BoundOf(entries, e) && s == GatesEdge(e.memoryId, e.payload.gateId.value, r)
  {
    hide Wanted, BoundOf, ArtifactNode, RequirementNode, GateNode;
    GatesWanted(canonical, project, entries, s);
    var f, q :| f in entries && IsGate(f) && q in BoundOf(entries, f) && s == GatesEdge(f.memoryId, f.payload.gateId.value, q);
    assert s.refs[0] == f.memoryId == e.memoryId;
    NodeNamesDiffer(q, r);
  }

  /** The same for human gates: one gating edge for each requirement of the gated task. */
  lemma GatesExactlyOnce(d: Digest, canonical: set<Spec>, project: string, entries: set<Entry>, edges: map<string, Spec>,
                         e: Entry, r: string)
    requires Indexed(d, edges, Wanted(canonical, project, entries)) && TellsApart(d, Wanted(canonical, project, entries))
    requires OnlyCanonical(canonical) && e in entries && IsGate(e)
    requires forall a, b :: a in entries && b in entries && a.memoryId == b.memoryId ==> a == b
    ensures (exists id :: id in edges && Gates(edges[id], e, r)) <==> r in BoundOf(entries, e)
    ensures forall i, j :: i in edges && j in edges && Gates(edges[i], e, r) && Gates(edges[j], e, r) ==> i == j
  {
    hide Wanted, BoundOf;
    var s := GatesEdge(e.memoryId, e.payload.gateId.value, r);
    forall id | id in edges && Gates(edges[id], e, r) ensures r in BoundOf(entries, e) && id == d(s) {
      OneGating(canonical, project, entries, e, r, edges[id]);
    }
    if r in BoundOf(entries, e) {
      GatesWanted(canonical, project, entries, s);
      assert edges[d(s)] == s;
    }
  }

  // ----- Nodes do depend on the order, exactly when two entries describe one node differently -----

  lemma {:induction false} FirstWinsAppend(m: map<string, Node>, p: seq<Request>, q: seq<Request>)
    ensures FirstWins(m, p + q) == FirstWins(FirstWins(m, p), q)
  {
    if q == [] {
      assert p + q == p;
    } else {
      FirstWinsAppend(m, p, q[..|q| - 1]);
      assert (p + q)[..|p + q| - 1] == p + q[..|q| - 1];
    }
  }

  lemma {:induction false} FirstWinsKeeps(m: map<string, Node>, requests: seq<Request>, id: string)
    requires id in m
    ensures id in FirstWins(m, requests) && FirstWins(m, requests)[id] == m[id]
  {
    if requests != [] {
      FirstWinsKeeps(m, requests[..|requests| - 1], id);
    }
  }

  lemma {:induction false} FirstWinsValue(m: map<string, Node>, requests: seq<Request>, id: string)
    requires id in FirstWins(m, requests) && id !in m
    ensures Request(id, FirstWins(m, requests)[id]) in requests
  {
    if requests != [] {
      var before, last := requests[..|requests| - 1], requests[|requests| - 1];
      assert requests == before + [last];
      if id in FirstWins(m, before) {
        FirstWinsValue(m, before, id);
      }
    }
  }

  lemma {:induction false} AllRequestsMeaning(entries: seq<Entry>, r: Request)
    ensures r in AllNodeRequests(entries) <==> exists e :: e in entries && r in NodeRequests(e)
  {
    hide NodeRequests;
    if entries != [] {
      var before, last := entries[..|entries| - 1], entries[|entries| - 1];
      assert entries == before + [last];
      AllRequestsMeaning(before, r);
    }
  }

  lemma {:induction false} AllRequestsOfFirst(e: Entry, rest: seq<Entry>)
    ensures AllNodeRequests([e] + rest) == NodeRequests(e) + AllNodeRequests(rest)
  {
    hide NodeRequests;
    var all := [e] + rest;
    if rest == [] {
      assert all == [e] && all[..0] == [];
    } else {
      AllRequestsOfFirst(e, rest[..|rest| - 1]);
      assert all[..|all| - 1] == [e] + rest[..|rest| - 1] && all[|all| - 1] == rest[|rest| - 1];
      assert AllNodeRequests(all) == AllNodeRequests([e] + rest[..|rest| - 1]) + NodeRequests(rest[|rest| - 1]);
    }
  }

  lemma RequestsMeaning(requests: seq<Request>, id: string)
    ensures Requests(requests, id) <==> exists r :: r in requests && r.id == id
  {}

  lemma NodeIds(initial: seq<Request>, entries: seq<Entry>, id: string)
    ensures id in FirstWins(map[], initial + AllNodeRequests(entries)) <==>
            Requests(initial, id) || exists e, r :: e in Elements(entries) && r in NodeRequests(e) && r.id == id
  {
    hide NodeRequests, AllNodeRequests;
    FirstWinsKeys(map[], initial + AllNodeRequests(entries), id);
    RequestsMeaning(initial + AllNodeRequests(entries), id);
    RequestsMeaning(initial, id);
    forall r {
      AllRequestsMeaning(entries, r);
    }
  }

  /** Requests of one entry are for different nodes: the prefixes start with different letters. */
  lemma OneRequestPerNode(e: Entry, x: Request, y: Request)
    requires x in NodeRequests(e) && y in NodeRequests(e) && x.id == y.id
    ensures x == y
  {
    RequestKinds(e, x);
    RequestKinds(e, y);
    hide NodeRequests;
  }

  lemma RequestKinds(e: Entry, x: Request)
    requires x in NodeRequests(e)
    ensures x.id != ""
    ensures x.id[0] == 'a' ==> x == ArtifactRequest(e)
    ensures x.id[0] == 't' ==> [x] == TaskRequests(e)
    ensures x.id[0] == 'e' ==> [x] == ExecutionRequests(e)
    ensures x.id[0] == 'h' ==> [x] == GateRequests(e)
    ensures x.id[0] in {'a', 't', 'e', 'h'}
  {}

  /** No two entries describe a node that is not yet in the graph differently. */
  ghost predicate Agree(known: map<string, Node>, entries: set<Entry>) {
    forall a, b, x, y ::
      a in entries && b in entries && x in NodeRequests(a) && y in NodeRequests(b) && x.id == y.id && x.id !in known
      ==> x.node == y.node
  }

  ghost predicate SameForEveryOrder(known: map<string, Node>, entries: seq<Entry>) {
    forall other {:trigger AllNodeRequests(other)} :: multiset(other) == multiset(entries) ==>
      FirstWins(known, AllNodeRequests(other)) == FirstWins(known, AllNodeRequests(entries))
  }

  lemma FirstEntryDecides(known: map<string, Node>, e: Entry, rest: seq<Entry>, x: Request)
    requires x in NodeRequests(e) && x.id !in known
    ensures x.id in FirstWins(known, AllNodeRequests([e] + rest))
    ensures FirstWins(known, AllNodeRequests([e] + rest))[x.id] == x.node
  {
    hide NodeRequests, AllNodeRequests;
    AllRequestsOfFirst(e, rest);
    FirstWinsAppend(known, NodeRequests(e), AllNodeRequests(rest));
    RequestsMeaning(NodeRequests(e), x.id);
    FirstWinsKeys(known, NodeRequests(e), x.id);
    FirstWinsValue(known, NodeRequests(e), x.id);
    OneRequestPerNode(e, x, Request(x.id, FirstWins(known, NodeRequests(e))[x.id]));
    FirstWinsKeeps(FirstWins(known, NodeRequests(e)), AllNodeRequests(rest), x.id);
  }

  lemma BroughtToFront<T>(xs: seq<T>, x: T) returns (rest: seq<T>)
    requires x in xs
    ensures multiset([x] + rest) == multiset(xs)
  {
    assert x in multiset(xs);
    var i := IndexOf(xs, x);
    rest := Without(xs, i);
    WithoutMultiset(xs, i);
  }

  lemma AgreementFromOrders(known: map<string, Node>, entries: seq<Entry>, a: Entry, b: Entry, x: Request, y: Request)
    requires SameForEveryOrder(known, entries)
    requires a in entries && b in entries && x in NodeRequests(a) && y in NodeRequests(b) && x.id == y.id && x.id !in known
    ensures x.node == y.node
  {
    hide NodeRequests, AllNodeRequests, FirstWins;
    var restA := BroughtToFront(entries, a);
    var restB := BroughtToFront(entries, b);
    FirstEntryDecides(known, a, restA, x);
    FirstEntryDecides(known, b, restB, y);
  }

  lemma OrdersFromAgreement(known: map<string, Node>, entries: seq<Entry>, other: seq<Entry>)
    requires Agree(known, Elements(entries)) && multiset(other) == multiset(entries)
    ensures FirstWins(known, AllNodeRequests(other)) == FirstWins(known, AllNodeRequests(entries))
  {
    hide NodeRequests, AllNodeRequests, FirstWins;
    var one, two := FirstWins(known, AllNodeRequests(other)), FirstWins(known, AllNodeRequests(entries));
    SameMembers(other, entries);
    forall id ensures id in one <==> id in two {
      SameKeys(known, other, entries, id);
    }
    forall id | id in one ensures one[id] == two[id] {
      if id in known {
        FirstWinsKeeps(known, AllNodeRequests(other), id);
        FirstWinsKeeps(known, AllNodeRequests(entries), id);
      } else {
        FirstWinsValue(known, AllNodeRequests(other), id);
        FirstWinsValue(known, AllNodeRequests(entries), id);
        AllRequestsMeaning(other, Request(id, one[id]));
        AllRequestsMeaning(entries, Request(id, two[id]));
      }
    }
  }

  lemma SameKeys(known: map<string, Node>, xs: seq<Entry>, ys: seq<Entry>, id: string)
    requires forall e :: e in xs <==> e in ys
    ensures id in FirstWins(known, AllNodeRequests(xs)) <==> id in FirstWins(known, AllNodeRequests(ys))
  {
    hide NodeRequests, AllNodeRequests;
    FirstWinsKeys(known, AllNodeRequests(xs), id);
    FirstWinsKeys(known, AllNodeRequests(ys), id);
    RequestsMeaning(AllNodeRequests(xs), id);
    RequestsMeaning(AllNodeRequests(ys), id);
    forall r ensures r in AllNodeRequests(xs) <==> r in AllNodeRequests(ys) {
      AllRequestsMeaning(xs, r);
      AllRequestsMeaning(ys, r);
    }
  }

  /** The stored nodes are the same for every order of the entries exactly when the entries agree. */
  lemma NodesIgnoreOrderIffAgree(known: map<string, Node>, entries: seq<Entry>)
    ensures SameForEveryOrder(known, entries) <==> Agree(known, Elements(entries))
  {
    hide NodeRequests, AllNodeRequests, FirstWins;
    if SameForEveryOrder(known, entries) {
      forall a, b, x, y | a in Elements(entries) && b in Elements(entries) && x in NodeRequests(a) && y in NodeRequests(b)
                          && x.id == y.id && x.id !in known
        ensures x.node == y.node
      {
        AgreementFromOrders(known, entries, a, b, x, y);
      }
    }
    if Agree(known, Elements(entries)) {
      forall other | multiset(other) == multiset(entries)
        ensures FirstWins(known, AllNodeRequests(other)) == FirstWins(known, AllNodeRequests(entries))
      {
        OrdersFromAgreement(known, entries, other);
      }
    }
  }

  /** One execution recorded under two tasks is such a disagreement. */
  lemma ExecutionUnderTwoTasksDisagrees(known: map<string, Node>, entries: set<Entry>, a: Entry, b: Entry)
    requires a in entries && b in entries && a.executionId.Some? && a.executionId == b.executionId && a.taskId != b.taskId
    requires ExecutionNode(a.executionId.value) !in known
    ensures !Agree(known, entries)
  {
    var x, y := ExecutionRequests(a)[0], ExecutionRequests(b)[0];
    assert x in NodeRequests(a) && y in NodeRequests(b);
    assert x.node.payload.taskId != y.node.payload.taskId;
  }
}
