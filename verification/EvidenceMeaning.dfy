/** The edges and nodes of the evidence graph, told from the fields of the memory entries. */
module EvidenceMeaning {
  import opened Order
  import opened EvidenceGraph
  import opened Wrappers

  // ----- What an entry says -----

  /** The value is the text, or a list with it. */
  predicate Says(v: Items, x: string) {
    match v
    case One(item) => x == item
    case Many(items) => x in items
    case Neither => false
  }

  /** A task binding with a mapping under `implements`. */
  predicate BindingOf(e: Entry, task: string) {
    e.source == "runtime-task-binding" && e.taskId == Some(task) && e.payload.implements.Mapping?
  }

  /** A human gate of the task; its id is a text that is not empty. */
  predicate GateOf(e: Entry, task: string, gate: string) {
    e.source == "runtime-human-gate" && e.taskId == Some(task) && e.payload.gateId == Some(gate) && gate != ""
  }

  /** Some binding of the task names the requirement. */
  ghost predicate Bound(entries: set<Entry>, task: string, requirement: string) {
    exists b :: b in entries && BindingOf(b, task) && Says(b.payload.implements.requirements, requirement)
  }

  // ----- The edges an entry asks for -----

  predicate AsksPlain(project: string, e: Entry, s: Spec) {
    || s == Spec(RecordsArtifact, project, "artifact:" + e.memoryId, [e.source], (e.memoryId, e.source))
    || (e.taskId.Some? && s == Spec(TaskHasArtifact, "task:" + e.taskId.value, "artifact:" + e.memoryId, [e.source], (e.memoryId, e.taskId.value)))
    || (e.executionId.Some? &&
        s == Spec(ExecutionHasArtifact, "execution:" + e.executionId.value, "artifact:" + e.memoryId, [e.source], (e.memoryId, e.executionId.value)))
    || (e.executionId.Some? && e.taskId.Some? &&
        s == Spec(TaskHasExecution, "task:" + e.taskId.value, "execution:" + e.executionId.value, [e.source], (e.taskId.value, e.executionId.value)))
  }

  /** A link from the task of a binding to what it names under one of the four keys. */
  predicate AsksLink(e: Entry, task: string, x: string, s: Spec) {
    BindingOf(e, task) &&
    var i := e.payload.implements;
    || (Says(i.requirements, x) && s == Spec(ImplementsRequirement, "task:" + task, "requirement:" + x, [e.memoryId], (task, x)))
    || (Says(i.capabilities, x) && s == Spec(ImplementsCapability, "task:" + task, "capability:" + x, [e.memoryId], (task, x)))
    || (Says(i.components, x) && s == Spec(ImplementsComponent, "task:" + task, "component:" + x, [e.memoryId], (task, x)))
    || (Says(i.interfaces, x) && s == Spec(ExercisesInterface, "task:" + task, "interface:" + x, [e.memoryId], (task, x)))
  }

  predicate AsksGate(e: Entry, task: string, gate: string, s: Spec) {
    GateOf(e, task, gate) &&
    (|| s == Spec(RequiresHumanGate, "task:" + task, "human_gate:" + gate, [e.memoryId], (task, gate))
     || s == Spec(GateHasArtifact, "human_gate:" + gate, "artifact:" + e.memoryId, [e.memoryId], (gate, e.memoryId)))
  }

  /** Evidence for, and gating of, a requirement bound to the entry's task. */
  ghost predicate AsksRequirement(entries: set<Entry>, e: Entry, task: string, r: string, s: Spec) {
    e.taskId == Some(task) && Bound(entries, task, r) &&
    (|| s == Spec(EvidencesRequirement, "artifact:" + e.memoryId, "requirement:" + r, [e.memoryId], (e.memoryId, r))
     || (exists gate :: GateOf(e, task, gate) &&
           s == Spec(GatesRequirement, "human_gate:" + gate, "requirement:" + r, [e.memoryId], (gate, r))))
  }

  ghost predicate AsksAny(project: string, entries: set<Entry>, e: Entry, s: Spec) {
    || AsksPlain(project, e, s)
    || (exists task, x :: AsksLink(e, task, x, s))
    || (exists task, gate :: AsksGate(e, task, gate, s))
    || (exists task, r :: AsksRequirement(entries, e, task, r, s))
  }

  /** The edges the graph should hold: the canonical ones and those its entries ask for. */
  ghost predicate Asked(canonical: set<Spec>, project: string, entries: set<Entry>, s: Spec) {
    s in canonical || exists e :: e in entries && AsksAny(project, entries, e, s)
  }

  // ----- The two passes ask for those edges -----

  lemma SaysMeaning(v: Items, x: string)
    ensures x in StringItems(v) <==> Says(v, x)
  {
    StringItemsMeaning(v, x);
  }

  lemma LinksMeaning(kind: EdgeKind, task: string, prefix: string, m: string, v: Items, s: Spec)
    ensures s in LinkEdges(kind, task, prefix, m, StringItems(v)) <==>
            exists x :: Says(v, x) && s == Spec(kind, "task:" + task, prefix + x, [m], (task, x))
  {
    hide StringItems;
    forall x: string {
      SaysMeaning(v, x);
    }
    hide Says;
    if x :| Says(v, x) && s == Spec(kind, "task:" + task, prefix + x, [m], (task, x)) {
      assert s == LinkEdge(kind, task, prefix, m, x);
    }
  }

  lemma BoundHereSays(e: Entry, task: string, r: string)
    ensures e.taskId == Some(task) && r in BoundHere(e) <==> BindingOf(e, task) && Says(e.payload.implements.requirements, r)
  {
    if e.payload.implements.Mapping? {
      SaysMeaning(e.payload.implements.requirements, r);
    }
    hide StringItems, Says;
  }

  lemma BoundMeaning(entries: set<Entry>, task: string, r: string)
    ensures r in BoundTo(entries, task) <==> Bound(entries, task, r)
  {
    forall b: Entry ensures b.taskId == Some(task) && r in BoundHere(b) <==> BindingOf(b, task) && Says(b.payload.implements.requirements, r) {
      BoundHereSays(b, task, r);
    }
    hide BoundHere, Says;
  }

  lemma OwnEvidence(e: Entry, task: string, s: Spec)
    requires BindingOf(e, task)
    ensures s in EvidenceEdges(e.memoryId, BoundHere(e)) <==>
            exists r :: Says(e.payload.implements.requirements, r)
                        && s == Spec(EvidencesRequirement, "artifact:" + e.memoryId, "requirement:" + r, [e.memoryId], (e.memoryId, r))
  {
    hide StringItems;
    var v := e.payload.implements.requirements;
    forall x: string {
      SaysMeaning(v, x);
    }
    hide Says;
    if r :| Says(v, r) && s == Spec(EvidencesRequirement, "artifact:" + e.memoryId, "requirement:" + r, [e.memoryId], (e.memoryId, r)) {
      assert s == EvidenceEdge(e.memoryId, r);
    }
  }

  ghost predicate LinkOf(e: Entry, s: Spec) {
    exists task, x :: AsksLink(e, task, x, s)
  }

  ghost predicate OwnEvidenceOf(e: Entry, s: Spec) {
    exists task, r :: BindingOf(e, task) && Says(e.payload.implements.requirements, r)
                      && s == Spec(EvidencesRequirement, "artifact:" + e.memoryId, "requirement:" + r, [e.memoryId], (e.memoryId, r))
  }

  lemma FourLinks(e: Entry, task: string, s: Spec)
    requires BindingOf(e, task)
    ensures LinkOf(e, s) <==>
            var m, i := e.memoryId, e.payload.implements;
            || s in LinkEdges(ImplementsRequirement, task, "requirement:", m, StringItems(i.requirements))
            || s in LinkEdges(ImplementsCapability, task, "capability:", m, StringItems(i.capabilities))
            || s in LinkEdges(ImplementsComponent, task, "component:", m, StringItems(i.components))
            || s in LinkEdges(ExercisesInterface, task, "interface:", m, StringItems(i.interfaces))
  {
    var m, i := e.memoryId, e.payload.implements;
    hide StringItems, LinkEdges, Says;
    LinksMeaning(ImplementsRequirement, task, "requirement:", m, i.requirements, s);
    LinksMeaning(ImplementsCapability, task, "capability:", m, i.capabilities, s);
    LinksMeaning(ImplementsComponent, task, "component:", m, i.components, s);
    LinksMeaning(ExercisesInterface, task, "interface:", m, i.interfaces, s);
    FourLinksOf(e, task, s);
  }

  lemma FourLinksOf(e: Entry, task: string, s: Spec)
    requires BindingOf(e, task)
    ensures LinkOf(e, s) <==>
            var m, i := e.memoryId, e.payload.implements;
            || (exists x :: Says(i.requirements, x) && s == Spec(ImplementsRequirement, "task:" + task, "requirement:" + x, [m], (task, x)))
            || (exists x :: Says(i.capabilities, x) && s == Spec(ImplementsCapability, "task:" + task, "capability:" + x, [m], (task, x)))
            || (exists x :: Says(i.components, x) && s == Spec(ImplementsComponent, "task:" + task, "component:" + x, [m], (task, x)))
            || (exists x :: Says(i.interfaces, x) && s == Spec(ExercisesInterface, "task:" + task, "interface:" + x, [m], (task, x)))
  {
    hide Says;
    var m, i := e.memoryId, e.payload.implements;
    if x :| Says(i.requirements, x) && s == Spec(ImplementsRequirement, "task:" + task, "requirement:" + x, [m], (task, x)) {
      assert AsksLink(e, task, x, s);
    }
    if x :| Says(i.capabilities, x) && s == Spec(ImplementsCapability, "task:" + task, "capability:" + x, [m], (task, x)) {
      assert AsksLink(e, task, x, s);
    }
    if x :| Says(i.components, x) && s == Spec(ImplementsComponent, "task:" + task, "component:" + x, [m], (task, x)) {
      assert AsksLink(e, task, x, s);
    }
    if x :| Says(i.interfaces, x) && s == Spec(ExercisesInterface, "task:" + task, "interface:" + x, [m], (task, x)) {
      assert AsksLink(e, task, x, s);
    }
  }

  lemma BindingMeaning(e: Entry, s: Spec)
    ensures s in BindingEdges(e) <==> LinkOf(e, s) || OwnEvidenceOf(e, s)
  {
    if IsBinding(e) && e.payload.implements.Mapping? {
      var task := e.taskId.value;
      FourLinks(e, task, s);
      OwnEvidence(e, task, s);
      assert BindingOf(e, task);
      assert BoundHere(e) == StringItems(e.payload.implements.requirements);
      hide LinkEdges, EvidenceEdges, StringItems, LinkOf, Says;
    } else {
      hide LinkEdges, EvidenceEdges, StringItems, Says;
    }
  }

  ghost predicate GateOfEntry(e: Entry, s: Spec) {
    exists task, gate :: AsksGate(e, task, gate, s)
  }

  lemma GateMeaning(e: Entry, s: Spec)
    ensures s in GateEdges(e) <==> GateOfEntry(e, s)
  {
    if IsGate(e) {
      assert GateOf(e, e.taskId.value, e.payload.gateId.value);
      if s in GateEdges(e) {
        assert AsksGate(e, e.taskId.value, e.payload.gateId.value, s);
      }
    }
  }

  lemma PlainMeaning(project: string, e: Entry, s: Spec)
    ensures s == RecordEdge(project, e) || s in TaskEdges(e) || s in ExecutionEdges(e) <==> AsksPlain(project, e, s)
  {}

  lemma FirstPassMeaning(project: string, e: Entry, s: Spec)
    ensures s in FirstPass(project, e) <==> AsksPlain(project, e, s) || LinkOf(e, s) || OwnEvidenceOf(e, s) || GateOfEntry(e, s)
  {
    PlainMeaning(project, e, s);
    BindingMeaning(e, s);
    GateMeaning(e, s);
    hide RecordEdge, TaskEdges, ExecutionEdges, BindingEdges, GateEdges, AsksPlain, LinkOf, OwnEvidenceOf, GateOfEntry;
  }

  ghost predicate RequirementOf(entries: set<Entry>, e: Entry, s: Spec) {
    exists task, r :: AsksRequirement(entries, e, task, r, s)
  }

  lemma SecondPassMeaning(entries: set<Entry>, e: Entry, s: Spec)
    ensures s in SecondPass(e, BoundOf(entries, e)) <==> RequirementOf(entries, e, s)
  {
    if e.taskId.Some? {
      var task, bound := e.taskId.value, BoundTo(entries, e.taskId.value);
      forall r: string ensures r in Sorted(bound) <==> Bound(entries, task, r) {
        assert r in Sorted(bound) <==> r in Elements(Sorted(bound));
        BoundMeaning(entries, task, r);
      }
      hide BoundTo, Bound;
      TaskSecondPass(entries, e, task, bound, s);
    }
  }

  lemma TaskSecondPass(entries: set<Entry>, e: Entry, task: string, bound: set<string>, s: Spec)
    requires e.taskId == Some(task) && bound == BoundOf(entries, e)
    requires forall r :: r in Sorted(bound) <==> Bound(entries, task, r)
    ensures s in SecondPass(e, bound) <==> RequirementOf(entries, e, s)
  {
    hide BoundTo, BoundOf, Bound;
    if s in EvidenceEdges(e.memoryId, Sorted(bound)) {
      var r :| r in Sorted(bound) && s == EvidenceEdge(e.memoryId, r);
      assert AsksRequirement(entries, e, task, r, s);
    } else if IsGate(e) && s in GatesEdges(e.memoryId, e.payload.gateId.value, Sorted(bound)) {
      var r :| r in Sorted(bound) && s == GatesEdge(e.memoryId, e.payload.gateId.value, r);
      assert GateOf(e, task, e.payload.gateId.value);
      assert AsksRequirement(entries, e, task, r, s);
    }
    if RequirementOf(entries, e, s) {
      var t, r :| AsksRequirement(entries, e, t, r, s);
      if s == Spec(EvidencesRequirement, "artifact:" + e.memoryId, "requirement:" + r, [e.memoryId], (e.memoryId, r)) {
        assert s == EvidenceEdge(e.memoryId, r);
      } else {
        var gate :| GateOf(e, t, gate) && s == Spec(GatesRequirement, "human_gate:" + gate, "requirement:" + r, [e.memoryId], (gate, r));
        assert IsGate(e) && s == GatesEdge(e.memoryId, gate, r);
      }
    }
  }

  /** Own evidence is evidence for a bound requirement. */
  lemma OwnIsBound(entries: set<Entry>, e: Entry, s: Spec)
    requires e in entries && OwnEvidenceOf(e, s)
    ensures RequirementOf(entries, e, s)
  {
    hide Says;
    var task, r :| BindingOf(e, task) && Says(e.payload.implements.requirements, r)
                   && s == Spec(EvidencesRequirement, "artifact:" + e.memoryId, "requirement:" + r, [e.memoryId], (e.memoryId, r));
    assert Bound(entries, task, r);
    assert AsksRequirement(entries, e, task, r, s);
  }

  /** The edges of the two passes are the canonical ones and those the entries ask for. */
  lemma WantedIsAsked(canonical: set<Spec>, project: string, entries: set<Entry>, s: Spec)
    ensures s in Wanted(canonical, project, entries) <==> Asked(canonical, project, entries, s)
  {
    forall e: Entry ensures s in FirstPass(project, e) <==> AsksPlain(project, e, s) || LinkOf(e, s) || OwnEvidenceOf(e, s) || GateOfEntry(e, s) {
      FirstPassMeaning(project, e, s);
    }
    forall e: Entry ensures s in SecondPass(e, BoundOf(entries, e)) <==> RequirementOf(entries, e, s) {
      SecondPassMeaning(entries, e, s);
    }
    forall e: Entry ensures AsksAny(project, entries, e, s) <==>
        AsksPlain(project, e, s) || LinkOf(e, s) || GateOfEntry(e, s) || RequirementOf(entries, e, s)
    {
      AnyParts(project, entries, e, s);
    }
    hide FirstPass, SecondPass, BoundOf, AsksPlain, LinkOf, OwnEvidenceOf, GateOfEntry, RequirementOf, AsksAny;
    if e :| e in entries && s in FirstPass(project, e) && OwnEvidenceOf(e, s) {
      OwnIsBound(entries, e, s);
    }
  }

  lemma AnyParts(project: string, entries: set<Entry>, e: Entry, s: Spec)
    ensures AsksAny(project, entries, e, s) <==>
            AsksPlain(project, e, s) || LinkOf(e, s) || GateOfEntry(e, s) || RequirementOf(entries, e, s)
  {
    hide AsksPlain, AsksLink, AsksGate, AsksRequirement;
  }

  // ----- What the graph stores -----

  ghost predicate Stored(edges: map<string, Spec>, s: Spec) {
    exists id :: id in edges && edges[id] == s
  }

  /** With a digest that tells the wanted edges apart, the graph stores exactly the edges asked for. */
  lemma StoredIffAsked(d: Digest, canonical: set<Spec>, project: string, entries: set<Entry>, edges: map<string, Spec>, s: Spec)
    requires Indexed(d, edges, Wanted(canonical, project, entries)) && TellsApart(d, Wanted(canonical, project, entries))
    ensures Stored(edges, s) <==> Asked(canonical, project, entries, s)
  {
    WantedIsAsked(canonical, project, entries, s);
    hide Wanted, Asked;
    if Asked(canonical, project, entries, s) {
      assert edges[d(s)] == s;
    }
  }

  /** An edge of this kind leads from one node to the other. */
  ghost predicate Leads(edges: map<string, Spec>, kind: EdgeKind, source: string, target: string) {
    exists id :: id in edges && edges[id].kind == kind && edges[id].source == source && edges[id].target == target
  }

  lemma LeadsIffStored(edges: map<string, Spec>, kind: EdgeKind, source: string, target: string)
    ensures Leads(edges, kind, source, target) <==> exists s :: Stored(edges, s) && s.kind == kind && s.source == source && s.target == target
  {
    if id :| id in edges && edges[id].kind == kind && edges[id].source == source && edges[id].target == target {
      assert Stored(edges, edges[id]);
    }
  }

  lemma SamePrefix(prefix: string, a: string, b: string)
    ensures prefix + a == prefix + b ==> a == b
  {
    assert (prefix + a)[|prefix|..] == a && (prefix + b)[|prefix|..] == b;
  }

  /** A graph over these entries, with a digest that tells its edges apart and no canonical edge of the graph's own kinds. */
  ghost predicate Graph(d: Digest, canonical: set<Spec>, project: string, entries: set<Entry>, edges: map<string, Spec>) {
    && Indexed(d, edges, Wanted(canonical, project, entries)) && TellsApart(d, Wanted(canonical, project, entries))
    && forall s :: s in canonical ==> s.kind.Canonical?
  }

  /** The entry asks for an edge of this kind from one node to the other. */
  ghost predicate EntryLeads(project: string, entries: set<Entry>, e: Entry, kind: EdgeKind, source: string, target: string) {
    exists s :: AsksAny(project, entries, e, s) && s.kind == kind && s.source == source && s.target == target
  }

  lemma GraphLeads(d: Digest, canonical: set<Spec>, project: string, entries: set<Entry>, edges: map<string, Spec>, kind: EdgeKind,
                   source: string, target: string)
    requires Graph(d, canonical, project, entries, edges) && !kind.Canonical?
    ensures Leads(edges, kind, source, target) <==> exists e :: e in entries && EntryLeads(project, entries, e, kind, source, target)
  {
    LeadsIffStored(edges, kind, source, target);
    forall s: Spec ensures Stored(edges, s) <==> Asked(canonical, project, entries, s) {
      StoredIffAsked(d, canonical, project, entries, edges, s);
    }
    hide Stored, Wanted, Indexed, AsksAny, Leads;
    if e :| e in entries && EntryLeads(project, entries, e, kind, source, target) {
      var s :| AsksAny(project, entries, e, s) && s.kind == kind && s.source == source && s.target == target;
      assert Asked(canonical, project, entries, s);
    }
  }

  // Kind by kind, for one entry.

  lemma AskedPlain(project: string, entries: set<Entry>, e: Entry, s: Spec)
    requires s.kind == RecordsArtifact || s.kind == TaskHasArtifact || s.kind == ExecutionHasArtifact || s.kind == TaskHasExecution
    ensures AsksAny(project, entries, e, s) <==> AsksPlain(project, e, s)
  {
    hide Says, Bound;
  }

  lemma RecordsLead(project: string, entries: set<Entry>, e: Entry, m: string)
    ensures EntryLeads(project, entries, e, RecordsArtifact, project, "artifact:" + m) <==> e.memoryId == m
  {
    SamePrefix("artifact:", e.memoryId, m);
    var s := Spec(RecordsArtifact, project, "artifact:" + m, [e.source], (m, e.source));
    AskedPlain(project, entries, e, s);
    forall t: Spec | t.kind == RecordsArtifact ensures AsksAny(project, entries, e, t) <==> AsksPlain(project, e, t) {
      AskedPlain(project, entries, e, t);
    }
    hide AsksAny;
  }

  lemma TasksLead(project: string, entries: set<Entry>, e: Entry, task: string, m: string)
    ensures EntryLeads(project, entries, e, TaskHasArtifact, "task:" + task, "artifact:" + m) <==> e.memoryId == m && e.taskId == Some(task)
  {
    SamePrefix("artifact:", e.memoryId, m);
    if e.taskId.Some? { SamePrefix("task:", e.taskId.value, task); }
    var s := Spec(TaskHasArtifact, "task:" + task, "artifact:" + m, [e.source], (m, task));
    forall t: Spec | t.kind == TaskHasArtifact ensures AsksAny(project, entries, e, t) <==> AsksPlain(project, e, t) {
      AskedPlain(project, entries, e, t);
    }
    hide AsksAny;
    assert e.memoryId == m && e.taskId == Some(task) ==> AsksPlain(project, e, s);
  }

  lemma ExecutionsLead(project: string, entries: set<Entry>, e: Entry, x: string, m: string)
    ensures EntryLeads(project, entries, e, ExecutionHasArtifact, "execution:" + x, "artifact:" + m) <==> e.memoryId == m && e.executionId == Some(x)
  {
    SamePrefix("artifact:", e.memoryId, m);
    if e.executionId.Some? { SamePrefix("execution:", e.executionId.value, x); }
    var s := Spec(ExecutionHasArtifact, "execution:" + x, "artifact:" + m, [e.source], (m, x));
    forall t: Spec | t.kind == ExecutionHasArtifact ensures AsksAny(project, entries, e, t) <==> AsksPlain(project, e, t) {
      AskedPlain(project, entries, e, t);
    }
    hide AsksAny;
    assert e.memoryId == m && e.executionId == Some(x) ==> AsksPlain(project, e, s);
  }

  lemma TaskExecutionsLead(project: string, entries: set<Entry>, e: Entry, task: string, x: string)
    ensures EntryLeads(project, entries, e, TaskHasExecution, "task:" + task, "execution:" + x) <==> e.taskId == Some(task) && e.executionId == Some(x)
  {
    if e.taskId.Some? { SamePrefix("task:", e.taskId.value, task); }
    if e.executionId.Some? { SamePrefix("execution:", e.executionId.value, x); }
    var s := Spec(TaskHasExecution, "task:" + task, "execution:" + x, [e.source], (task, x));
    forall t: Spec | t.kind == TaskHasExecution ensures AsksAny(project, entries, e, t) <==> AsksPlain(project, e, t) {
      AskedPlain(project, entries, e, t);
    }
    hide AsksAny;
    assert e.taskId == Some(task) && e.executionId == Some(x) ==> AsksPlain(project, e, s);
  }

  lemma AskedLink(project: string, entries: set<Entry>, e: Entry, s: Spec)
    requires s.kind == ImplementsRequirement || s.kind == ImplementsCapability || s.kind == ImplementsComponent || s.kind == ExercisesInterface
    ensures AsksAny(project, entries, e, s) <==> LinkOf(e, s)
  {
    hide Says, Bound;
  }

  /** What a binding says under the key of this kind of link. */
  predicate SaysUnder(e: Entry, kind: EdgeKind, x: string)
    requires e.payload.implements.Mapping?
  {
    || (kind == ImplementsRequirement && Says(e.payload.implements.requirements, x))
    || (kind == ImplementsCapability && Says(e.payload.implements.capabilities, x))
    || (kind == ImplementsComponent && Says(e.payload.implements.components, x))
    || (kind == ExercisesInterface && Says(e.payload.implements.interfaces, x))
  }

  function LinkPrefix(kind: EdgeKind): string {
    match kind
    case ImplementsRequirement => "requirement:"
    case ImplementsCapability => "capability:"
    case ImplementsComponent => "component:"
    case ExercisesInterface => "interface:"
    case _ => ""
  }

  lemma LinkForm(e: Entry, task: string, x: string, s: Spec)
    ensures AsksLink(e, task, x, s) <==>
            BindingOf(e, task) && SaysUnder(e, s.kind, x) && s == Spec(s.kind, "task:" + task, LinkPrefix(s.kind) + x, [e.memoryId], (task, x))
  {
    hide Says;
  }

  lemma LinksLead(project: string, entries: set<Entry>, e: Entry, kind: EdgeKind, task: string, x: string)
    requires kind == ImplementsRequirement || kind == ImplementsCapability || kind == ImplementsComponent || kind == ExercisesInterface
    ensures EntryLeads(project, entries, e, kind, "task:" + task, LinkPrefix(kind) + x) <==> BindingOf(e, task) && SaysUnder(e, kind, x)
  {
    var s := Spec(kind, "task:" + task, LinkPrefix(kind) + x, [e.memoryId], (task, x));
    LinkForm(e, task, x, s);
    AskedLink(project, entries, e, s);
    if EntryLeads(project, entries, e, kind, "task:" + task, LinkPrefix(kind) + x) {
      var t :| AsksAny(project, entries, e, t) && t.kind == kind && t.source == "task:" + task && t.target == LinkPrefix(kind) + x;
      AskedLink(project, entries, e, t);
      var u, y :| AsksLink(e, u, y, t);
      LinkForm(e, u, y, t);
      SamePrefix("task:", u, task);
      SamePrefix(LinkPrefix(kind), y, x);
    }
    hide AsksAny, AsksLink, SaysUnder, LinkPrefix;
  }

  lemma AskedGate(project: string, entries: set<Entry>, e: Entry, s: Spec)
    requires s.kind == RequiresHumanGate || s.kind == GateHasArtifact
    ensures AsksAny(project, entries, e, s) <==> GateOfEntry(e, s)
  {
    hide Says, Bound;
  }

  lemma GatesLead(project: string, entries: set<Entry>, e: Entry, task: string, gate: string)
    ensures EntryLeads(project, entries, e, RequiresHumanGate, "task:" + task, "human_gate:" + gate) <==> GateOf(e, task, gate)
  {
    var s := Spec(RequiresHumanGate, "task:" + task, "human_gate:" + gate, [e.memoryId], (task, gate));
    AskedGate(project, entries, e, s);
    assert GateOf(e, task, gate) ==> AsksGate(e, task, gate, s);
    if EntryLeads(project, entries, e, RequiresHumanGate, "task:" + task, "human_gate:" + gate) {
      var t :| AsksAny(project, entries, e, t) && t.kind == RequiresHumanGate && t.source == "task:" + task && t.target == "human_gate:" + gate;
      AskedGate(project, entries, e, t);
      var u, g :| AsksGate(e, u, g, t);
      SamePrefix("task:", u, task);
      SamePrefix("human_gate:", g, gate);
    }
    hide AsksAny;
  }

  lemma GateArtifactsLead(project: string, entries: set<Entry>, e: Entry, gate: string, m: string)
    ensures EntryLeads(project, entries, e, GateHasArtifact, "human_gate:" + gate, "artifact:" + m) <==>
            e.memoryId == m && exists task :: GateOf(e, task, gate)
  {
    var s := Spec(GateHasArtifact, "human_gate:" + gate, "artifact:" + m, [m], (gate, m));
    AskedGate(project, entries, e, s);
    if task :| e.memoryId == m && GateOf(e, task, gate) {
      assert AsksGate(e, task, gate, s);
    }
    if EntryLeads(project, entries, e, GateHasArtifact, "human_gate:" + gate, "artifact:" + m) {
      var t :| AsksAny(project, entries, e, t) && t.kind == GateHasArtifact && t.source == "human_gate:" + gate && t.target == "artifact:" + m;
      AskedGate(project, entries, e, t);
      var u, g :| AsksGate(e, u, g, t);
      SamePrefix("artifact:", e.memoryId, m);
      SamePrefix("human_gate:", g, gate);
    }
    hide AsksAny;
  }

  lemma AskedRequirement(project: string, entries: set<Entry>, e: Entry, s: Spec)
    requires s.kind == EvidencesRequirement || s.kind == GatesRequirement
    ensures AsksAny(project, entries, e, s) <==> RequirementOf(entries, e, s)
  {
    hide Says, Bound;
  }

  lemma EvidenceLeads(project: string, entries: set<Entry>, e: Entry, m: string, r: string)
    ensures EntryLeads(project, entries, e, EvidencesRequirement, "artifact:" + m, "requirement:" + r) <==>
            e.memoryId == m && e.taskId.Some? && Bound(entries, e.taskId.value, r)
  {
    hide Bound;
    var s := Spec(EvidencesRequirement, "artifact:" + m, "requirement:" + r, [m], (m, r));
    AskedRequirement(project, entries, e, s);
    if e.memoryId == m && e.taskId.Some? && Bound(entries, e.taskId.value, r) {
      assert AsksRequirement(entries, e, e.taskId.value, r, s);
    }
    if EntryLeads(project, entries, e, EvidencesRequirement, "artifact:" + m, "requirement:" + r) {
      var t :| AsksAny(project, entries, e, t) && t.kind == EvidencesRequirement && t.source == "artifact:" + m && t.target == "requirement:" + r;
      AskedRequirement(project, entries, e, t);
      var u, q :| AsksRequirement(entries, e, u, q, t);
      SamePrefix("artifact:", e.memoryId, m);
      SamePrefix("requirement:", q, r);
    }
    hide AsksAny;
  }

  lemma GatingLeads(project: string, entries: set<Entry>, e: Entry, gate: string, r: string)
    ensures EntryLeads(project, entries, e, GatesRequirement, "human_gate:" + gate, "requirement:" + r) <==>
            exists task :: GateOf(e, task, gate) && Bound(entries, task, r)
  {
    hide Bound;
    var s := Spec(GatesRequirement, "human_gate:" + gate, "requirement:" + r, [e.memoryId], (gate, r));
    AskedRequirement(project, entries, e, s);
    if task :| GateOf(e, task, gate) && Bound(entries, task, r) {
      assert AsksRequirement(entries, e, task, r, s);
    }
    if EntryLeads(project, entries, e, GatesRequirement, "human_gate:" + gate, "requirement:" + r) {
      var t :| AsksAny(project, entries, e, t) && t.kind == GatesRequirement && t.source == "human_gate:" + gate && t.target == "requirement:" + r;
      AskedRequirement(project, entries, e, t);
      var u, q :| AsksRequirement(entries, e, u, q, t);
      var g :| GateOf(e, u, g) && t == Spec(GatesRequirement, "human_gate:" + g, "requirement:" + q, [e.memoryId], (g, q));
      SamePrefix("human_gate:", g, gate);
      SamePrefix("requirement:", q, r);
    }
    hide AsksAny;
  }

  // ----- Kind by kind, for the graph -----

  /** Links from tasks: to what some binding of the task lists under that very key, and to nothing else. */
  lemma LinksExact(d: Digest, canonical: set<Spec>, project: string, entries: set<Entry>, edges: map<string, Spec>, task: string, x: string)
    requires Graph(d, canonical, project, entries, edges)
    ensures Leads(edges, ImplementsRequirement, "task:" + task, "requirement:" + x) <==>
            exists e :: e in entries && BindingOf(e, task) && Says(e.payload.implements.requirements, x)
    ensures Leads(edges, ImplementsCapability, "task:" + task, "capability:" + x) <==>
            exists e :: e in entries && BindingOf(e, task) && Says(e.payload.implements.capabilities, x)
    ensures Leads(edges, ImplementsComponent, "task:" + task, "component:" + x) <==>
            exists e :: e in entries && BindingOf(e, task) && Says(e.payload.implements.components, x)
    ensures Leads(edges, ExercisesInterface, "task:" + task, "interface:" + x) <==>
            exists e :: e in entries && BindingOf(e, task) && Says(e.payload.implements.interfaces, x)
  {
    hide Graph, Leads, Says, BindingOf;
    RequirementLinks(d, canonical, project, entries, edges, task, x);
    CapabilityLinks(d, canonical, project, entries, edges, task, x);
    ComponentLinks(d, canonical, project, entries, edges, task, x);
    InterfaceLinks(d, canonical, project, entries, edges, task, x);
  }

  lemma RequirementLinks(d: Digest, canonical: set<Spec>, project: string, entries: set<Entry>, edges: map<string, Spec>, task: string, x: string)
    requires Graph(d, canonical, project, entries, edges)
    ensures Leads(edges, ImplementsRequirement, "task:" + task, "requirement:" + x) <==>
            exists e :: e in entries && BindingOf(e, task) && Says(e.payload.implements.requirements, x)
  {
    hide Leads, Says;
    LinkExact(d, canonical, project, entries, edges, ImplementsRequirement, task, x);
    hide Graph;
  }

  lemma CapabilityLinks(d: Digest, canonical: set<Spec>, project: string, entries: set<Entry>, edges: map<string, Spec>, task: string, x: string)
    requires Graph(d, canonical, project, entries, edges)
    ensures Leads(edges, ImplementsCapability, "task:" + task, "capability:" + x) <==>
            exists e :: e in entries && BindingOf(e, task) && Says(e.payload.implements.capabilities, x)
  {
    hide Leads, Says;
    LinkExact(d, canonical, project, entries, edges, ImplementsCapability, task, x);
    hide Graph;
  }

  lemma ComponentLinks(d: Digest, canonical: set<Spec>, project: string, entries: set<Entry>, edges: map<string, Spec>, task: string, x: string)
    requires Graph(d, canonical, project, entries, edges)
    ensures Leads(edges, ImplementsComponent, "task:" + task, "component:" + x) <==>
            exists e :: e in entries && BindingOf(e, task) && Says(e.payload.implements.components, x)
  {
    hide Leads, Says;
    LinkExact(d, canonical, project, entries, edges, ImplementsComponent, task, x);
    hide Graph;
  }

  lemma InterfaceLinks(d: Digest, canonical: set<Spec>, project: string, entries: set<Entry>, edges: map<string, Spec>, task: string, x: string)
    requires Graph(d, canonical, project, entries, edges)
    ensures Leads(edges, ExercisesInterface, "task:" + task, "interface:" + x) <==>
            exists e :: e in entries && BindingOf(e, task) && Says(e.payload.implements.interfaces, x)
  {
    hide Leads, Says;
    LinkExact(d, canonical, project, entries, edges, ExercisesInterface, task, x);
    hide Graph;
  }

  lemma LinkExact(d: Digest, canonical: set<Spec>, project: string, entries: set<Entry>, edges: map<string, Spec>, kind: EdgeKind,
                  task: string, x: string)
    requires Graph(d, canonical, project, entries, edges)
    requires kind == ImplementsRequirement || kind == ImplementsCapability || kind == ImplementsComponent || kind == ExercisesInterface
    ensures Leads(edges, kind, "task:" + task, LinkPrefix(kind) + x) <==> exists e :: e in entries && BindingOf(e, task) && SaysUnder(e, kind, x)
  {
    hide Leads, EntryLeads, SaysUnder, LinkPrefix;
    GraphLeads(d, canonical, project, entries, edges, kind, "task:" + task, LinkPrefix(kind) + x);
    hide Graph;
    forall e: Entry ensures EntryLeads(project, entries, e, kind, "task:" + task, LinkPrefix(kind) + x) <==> BindingOf(e, task) && SaysUnder(e, kind, x) {
      LinksLead(project, entries, e, kind, task, x);
    }
  }

  /** The project records every entry's artifact, and its task and its execution have it; a task has its executions. */
  lemma ArtifactsExact(d: Digest, canonical: set<Spec>, project: string, entries: set<Entry>, edges: map<string, Spec>, m: string, task: string, x: string)
    requires Graph(d, canonical, project, entries, edges)
    ensures Leads(edges, RecordsArtifact, project, "artifact:" + m) <==> exists e :: e in entries && e.memoryId == m
    ensures Leads(edges, TaskHasArtifact, "task:" + task, "artifact:" + m) <==> exists e :: e in entries && e.memoryId == m && e.taskId == Some(task)
    ensures Leads(edges, ExecutionHasArtifact, "execution:" + x, "artifact:" + m) <==>
            exists e :: e in entries && e.memoryId == m && e.executionId == Some(x)
    ensures Leads(edges, TaskHasExecution, "task:" + task, "execution:" + x) <==>
            exists e :: e in entries && e.taskId == Some(task) && e.executionId == Some(x)
  {
    hide Leads, EntryLeads;
    GraphLeads(d, canonical, project, entries, edges, RecordsArtifact, project, "artifact:" + m);
    GraphLeads(d, canonical, project, entries, edges, TaskHasArtifact, "task:" + task, "artifact:" + m);
    GraphLeads(d, canonical, project, entries, edges, ExecutionHasArtifact, "execution:" + x, "artifact:" + m);
    GraphLeads(d, canonical, project, entries, edges, TaskHasExecution, "task:" + task, "execution:" + x);
    hide Graph;
    forall e: Entry
      ensures EntryLeads(project, entries, e, RecordsArtifact, project, "artifact:" + m) <==> e.memoryId == m
      ensures EntryLeads(project, entries, e, TaskHasArtifact, "task:" + task, "artifact:" + m) <==> e.memoryId == m && e.taskId == Some(task)
      ensures EntryLeads(project, entries, e, ExecutionHasArtifact, "execution:" + x, "artifact:" + m) <==> e.memoryId == m && e.executionId == Some(x)
      ensures EntryLeads(project, entries, e, TaskHasExecution, "task:" + task, "execution:" + x) <==> e.taskId == Some(task) && e.executionId == Some(x)
    {
      RecordsLead(project, entries, e, m);
      TasksLead(project, entries, e, task, m);
      ExecutionsLead(project, entries, e, x, m);
      TaskExecutionsLead(project, entries, e, task, x);
    }
  }

  /** Gates: between their tasks and their artifacts. Requirements: evidenced by the artifacts of, and gated by the gates of, the tasks bound to them. */
  lemma GatesAndEvidenceExact(d: Digest, canonical: set<Spec>, project: string, entries: set<Entry>, edges: map<string, Spec>,
                              m: string, task: string, gate: string, r: string)
    requires Graph(d, canonical, project, entries, edges)
    ensures Leads(edges, RequiresHumanGate, "task:" + task, "human_gate:" + gate) <==> exists e :: e in entries && GateOf(e, task, gate)
    ensures Leads(edges, GateHasArtifact, "human_gate:" + gate, "artifact:" + m) <==>
            exists e, t :: e in entries && e.memoryId == m && GateOf(e, t, gate)
    ensures Leads(edges, EvidencesRequirement, "artifact:" + m, "requirement:" + r) <==>
            exists e :: e in entries && e.memoryId == m && e.taskId.Some? && Bound(entries, e.taskId.value, r)
    ensures Leads(edges, GatesRequirement, "human_gate:" + gate, "requirement:" + r) <==>
            exists e, t :: e in entries && GateOf(e, t, gate) && Bound(entries, t, r)
  {
    hide Leads, EntryLeads, Bound;
    GraphLeads(d, canonical, project, entries, edges, RequiresHumanGate, "task:" + task, "human_gate:" + gate);
    GraphLeads(d, canonical, project, entries, edges, GateHasArtifact, "human_gate:" + gate, "artifact:" + m);
    GraphLeads(d, canonical, project, entries, edges, EvidencesRequirement, "artifact:" + m, "requirement:" + r);
    GraphLeads(d, canonical, project, entries, edges, GatesRequirement, "human_gate:" + gate, "requirement:" + r);
    hide Graph, GateOf;
    forall e: Entry
      ensures EntryLeads(project, entries, e, RequiresHumanGate, "task:" + task, "human_gate:" + gate) <==> GateOf(e, task, gate)
      ensures EntryLeads(project, entries, e, GateHasArtifact, "human_gate:" + gate, "artifact:" + m) <==>
              e.memoryId == m && exists t :: GateOf(e, t, gate)
      ensures EntryLeads(project, entries, e, EvidencesRequirement, "artifact:" + m, "requirement:" + r) <==>
              e.memoryId == m && e.taskId.Some? && Bound(entries, e.taskId.value, r)
      ensures EntryLeads(project, entries, e, GatesRequirement, "human_gate:" + gate, "requirement:" + r) <==>
              exists t :: GateOf(e, t, gate) && Bound(entries, t, r)
    {
      GatesLead(project, entries, e, task, gate);
      GateArtifactsLead(project, entries, e, gate, m);
      EvidenceLeads(project, entries, e, m, r);
      GatingLeads(project, entries, e, gate, r);
    }
  }

  // ----- Nodes -----

  /** How an entry describes the nodes it stands for: its artifact, its task, its execution and its gate. */
  predicate Describes(e: Entry, id: string, n: Node) {
    || (id == "artifact:" + e.memoryId && n == Node("artifact_evidence_record", e.memoryId, e.summary, e.source, EntryPayload(e)))
    || (e.taskId.Some? && id == "task:" + e.taskId.value
        && n == Node("runtime_task", e.taskId.value, e.taskId.value, "runtime-handoff", TaskPayload(e.projectId, e.taskId.value)))
    || (e.executionId.Some? && id == "execution:" + e.executionId.value
        && n == Node("runtime_execution", e.executionId.value, e.executionId.value, "runtime-persistence",
                     ExecutionPayload(e.projectId, e.taskId, e.executionId.value)))
    || (e.source == "runtime-human-gate" && e.taskId.Some? && e.payload.gateId.Some? && e.payload.gateId.value != ""
        && id == "human_gate:" + e.payload.gateId.value
        && n == Node("runtime_human_gate", e.payload.gateId.value, e.payload.gateId.value, "runtime-handoff", GatePayload(e.payload)))
  }

  ghost predicate DescribesId(e: Entry, id: string) {
    exists n :: Describes(e, id, n)
  }

  /** The first entry that describes the node describes it so. */
  ghost predicate FirstDescribed(entries: seq<Entry>, id: string, n: Node) {
    exists i :: 0 <= i < |entries| && Describes(entries[i], id, n) && forall j :: 0 <= j < i ==> !DescribesId(entries[j], id)
  }

  ghost predicate FirstIn(requests: seq<Request>, id: string, n: Node) {
    exists i :: 0 <= i < |requests| && requests[i] == Request(id, n) && forall j :: 0 <= j < i ==> requests[j].id != id
  }

  lemma DescribesIsRequest(e: Entry, id: string, n: Node)
    ensures Request(id, n) in NodeRequests(e) <==> Describes(e, id, n)
  {}

  lemma {:induction false} FirstWinsIff(requests: seq<Request>, id: string, n: Node)
    ensures (id in FirstWins(map[], requests) && FirstWins(map[], requests)[id] == n) <==> FirstIn(requests, id, n)
  {
    if requests != [] {
      var before, last := requests[..|requests| - 1], requests[|requests| - 1];
      FirstWinsIff(before, id, n);
      FirstWinsKeys(map[], before, id);
      assert requests == before + [last];
      FirstInMore(before, [last], id, n);
      assert FirstIn([last], id, n) <==> last == Request(id, n) by {
        if last == Request(id, n) {
          assert [last][0] == Request(id, n);
        }
      }
    }
  }

  lemma FirstInMore(a: seq<Request>, b: seq<Request>, id: string, n: Node)
    ensures FirstIn(a + b, id, n) <==> FirstIn(a, id, n) || (!Requests(a, id) && FirstIn(b, id, n))
  {
    var all := a + b;
    if FirstIn(all, id, n) {
      var i :| 0 <= i < |all| && all[i] == Request(id, n) && forall j :: 0 <= j < i ==> all[j].id != id;
      if i < |a| {
        assert a[i] == Request(id, n) && forall j :: 0 <= j < i ==> a[j] == all[j];
      } else {
        assert b[i - |a|] == Request(id, n);
        forall j | 0 <= j < i - |a| ensures b[j].id != id {
          assert all[|a| + j] == b[j];
        }
        forall j | 0 <= j < |a| ensures a[j].id != id {
          assert all[j] == a[j];
        }
      }
    }
    if FirstIn(a, id, n) {
      var i :| 0 <= i < |a| && a[i] == Request(id, n) && forall j :: 0 <= j < i ==> a[j].id != id;
      assert all[i] == Request(id, n);
    } else if !Requests(a, id) && FirstIn(b, id, n) {
      var i :| 0 <= i < |b| && b[i] == Request(id, n) && forall j :: 0 <= j < i ==> b[j].id != id;
      assert all[|a| + i] == Request(id, n);
      forall j | 0 <= j < |a| + i ensures all[j].id != id {
        if j >= |a| {
          assert all[j] == b[j - |a|];
        }
      }
    }
  }

  lemma OwnRequests(e: Entry, id: string, n: Node)
    ensures FirstIn(NodeRequests(e), id, n) <==> Describes(e, id, n)
    ensures Requests(NodeRequests(e), id) <==> DescribesId(e, id)
  {
    DescribesIsRequest(e, id, n);
    var rs := NodeRequests(e);
    hide NodeRequests, Describes;
    forall m: Node ensures Request(id, m) in rs <==> Describes(e, id, m) {
      DescribesIsRequest(e, id, m);
    }
    if Request(id, n) in rs {
      var i :| 0 <= i < |rs| && rs[i] == Request(id, n);
      var first := FirstFor(rs, id, i);
      OneRequestPerNode(e, rs[first], rs[i]);
    }
    if Requests(rs, id) {
      var i :| 0 <= i < |rs| && rs[i].id == id;
      assert Request(id, rs[i].node) == rs[i];
    }
  }

  lemma {:induction false} FirstFor(rs: seq<Request>, id: string, i: nat) returns (first: nat)
    requires i < |rs| && rs[i].id == id
    ensures first <= i && rs[first].id == id && forall j :: 0 <= j < first ==> rs[j].id != id
  {
    first := i;
    if j: nat :| j < i && rs[j].id == id {
      first := FirstFor(rs, id, j);
    }
  }

  lemma {:induction false} EntriesRequest(entries: seq<Entry>, id: string, n: Node)
    ensures FirstIn(AllNodeRequests(entries), id, n) <==> FirstDescribed(entries, id, n)
    ensures Requests(AllNodeRequests(entries), id) <==> exists i :: 0 <= i < |entries| && DescribesId(entries[i], id)
  {
    hide NodeRequests, Describes;
    if entries != [] {
      var before, last := entries[..|entries| - 1], entries[|entries| - 1];
      EntriesRequest(before, id, n);
      OwnRequests(last, id, n);
      FirstInMore(AllNodeRequests(before), NodeRequests(last), id, n);
      RequestsConcat(AllNodeRequests(before), NodeRequests(last), id);
      hide FirstIn, Requests, DescribesId;
      DescribedMore(before, last, entries, id, n);
    }
  }

  lemma RequestsConcat(a: seq<Request>, b: seq<Request>, id: string)
    ensures Requests(a + b, id) <==> Requests(a, id) || Requests(b, id)
  {
    if Requests(a, id) {
      var i :| 0 <= i < |a| && a[i].id == id;
      assert (a + b)[i].id == id;
    }
    if Requests(b, id) {
      var i :| 0 <= i < |b| && b[i].id == id;
      assert (a + b)[|a| + i].id == id;
    }
  }

  lemma DescribedMore(before: seq<Entry>, last: Entry, entries: seq<Entry>, id: string, n: Node)
    requires entries == before + [last]
    ensures FirstDescribed(entries, id, n) <==>
            FirstDescribed(before, id, n) || ((forall i :: 0 <= i < |before| ==> !DescribesId(before[i], id)) && Describes(last, id, n))
    ensures (exists i :: 0 <= i < |entries| && DescribesId(entries[i], id)) <==>
            (exists i :: 0 <= i < |before| && DescribesId(before[i], id)) || DescribesId(last, id)
  {
    hide Describes, DescribesId;
    assert forall i :: 0 <= i < |before| ==> entries[i] == before[i];
    assert entries[|before|] == last;
  }

  /** The id of the project's node: the canonical one, or one of its own. */
  predicate ProjectId(canonicalNodes: seq<Request>, projectId: string, id: string) {
    id == if exists i | 0 <= i < |canonicalNodes| :: canonicalNodes[i].id == "project:" + projectId then "project:" + projectId
          else "runtime_project:" + projectId
  }

  /** Every node is stored as it was first described: by the canonical graph, as the project, or by the entries in order. */
  lemma NodesExact(d: Digest, canonicalNodes: seq<Request>, canonicalEdges: seq<Spec>, projectId: string, memoryHash: string,
                   entries: seq<Entry>, nodes: map<string, Node>, edges: map<string, Spec>, id: string, n: Node)
    requires GraphOf(d, canonicalNodes, canonicalEdges, projectId, memoryHash, entries, nodes, edges)
    ensures id in nodes && nodes[id] == n <==>
            || FirstIn(canonicalNodes, id, n)
            || ((forall i :: 0 <= i < |canonicalNodes| ==> canonicalNodes[i].id != id) &&
                if ProjectId(canonicalNodes, projectId, id)
                then n == Node("runtime_project", projectId, projectId, "project-memory", ProjectPayload(projectId, memoryHash))
                else FirstDescribed(entries, id, n))
  {
    var initial := InitialRequests(canonicalNodes, projectId, memoryHash);
    FirstWinsIff(initial + AllNodeRequests(entries), id, n);
    FirstInMore(initial, AllNodeRequests(entries), id, n);
    EntriesRequest(entries, id, n);
    InitialMeaning(canonicalNodes, projectId, memoryHash, id, n);
    hide FirstIn, FirstDescribed, Requests, FirstWins, InitialRequests, AllNodeRequests, ProjectId;
  }

  lemma InitialMeaning(canonicalNodes: seq<Request>, projectId: string, memoryHash: string, id: string, n: Node)
    ensures var initial := InitialRequests(canonicalNodes, projectId, memoryHash);
            && (FirstIn(initial, id, n) <==>
                || FirstIn(canonicalNodes, id, n)
                || ((forall i :: 0 <= i < |canonicalNodes| ==> canonicalNodes[i].id != id) && ProjectId(canonicalNodes, projectId, id)
                    && n == Node("runtime_project", projectId, projectId, "project-memory", ProjectPayload(projectId, memoryHash))))
            && (Requests(initial, id) <==> (exists i :: 0 <= i < |canonicalNodes| && canonicalNodes[i].id == id) || ProjectId(canonicalNodes, projectId, id))
  {
    var project := ProjectNode(canonicalNodes, projectId);
    assert ProjectId(canonicalNodes, projectId, id) <==> id == project;
    var own := Request(project, Node("runtime_project", projectId, projectId, "project-memory", ProjectPayload(projectId, memoryHash)));
    hide ProjectId, ProjectNode;
    FirstInMore(canonicalNodes, [own], id, n);
    RequestsConcat(canonicalNodes, [own], id);
    assert FirstIn([own], id, n) <==> own == Request(id, n) by {
      if own == Request(id, n) {
        assert [own][0] == Request(id, n);
      }
    }
    assert Requests([own], id) <==> id == project by {
      assert [own][0].id == project;
    }
    assert canonicalNodes + [] == canonicalNodes;
    if FirstIn(canonicalNodes, id, n) {
      var i :| 0 <= i < |canonicalNodes| && canonicalNodes[i] == Request(id, n);
      assert Requests(canonicalNodes, id);
    }
  }
}
