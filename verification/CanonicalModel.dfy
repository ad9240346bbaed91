/** The canonical project model: objects and relationships built from the compiled manifest. */
module CanonicalModel {
  import opened Order
  import opened Wrappers

  /** A manifest entry with the fields the model reads; the payload of an object. */
  datatype Item = Item(
    id: string,
    classification: Option<string>,
    sourceRefs: seq<string>,
    evidenceRefs: seq<string>,
    capabilities: seq<string>,
    capability: Option<string>,
    dependsOn: seq<string>,
    fromComponent: Option<string>,
    toComponent: Option<string>,
    requirements: seq<string>,
    epic: Option<string>
  )

  function BareItem(id: string): Item {
    Item(id, None, [], [], [], None, [], None, None, [], None)
  }

  datatype Compiled = Compiled(
    project: Item,
    intake: Item,
    repository: Item,
    deployment: Item,
    taskGraph: Item,
    sources: seq<Item>,
    requirements: seq<Item>,
    capabilities: seq<Item>,
    components: seq<Item>,
    interfaces: seq<Item>,
    gates: seq<Item>,
    features: seq<Item>,
    others: seq<(Kind, Item)>
  )

  datatype Kind =
    | Agent | BusinessObjective | BusinessStakeholder | Capability | Component | DataObject | Deployment | Epic
    | Evidence | Feature | Intake | Interface | LanguageModel | Operation | Project | Repository | Requirement
    | RoadmapItem | Source | SuccessMeasure | TaskGraph | Tool | VerificationGate

  /** The text `kind:native`; kinds contain no colon, so the pair says the same. */
  datatype ObjectId = ObjectId(kind: Kind, native: string)

  datatype Object = Object(id: ObjectId, native: string, sourceRefs: seq<string>, payload: Item, payloadHash: string)

  datatype RelKind =
    | BelongsToEpic | ConnectsFrom | ConnectsTo | DependsOn | EvidencedBy | ExposedByInterface | ImplementsCapability
    | ImplementedByComponent | PlansRequirement | RequiresCapability | SourcedFrom | VerifiedBy

  /** Extra fields of a relationship; the builder gives none. */
  type RelPayload = map<string, string>

  /** What a relationship id is the digest of; provenance is sorted. */
  datatype RelKey = RelKey(kind: RelKind, source: ObjectId, target: ObjectId, provenance: seq<string>, payload: RelPayload)

  datatype Relationship = Relationship(id: string, key: RelKey, payloadHash: string, sourceNative: string, targetNative: string)

  datatype ModelPayload = ModelPayload(compilerVersion: string, sourceHash: string, objects: seq<Object>, relationships: seq<Relationship>)

  datatype Model = Model(hash: string, payload: ModelPayload)

  datatype Digests = Digests(item: Item -> string, relation: RelKey -> string, payload: RelPayload -> string, model: ModelPayload -> string)

  // ----- Objects -----

  function Record(d: Digests, kind: Kind, native: string, payload: Item): Object {
    Object(ObjectId(kind, native), native, SortStrings(payload.sourceRefs), payload, d.item(payload))
  }

  function Records(d: Digests, kind: Kind, items: seq<Item>): seq<Object> {
    seq(|items|, i requires 0 <= i < |items| => Record(d, kind, items[i].id, items[i]))
  }

  function OtherRecords(d: Digests, items: seq<(Kind, Item)>): seq<Object> {
    seq(|items|, i requires 0 <= i < |items| => Record(d, items[i].0, items[i].1.id, items[i].1))
  }

  function ProjectRecords(d: Digests, c: Compiled): seq<Object> {
    var native := c.project.id;
    [Record(d, Project, native, c.project), Record(d, Intake, native, c.intake),
     Record(d, Repository, native, c.repository), Record(d, Deployment, native, c.deployment)]
  }

  /** The objects the manifest declares, before sources and evidence are completed. */
  function Declared(d: Digests, c: Compiled): seq<Object> {
    ProjectRecords(d, c)
    + Records(d, Source, c.sources) + Records(d, Requirement, c.requirements)
    + Records(d, Capability, c.capabilities) + Records(d, Component, c.components)
    + Records(d, Interface, c.interfaces) + Records(d, VerificationGate, c.gates)
    + Records(d, Feature, c.features) + OtherRecords(d, c.others)
    + [Record(d, TaskGraph, c.project.id, c.taskGraph)]
  }

  class ObjectBuilder {
    const d: Digests
    var objects: seq<Object>
    var referencedSources: set<string>
    var evidenceRefs: set<string>

    constructor (d: Digests)
      ensures this.d == d && objects == [] && referencedSources == {} && evidenceRefs == {}
    {
      this.d := d;
      objects, referencedSources, evidenceRefs := [], {}, {};
    }

    ghost predicate Collected()
      reads this
    {
      && referencedSources == SourcesOf(objects)
      && evidenceRefs == EvidenceOf(objects)
    }

    method Add(kind: Kind, native: string, payload: Item)
      requires Collected()
      modifies this
      ensures Collected() && objects == old(objects) + [Record(d, kind, native, payload)]
    {
      RefsPush(objects, Record(d, kind, native, payload));
      objects := objects + [Record(d, kind, native, payload)];
      referencedSources := referencedSources + Elements(payload.sourceRefs);
      evidenceRefs := evidenceRefs + Elements(payload.evidenceRefs);
    }

    method AddAll(kind: Kind, items: seq<Item>)
      requires Collected()
      modifies this
      ensures Collected() && objects == old(objects) + Records(d, kind, items)
    {
      for i := 0 to |items|
        invariant Collected() && objects == old(objects) + Records(d, kind, items)[..i]
      {
        Add(kind, items[i].id, items[i]);
      }
    }

    method AddOthers(items: seq<(Kind, Item)>)
      requires Collected()
      modifies this
      ensures Collected() && objects == old(objects) + OtherRecords(d, items)
    {
      for i := 0 to |items|
        invariant Collected() && objects == old(objects) + OtherRecords(d, items)[..i]
      {
        Add(items[i].0, items[i].1.id, items[i].1);
      }
    }
  }

  function SourcesOf(objects: seq<Object>): set<string> {
    set o, s | o in objects && s in o.payload.sourceRefs :: s
  }

  function EvidenceOf(objects: seq<Object>): set<string> {
    set o, e | o in objects && e in o.payload.evidenceRefs :: e
  }

  lemma RefsPush(objects: seq<Object>, o: Object)
    ensures SourcesOf(objects + [o]) == SourcesOf(objects) + Elements(o.payload.sourceRefs)
    ensures EvidenceOf(objects + [o]) == EvidenceOf(objects) + Elements(o.payload.evidenceRefs)
  {}

  function SourceIds(objects: seq<Object>): set<string> {
    set o | o in objects && o.id.kind == Source :: o.native
  }

  function EvidenceItem(ref: string): Item {
    BareItem(ref).(sourceRefs := [BeforeColon(ref)])
  }

  function BeforeColon(s: string): string {
    if s == "" || s[0] == ':' then "" else [s[0]] + BeforeColon(s[1..])
  }

  function BareItems(ids: seq<string>): seq<Item> {
    seq(|ids|, i requires 0 <= i < |ids| => BareItem(ids[i]))
  }

  function EvidenceItems(refs: seq<string>): seq<Item> {
    seq(|refs|, i requires 0 <= i < |refs| => EvidenceItem(refs[i]))
  }

  function MissingSources(d: Digests, c: Compiled): seq<string> {
    Sorted(SourcesOf(Declared(d, c)) - SourceIds(Declared(d, c)))
  }

  /** Declared objects, then a source for every reference that has none, then the evidence. */
  function AllObjects(d: Digests, c: Compiled): seq<Object> {
    Declared(d, c)
    + Records(d, Source, BareItems(MissingSources(d, c)))
    + Records(d, Evidence, EvidenceItems(Sorted(EvidenceOf(Declared(d, c)))))
  }

  method CanonicalObjects(d: Digests, c: Compiled) returns (objects: seq<Object>)
    ensures multiset(objects) == multiset(AllObjects(d, c))
    ensures Ascending(ObjectLe, objects)
  {
    var builder := new ObjectBuilder(d);
    var native := c.project.id;
    builder.Add(Project, native, c.project);
    builder.Add(Intake, native, c.intake);
    builder.Add(Repository, native, c.repository);
    builder.Add(Deployment, native, c.deployment);
    assert builder.objects == ProjectRecords(d, c);
    builder.AddAll(Source, c.sources);
    builder.AddAll(Requirement, c.requirements);
    builder.AddAll(Capability, c.capabilities);
    builder.AddAll(Component, c.components);
    builder.AddAll(Interface, c.interfaces);
    builder.AddAll(VerificationGate, c.gates);
    builder.AddAll(Feature, c.features);
    builder.AddOthers(c.others);
    builder.Add(TaskGraph, native, c.taskGraph);
    var evidence := builder.evidenceRefs;
    var external := Sorted(builder.referencedSources - SourceIds(builder.objects));
    builder.AddAll(Source, BareItems(external));
    builder.AddAll(Evidence, EvidenceItems(Sorted(evidence)));
    objects := Sort(ObjectLe, builder.objects);
    SortPermutes(ObjectLe, builder.objects);
    ObjectOrder();
    SortAscends(ObjectLe, builder.objects);
  }

  lemma ObjectOrder()
    ensures TotalPreorder(ObjectLe)
  {
    TupleOrder();
    hide KindName, TupleLe;
  }

  function KindName(kind: Kind): string {
    match kind
    case Agent => "agent"
    case BusinessObjective => "business_objective"
    case BusinessStakeholder => "business_stakeholder"
    case Capability => "capability"
    case Component => "component"
    case DataObject => "data_object"
    case Deployment => "deployment"
    case Epic => "epic"
    case Evidence => "evidence"
    case Feature => "feature"
    case Intake => "intake"
    case Interface => "interface"
    case LanguageModel => "model"
    case Operation => "operation"
    case Project => "project"
    case Repository => "repository"
    case Requirement => "requirement"
    case RoadmapItem => "roadmap_item"
    case Source => "source"
    case SuccessMeasure => "success_measure"
    case TaskGraph => "task_graph"
    case Tool => "tool"
    case VerificationGate => "verification_gate"
  }

  predicate ObjectLe(a: Object, b: Object) {
    TupleLe([KindName(a.id.kind), a.id.native], [KindName(b.id.kind), b.id.native])
  }

  // ----- What is among the objects -----

  lemma RecordsMeaning(d: Digests, kind: Kind, items: seq<Item>, o: Object)
    ensures o in Records(d, kind, items) <==> exists i :: i in items && o == Record(d, kind, i.id, i)
  {
    if i :| i in items && o == Record(d, kind, i.id, i) {
      var n :| 0 <= n < |items| && items[n] == i;
      assert Records(d, kind, items)[n] == o;
    }
  }

  ghost predicate IsRecord(d: Digests, o: Object) {
    o == Record(d, o.id.kind, o.native, o.payload)
  }

  lemma DeclaredParts(d: Digests, c: Compiled, o: Object)
    ensures o in Declared(d, c) <==>
            || o in ProjectRecords(d, c)
            || o in Records(d, Source, c.sources) || o in Records(d, Requirement, c.requirements)
            || o in Records(d, Capability, c.capabilities) || o in Records(d, Component, c.components)
            || o in Records(d, Interface, c.interfaces) || o in Records(d, VerificationGate, c.gates)
            || o in Records(d, Feature, c.features) || o in OtherRecords(d, c.others)
            || o == Record(d, TaskGraph, c.project.id, c.taskGraph)
  {}

  /** Entries listed under the remaining kinds are of none of the kinds that have a list of their own. */
  predicate WellListed(c: Compiled) {
    forall e :: e in c.others ==>
      e.0 !in {Project, Intake, Repository, Deployment, TaskGraph, Source, Requirement, Capability, Component, Interface, VerificationGate, Feature, Evidence}
  }

  lemma DeclaredAreRecords(d: Digests, c: Compiled, o: Object)
    requires o in Declared(d, c)
    ensures IsRecord(d, o)
  {
    DeclaredParts(d, c, o);
  }

  lemma AllAreRecords(d: Digests, c: Compiled, o: Object)
    requires o in AllObjects(d, c)
    ensures IsRecord(d, o)
  {
    hide Declared;
    if o in Declared(d, c) {
      DeclaredAreRecords(d, c, o);
    }
  }

  lemma AllParts(d: Digests, c: Compiled, o: Object)
    ensures o in AllObjects(d, c) <==>
            || o in Declared(d, c)
            || o in Records(d, Source, BareItems(MissingSources(d, c)))
            || o in Records(d, Evidence, EvidenceItems(Sorted(EvidenceOf(Declared(d, c)))))
  {}

  lemma RecordsKind(d: Digests, kind: Kind, items: seq<Item>, o: Object)
    ensures o in Records(d, kind, items) ==> o.id.kind == kind
  {}

  lemma OthersKind(d: Digests, c: Compiled, o: Object)
    requires WellListed(c)
    ensures o in OtherRecords(d, c.others) ==> o.id.kind != Requirement && o.id.kind != Capability
  {
    if o in OtherRecords(d, c.others) {
      var i :| 0 <= i < |c.others| && OtherRecords(d, c.others)[i] == o;
      assert c.others[i] in c.others;
    }
  }

  ghost predicate InParts(d: Digests, c: Compiled, missing: seq<Item>, evidence: seq<Item>, o: Object) {
    || o in ProjectRecords(d, c)
    || o in Records(d, Source, c.sources) || o in Records(d, Requirement, c.requirements)
    || o in Records(d, Capability, c.capabilities) || o in Records(d, Component, c.components)
    || o in Records(d, Interface, c.interfaces) || o in Records(d, VerificationGate, c.gates)
    || o in Records(d, Feature, c.features) || o in OtherRecords(d, c.others)
    || o == Record(d, TaskGraph, c.project.id, c.taskGraph)
    || o in Records(d, Source, missing)
    || o in Records(d, Evidence, evidence)
  }

  lemma PartsOfKind(d: Digests, c: Compiled, missing: seq<Item>, evidence: seq<Item>, o: Object)
    requires WellListed(c)
    ensures o.id.kind == Requirement ==> (InParts(d, c, missing, evidence, o) <==> o in Records(d, Requirement, c.requirements))
    ensures o.id.kind == Capability ==> (InParts(d, c, missing, evidence, o) <==> o in Records(d, Capability, c.capabilities))
  {
    OthersKind(d, c, o);
    RecordsKind(d, Source, c.sources, o);
    RecordsKind(d, Requirement, c.requirements, o);
    RecordsKind(d, Capability, c.capabilities, o);
    RecordsKind(d, Component, c.components, o);
    RecordsKind(d, Interface, c.interfaces, o);
    RecordsKind(d, VerificationGate, c.gates, o);
    RecordsKind(d, Feature, c.features, o);
    RecordsKind(d, Source, missing, o);
    RecordsKind(d, Evidence, evidence, o);
  }

  lemma ObjectsOfKind(d: Digests, c: Compiled, o: Object)
    requires WellListed(c)
    ensures o.id.kind == Requirement ==> (o in AllObjects(d, c) <==> o in Records(d, Requirement, c.requirements))
    ensures o.id.kind == Capability ==> (o in AllObjects(d, c) <==> o in Records(d, Capability, c.capabilities))
  {
    var missing, evidence := BareItems(MissingSources(d, c)), EvidenceItems(Sorted(EvidenceOf(Declared(d, c))));
    PartsOfKind(d, c, missing, evidence, o);
    assert o in AllObjects(d, c) <==> InParts(d, c, missing, evidence, o) by {
      AllParts(d, c, o);
      DeclaredParts(d, c, o);
    }
  }

  /** The requirement objects are the records of the manifest's requirements. */
  lemma RequirementObjects(d: Digests, c: Compiled, o: Object)
    requires WellListed(c)
    ensures o in AllObjects(d, c) && o.id.kind == Requirement <==>
            exists r :: r in c.requirements && o == Record(d, Requirement, r.id, r)
  {
    ObjectsOfKind(d, c, o);
    RecordsMeaning(d, Requirement, c.requirements, o);
    RecordsKind(d, Requirement, c.requirements, o);
  }

  lemma CapabilityObjects(d: Digests, c: Compiled, o: Object)
    requires WellListed(c)
    ensures o in AllObjects(d, c) && o.id.kind == Capability <==>
            exists r :: r in c.capabilities && o == Record(d, Capability, r.id, r)
  {
    ObjectsOfKind(d, c, o);
    RecordsMeaning(d, Capability, c.capabilities, o);
    RecordsKind(d, Capability, c.capabilities, o);
  }

  /** Whatever a declared object refers to as its source has a source object. */
  lemma SourcesCompleted(d: Digests, c: Compiled, o: Object, source: string) returns (s: Object)
    requires o in Declared(d, c) && source in o.payload.sourceRefs
    ensures s in AllObjects(d, c) && s.id == ObjectId(Source, source)
  {
    var declared := Declared(d, c);
    if source in SourceIds(declared) {
      s :| s in declared && s.id.kind == Source && s.native == source;
      DeclaredAreRecords(d, c, s);
    } else {
      var missing := MissingSources(d, c);
      assert source in Elements(missing);
      s := Record(d, Source, source, BareItem(source));
      MissingSourceRecord(d, missing, source);
    }
    AllParts(d, c, s);
  }

  lemma MissingSourceRecord(d: Digests, missing: seq<string>, source: string)
    requires source in missing
    ensures Record(d, Source, source, BareItem(source)) in Records(d, Source, BareItems(missing))
  {
    var n :| 0 <= n < |missing| && missing[n] == source;
    assert BareItems(missing)[n] == BareItem(source);
    assert Records(d, Source, BareItems(missing))[n] == Record(d, Source, source, BareItem(source));
  }

  lemma MissingSourceKnown(d: Digests, missing: seq<string>, s: Object)
    requires s in Records(d, Source, BareItems(missing))
    ensures s.native in missing
  {
    RecordsMeaning(d, Source, BareItems(missing), s);
    var i :| i in BareItems(missing) && s == Record(d, Source, i.id, i);
    var n :| 0 <= n < |BareItems(missing)| && BareItems(missing)[n] == i;
  }

  ghost predicate HasSourceObject(d: Digests, c: Compiled, source: string) {
    exists s :: s in AllObjects(d, c) && s.id == ObjectId(Source, source)
  }

  /** The sources there are: the declared ones and those a declared object refers to. */
  lemma SourceObjectsExact(d: Digests, c: Compiled, source: string)
    ensures HasSourceObject(d, c, source) <==> source in SourceIds(Declared(d, c)) || source in SourcesOf(Declared(d, c))
  {
    hide Declared, AllObjects;
    var declared, missing := Declared(d, c), MissingSources(d, c);
    if s :| s in AllObjects(d, c) && s.id == ObjectId(Source, source) {
      AllParts(d, c, s);
      RecordsKind(d, Evidence, EvidenceItems(Sorted(EvidenceOf(declared))), s);
      if s in declared {
        DeclaredAreRecords(d, c, s);
      } else {
        MissingSourceKnown(d, missing, s);
        assert s.native in Elements(missing);
        AllAreRecords(d, c, s);
      }
    }
    if source in SourceIds(declared) {
      var s :| s in declared && s.id.kind == Source && s.native == source;
      DeclaredAreRecords(d, c, s);
      AllParts(d, c, s);
    } else if source in SourcesOf(declared) {
      var o :| o in declared && source in o.payload.sourceRefs;
      var s := SourcesCompleted(d, c, o, source);
    }
  }

  /** An evidence object made from a reference names the text before its colon as its only source. */
  lemma EvidenceCompleted(d: Digests, c: Compiled, o: Object, ref: string) returns (e: Object)
    requires o in Declared(d, c) && ref in o.payload.evidenceRefs
    ensures e in AllObjects(d, c) && e.id == ObjectId(Evidence, ref) && e.payload.sourceRefs == [BeforeColon(ref)]
  {
    hide Declared;
    var refs := Sorted(EvidenceOf(Declared(d, c)));
    assert ref in Elements(refs);
    e := Record(d, Evidence, ref, EvidenceItem(ref));
    var n :| 0 <= n < |refs| && refs[n] == ref;
    assert EvidenceItems(refs)[n] == EvidenceItem(ref);
    assert Records(d, Evidence, EvidenceItems(refs))[n] == e;
    AllParts(d, c, e);
  }

  /** That source was completed before the evidence was added: it dangles unless a declared object is it or refers to it. */
  lemma EvidenceSourceDangles(d: Digests, c: Compiled, e: Object)
    requires e in Records(d, Evidence, EvidenceItems(Sorted(EvidenceOf(Declared(d, c)))))
    ensures e in AllObjects(d, c) && e.payload.sourceRefs == [BeforeColon(e.native)]
    ensures !HasSourceObject(d, c, e.payload.sourceRefs[0]) <==>
            BeforeColon(e.native) !in SourceIds(Declared(d, c)) && BeforeColon(e.native) !in SourcesOf(Declared(d, c))
  {
    hide Declared, HasSourceObject;
    var items := EvidenceItems(Sorted(EvidenceOf(Declared(d, c))));
    RecordsMeaning(d, Evidence, items, e);
    var i :| i in items && e == Record(d, Evidence, i.id, i);
    var n :| 0 <= n < |items| && items[n] == i;
    AllParts(d, c, e);
    SourceObjectsExact(d, c, BeforeColon(e.native));
  }
}
