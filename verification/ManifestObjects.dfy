/** The objects of the canonical model, told from the manifest's entries kind by kind. */
module ManifestObjects {
  import opened Order
  import opened CanonicalModel
  import opened Wrappers

  /** An entry stands in the manifest under this kind, with this native id. */
  ghost predicate Declares(c: Compiled, kind: Kind, native: string, e: Item) {
    || (native == c.project.id && DeclaresOnce(c, kind, e))
    || (native == e.id && DeclaresListed(c, kind, e))
  }

  /** The parts of the manifest that take the project's id. */
  predicate DeclaresOnce(c: Compiled, kind: Kind, e: Item) {
    || (kind == Project && e == c.project) || (kind == Intake && e == c.intake) || (kind == Repository && e == c.repository)
    || (kind == Deployment && e == c.deployment) || (kind == TaskGraph && e == c.taskGraph)
  }

  predicate DeclaresListed(c: Compiled, kind: Kind, e: Item) {
    || (kind == Source && e in c.sources) || (kind == Requirement && e in c.requirements) || (kind == Capability && e in c.capabilities)
    || (kind == Component && e in c.components) || (kind == Interface && e in c.interfaces) || (kind == VerificationGate && e in c.gates)
    || (kind == Feature && e in c.features) || (kind, e) in c.others
  }

  ghost predicate NamedAsSource(c: Compiled, s: string) {
    exists kind, native, e :: Declares(c, kind, native, e) && s in e.sourceRefs
  }

  ghost predicate NamedAsEvidence(c: Compiled, s: string) {
    exists kind, native, e :: Declares(c, kind, native, e) && s in e.evidenceRefs
  }

  ghost predicate DeclaredSource(c: Compiled, s: string) {
    exists e :: Declares(c, Source, s, e)
  }

  /** The part of the text before its first colon. */
  ghost predicate UpToColon(s: string, head: string) {
    ':' !in head && head <= s && (head == s || s[|head|] == ':')
  }

  function Plain(id: string, sources: seq<string>): Item {
    Item(id, None, sources, [], [], None, [], None, None, [], None)
  }

  /** What is added: a source that is named and not declared, and an evidence for every name. */
  ghost predicate Completes(c: Compiled, kind: Kind, native: string, e: Item) {
    || (kind == Source && NamedAsSource(c, native) && !DeclaredSource(c, native) && e == Plain(native, []))
    || (kind == Evidence && NamedAsEvidence(c, native) && exists head :: UpToColon(native, head) && e == Plain(native, [head]))
  }

  /** The record of an entry: its id, its digest, and its source references in order. */
  ghost predicate RecordsEntry(d: Digests, o: Object) {
    && o.id.native == o.native && o.payloadHash == d.item(o.payload)
    && multiset(o.sourceRefs) == multiset(o.payload.sourceRefs) && Ascending(StrLe, o.sourceRefs)
  }

  lemma RecordMeaning(d: Digests, o: Object)
    ensures o == Record(d, o.id.kind, o.native, o.payload) <==> RecordsEntry(d, o)
  {
    StrOrder();
    SortAscends(StrLe, o.payload.sourceRefs);
    SortPermutes(StrLe, o.payload.sourceRefs);
    if multiset(o.sourceRefs) == multiset(o.payload.sourceRefs) && Ascending(StrLe, o.sourceRefs) {
      SortOfAscending(StrLe, o.sourceRefs);
      SortCanonical(StrLe, o.sourceRefs, o.payload.sourceRefs);
    }
    hide StrLe;
  }

  lemma ListedMeaning(d: Digests, kind: Kind, items: seq<Item>, o: Object)
    ensures o in Records(d, kind, items) <==> IsRecord(d, o) && o.id.kind == kind && o.native == o.payload.id && o.payload in items
  {
    RecordsMeaning(d, kind, items, o);
    hide SortStrings;
  }

  lemma OthersMeaning(d: Digests, items: seq<(Kind, Item)>, o: Object)
    ensures o in OtherRecords(d, items) <==> IsRecord(d, o) && o.native == o.payload.id && (o.id.kind, o.payload) in items
  {
    hide SortStrings;
    if IsRecord(d, o) && o.native == o.payload.id && (o.id.kind, o.payload) in items {
      var n :| 0 <= n < |items| && items[n] == (o.id.kind, o.payload);
      assert OtherRecords(d, items)[n] == o;
    }
    if o in OtherRecords(d, items) {
      var n :| 0 <= n < |items| && OtherRecords(d, items)[n] == o;
      assert items[n] in items;
    }
  }

  lemma OnceMeaning(d: Digests, c: Compiled, o: Object)
    ensures o in ProjectRecords(d, c) || o == Record(d, TaskGraph, c.project.id, c.taskGraph) <==>
            IsRecord(d, o) && o.native == c.project.id && DeclaresOnce(c, o.id.kind, o.payload)
  {
    hide SortStrings;
  }

  lemma DeclaredMeaning(d: Digests, c: Compiled, o: Object)
    ensures o in Declared(d, c) <==> IsRecord(d, o) && Declares(c, o.id.kind, o.native, o.payload)
  {
    DeclaredParts(d, c, o);
    OnceMeaning(d, c, o);
    ListedMeaning(d, Source, c.sources, o);
    ListedMeaning(d, Requirement, c.requirements, o);
    ListedMeaning(d, Capability, c.capabilities, o);
    ListedMeaning(d, Component, c.components, o);
    ListedMeaning(d, Interface, c.interfaces, o);
    ListedMeaning(d, VerificationGate, c.gates, o);
    ListedMeaning(d, Feature, c.features, o);
    OthersMeaning(d, c.others, o);
    hide Declared, ProjectRecords, Records, OtherRecords, IsRecord, Record, DeclaresOnce;
  }

  lemma RecordOf(d: Digests, c: Compiled, kind: Kind, native: string, e: Item) returns (o: Object)
    requires Declares(c, kind, native, e)
    ensures o in Declared(d, c) && o.id.kind == kind && o.native == native && o.payload == e
  {
    o := Record(d, kind, native, e);
    hide SortStrings, Declares;
    DeclaredMeaning(d, c, o);
  }

  lemma NamesMeaning(d: Digests, c: Compiled, s: string)
    ensures s in SourcesOf(Declared(d, c)) <==> NamedAsSource(c, s)
    ensures s in EvidenceOf(Declared(d, c)) <==> NamedAsEvidence(c, s)
    ensures s in SourceIds(Declared(d, c)) <==> DeclaredSource(c, s)
  {
    forall o: Object {
      DeclaredMeaning(d, c, o);
    }
    hide Declared, Declares, IsRecord;
    if NamedAsSource(c, s) {
      var kind, native, e :| Declares(c, kind, native, e) && s in e.sourceRefs;
      var o := RecordOf(d, c, kind, native, e);
    }
    if NamedAsEvidence(c, s) {
      var kind, native, e :| Declares(c, kind, native, e) && s in e.evidenceRefs;
      var o := RecordOf(d, c, kind, native, e);
    }
    if DeclaredSource(c, s) {
      var e :| Declares(c, Source, s, e);
      var o := RecordOf(d, c, Source, s, e);
    }
  }

  lemma {:induction false} ColonMeaning(s: string, head: string)
    ensures UpToColon(s, head) <==> head == BeforeColon(s)
  {
    if s == "" || s[0] == ':' {
    } else {
      ColonMeaning(s[1..], if head == "" then "" else head[1..]);
      assert s == [s[0]] + s[1..];
      if head != "" {
        assert head == [head[0]] + head[1..];
      }
    }
  }

  lemma MissingMeaning(d: Digests, c: Compiled, o: Object)
    ensures o in Records(d, Source, BareItems(MissingSources(d, c))) <==>
            IsRecord(d, o) && o.id.kind == Source && NamedAsSource(c, o.native) && !DeclaredSource(c, o.native) && o.payload == Plain(o.native, [])
  {
    var missing := MissingSources(d, c);
    ListedMeaning(d, Source, BareItems(missing), o);
    NamesMeaning(d, c, o.payload.id);
    hide Declared, IsRecord, Records, NamedAsSource, DeclaredSource;
    assert o.payload.id in missing <==> o.payload.id in Elements(missing);
    if o.payload.id in missing && o.payload == BareItem(o.payload.id) {
      var n :| 0 <= n < |missing| && missing[n] == o.payload.id;
      assert BareItems(missing)[n] == o.payload;
    }
    if o.payload in BareItems(missing) {
      var n :| 0 <= n < |missing| && BareItems(missing)[n] == o.payload;
      assert missing[n] in missing;
    }
  }

  lemma EvidenceMeaning(d: Digests, c: Compiled, o: Object)
    ensures o in Records(d, Evidence, EvidenceItems(Sorted(EvidenceOf(Declared(d, c))))) <==>
            && IsRecord(d, o) && o.id.kind == Evidence && NamedAsEvidence(c, o.native)
            && exists head :: UpToColon(o.native, head) && o.payload == Plain(o.native, [head])
  {
    var refs := Sorted(EvidenceOf(Declared(d, c)));
    ListedMeaning(d, Evidence, EvidenceItems(refs), o);
    NamesMeaning(d, c, o.payload.id);
    ColonMeaning(o.native, BeforeColon(o.native));
    forall head: string {
      ColonMeaning(o.native, head);
    }
    hide Declared, IsRecord, Records, NamedAsEvidence, UpToColon, BeforeColon;
    assert o.payload.id in refs <==> o.payload.id in Elements(refs);
    if o.payload.id in refs && o.payload == EvidenceItem(o.payload.id) {
      var n :| 0 <= n < |refs| && refs[n] == o.payload.id;
      assert EvidenceItems(refs)[n] == o.payload;
    }
    if o.payload in EvidenceItems(refs) {
      var n :| 0 <= n < |refs| && EvidenceItems(refs)[n] == o.payload;
      assert refs[n] in refs;
    }
  }

  /** The objects are the records of the declared entries, of the sources they name, and of the evidence they name. */
  lemma ObjectsExact(d: Digests, c: Compiled, o: Object)
    ensures o in AllObjects(d, c) <==>
            RecordsEntry(d, o) && (Declares(c, o.id.kind, o.native, o.payload) || Completes(c, o.id.kind, o.native, o.payload))
  {
    AllParts(d, c, o);
    DeclaredMeaning(d, c, o);
    MissingMeaning(d, c, o);
    EvidenceMeaning(d, c, o);
    RecordMeaning(d, o);
    hide AllObjects, Declared, Records, Declares, NamedAsSource, NamedAsEvidence, DeclaredSource, UpToColon, RecordsEntry, Record;
  }

  /** The names by which objects are listed, in order. */
  lemma KindNames()
    ensures [KindName(Agent), KindName(BusinessObjective), KindName(BusinessStakeholder), KindName(Capability), KindName(Component),
             KindName(DataObject), KindName(Deployment), KindName(Epic), KindName(Evidence), KindName(Feature), KindName(Intake),
             KindName(Interface), KindName(LanguageModel), KindName(Operation), KindName(Project), KindName(Repository),
             KindName(Requirement), KindName(RoadmapItem), KindName(Source), KindName(SuccessMeasure), KindName(TaskGraph),
             KindName(Tool), KindName(VerificationGate)] ==
            ["agent", "business_objective", "business_stakeholder", "capability", "component", "data_object", "deployment", "epic",
             "evidence", "feature", "intake", "interface", "model", "operation", "project", "repository", "requirement",
             "roadmap_item", "source", "success_measure", "task_graph", "tool", "verification_gate"]
  {}

  /** Objects are listed by the name of their kind, and those of one kind by id. */
  lemma ObjectsInOrder(objects: seq<Object>, i: nat, j: nat)
    requires Ascending(ObjectLe, objects) && i < j < |objects|
    ensures var a, b := objects[i].id, objects[j].id;
            || TextBefore(KindName(a.kind), KindName(b.kind))
            || (KindName(a.kind) == KindName(b.kind) && (a.native == b.native || TextBefore(a.native, b.native)))
  {
    hide KindName, TextBefore, TupleLe;
    var a, b := objects[i].id, objects[j].id;
    var p, q := [KindName(a.kind), a.native], [KindName(b.kind), b.native];
    assert ObjectLe(objects[i], objects[j]);
    TupleLeMeaning(p, q);
    if p != q {
      var k :| 0 <= k < |p| && p[..k] == q[..k] && TextBefore(p[k], q[k]);
      if k == 1 {
        assert p[..1][0] == q[..1][0];
      }
    } else {
      assert p[0] == q[0] && p[1] == q[1];
    }
  }
}
