/** The independent validator of canonical models, and what it can find in a freshly built one. */
module DeterministicValidator {
  import opened Order
  import opened CanonicalModel
  import opened CanonicalRelationships
  import opened Wrappers

  // ----- Building a model -----

  ghost predicate FreshlyBuilt(d: Digests, c: Compiled, m: Model, entries: Relationships) {
    && m.hash == d.model(m.payload)
    && multiset(m.payload.objects) == multiset(AllObjects(d, c))
    && Built(d, c, m.payload.objects, entries)
    && m.payload.relationships == Listed(entries)
  }

  method BuildModel(d: Digests, c: Compiled, compilerVersion: string, sourceHash: string)
    returns (m: Model)
    ensures exists entries :: FreshlyBuilt(d, c, m, entries)
    ensures m.payload.compilerVersion == compilerVersion && m.payload.sourceHash == sourceHash
  {
    var objects := CanonicalObjects(d, c);
    var relationships := CollectRelationships(d, c, objects);
    var payload := ModelPayload(compilerVersion, sourceHash, objects, Listed(relationships));
    m := Model(d.model(payload), payload);
    assert FreshlyBuilt(d, c, m, relationships);
  }

  // ----- Hash check -----

  datatype HashFailure = ModelHash | PayloadHash(at: ObjectId) | RelationshipPayload(id: string) | RelationshipId(id: string)

  /** The id a relationship should have; the validator sorts the provenance itself. */
  function ExpectedId(d: Digests, r: Relationship): string {
    d.relation(r.key.(provenance := SortStrings(r.key.provenance)))
  }

  /** What one relationship gives rise to. */
  function RelationshipFailures(d: Digests, r: Relationship): seq<HashFailure> {
    (if r.payloadHash != d.payload(r.key.payload) then [RelationshipPayload(r.id)] else [])
    + if r.id != ExpectedId(d, r) then [RelationshipId(r.id)] else []
  }

  ghost predicate HashFails(d: Digests, m: Model, f: HashFailure) {
    match f
    case ModelHash => m.hash != d.model(m.payload)
    case PayloadHash(id) => exists o :: o in m.payload.objects && o.id == id && o.payloadHash != d.item(o.payload)
    case RelationshipPayload(id) => exists r :: r in m.payload.relationships && r.id == id && r.payloadHash != d.payload(r.key.payload)
    case RelationshipId(id) => exists r :: r in m.payload.relationships && r.id == id && r.id != ExpectedId(d, r)
  }

  method ValidateModelHashes(d: Digests, m: Model) returns (failures: seq<HashFailure>)
    ensures forall f :: f in failures <==> HashFails(d, m, f)
  {
    var objects, relationships := m.payload.objects, m.payload.relationships;
    failures := if m.hash != d.model(m.payload) then [ModelHash] else [];
    for i := 0 to |objects|
      invariant forall f :: f in failures <==>
                  || (f.ModelHash? && HashFails(d, m, f))
                  || (f.PayloadHash? && exists o :: o in objects[..i] && o.id == f.at && o.payloadHash != d.item(o.payload))
    {
      assert objects[..i + 1] == objects[..i] + [objects[i]];
      if objects[i].payloadHash != d.item(objects[i].payload) {
        failures := failures + [PayloadHash(objects[i].id)];
      }
    }
    assert objects[..|objects|] == objects;
    ghost var before := failures;
    for i := 0 to |relationships|
      invariant forall f :: f in failures <==> f in before || exists r :: r in relationships[..i] && f in RelationshipFailures(d, r)
    {
      assert relationships[..i + 1] == relationships[..i] + [relationships[i]];
      failures := failures + RelationshipFailures(d, relationships[i]);
    }
    assert relationships[..|relationships|] == relationships;
    forall f ensures f in failures <==> HashFails(d, m, f) {
      RelationshipFailureMeaning(d, m, f);
    }
  }

  lemma RelationshipFailureMeaning(d: Digests, m: Model, f: HashFailure)
    ensures (exists r :: r in m.payload.relationships && f in RelationshipFailures(d, r)) <==>
            (f.RelationshipPayload? || f.RelationshipId?) && HashFails(d, m, f)
  {
    hide ExpectedId;
    if (f.RelationshipPayload? || f.RelationshipId?) && HashFails(d, m, f) {
      var r :| r in m.payload.relationships && r.id == f.id
               && if f.RelationshipId? then r.id != ExpectedId(d, r) else r.payloadHash != d.payload(r.key.payload);
      assert f in RelationshipFailures(d, r);
    }
  }

  lemma FreshRelationship(d: Digests, c: Compiled, m: Model, entries: Relationships, r: Relationship)
    requires FreshlyBuilt(d, c, m, entries) && r in m.payload.relationships
    ensures r.id in entries && entries[r.id] == r && RecordsWanted(d, c, m.payload.objects, r.id, r)
  {
    ListedMeaning(entries, r);
    var id :| id in entries && entries[id] == r;
    assert RecordsWanted(d, c, m.payload.objects, id, entries[id]);
  }

  lemma WantedIsSorted(c: Compiled, objects: seq<Object>, k: RelKey)
    requires Wanted(c, objects, k)
    ensures SortStrings(k.provenance) == k.provenance
  {
    if WantedByRequirement(c, k) {
      var r :| r in c.requirements && RequirementWants(c, r, k);
      SortStringsIdempotent(r.sourceRefs);
    } else if WantedByItem(c, k) {
      var i :| i in ItemsOfKind(c, k.source.kind) && ItemWants(k.source.kind, i, k);
      SortStringsIdempotent(i.sourceRefs);
    } else {
      SortOfAscending(StrLe, k.provenance);
    }
  }

  lemma FreshRelationshipHashes(d: Digests, c: Compiled, m: Model, entries: Relationships, r: Relationship)
    requires FreshlyBuilt(d, c, m, entries) && r in m.payload.relationships
    ensures r.id == ExpectedId(d, r) && r.payloadHash == d.payload(r.key.payload)
  {
    hide FreshlyBuilt, Wanted, SortStrings;
    FreshRelationship(d, c, m, entries, r);
    WantedIsSorted(c, m.payload.objects, r.key);
    assert r.key.(provenance := r.key.provenance) == r.key;
  }

  lemma FreshObjectHash(d: Digests, c: Compiled, m: Model, entries: Relationships, o: Object)
    requires FreshlyBuilt(d, c, m, entries) && o in m.payload.objects
    ensures o.payloadHash == d.item(o.payload)
  {
    ObjectIsRecord(d, c, m.payload.objects, o);
    hide FreshlyBuilt, AllObjects, Built;
  }

  lemma FreshModelHash(d: Digests, c: Compiled, m: Model, entries: Relationships)
    requires FreshlyBuilt(d, c, m, entries)
    ensures m.hash == d.model(m.payload)
  {
    hide AllObjects, Built, Listed;
  }

  /** A fresh model passes the hash check. */
  lemma FreshHashesPass(d: Digests, c: Compiled, m: Model, entries: Relationships, f: HashFailure)
    requires FreshlyBuilt(d, c, m, entries)
    ensures !HashFails(d, m, f)
  {
    hide FreshlyBuilt, ExpectedId;
    FreshModelHash(d, c, m, entries);
    if o :| o in m.payload.objects && o.payloadHash != d.item(o.payload) {
      FreshObjectHash(d, c, m, entries, o);
    }
    if r :| r in m.payload.relationships && (r.id != ExpectedId(d, r) || r.payloadHash != d.payload(r.key.payload)) {
      FreshRelationshipHashes(d, c, m, entries, r);
    }
  }

  lemma ObjectIsRecord(d: Digests, c: Compiled, objects: seq<Object>, o: Object)
    requires multiset(objects) == multiset(AllObjects(d, c)) && o in objects
    ensures IsRecord(d, o)
  {
    InAllObjects(d, c, objects, o);
    AllAreRecords(d, c, o);
  }

  lemma InAllObjects(d: Digests, c: Compiled, objects: seq<Object>, o: Object)
    requires multiset(objects) == multiset(AllObjects(d, c))
    ensures o in objects <==> o in AllObjects(d, c)
  {
    assert o in multiset(objects) <==> o in multiset(AllObjects(d, c));
  }

  // ----- Relationship check -----

  datatype Failure =
    | DuplicateObject(at: ObjectId)
    | DuplicateRelationship(id: string)
    | MissingSource(id: string)
    | MissingTarget(id: string)
    | SourceNativeMismatch(id: string)
    | TargetNativeMismatch(id: string)
    | NoSourceTrace(native: string)
    | NoCapabilityTrace(native: string)

  function IdsOf(objects: seq<Object>): seq<ObjectId> {
    seq(|objects|, i requires 0 <= i < |objects| => objects[i].id)
  }

  function RelationshipIdsOf(relationships: seq<Relationship>): seq<string> {
    seq(|relationships|, i requires 0 <= i < |relationships| => relationships[i].id)
  }

  /** The one finding, if any, about a relationship's endpoints; a missing endpoint hides the native ids. */
  function EndpointFailures(natives: map<ObjectId, string>, r: Relationship): seq<Failure> {
    if r.key.source !in natives then [MissingSource(r.id)]
    else if r.key.target !in natives then [MissingTarget(r.id)]
    else
      (if natives[r.key.source] != r.sourceNative then [SourceNativeMismatch(r.id)] else [])
      + (if natives[r.key.target] != r.targetNative then [TargetNativeMismatch(r.id)] else [])
  }

  predicate Deferred(o: Object) { o.payload.classification == Some("FUTURE/DEFERRED") }

  predicate Traced(relationships: seq<Relationship>, id: ObjectId, kind: RelKind) {
    exists r :: r in relationships && r.key.source == id && r.key.kind == kind
  }

  ghost predicate Fails(m: Model, f: Failure) {
    var objects, relationships := m.payload.objects, m.payload.relationships;
    match f
    case DuplicateObject(id) => multiset(IdsOf(objects))[id] > 1
    case DuplicateRelationship(id) => multiset(RelationshipIdsOf(relationships))[id] > 1
    case NoSourceTrace(n) =>
      exists o :: o in objects && Untraced(relationships, o, SourcedFrom) && o.native == n
    case NoCapabilityTrace(n) =>
      exists o :: o in objects && Untraced(relationships, o, RequiresCapability) && o.native == n
    case _ => exists r :: r in relationships && f in EndpointFailures(NativeIndex(objects), r)
  }

  /** A requirement that is not deferred lacks relationships of this kind. */
  predicate Untraced(relationships: seq<Relationship>, o: Object, kind: RelKind) {
    o.id.kind == Requirement && !Deferred(o) && !Traced(relationships, o.id, kind)
  }

  /** Counting as the validator does it: the values that occur more than once. */
  method Repeated<T(==)>(xs: seq<T>) returns (repeated: set<T>)
    ensures forall x :: x in repeated <==> multiset(xs)[x] > 1
  {
    var counts: map<T, nat> := map[];
    for i := 0 to |xs|
      invariant forall x :: (if x in counts then counts[x] else 0) == multiset(xs[..i])[x]
    {
      assert xs[..i + 1] == xs[..i] + [xs[i]];
      counts := counts[xs[i] := (if xs[i] in counts then counts[xs[i]] else 0) + 1];
    }
    assert xs[..|xs|] == xs;
    repeated := set x | x in counts && counts[x] > 1;
  }

  /** The relationship kinds found at each requirement. */
  method RelationshipsByRequirement(relationships: seq<Relationship>) returns (byRequirement: map<ObjectId, set<RelKind>>)
    ensures forall id: ObjectId, kind: RelKind :: id.kind == Requirement ==>
              ((id in byRequirement && kind in byRequirement[id]) <==> Traced(relationships, id, kind))
  {
    byRequirement := map[];
    for i := 0 to |relationships|
      invariant forall id: ObjectId, kind: RelKind :: id.kind == Requirement ==>
                  ((id in byRequirement && kind in byRequirement[id]) <==> Traced(relationships[..i], id, kind))
    {
      var r := relationships[i];
      TracedPush(relationships[..i], r);
      assert relationships[..i + 1] == relationships[..i] + [r];
      if r.key.source.kind == Requirement {
        var source := r.key.source;
        byRequirement := byRequirement[source := (if source in byRequirement then byRequirement[source] else {}) + {r.key.kind}];
      }
    }
    assert relationships[..|relationships|] == relationships;
  }

  lemma TracedPush(relationships: seq<Relationship>, r: Relationship)
    ensures forall id: ObjectId, kind: RelKind :: Traced(relationships + [r], id, kind) <==>
              Traced(relationships, id, kind) || (r.key.source == id && r.key.kind == kind)
  {
    forall id: ObjectId, kind: RelKind
      ensures Traced(relationships + [r], id, kind) <==> Traced(relationships, id, kind) || (r.key.source == id && r.key.kind == kind)
    {
      if r.key.source == id && r.key.kind == kind {
        assert r in relationships + [r];
      }
      if Traced(relationships, id, kind) {
        var q :| q in relationships && q.key.source == id && q.key.kind == kind;
        assert q in relationships + [r];
      }
    }
  }

  method DuplicateFailures(m: Model) returns (failures: set<Failure>)
    ensures forall f :: f in failures <==> (f.DuplicateObject? || f.DuplicateRelationship?) && Fails(m, f)
  {
    var objectIds := Repeated(IdsOf(m.payload.objects));
    var relationshipIds := Repeated(RelationshipIdsOf(m.payload.relationships));
    failures := (set id | id in objectIds :: DuplicateObject(id)) + (set id | id in relationshipIds :: DuplicateRelationship(id));
  }

  ghost predicate AboutEndpoints(f: Failure) {
    f.MissingSource? || f.MissingTarget? || f.SourceNativeMismatch? || f.TargetNativeMismatch?
  }

  method EndpointsCheck(m: Model) returns (failures: seq<Failure>)
    ensures forall f :: f in failures <==> AboutEndpoints(f) && Fails(m, f)
  {
    var natives, relationships := NativeIndex(m.payload.objects), m.payload.relationships;
    failures := [];
    for i := 0 to |relationships|
      invariant forall f :: f in failures <==> exists r :: r in relationships[..i] && f in EndpointFailures(natives, r)
    {
      assert relationships[..i + 1] == relationships[..i] + [relationships[i]];
      failures := failures + EndpointFailures(natives, relationships[i]);
    }
    assert relationships[..|relationships|] == relationships;
    forall f ensures f in failures <==> AboutEndpoints(f) && Fails(m, f) {
      assert f in failures <==> exists r :: r in relationships && f in EndpointFailures(natives, r);
    }
  }

  method TraceCheck(m: Model) returns (failures: seq<Failure>)
    ensures forall f :: f in failures <==> (f.NoSourceTrace? || f.NoCapabilityTrace?) && Fails(m, f)
  {
    var objects, relationships := m.payload.objects, m.payload.relationships;
    var byRequirement := RelationshipsByRequirement(relationships);
    failures := [];
    for i := 0 to |objects|
      invariant forall f :: f in failures <==>
                  exists o :: o in objects[..i] &&
                    ((Untraced(relationships, o, SourcedFrom) && f == NoSourceTrace(o.native)) ||
                     (Untraced(relationships, o, RequiresCapability) && f == NoCapabilityTrace(o.native)))
    {
      assert objects[..i + 1] == objects[..i] + [objects[i]];
      var o := objects[i];
      var mine: seq<Failure> := [];
      if o.id.kind == Requirement && !Deferred(o) {
        var kinds := if o.id in byRequirement then byRequirement[o.id] else {};
        assert SourcedFrom in kinds <==> Traced(relationships, o.id, SourcedFrom);
        assert RequiresCapability in kinds <==> Traced(relationships, o.id, RequiresCapability);
        if SourcedFrom !in kinds {
          mine := mine + [NoSourceTrace(o.native)];
        }
        if RequiresCapability !in kinds {
          mine := mine + [NoCapabilityTrace(o.native)];
        }
      }
      assert forall f :: f in mine <==>
          || (Untraced(relationships, o, SourcedFrom) && f == NoSourceTrace(o.native))
          || (Untraced(relationships, o, RequiresCapability) && f == NoCapabilityTrace(o.native));
      failures := failures + mine;
    }
    assert objects[..|objects|] == objects;
  }

  /** The relationship check reports exactly what fails. */
  method ValidateRelationships(m: Model) returns (failures: seq<Failure>, duplicates: set<Failure>)
    ensures forall f :: f in failures || f in duplicates <==> Fails(m, f)
  {
    duplicates := DuplicateFailures(m);
    var endpoints := EndpointsCheck(m);
    var traces := TraceCheck(m);
    failures := endpoints + traces;
  }

  // ----- What the check can find in a fresh model -----

  lemma CountIsOne<T>(xs: seq<T>, x: T)
    requires Distinct(xs)
    ensures multiset(xs)[x] <= 1
  {
    if xs != [] {
      assert xs == [xs[0]] + xs[1..];
      assert multiset(xs) == multiset{xs[0]} + multiset(xs[1..]);
      CountIsOne(xs[1..], x);
      if x == xs[0] {
        assert x !in xs[1..];
      }
    }
  }

  lemma CountIsTwo<T>(xs: seq<T>, i: nat, j: nat)
    requires i < j < |xs| && xs[i] == xs[j]
    ensures multiset(xs)[xs[i]] > 1
  {
    assert xs == xs[..j] + xs[j..];
    assert xs[..j][i] == xs[i] && xs[j..][0] == xs[i];
    assert xs[i] in multiset(xs[..j]) && xs[i] in multiset(xs[j..]);
  }

  lemma FreshIdsUnique(d: Digests, c: Compiled, m: Model, entries: Relationships)
    requires FreshlyBuilt(d, c, m, entries)
    ensures Distinct(RelationshipIdsOf(m.payload.relationships))
  {
    hide AllObjects, Wanted;
    var relationships := m.payload.relationships;
    var ids := Sorted(entries.Keys);
    forall i | 0 <= i < |ids| ensures relationships[i].id == ids[i] {
      IdListed(entries, ids, i);
      assert RecordsWanted(d, c, m.payload.objects, ids[i], entries[ids[i]]);
    }
    assert RelationshipIdsOf(relationships) == ids;
  }

  /** Relationship ids are unique, endpoints exist and native ids match. */
  lemma FreshEndpointsPass(d: Digests, c: Compiled, m: Model, entries: Relationships, f: Failure)
    requires FreshlyBuilt(d, c, m, entries)
    requires Fails(m, f)
    ensures f.DuplicateObject? || f.NoSourceTrace? || f.NoCapabilityTrace?
  {
    hide AllObjects, Wanted;
    if f.DuplicateRelationship? {
      FreshIdsUnique(d, c, m, entries);
      CountIsOne(RelationshipIdsOf(m.payload.relationships), f.id);
    } else if AboutEndpoints(f) {
      var r :| r in m.payload.relationships && f in EndpointFailures(NativeIndex(m.payload.objects), r);
      FreshRelationship(d, c, m, entries, r);
    }
  }

  lemma OnlySourcesWant(c: Compiled, objects: seq<Object>, k: RelKey)
    requires Wanted(c, objects, k) && k.kind == SourcedFrom
    ensures WantedBySources(objects, k)
  {}

  lemma OnlyRequirementsWant(c: Compiled, objects: seq<Object>, k: RelKey)
    requires Wanted(c, objects, k) && k.kind == RequiresCapability
    ensures WantedByRequirement(c, k)
  {}

  ghost predicate HasSource(c: Compiled, id: string) {
    exists r :: r in c.requirements && r.id == id && r.sourceRefs != []
  }

  predicate KnownCapability(c: Compiled, cap: string) {
    exists i :: i in c.capabilities && i.id == cap
  }

  ghost predicate HasCapability(c: Compiled, id: string) {
    exists r, cap :: r in c.requirements && r.id == id && cap in r.capabilities && KnownCapability(c, cap)
  }

  lemma SourceTraceExact(d: Digests, c: Compiled, m: Model, entries: Relationships, id: string)
    requires FreshlyBuilt(d, c, m, entries) && WellListed(c) && NoCollision(d, c, m.payload.objects)
    ensures Traced(m.payload.relationships, ObjectId(Requirement, id), SourcedFrom) <==> HasSource(c, id)
  {
    hide AllObjects, Wanted, Built, NoCollision, FreshlyBuilt;
    if Traced(m.payload.relationships, ObjectId(Requirement, id), SourcedFrom) {
      SourceOfTraced(d, c, m, entries, id);
    }
    if r :| r in c.requirements && r.id == id && r.sourceRefs != [] {
      SourcedFromPresent(d, c, m, entries, r);
    }
  }

  lemma SourceOfTraced(d: Digests, c: Compiled, m: Model, entries: Relationships, id: string)
    requires FreshlyBuilt(d, c, m, entries) && WellListed(c) && NoCollision(d, c, m.payload.objects)
    requires Traced(m.payload.relationships, ObjectId(Requirement, id), SourcedFrom)
    ensures HasSource(c, id)
  {
    hide AllObjects, Wanted, Built, NoCollision, Listed;
    var objects, relationships := m.payload.objects, m.payload.relationships;
    var q :| q in relationships && q.key.source == ObjectId(Requirement, id) && q.key.kind == SourcedFrom;
    BuiltWanted(d, c, objects, entries, q.key);
    OnlySourcesWant(c, objects, q.key);
    var o :| o in objects && SourceTarget(o, q.key);
    InAllObjects(d, c, objects, o);
    RequirementObjects(d, c, o);
    var r :| r in c.requirements && o == Record(d, Requirement, r.id, r);
    SortKeepsElements(StrLe, r.sourceRefs);
    assert q.key.target.native in r.sourceRefs;
  }

  lemma SourcedFromPresent(d: Digests, c: Compiled, m: Model, entries: Relationships, r: Item)
    requires FreshlyBuilt(d, c, m, entries) && WellListed(c) && NoCollision(d, c, m.payload.objects)
    requires r in c.requirements && r.sourceRefs != []
    ensures Traced(m.payload.relationships, ObjectId(Requirement, r.id), SourcedFrom)
  {
    hide AllObjects;
    var objects := m.payload.objects;
    var o, source := Record(d, Requirement, r.id, r), r.sourceRefs[0];
    RequirementObjects(d, c, o);
    InAllObjects(d, c, objects, o);
    RecordsMeaning(d, Requirement, c.requirements, o);
    DeclaredParts(d, c, o);
    var s := SourcesCompleted(d, c, o, source);
    InAllObjects(d, c, objects, s);
    SortKeepsElements(StrLe, r.sourceRefs);
    var k := RelKey(SourcedFrom, o.id, ObjectId(Source, source), [source], map[]);
    assert SourceTarget(o, k);
    assert WantedBySources(objects, k);
    BuiltWanted(d, c, objects, entries, k);
  }

  lemma CapabilityTraceExact(d: Digests, c: Compiled, m: Model, entries: Relationships, id: string)
    requires FreshlyBuilt(d, c, m, entries) && WellListed(c) && NoCollision(d, c, m.payload.objects)
    ensures Traced(m.payload.relationships, ObjectId(Requirement, id), RequiresCapability) <==> HasCapability(c, id)
  {
    hide AllObjects, Wanted, NoCollision;
    var relationships := m.payload.relationships;
    if q :| q in relationships && q.key.source == ObjectId(Requirement, id) && q.key.kind == RequiresCapability {
      TracedCapability(d, c, m, entries, q);
    }
    if r, cap :| r in c.requirements && r.id == id && cap in r.capabilities && KnownCapability(c, cap) {
      RequiresCapabilityPresent(d, c, m, entries, r, cap);
    }
  }

  lemma TracedCapability(d: Digests, c: Compiled, m: Model, entries: Relationships, q: Relationship)
    requires FreshlyBuilt(d, c, m, entries) && WellListed(c)
    requires q in m.payload.relationships && q.key.source.kind == Requirement && q.key.kind == RequiresCapability
    ensures HasCapability(c, q.key.source.native)
  {
    hide AllObjects, Wanted;
    var objects := m.payload.objects;
    FreshRelationship(d, c, m, entries, q);
    OnlyRequirementsWant(c, objects, q.key);
    var r :| r in c.requirements && RequirementWants(c, r, q.key);
    var o :| o in objects && o.id == q.key.target;
    InAllObjects(d, c, objects, o);
    CapabilityObjects(d, c, o);
    assert KnownCapability(c, q.key.target.native);
  }

  lemma RequiresCapabilityPresent(d: Digests, c: Compiled, m: Model, entries: Relationships, r: Item, cap: string)
    requires FreshlyBuilt(d, c, m, entries) && WellListed(c) && NoCollision(d, c, m.payload.objects)
    requires r in c.requirements && cap in r.capabilities && KnownCapability(c, cap)
    ensures Traced(m.payload.relationships, ObjectId(Requirement, r.id), RequiresCapability)
  {
    hide AllObjects;
    var objects := m.payload.objects;
    var i :| i in c.capabilities && i.id == cap;
    var o, t := Record(d, Requirement, r.id, r), Record(d, Capability, cap, i);
    RequirementObjects(d, c, o);
    CapabilityObjects(d, c, t);
    InAllObjects(d, c, objects, o);
    InAllObjects(d, c, objects, t);
    var k := Link(RequiresCapability, o.id, t.id, r.sourceRefs);
    assert RequirementWants(c, r, k);
    BuiltWanted(d, c, objects, entries, k);
  }

  /** Every requirement that is not deferred names a source and a known capability. */
  predicate RequirementsTraced(c: Compiled) {
    forall r :: r in c.requirements && r.classification != Some("FUTURE/DEFERRED") ==>
      r.sourceRefs != [] && exists cap :: cap in r.capabilities && KnownCapability(c, cap)
  }

  /** With distinct object ids a requirement is the only one with its id. */
  lemma RequirementById(d: Digests, c: Compiled, m: Model, entries: Relationships, r: Item, s: Item)
    requires FreshlyBuilt(d, c, m, entries) && WellListed(c)
    requires Distinct(IdsOf(m.payload.objects))
    requires r in c.requirements && s in c.requirements && r.id == s.id
    ensures r == s
  {
    hide AllObjects, Wanted;
    var objects := m.payload.objects;
    var a, b := Record(d, Requirement, r.id, r), Record(d, Requirement, s.id, s);
    RequirementObjects(d, c, a);
    RequirementObjects(d, c, b);
    InAllObjects(d, c, objects, a);
    InAllObjects(d, c, objects, b);
    var i :| 0 <= i < |objects| && objects[i] == a;
    var j :| 0 <= j < |objects| && objects[j] == b;
    assert IdsOf(objects)[i] == IdsOf(objects)[j];
  }

  /** A fresh model passes the relationship check exactly when object ids are distinct and its requirements are traced. */
  lemma FreshVerdict(d: Digests, c: Compiled, m: Model, entries: Relationships)
    requires FreshlyBuilt(d, c, m, entries) && WellListed(c) && NoCollision(d, c, m.payload.objects)
    ensures (forall f :: !Fails(m, f)) <==> Distinct(IdsOf(m.payload.objects)) && RequirementsTraced(c)
  {
    hide AllObjects, Wanted;
    if forall f :: !Fails(m, f) {
      FreshVerdictNeeds(d, c, m, entries);
    }
    if Distinct(IdsOf(m.payload.objects)) && RequirementsTraced(c) {
      forall f ensures !Fails(m, f) {
        FreshVerdictSuffices(d, c, m, entries, f);
      }
    }
  }

  lemma NoDuplicateFailure(m: Model)
    requires forall f :: !Fails(m, f)
    ensures Distinct(IdsOf(m.payload.objects))
  {
    var ids := IdsOf(m.payload.objects);
    forall i, j | 0 <= i < j < |ids| ensures ids[i] != ids[j] {
      assert !Fails(m, DuplicateObject(ids[i]));
      if ids[i] == ids[j] {
        CountIsTwo(ids, i, j);
      }
    }
  }

  lemma FreshVerdictNeeds(d: Digests, c: Compiled, m: Model, entries: Relationships)
    requires FreshlyBuilt(d, c, m, entries) && WellListed(c) && NoCollision(d, c, m.payload.objects)
    requires forall f :: !Fails(m, f)
    ensures Distinct(IdsOf(m.payload.objects)) && RequirementsTraced(c)
  {
    hide AllObjects, Wanted;
    NoDuplicateFailure(m);
    forall r | r in c.requirements && r.classification != Some("FUTURE/DEFERRED")
      ensures r.sourceRefs != [] && exists cap :: cap in r.capabilities && KnownCapability(c, cap)
    {
      assert !Fails(m, NoSourceTrace(r.id)) && !Fails(m, NoCapabilityTrace(r.id));
      RequirementTraced(d, c, m, entries, r);
    }
  }

  lemma RequirementTraced(d: Digests, c: Compiled, m: Model, entries: Relationships, r: Item)
    requires FreshlyBuilt(d, c, m, entries) && WellListed(c) && NoCollision(d, c, m.payload.objects)
    requires Distinct(IdsOf(m.payload.objects)) && r in c.requirements && r.classification != Some("FUTURE/DEFERRED")
    requires !Fails(m, NoSourceTrace(r.id)) && !Fails(m, NoCapabilityTrace(r.id))
    ensures r.sourceRefs != [] && exists cap :: cap in r.capabilities && KnownCapability(c, cap)
  {
    hide AllObjects, Wanted;
    var o := Record(d, Requirement, r.id, r);
    RequirementObjects(d, c, o);
    InAllObjects(d, c, m.payload.objects, o);
    SourceTraceExact(d, c, m, entries, r.id);
    CapabilityTraceExact(d, c, m, entries, r.id);
    assert HasSource(c, r.id) && HasCapability(c, r.id);
    var s :| s in c.requirements && s.id == r.id && s.sourceRefs != [];
    RequirementById(d, c, m, entries, r, s);
    var t, cap :| t in c.requirements && t.id == r.id && cap in t.capabilities && KnownCapability(c, cap);
    RequirementById(d, c, m, entries, r, t);
  }

  lemma FreshVerdictSuffices(d: Digests, c: Compiled, m: Model, entries: Relationships, f: Failure)
    requires FreshlyBuilt(d, c, m, entries) && WellListed(c) && NoCollision(d, c, m.payload.objects)
    requires Distinct(IdsOf(m.payload.objects)) && RequirementsTraced(c)
    ensures !Fails(m, f)
  {
    hide AllObjects, Wanted;
    if Fails(m, f) {
      FreshEndpointsPass(d, c, m, entries, f);
      var objects := m.payload.objects;
      if f.DuplicateObject? {
        CountIsOne(IdsOf(objects), f.at);
      } else {
        var kind := if f.NoSourceTrace? then SourcedFrom else RequiresCapability;
        var o :| o in objects && Untraced(m.payload.relationships, o, kind) && o.native == f.native;
        InAllObjects(d, c, objects, o);
        RequirementObjects(d, c, o);
        SourceTraceExact(d, c, m, entries, o.native);
        CapabilityTraceExact(d, c, m, entries, o.native);
      }
    }
  }

  // ----- What is reported, in terms of the model's records -----

  ghost predicate Present(m: Model, id: ObjectId) {
    exists o :: o in m.payload.objects && o.id == id
  }

  /** The native id that counts for an object id is that of the last object with it. */
  ghost predicate NativeOf(m: Model, id: ObjectId, native: string) {
    exists at ::
      && 0 <= at < |m.payload.objects| && m.payload.objects[at].id == id && m.payload.objects[at].native == native
      && forall j :: at < j < |m.payload.objects| ==> m.payload.objects[j].id != id
  }

  ghost predicate HasRelation(m: Model, id: ObjectId, kind: RelKind) {
    exists r :: r in m.payload.relationships && r.key.source == id && r.key.kind == kind
  }

  /** A requirement that is not deferred and lacks such a relationship. */
  ghost predicate Lacks(m: Model, native: string, kind: RelKind) {
    exists o :: o in m.payload.objects && o.id.kind == Requirement && o.native == native
                && o.payload.classification != Some("FUTURE/DEFERRED") && !HasRelation(m, o.id, kind)
  }

  ghost predicate EndpointFault(m: Model, r: Relationship, f: Failure) {
    || (f == MissingSource(r.id) && !Present(m, r.key.source))
    || (f == MissingTarget(r.id) && Present(m, r.key.source) && !Present(m, r.key.target))
    || (f == SourceNativeMismatch(r.id) && Present(m, r.key.source) && Present(m, r.key.target) && !NativeOf(m, r.key.source, r.sourceNative))
    || (f == TargetNativeMismatch(r.id) && Present(m, r.key.source) && Present(m, r.key.target) && !NativeOf(m, r.key.target, r.targetNative))
  }

  ghost predicate Faulty(m: Model, f: Failure) {
    || (f.DuplicateObject? && exists i, j :: 0 <= i < j < |m.payload.objects| && m.payload.objects[i].id == f.at && m.payload.objects[j].id == f.at)
    || (f.DuplicateRelationship? && exists i, j ::
          0 <= i < j < |m.payload.relationships| && m.payload.relationships[i].id == f.id && m.payload.relationships[j].id == f.id)
    || (f.NoSourceTrace? && Lacks(m, f.native, SourcedFrom))
    || (f.NoCapabilityTrace? && Lacks(m, f.native, RequiresCapability))
    || exists r :: r in m.payload.relationships && EndpointFault(m, r, f)
  }

  lemma {:induction false} NativeIndexLast(objects: seq<Object>, at: nat)
    requires at < |objects| && forall j :: at < j < |objects| ==> objects[j].id != objects[at].id
    ensures objects[at].id in NativeIndex(objects) && NativeIndex(objects)[objects[at].id] == objects[at].native
  {
    if at < |objects| - 1 {
      NativeIndexLast(objects[..|objects| - 1], at);
    }
  }

  lemma {:induction false} LastObject(objects: seq<Object>, id: ObjectId) returns (at: nat)
    requires id in ObjectIds(objects)
    ensures at < |objects| && objects[at].id == id && forall j :: at < j < |objects| ==> objects[j].id != id
  {
    at := |objects| - 1;
    if objects[at].id != id {
      var init := objects[..at];
      assert objects == init + [objects[at]];
      at := LastObject(init, id);
    }
  }

  lemma NativeOfMeaning(m: Model, id: ObjectId, native: string)
    requires Present(m, id)
    ensures NativeOf(m, id, native) <==> NativeIndex(m.payload.objects)[id] == native
  {
    var objects := m.payload.objects;
    var at := LastObject(objects, id);
    NativeIndexLast(objects, at);
    if NativeOf(m, id, native) {
      var other: nat :| other < |objects| && objects[other].id == id && objects[other].native == native
                        && forall j :: other < j < |objects| ==> objects[j].id != id;
      NativeIndexLast(objects, other);
    }
  }

  lemma EndpointFaults(m: Model, r: Relationship, f: Failure)
    ensures f in EndpointFailures(NativeIndex(m.payload.objects), r) <==> EndpointFault(m, r, f)
  {
    var natives := NativeIndex(m.payload.objects);
    assert r.key.source in natives <==> Present(m, r.key.source);
    assert r.key.target in natives <==> Present(m, r.key.target);
    if Present(m, r.key.source) && Present(m, r.key.target) {
      NativeOfMeaning(m, r.key.source, r.sourceNative);
      NativeOfMeaning(m, r.key.target, r.targetNative);
    }
    hide NativeOf, Present;
  }

  lemma LacksMeaning(m: Model, native: string, kind: RelKind)
    ensures Lacks(m, native, kind) <==> exists o :: o in m.payload.objects && Untraced(m.payload.relationships, o, kind) && o.native == native
  {
    forall id: ObjectId ensures Traced(m.payload.relationships, id, kind) <==> HasRelation(m, id, kind) {}
    hide Traced, HasRelation;
  }

  lemma TwiceMeaning<T>(xs: seq<T>, x: T)
    ensures multiset(xs)[x] > 1 <==> exists i, j :: 0 <= i < j < |xs| && xs[i] == x && xs[j] == x
  {
    if i, j :| 0 <= i < j < |xs| && xs[i] == x && xs[j] == x {
      CountIsTwo(xs, i, j);
    }
    if multiset(xs)[x] > 1 {
      assert x in multiset(xs);
      var i := Order.IndexOf(xs, x);
      Order.WithoutMultiset(xs, i);
      assert x in multiset(Order.Without(xs, i));
      var j := Order.IndexOf(Order.Without(xs, i), x);
      assert Order.Without(xs, i)[j] == if j < i then xs[j] else xs[j + 1];
    }
  }

  /** The validator's relationship check reports exactly the faults of the model's records. */
  lemma FailsIffFaulty(m: Model, f: Failure)
    ensures Fails(m, f) <==> Faulty(m, f)
  {
    var objects, relationships := m.payload.objects, m.payload.relationships;
    forall r: Relationship ensures f in EndpointFailures(NativeIndex(objects), r) <==> EndpointFault(m, r, f) {
      EndpointFaults(m, r, f);
    }
    match f {
      case DuplicateObject(id) =>
        TwiceMeaning(IdsOf(objects), id);
        assert forall i :: 0 <= i < |objects| ==> IdsOf(objects)[i] == objects[i].id;
      case DuplicateRelationship(id) =>
        TwiceMeaning(RelationshipIdsOf(relationships), id);
        assert forall i :: 0 <= i < |relationships| ==> RelationshipIdsOf(relationships)[i] == relationships[i].id;
      case NoSourceTrace(n) => LacksMeaning(m, n, SourcedFrom);
      case NoCapabilityTrace(n) => LacksMeaning(m, n, RequiresCapability);
      case _ =>
    }
    hide EndpointFailures, Lacks, Untraced, NativeIndex;
  }

  /** The id a relationship should have is the digest of its key with its provenance in order. */
  lemma ExpectedIdMeaning(d: Digests, r: Relationship, provenance: seq<string>)
    requires multiset(provenance) == multiset(r.key.provenance) && Ascending(StrLe, provenance)
    ensures ExpectedId(d, r) == d.relation(r.key.(provenance := provenance))
  {
    StrOrder();
    SortOfAscending(StrLe, provenance);
    SortCanonical(StrLe, provenance, r.key.provenance);
  }

  /** The relationship stands under the digest of its key with its provenance put in order. */
  ghost predicate RightId(d: Digests, r: Relationship) {
    exists provenance: seq<string> ::
      && multiset(provenance) == multiset(r.key.provenance) && Ascending(StrLe, provenance)
      && r.id == d.relation(r.key.(provenance := provenance))
  }

  ghost predicate RightHashes(d: Digests, m: Model) {
    && m.hash == d.model(m.payload)
    && (forall o :: o in m.payload.objects ==> o.payloadHash == d.item(o.payload))
    && (forall r :: r in m.payload.relationships ==> r.payloadHash == d.payload(r.key.payload) && RightId(d, r))
  }

  lemma RightIdIff(d: Digests, r: Relationship)
    ensures RightId(d, r) <==> r.id == ExpectedId(d, r)
  {
    var sorted := SortStrings(r.key.provenance);
    StrOrder();
    SortAscends(StrLe, r.key.provenance);
    SortPermutes(StrLe, r.key.provenance);
    hide StrLe;
    assert RightId(d, r) || r.id != d.relation(r.key.(provenance := sorted));
    if provenance :| multiset(provenance) == multiset(r.key.provenance) && Ascending(StrLe, provenance)
                     && r.id == d.relation(r.key.(provenance := provenance)) {
      ExpectedIdMeaning(d, r, provenance);
    }
  }

  /** The hash check finds nothing exactly when every hash and id is the recomputed one. */
  lemma HashesPassIff(d: Digests, m: Model)
    ensures (forall f :: !HashFails(d, m, f)) <==> RightHashes(d, m)
  {
    hide ExpectedId, RightId;
    forall r: Relationship ensures RightId(d, r) <==> r.id == ExpectedId(d, r) {
      RightIdIff(d, r);
    }
    if forall f :: !HashFails(d, m, f) {
      assert !HashFails(d, m, ModelHash);
      forall o | o in m.payload.objects ensures o.payloadHash == d.item(o.payload) {
        assert !HashFails(d, m, PayloadHash(o.id));
      }
      forall r | r in m.payload.relationships ensures r.payloadHash == d.payload(r.key.payload) && RightId(d, r) {
        assert !HashFails(d, m, RelationshipPayload(r.id)) && !HashFails(d, m, RelationshipId(r.id));
      }
    }
  }
}
