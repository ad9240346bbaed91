/** Relationships of the canonical model: index-based joins against their relational meaning. */
module CanonicalRelationships {
  import opened Order
  import opened CanonicalModel
  import opened Wrappers

  // ----- Indexes -----

  type Pairs = set<(string, string)>

  ghost predicate Indexes(index: map<string, set<string>>, pairs: Pairs) {
    forall k, id :: k in index && id in index[k] <==> (k, id) in pairs
  }

  function KeyPairs(keys: seq<string>, id: string): Pairs {
    set k | k in keys :: (k, id)
  }

  method AddPairs(index: map<string, set<string>>, keys: seq<string>, id: string, ghost pairs: Pairs)
    returns (more: map<string, set<string>>)
    requires Indexes(index, pairs)
    ensures Indexes(more, pairs + KeyPairs(keys, id))
  {
    more := index;
    for i := 0 to |keys|
      invariant Indexes(more, pairs + KeyPairs(keys[..i], id))
    {
      assert keys[..i + 1] == keys[..i] + [keys[i]];
      more := more[keys[i] := (if keys[i] in more then more[keys[i]] else {}) + {id}];
    }
    assert keys[..|keys|] == keys;
  }

  function Lookup(index: map<string, set<string>>, key: string): set<string> {
    if key in index then index[key] else {}
  }

  function OptionalList(x: Option<string>): seq<string> {
    match x case None => [] case Some(v) => [v]
  }

  function CapabilityKeys(i: Item): seq<string> { i.capabilities + OptionalList(i.capability) }

  function ComponentKeys(i: Item): seq<string> { OptionalList(i.fromComponent) + OptionalList(i.toComponent) }

  function SourceKeys(i: Item): seq<string> { i.sourceRefs }

  ghost predicate Carried(items: seq<Item>, keys: Item -> seq<string>, k: string, id: string) {
    exists i :: i in items && k in keys(i) && id == i.id
  }

  ghost predicate IndexOf(index: map<string, set<string>>, items: seq<Item>, keys: Item -> seq<string>) {
    forall k, id :: id in Lookup(index, k) <==> Carried(items, keys, k, id)
  }

  /** The dictionary from keys to the ids of the items that carry them. */
  method IdsByKey(items: seq<Item>, keys: Item -> seq<string>) returns (index: map<string, set<string>>)
    ensures IndexOf(index, items, keys)
  {
    index := map[];
    ghost var pairs: Pairs := {};
    for n := 0 to |items|
      invariant Indexes(index, pairs)
      invariant forall k, id :: (k, id) in pairs <==> Carried(items[..n], keys, k, id)
    {
      assert items[..n + 1] == items[..n] + [items[n]];
      index := AddPairs(index, keys(items[n]), items[n].id, pairs);
      ghost var before := pairs;
      pairs := pairs + KeyPairs(keys(items[n]), items[n].id);
      forall k, id ensures (k, id) in pairs <==> Carried(items[..n + 1], keys, k, id) {
        assert (k, id) in before <==> Carried(items[..n], keys, k, id);
      }
    }
    assert items[..|items|] == items;
    forall k, id ensures id in Lookup(index, k) <==> Carried(items, keys, k, id) {
      assert k in index && id in index[k] <==> (k, id) in pairs;
    }
  }

  /** The ids found under any of the keys, sorted: one hop of a join. */
  function Hop(keys: seq<string>, index: map<string, set<string>>): seq<string> {
    Sorted(set k, id | k in keys && id in Lookup(index, k) :: id)
  }

  lemma HopMeaning(keys: seq<string>, index: map<string, set<string>>, id: string)
    ensures id in Hop(keys, index) <==> exists k :: k in keys && id in Lookup(index, k)
  {
    assert id in Hop(keys, index) <==> id in Elements(Hop(keys, index));
  }

  // ----- Which relationships the manifest asks for -----

  function Link(kind: RelKind, source: ObjectId, target: ObjectId, sourceRefs: seq<string>): RelKey {
    RelKey(kind, source, target, SortStrings(sourceRefs), map[])
  }

  function Links(kind: RelKind, source: ObjectId, targetKind: Kind, ids: seq<string>, sourceRefs: seq<string>): seq<RelKey> {
    seq(|ids|, i requires 0 <= i < |ids| => Link(kind, source, ObjectId(targetKind, ids[i]), sourceRefs))
  }

  lemma LinksMeaning(kind: RelKind, source: ObjectId, targetKind: Kind, ids: seq<string>, sourceRefs: seq<string>, k: RelKey)
    ensures k in Links(kind, source, targetKind, ids, sourceRefs) <==>
            k == Link(kind, source, k.target, sourceRefs) && k.target.kind == targetKind && k.target.native in ids
  {
    var links := Links(kind, source, targetKind, ids, sourceRefs);
    if k == Link(kind, source, k.target, sourceRefs) && k.target.kind == targetKind && k.target.native in ids {
      var i :| 0 <= i < |ids| && ids[i] == k.target.native;
      assert links[i] == k;
    }
  }

  /** Of capabilities sharing an id the last one counts. */
  function CapabilityById(items: seq<Item>): map<string, Item> {
    if items == [] then map[]
    else CapabilityById(items[..|items| - 1])[items[|items| - 1].id := items[|items| - 1]]
  }

  /** Some required capability is implemented by this component. */
  ghost predicate ImplementedBy(c: Compiled, r: Item, component: string) {
    exists cap, k :: cap in r.capabilities && k in c.components && (cap in k.capabilities || k.capability == Some(cap)) && component == k.id
  }

  /** Some required capability is implemented by a component that this interface touches. */
  ghost predicate ExposedBy(c: Compiled, r: Item, interface: string) {
    exists component, i ::
      ImplementedBy(c, r, component) && i in c.interfaces && (i.fromComponent == Some(component) || i.toComponent == Some(component)) && interface == i.id
  }

  /** Some source of the requirement is a source of this gate. */
  ghost predicate VerifiedByGate(c: Compiled, r: Item, gate: string) {
    exists s, g :: s in r.sourceRefs && g in c.gates && s in g.sourceRefs && gate == g.id
  }

  ghost predicate EvidenceOfCapabilities(c: Compiled, r: Item, evidence: string) {
    exists cap :: cap in r.capabilities && cap in CapabilityById(c.capabilities)
                  && evidence in CapabilityById(c.capabilities)[cap].evidenceRefs
  }

  /** The targets of a requirement's relationships, by kind. */
  ghost predicate RequirementTarget(c: Compiled, r: Item, kind: RelKind, target: ObjectId) {
    match kind
    case RequiresCapability => target.kind == Capability && target.native in r.capabilities
    case ImplementedByComponent => target.kind == Component && ImplementedBy(c, r, target.native)
    case ExposedByInterface => target.kind == Interface && ExposedBy(c, r, target.native)
    case VerifiedBy => target.kind == VerificationGate && VerifiedByGate(c, r, target.native)
    case EvidencedBy => target.kind == Evidence && EvidenceOfCapabilities(c, r, target.native)
    case _ => false
  }

  ghost predicate OtherTarget(source: ObjectId, i: Item, kind: RelKind, target: ObjectId) {
    match kind
    case DependsOn => source.kind == Capability && target.kind == Capability && target.native in i.dependsOn
    case EvidencedBy => source.kind == Capability && target.kind == Evidence && target.native in i.evidenceRefs
    case ImplementsCapability => source.kind == Component && target.kind == Capability && target.native in i.capabilities
    case ConnectsFrom => source.kind == Interface && target.kind == Component && i.fromComponent == Some(target.native)
    case ConnectsTo => source.kind == Interface && target.kind == Component && i.toComponent == Some(target.native)
    case PlansRequirement => source.kind == Feature && target.kind == Requirement && target.native in i.requirements
    case _ => false
  }

  function ItemsOfKind(c: Compiled, kind: Kind): seq<Item> {
    match kind
    case Capability => c.capabilities
    case Component => c.components
    case Interface => c.interfaces
    case Feature => c.features
    case _ => []
  }

  /** The relationship is asked for by the source references of an object, a requirement, or another entry. */
  ghost predicate Wanted(c: Compiled, objects: seq<Object>, k: RelKey) {
    || WantedBySources(objects, k)
    || WantedByRequirement(c, k)
    || WantedByItem(c, k)
    || WantedByEpic(c, k)
  }

  ghost predicate WantedBySources(objects: seq<Object>, k: RelKey) {
    exists o :: o in objects && SourceTarget(o, k)
  }

  predicate SourceTarget(o: Object, k: RelKey) {
    k.target.native in o.sourceRefs && k == RelKey(SourcedFrom, o.id, ObjectId(Source, k.target.native), [k.target.native], map[])
  }

  ghost predicate RequirementWants(c: Compiled, r: Item, k: RelKey) {
    RequirementTarget(c, r, k.kind, k.target) && k == Link(k.kind, ObjectId(Requirement, r.id), k.target, r.sourceRefs)
  }

  ghost predicate WantedByRequirement(c: Compiled, k: RelKey) {
    exists r :: r in c.requirements && RequirementWants(c, r, k)
  }

  ghost predicate ItemWants(kind: Kind, i: Item, k: RelKey) {
    OtherTarget(k.source, i, k.kind, k.target) && k == Link(k.kind, ObjectId(kind, i.id), k.target, i.sourceRefs)
  }

  ghost predicate WantedByItem(c: Compiled, k: RelKey) {
    exists i :: i in ItemsOfKind(c, k.source.kind) && ItemWants(k.source.kind, i, k)
  }

  ghost predicate WantedByEpic(c: Compiled, k: RelKey) {
    exists f :: f in c.features && EpicOf(f, k)
  }

  predicate EpicOf(f: Item, k: RelKey) {
    f.epic == Some(k.target.native) && k == RelKey(BelongsToEpic, ObjectId(Feature, f.id), ObjectId(Epic, k.target.native), [], map[])
  }

  // ----- The builder's loops -----

  method SourceRequests(objects: seq<Object>) returns (requests: seq<RelKey>)
    ensures forall k :: k in requests <==> WantedBySources(objects, k)
  {
    requests := [];
    for n := 0 to |objects|
      invariant forall k :: k in requests <==> WantedBySources(objects[..n], k)
    {
      assert objects[..n + 1] == objects[..n] + [objects[n]];
      var o := objects[n];
      var mine := seq(|o.sourceRefs|, i requires 0 <= i < |o.sourceRefs| =>
        RelKey(SourcedFrom, o.id, ObjectId(Source, o.sourceRefs[i]), [o.sourceRefs[i]], map[]));
      forall k ensures k in mine <==> SourceTarget(o, k) {
        if SourceTarget(o, k) {
          var i :| 0 <= i < |o.sourceRefs| && o.sourceRefs[i] == k.target.native;
          assert mine[i] == k;
        }
      }
      requests := requests + mine;
    }
    assert objects[..|objects|] == objects;
  }

  method RequestsOf(c: Compiled, r: Item, componentByCapability: map<string, set<string>>,
                    interfaceByComponent: map<string, set<string>>, gatesBySource: map<string, set<string>>)
    returns (requests: seq<RelKey>)
    requires IndexOf(componentByCapability, c.components, CapabilityKeys)
    requires IndexOf(interfaceByComponent, c.interfaces, ComponentKeys)
    requires IndexOf(gatesBySource, c.gates, SourceKeys)
    ensures forall k :: k in requests <==> RequirementWants(c, r, k)
  {
    var capabilityById := CapabilityById(c.capabilities);
    var componentIds := Hop(r.capabilities, componentByCapability);
    var interfaceIds := Hop(componentIds, interfaceByComponent);
    var gateIds := Hop(r.sourceRefs, gatesBySource);
    var evidenceRefs := Sorted(set cap, e | cap in r.capabilities && cap in capabilityById && e in capabilityById[cap].evidenceRefs :: e);
    JoinsAreRelational(c, r, componentByCapability, interfaceByComponent, gatesBySource);
    forall e ensures e in evidenceRefs <==> EvidenceOfCapabilities(c, r, e) {
      assert e in evidenceRefs <==> e in Elements(evidenceRefs);
    }
    requests := RequirementLinks(r, componentIds, interfaceIds, gateIds, evidenceRefs);
    forall k ensures k in requests <==> RequirementWants(c, r, k) {
      RequirementLinksMeaning(c, r, componentIds, interfaceIds, gateIds, evidenceRefs, k);
    }
  }

  function RequirementLinks(r: Item, componentIds: seq<string>, interfaceIds: seq<string>, gateIds: seq<string>,
                            evidenceRefs: seq<string>): seq<RelKey> {
    var id := ObjectId(Requirement, r.id);
    Links(RequiresCapability, id, Capability, r.capabilities, r.sourceRefs)
    + Links(ImplementedByComponent, id, Component, componentIds, r.sourceRefs)
    + Links(ExposedByInterface, id, Interface, interfaceIds, r.sourceRefs)
    + Links(VerifiedBy, id, VerificationGate, gateIds, r.sourceRefs)
    + Links(EvidencedBy, id, Evidence, evidenceRefs, r.sourceRefs)
  }

  predicate ListedTarget(r: Item, componentIds: seq<string>, interfaceIds: seq<string>, gateIds: seq<string>,
                         evidenceRefs: seq<string>, kind: RelKind, target: ObjectId) {
    match kind
    case RequiresCapability => target.kind == Capability && target.native in r.capabilities
    case ImplementedByComponent => target.kind == Component && target.native in componentIds
    case ExposedByInterface => target.kind == Interface && target.native in interfaceIds
    case VerifiedBy => target.kind == VerificationGate && target.native in gateIds
    case EvidencedBy => target.kind == Evidence && target.native in evidenceRefs
    case _ => false
  }

  lemma RequirementLinksListed(r: Item, componentIds: seq<string>, interfaceIds: seq<string>, gateIds: seq<string>,
                               evidenceRefs: seq<string>, k: RelKey)
    ensures k in RequirementLinks(r, componentIds, interfaceIds, gateIds, evidenceRefs) <==>
            && ListedTarget(r, componentIds, interfaceIds, gateIds, evidenceRefs, k.kind, k.target)
            && k == Link(k.kind, ObjectId(Requirement, r.id), k.target, r.sourceRefs)
  {
    var id := ObjectId(Requirement, r.id);
    LinksMeaning(RequiresCapability, id, Capability, r.capabilities, r.sourceRefs, k);
    LinksMeaning(ImplementedByComponent, id, Component, componentIds, r.sourceRefs, k);
    LinksMeaning(ExposedByInterface, id, Interface, interfaceIds, r.sourceRefs, k);
    LinksMeaning(VerifiedBy, id, VerificationGate, gateIds, r.sourceRefs, k);
    LinksMeaning(EvidencedBy, id, Evidence, evidenceRefs, r.sourceRefs, k);
  }

  lemma RequirementLinksMeaning(c: Compiled, r: Item, componentIds: seq<string>, interfaceIds: seq<string>,
                                gateIds: seq<string>, evidenceRefs: seq<string>, k: RelKey)
    requires k.target.native in componentIds <==> ImplementedBy(c, r, k.target.native)
    requires k.target.native in interfaceIds <==> ExposedBy(c, r, k.target.native)
    requires k.target.native in gateIds <==> VerifiedByGate(c, r, k.target.native)
    requires k.target.native in evidenceRefs <==> EvidenceOfCapabilities(c, r, k.target.native)
    ensures k in RequirementLinks(r, componentIds, interfaceIds, gateIds, evidenceRefs) <==> RequirementWants(c, r, k)
  {
    RequirementLinksListed(r, componentIds, interfaceIds, gateIds, evidenceRefs, k);
  }

  method RequirementRequests(c: Compiled) returns (requests: seq<RelKey>)
    ensures forall k :: k in requests <==> WantedByRequirement(c, k)
  {
    var componentByCapability := IdsByKey(c.components, CapabilityKeys);
    var interfaceByComponent := IdsByKey(c.interfaces, ComponentKeys);
    var gatesBySource := IdsByKey(c.gates, SourceKeys);
    requests := [];
    for n := 0 to |c.requirements|
      invariant forall k :: k in requests <==> exists r :: r in c.requirements[..n] && RequirementWants(c, r, k)
    {
      assert c.requirements[..n + 1] == c.requirements[..n] + [c.requirements[n]];
      var mine := RequestsOf(c, c.requirements[n], componentByCapability, interfaceByComponent, gatesBySource);
      requests := requests + mine;
    }
    assert c.requirements[..|c.requirements|] == c.requirements;
  }

  lemma KeysMeaning(i: Item, k: string)
    ensures k in CapabilityKeys(i) <==> k in i.capabilities || i.capability == Some(k)
    ensures k in ComponentKeys(i) <==> i.fromComponent == Some(k) || i.toComponent == Some(k)
    ensures k in SourceKeys(i) <==> k in i.sourceRefs
  {}

  /** What the indexes yield is what the relations say: one hop to components and gates, two to interfaces. */
  lemma JoinsAreRelational(c: Compiled, r: Item, componentByCapability: map<string, set<string>>,
                           interfaceByComponent: map<string, set<string>>, gatesBySource: map<string, set<string>>)
    requires IndexOf(componentByCapability, c.components, CapabilityKeys)
    requires IndexOf(interfaceByComponent, c.interfaces, ComponentKeys)
    requires IndexOf(gatesBySource, c.gates, SourceKeys)
    ensures var componentIds := Hop(r.capabilities, componentByCapability);
            && (forall id :: id in componentIds <==> ImplementedBy(c, r, id))
            && (forall id :: id in Hop(componentIds, interfaceByComponent) <==> ExposedBy(c, r, id))
    ensures forall id :: id in Hop(r.sourceRefs, gatesBySource) <==> VerifiedByGate(c, r, id)
  {
    var componentIds := Hop(r.capabilities, componentByCapability);
    hide Carried, ImplementedBy, ExposedBy, VerifiedByGate, CapabilityKeys, ComponentKeys, SourceKeys, Hop, Lookup;
    forall id ensures id in componentIds <==> ImplementedBy(c, r, id) {
      HopMeaning(r.capabilities, componentByCapability, id);
      ImplementedByKeys(c, r, id);
    }
    forall id ensures id in Hop(componentIds, interfaceByComponent) <==> ExposedBy(c, r, id) {
      HopMeaning(componentIds, interfaceByComponent, id);
      ExposedByKeys(c, r, id);
    }
    forall id ensures id in Hop(r.sourceRefs, gatesBySource) <==> VerifiedByGate(c, r, id) {
      HopMeaning(r.sourceRefs, gatesBySource, id);
      VerifiedByKeys(c, r, id);
    }
  }

  lemma ImplementedByKeys(c: Compiled, r: Item, component: string)
    ensures ImplementedBy(c, r, component) <==> exists cap :: cap in r.capabilities && Carried(c.components, CapabilityKeys, cap, component)
  {
    if ImplementedBy(c, r, component) {
      var cap, k :| cap in r.capabilities && k in c.components && (cap in k.capabilities || k.capability == Some(cap)) && component == k.id;
      KeysMeaning(k, cap);
      assert Carried(c.components, CapabilityKeys, cap, component);
    }
    if cap :| cap in r.capabilities && Carried(c.components, CapabilityKeys, cap, component) {
      var k :| k in c.components && cap in CapabilityKeys(k) && component == k.id;
      KeysMeaning(k, cap);
    }
  }

  lemma ExposedByKeys(c: Compiled, r: Item, interface: string)
    ensures ExposedBy(c, r, interface) <==>
            exists component :: ImplementedBy(c, r, component) && Carried(c.interfaces, ComponentKeys, component, interface)
  {
    hide ImplementedBy;
    if ExposedBy(c, r, interface) {
      var component, i :| ImplementedBy(c, r, component) && i in c.interfaces
                          && (i.fromComponent == Some(component) || i.toComponent == Some(component)) && interface == i.id;
      KeysMeaning(i, component);
      assert Carried(c.interfaces, ComponentKeys, component, interface);
    }
    if component :| ImplementedBy(c, r, component) && Carried(c.interfaces, ComponentKeys, component, interface) {
      var i :| i in c.interfaces && component in ComponentKeys(i) && interface == i.id;
      KeysMeaning(i, component);
    }
  }

  lemma VerifiedByKeys(c: Compiled, r: Item, gate: string)
    ensures VerifiedByGate(c, r, gate) <==> exists s :: s in r.sourceRefs && Carried(c.gates, SourceKeys, s, gate)
  {
    if VerifiedByGate(c, r, gate) {
      var s, g :| s in r.sourceRefs && g in c.gates && s in g.sourceRefs && gate == g.id;
      KeysMeaning(g, s);
      assert Carried(c.gates, SourceKeys, s, gate);
    }
    if s :| s in r.sourceRefs && Carried(c.gates, SourceKeys, s, gate) {
      var g :| g in c.gates && s in SourceKeys(g) && gate == g.id;
      KeysMeaning(g, s);
    }
  }

  /** What one capability, component, interface or feature asks for. */
  function ItemLinks(kind: Kind, i: Item): seq<RelKey> {
    var id := ObjectId(kind, i.id);
    match kind
    case Capability =>
      Links(DependsOn, id, Capability, i.dependsOn, i.sourceRefs) + Links(EvidencedBy, id, Evidence, i.evidenceRefs, i.sourceRefs)
    case Component => Links(ImplementsCapability, id, Capability, i.capabilities, i.sourceRefs)
    case Interface =>
      Links(ConnectsFrom, id, Component, OptionalList(i.fromComponent), i.sourceRefs)
      + Links(ConnectsTo, id, Component, OptionalList(i.toComponent), i.sourceRefs)
    case Feature => Links(PlansRequirement, id, Requirement, i.requirements, i.sourceRefs)
    case _ => []
  }

  lemma ItemLinksMeaning(kind: Kind, i: Item, k: RelKey)
    ensures k in ItemLinks(kind, i) <==> k.source.kind == kind && ItemWants(kind, i, k)
  {
    var id := ObjectId(kind, i.id);
    LinksMeaning(DependsOn, id, Capability, i.dependsOn, i.sourceRefs, k);
    LinksMeaning(EvidencedBy, id, Evidence, i.evidenceRefs, i.sourceRefs, k);
    LinksMeaning(ImplementsCapability, id, Capability, i.capabilities, i.sourceRefs, k);
    LinksMeaning(ConnectsFrom, id, Component, OptionalList(i.fromComponent), i.sourceRefs, k);
    LinksMeaning(ConnectsTo, id, Component, OptionalList(i.toComponent), i.sourceRefs, k);
    LinksMeaning(PlansRequirement, id, Requirement, i.requirements, i.sourceRefs, k);
  }

  method ItemRequests(kind: Kind, items: seq<Item>) returns (requests: seq<RelKey>)
    ensures forall k :: k in requests <==> k.source.kind == kind && exists i :: i in items && ItemWants(kind, i, k)
  {
    requests := [];
    for n := 0 to |items|
      invariant forall k :: k in requests <==> k.source.kind == kind && exists i :: i in items[..n] && ItemWants(kind, i, k)
    {
      assert items[..n + 1] == items[..n] + [items[n]];
      forall k {
        ItemLinksMeaning(kind, items[n], k);
      }
      requests := requests + ItemLinks(kind, items[n]);
    }
    assert items[..|items|] == items;
  }

  method EpicRequests(c: Compiled) returns (requests: seq<RelKey>)
    ensures forall k :: k in requests <==> WantedByEpic(c, k)
  {
    requests := [];
    for n := 0 to |c.features|
      invariant forall k :: k in requests <==> exists f :: f in c.features[..n] && EpicOf(f, k)
    {
      assert c.features[..n + 1] == c.features[..n] + [c.features[n]];
      var f := c.features[n];
      var mine := if f.epic.Some? then [RelKey(BelongsToEpic, ObjectId(Feature, f.id), ObjectId(Epic, f.epic.value), [], map[])] else [];
      assert forall k :: k in mine <==> EpicOf(f, k);
      requests := requests + mine;
    }
    assert c.features[..|c.features|] == c.features;
  }

  lemma WantedByItemKinds(c: Compiled, k: RelKey)
    ensures WantedByItem(c, k) <==>
            || (k.source.kind == Capability && exists i :: i in c.capabilities && ItemWants(Capability, i, k))
            || (k.source.kind == Component && exists i :: i in c.components && ItemWants(Component, i, k))
            || (k.source.kind == Interface && exists i :: i in c.interfaces && ItemWants(Interface, i, k))
            || (k.source.kind == Feature && exists i :: i in c.features && ItemWants(Feature, i, k))
  {}

  method Requests(c: Compiled, objects: seq<Object>) returns (requests: seq<RelKey>)
    ensures forall k :: k in requests <==> Wanted(c, objects, k)
  {
    var sources := SourceRequests(objects);
    var capabilities := ItemRequests(Capability, c.capabilities);
    var components := ItemRequests(Component, c.components);
    var interfaces := ItemRequests(Interface, c.interfaces);
    var requirements := RequirementRequests(c);
    var features := ItemRequests(Feature, c.features);
    var epics := EpicRequests(c);
    requests := sources + capabilities + components + interfaces + requirements + features + epics;
    forall k ensures k in requests <==> Wanted(c, objects, k) {
      WantedByItemKinds(c, k);
    }
  }

  // ----- Records -----

  ghost predicate Joined(objects: seq<Object>, k: RelKey) {
    k.source in ObjectIds(objects) && k.target in ObjectIds(objects)
  }

  function ObjectIds(objects: seq<Object>): set<ObjectId> {
    set o | o in objects :: o.id
  }

  /** The native id under each object id; objects sharing an object id share it. */
  function NativeIndex(objects: seq<Object>): (m: map<ObjectId, string>)
    ensures m.Keys == ObjectIds(objects)
  {
    if objects == [] then map[]
    else
      var init, last := objects[..|objects| - 1], objects[|objects| - 1];
      assert objects == init + [last];
      NativeIndex(init)[last.id := last.native]
  }

  function RelationshipOf(d: Digests, natives: map<ObjectId, string>, k: RelKey): Relationship
    requires k.source in natives && k.target in natives
  {
    Relationship(d.relation(k), k, d.payload(k.payload), natives[k.source], natives[k.target])
  }

  type Relationships = map<string, Relationship>

  /** Every entry records a wanted relationship between known objects, and every such relationship's id has an entry. */
  ghost predicate Built(d: Digests, c: Compiled, objects: seq<Object>, m: Relationships) {
    && (forall id :: id in m ==> RecordsWanted(d, c, objects, id, m[id]))
    && (forall k :: Wanted(c, objects, k) && Joined(objects, k) ==> d.relation(k) in m)
  }

  ghost predicate RecordsWanted(d: Digests, c: Compiled, objects: seq<Object>, id: string, r: Relationship) {
    && id == d.relation(r.key)
    && Wanted(c, objects, r.key) && Joined(objects, r.key)
    && r == RelationshipOf(d, NativeIndex(objects), r.key)
  }

  method Collect(d: Digests, objects: seq<Object>, requests: seq<RelKey>) returns (m: Relationships)
    ensures forall id :: id in m ==> && m[id].key in requests && Joined(objects, m[id].key)
                                     && id == d.relation(m[id].key) && m[id] == RelationshipOf(d, NativeIndex(objects), m[id].key)
    ensures forall k :: k in requests && Joined(objects, k) ==> d.relation(k) in m
  {
    var objectIds := ObjectIds(objects);
    var natives := NativeIndex(objects);
    m := map[];
    for n := 0 to |requests|
      invariant forall id :: id in m ==> && m[id].key in requests && Joined(objects, m[id].key)
                                         && id == d.relation(m[id].key) && m[id] == RelationshipOf(d, natives, m[id].key)
      invariant forall j :: 0 <= j < n && Joined(objects, requests[j]) ==> d.relation(requests[j]) in m
    {
      var k := requests[n];
      if k.source in objectIds && k.target in objectIds {
        m := m[d.relation(k) := RelationshipOf(d, natives, k)];
      }
    }
  }

  method CollectRelationships(d: Digests, c: Compiled, objects: seq<Object>) returns (m: Relationships)
    ensures Built(d, c, objects, m)
  {
    var requests := Requests(c, objects);
    m := Collect(d, objects, requests);
    forall id | id in m ensures RecordsWanted(d, c, objects, id, m[id]) {
      assert m[id].key in requests;
    }
    forall k | Wanted(c, objects, k) && Joined(objects, k) ensures d.relation(k) in m {
      assert k in requests;
    }
  }

  /** The tuple of relationships, sorted by id. */
  function Listed(m: Relationships): seq<Relationship> {
    var ids := Sorted(m.Keys);
    seq(|ids|, i requires 0 <= i < |ids| => IdListed(m, ids, i); m[ids[i]])
  }

  lemma IdListed(m: Relationships, ids: seq<string>, i: nat)
    requires ids == Sorted(m.Keys) && i < |ids|
    ensures ids[i] in m
  {
    assert ids[i] in Elements(ids);
  }

  lemma ListedMeaning(m: Relationships, r: Relationship)
    ensures r in Listed(m) <==> exists id :: id in m && m[id] == r
  {
    var ids := Sorted(m.Keys);
    if r in Listed(m) {
      var i :| 0 <= i < |ids| && Listed(m)[i] == r;
      IdListed(m, ids, i);
    }
    if id :| id in m && m[id] == r {
      assert id in Elements(ids);
      var i :| 0 <= i < |ids| && ids[i] == id;
      assert Listed(m)[i] == r;
    }
  }

  /** No two different relationships among those wanted share a digest. */
  ghost predicate NoCollision(d: Digests, c: Compiled, objects: seq<Object>) {
    forall k, l :: Wanted(c, objects, k) && Wanted(c, objects, l) && d.relation(k) == d.relation(l) ==> k == l
  }

  lemma BuiltWanted(d: Digests, c: Compiled, objects: seq<Object>, m: Relationships, k: RelKey)
    requires Built(d, c, objects, m) && NoCollision(d, c, objects)
    ensures (exists r :: r in Listed(m) && r.key == k) <==> Wanted(c, objects, k) && Joined(objects, k)
  {
    if Wanted(c, objects, k) && Joined(objects, k) {
      var id := d.relation(k);
      assert RecordsWanted(d, c, objects, id, m[id]);
      ListedMeaning(m, m[id]);
    }
    if r :| r in Listed(m) && r.key == k {
      ListedMeaning(m, r);
      var id :| id in m && m[id] == r;
      assert RecordsWanted(d, c, objects, id, m[id]);
    }
  }

  /** Without digest collisions the model holds exactly the relationships the manifest asks for between known objects. */
  lemma BuiltExactly(d: Digests, c: Compiled, objects: seq<Object>, m: Relationships, k: RelKey)
    requires Built(d, c, objects, m) && NoCollision(d, c, objects)
    ensures (exists r :: r in Listed(m) && r.key == k) <==> AskedFor(c, objects, k) && Joined(objects, k)
  {
    hide Built, NoCollision, Wanted, AskedFor, Listed, Joined;
    BuiltWanted(d, c, objects, m, k);
    WantedIsAskedFor(c, objects, k);
  }

  // ----- What the manifest asks for, kind by kind -----

  /** The relationship comes from this entry: its source is the entry's object, its provenance the entry's source references in order. */
  ghost predicate Asks(kind: Kind, i: Item, k: RelKey) {
    k.source == ObjectId(kind, i.id) && multiset(k.provenance) == multiset(i.sourceRefs) && Ascending(StrLe, k.provenance)
  }

  /** The last capability with this id. */
  ghost predicate LastCapability(c: Compiled, cap: string, at: int) {
    0 <= at < |c.capabilities| && c.capabilities[at].id == cap && forall j :: at < j < |c.capabilities| ==> c.capabilities[j].id != cap
  }

  predicate Relates(k: RelKey, kind: RelKind, target: Kind) {
    k.kind == kind && k.target.kind == target
  }

  /** An object names a source. */
  ghost predicate AskedBySource(objects: seq<Object>, k: RelKey) {
    Relates(k, SourcedFrom, Source) && k.provenance == [k.target.native] && exists o :: o in objects && o.id == k.source && k.target.native in o.sourceRefs
  }

  /** A capability depends on another one, or names evidence. */
  predicate CapabilityAsks(i: Item, k: RelKey) {
    || (Relates(k, DependsOn, Capability) && k.target.native in i.dependsOn)
    || (Relates(k, EvidencedBy, Evidence) && k.target.native in i.evidenceRefs)
  }

  /** A component implements a capability. */
  predicate ComponentAsks(i: Item, k: RelKey) {
    Relates(k, ImplementsCapability, Capability) && k.target.native in i.capabilities
  }

  /** An interface leads from one component to another. */
  predicate InterfaceAsks(i: Item, k: RelKey) {
    || (Relates(k, ConnectsFrom, Component) && i.fromComponent == Some(k.target.native))
    || (Relates(k, ConnectsTo, Component) && i.toComponent == Some(k.target.native))
  }

  /** A feature plans requirements. */
  predicate FeatureAsks(i: Item, k: RelKey) {
    Relates(k, PlansRequirement, Requirement) && k.target.native in i.requirements
  }

  /** A requirement needs capabilities, and through them components, interfaces and evidence; gates verify its sources. */
  ghost predicate RequirementAsks(c: Compiled, r: Item, k: RelKey) {
    || (Relates(k, RequiresCapability, Capability) && k.target.native in r.capabilities)
    || (Relates(k, ImplementedByComponent, Component) && ImplementedBy(c, r, k.target.native))
    || (Relates(k, ExposedByInterface, Interface) && ExposedBy(c, r, k.target.native))
    || (Relates(k, VerifiedBy, VerificationGate) && VerifiedByGate(c, r, k.target.native))
    || (Relates(k, EvidencedBy, Evidence) && exists cap, at ::
          cap in r.capabilities && LastCapability(c, cap, at) && k.target.native in c.capabilities[at].evidenceRefs)
  }

  /** A feature belongs to an epic. */
  ghost predicate AskedByEpic(c: Compiled, k: RelKey) {
    && Relates(k, BelongsToEpic, Epic) && k.provenance == []
    && exists f :: f in c.features && k.source == ObjectId(Feature, f.id) && f.epic == Some(k.target.native)
  }

  /** The relationships of the model, in terms of the manifest's entries. */
  ghost predicate AskedFor(c: Compiled, objects: seq<Object>, k: RelKey) {
    && k.payload == map[]
    && (|| AskedBySource(objects, k) || AskedByEpic(c, k) || AskedByCapability(c, k) || AskedByComponent(c, k)
        || AskedByInterface(c, k) || AskedByRequirement(c, k) || AskedByFeature(c, k))
  }

  ghost predicate AskedByCapability(c: Compiled, k: RelKey) {
    exists i :: i in c.capabilities && Asks(Capability, i, k) && CapabilityAsks(i, k)
  }

  ghost predicate AskedByComponent(c: Compiled, k: RelKey) {
    exists i :: i in c.components && Asks(Component, i, k) && ComponentAsks(i, k)
  }

  ghost predicate AskedByInterface(c: Compiled, k: RelKey) {
    exists i :: i in c.interfaces && Asks(Interface, i, k) && InterfaceAsks(i, k)
  }

  ghost predicate AskedByRequirement(c: Compiled, k: RelKey) {
    exists r :: r in c.requirements && Asks(Requirement, r, k) && RequirementAsks(c, r, k)
  }

  ghost predicate AskedByFeature(c: Compiled, k: RelKey) {
    exists i :: i in c.features && Asks(Feature, i, k) && FeatureAsks(i, k)
  }

  lemma AsksMeaning(kind: Kind, i: Item, k: RelKey)
    ensures k == Link(k.kind, ObjectId(kind, i.id), k.target, i.sourceRefs) <==> k.payload == map[] && Asks(kind, i, k)
  {
    StrOrder();
    SortAscends(StrLe, i.sourceRefs);
    SortPermutes(StrLe, i.sourceRefs);
    if multiset(k.provenance) == multiset(i.sourceRefs) && Ascending(StrLe, k.provenance) {
      SortOfAscending(StrLe, k.provenance);
      SortCanonical(StrLe, k.provenance, i.sourceRefs);
    }
    hide StrLe;
  }

  lemma {:induction false} LastCapabilityMeaning(items: seq<Item>, cap: string, at: nat)
    requires at < |items| && items[at].id == cap && forall j :: at < j < |items| ==> items[j].id != cap
    ensures cap in CapabilityById(items) && CapabilityById(items)[cap] == items[at]
  {
    if at < |items| - 1 {
      LastCapabilityMeaning(items[..|items| - 1], cap, at);
    }
  }

  lemma {:induction false} CapabilityLast(items: seq<Item>, cap: string) returns (at: nat)
    requires cap in CapabilityById(items)
    ensures at < |items| && items[at].id == cap && forall j :: at < j < |items| ==> items[j].id != cap
  {
    at := |items| - 1;
    if items[at].id != cap {
      at := CapabilityLast(items[..|items| - 1], cap);
    }
  }

  lemma EvidenceByLast(c: Compiled, r: Item, evidence: string)
    ensures EvidenceOfCapabilities(c, r, evidence) <==>
            exists cap, at :: cap in r.capabilities && LastCapability(c, cap, at) && evidence in c.capabilities[at].evidenceRefs
  {
    if EvidenceOfCapabilities(c, r, evidence) {
      var cap :| cap in r.capabilities && cap in CapabilityById(c.capabilities) && evidence in CapabilityById(c.capabilities)[cap].evidenceRefs;
      var at := CapabilityLast(c.capabilities, cap);
      LastCapabilityMeaning(c.capabilities, cap, at);
    }
    if cap, at :| cap in r.capabilities && LastCapability(c, cap, at) && evidence in c.capabilities[at].evidenceRefs {
      LastCapabilityMeaning(c.capabilities, cap, at);
    }
  }

  lemma RequirementWantsAsks(c: Compiled, r: Item, k: RelKey)
    ensures RequirementWants(c, r, k) <==> k.payload == map[] && Asks(Requirement, r, k) && RequirementAsks(c, r, k)
  {
    hide Asks, ImplementedBy, ExposedBy, VerifiedByGate, EvidenceOfCapabilities, LastCapability;
    AsksMeaning(Requirement, r, k);
    EvidenceByLast(c, r, k.target.native);
  }

  ghost predicate ItemAsks(kind: Kind, i: Item, k: RelKey) {
    match kind
    case Capability => CapabilityAsks(i, k)
    case Component => ComponentAsks(i, k)
    case Interface => InterfaceAsks(i, k)
    case Feature => FeatureAsks(i, k)
    case _ => false
  }

  lemma ItemWantsAsks(kind: Kind, i: Item, k: RelKey)
    requires kind == Capability || kind == Component || kind == Interface || kind == Feature
    ensures ItemWants(kind, i, k) <==> k.payload == map[] && Asks(kind, i, k) && ItemAsks(kind, i, k)
  {
    AsksMeaning(kind, i, k);
    hide Link;
    assert Asks(kind, i, k) ==> k.source.kind == kind;
  }

  ghost predicate WantedByKind(c: Compiled, kind: Kind, k: RelKey) {
    k.source.kind == kind && exists i :: i in ItemsOfKind(c, kind) && ItemWants(kind, i, k)
  }

  lemma ItemsAskSame(c: Compiled, kind: Kind, k: RelKey)
    requires kind == Capability || kind == Component || kind == Interface || kind == Feature
    ensures WantedByKind(c, kind, k) <==> k.payload == map[] && exists i :: i in ItemsOfKind(c, kind) && Asks(kind, i, k) && ItemAsks(kind, i, k)
  {
    forall i: Item ensures ItemWants(kind, i, k) <==> k.payload == map[] && Asks(kind, i, k) && ItemAsks(kind, i, k) {
      ItemWantsAsks(kind, i, k);
    }
    assert forall i :: Asks(kind, i, k) ==> k.source.kind == kind;
    hide ItemWants, Asks, ItemAsks, ItemsOfKind;
  }

  lemma KindsAskSame(c: Compiled, k: RelKey)
    ensures WantedByKind(c, Capability, k) <==> k.payload == map[] && AskedByCapability(c, k)
    ensures WantedByKind(c, Component, k) <==> k.payload == map[] && AskedByComponent(c, k)
    ensures WantedByKind(c, Interface, k) <==> k.payload == map[] && AskedByInterface(c, k)
    ensures WantedByKind(c, Feature, k) <==> k.payload == map[] && AskedByFeature(c, k)
  {
    hide WantedByKind, Asks, CapabilityAsks, ComponentAsks, InterfaceAsks, FeatureAsks;
    ItemsAskSame(c, Capability, k);
    ItemsAskSame(c, Component, k);
    ItemsAskSame(c, Interface, k);
    ItemsAskSame(c, Feature, k);
  }

  lemma WantedKinds(c: Compiled, k: RelKey)
    ensures WantedByItem(c, k) <==>
            WantedByKind(c, Capability, k) || WantedByKind(c, Component, k) || WantedByKind(c, Interface, k) || WantedByKind(c, Feature, k)
  {
    WantedByItemKinds(c, k);
    hide ItemWants;
  }

  lemma RequirementsAskSame(c: Compiled, k: RelKey)
    ensures WantedByRequirement(c, k) <==> k.payload == map[] && AskedByRequirement(c, k)
  {
    forall r: Item ensures RequirementWants(c, r, k) <==> k.payload == map[] && Asks(Requirement, r, k) && RequirementAsks(c, r, k) {
      RequirementWantsAsks(c, r, k);
    }
    hide RequirementWants, Asks, RequirementAsks;
  }

  lemma SourcesAskSame(objects: seq<Object>, k: RelKey)
    ensures WantedBySources(objects, k) <==> k.payload == map[] && AskedBySource(objects, k)
  {
    if k.payload == map[] && AskedBySource(objects, k) {
      var o :| o in objects && o.id == k.source && k.target.native in o.sourceRefs;
      assert SourceTarget(o, k);
    }
  }

  lemma EpicsAskSame(c: Compiled, k: RelKey)
    ensures WantedByEpic(c, k) <==> k.payload == map[] && AskedByEpic(c, k)
  {
    if k.payload == map[] && AskedByEpic(c, k) {
      var f :| f in c.features && k.source == ObjectId(Feature, f.id) && f.epic == Some(k.target.native);
      assert EpicOf(f, k);
    }
  }

  /** What the builder asks for is what the manifest's entries say. */
  lemma WantedIsAskedFor(c: Compiled, objects: seq<Object>, k: RelKey)
    ensures Wanted(c, objects, k) <==> AskedFor(c, objects, k)
  {
    WantedKinds(c, k);
    KindsAskSame(c, k);
    RequirementsAskSame(c, k);
    SourcesAskSame(objects, k);
    EpicsAskSame(c, k);
    hide WantedBySources, WantedByRequirement, WantedByItem, WantedByEpic, WantedByKind;
    hide AskedBySource, AskedByEpic, AskedByCapability, AskedByComponent, AskedByInterface, AskedByRequirement, AskedByFeature;
  }

  lemma {:induction false} NativeKnown(objects: seq<Object>, id: ObjectId)
    requires id in ObjectIds(objects)
    ensures exists o :: o in objects && o.id == id && o.native == NativeIndex(objects)[id]
  {
    var init, last := objects[..|objects| - 1], objects[|objects| - 1];
    assert objects == init + [last];
    if last.id != id {
      NativeKnown(init, id);
      var o :| o in init && o.id == id && o.native == NativeIndex(init)[id];
      assert o in objects;
    }
  }

  /** A listed relationship stands under the digest of what it says, and names the native ids of its ends. */
  lemma ListedRecord(d: Digests, c: Compiled, objects: seq<Object>, m: Relationships, r: Relationship)
    requires Built(d, c, objects, m) && r in Listed(m)
    ensures r.id == d.relation(r.key) && r.payloadHash == d.payload(map[]) && AskedFor(c, objects, r.key)
    ensures exists o :: o in objects && o.id == r.key.source && o.native == r.sourceNative
    ensures exists o :: o in objects && o.id == r.key.target && o.native == r.targetNative
  {
    ListedMeaning(m, r);
    var id :| id in m && m[id] == r;
    assert RecordsWanted(d, c, objects, id, m[id]);
    WantedIsAskedFor(c, objects, r.key);
    NativeKnown(objects, r.key.source);
    NativeKnown(objects, r.key.target);
    hide Wanted, Listed;
  }

  /** The listing goes by id, and lists no id twice. */
  lemma ListedInOrder(d: Digests, c: Compiled, objects: seq<Object>, m: Relationships, i: nat, j: nat)
    requires Built(d, c, objects, m) && i < j < |Listed(m)|
    ensures TextBefore(Listed(m)[i].id, Listed(m)[j].id)
  {
    var ids := Sorted(m.Keys);
    IdListed(m, ids, i);
    IdListed(m, ids, j);
    assert RecordsWanted(d, c, objects, ids[i], m[ids[i]]) && RecordsWanted(d, c, objects, ids[j], m[ids[j]]);
    assert Listed(m)[i].id == ids[i] && Listed(m)[j].id == ids[j];
    hide Wanted, Joined, Built, StrLe, TextBefore;
    assert StrLe(ids[i], ids[j]) && ids[i] != ids[j];
    StrLeMeaning(ids[i], ids[j]);
  }
}
