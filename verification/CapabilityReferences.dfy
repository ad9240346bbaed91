/** What capability references resolve to, and which findings they earn, in terms of the items alone. */
module CapabilityReferences {
  import opened Order
  import opened DependencyGraph
  import opened CapabilityDependencies
  import opened Wrappers

  /** The id of the item at this position: its own, else the slug of its name, else of its title, else a stand-in. */
  ghost predicate HasId(n: Naming, c: Capability, position: nat, id: Id) {
    && (c.Named? ==> id == n.alias(c.text))
    && (c.Record? && c.id.Some? ==> id == c.id.value)
    && (c.Record? && c.id.None? && c.name.Some? ==> id == n.alias(c.name.value))
    && (c.Record? && c.id.None? && c.name.None? && c.title.Some? ==> id == n.alias(c.title.value))
    && (c.Other? || (c.Record? && c.id.None? && c.name.None? && c.title.None?) ==> id == n.standIn(position))
  }

  /** The item goes by this alias: the slug of its text, of any of its three names, or of its id. */
  ghost predicate GoesBy(n: Naming, c: Capability, position: nat, alias: string) {
    || (c.Named? && alias == n.alias(c.text))
    || (c.Record? && c.id.Some? && alias == n.alias(c.id.value))
    || (c.Record? && c.name.Some? && alias == n.alias(c.name.value))
    || (c.Record? && c.title.Some? && alias == n.alias(c.title.value))
    || exists id :: HasId(n, c, position, id) && alias == n.alias(id)
  }

  ghost predicate LastToGoBy(n: Naming, cs: seq<Capability>, alias: string, i: int) {
    && 0 <= i < |cs| && GoesBy(n, cs[i], i + 1, alias)
    && forall j :: i < j < |cs| ==> !GoesBy(n, cs[j], j + 1, alias)
  }

  /** A reference means the id of the last item that goes by its alias. */
  ghost predicate Means(n: Naming, cs: seq<Capability>, ref: string, id: Id) {
    exists i :: LastToGoBy(n, cs, n.alias(ref), i) && HasId(n, cs[i], i + 1, id)
  }

  lemma OwnId(n: Naming, c: Capability, position: nat, id: Id)
    ensures HasId(n, c, position, id) <==> id == PrimaryId(n, c, position)
  {}

  lemma OwnAliases(n: Naming, c: Capability, position: nat, alias: string)
    ensures GoesBy(n, c, position, alias) <==> alias in ItemAliases(n, c, PrimaryId(n, c, position))
  {
    OwnId(n, c, position, PrimaryId(n, c, position));
    hide HasId, PrimaryId;
    forall id | HasId(n, c, position, id) ensures id == PrimaryId(n, c, position) {
      OwnId(n, c, position, id);
    }
  }

  lemma AliasStep(n: Naming, cs: seq<Capability>, alias: string)
    requires cs != []
    ensures var m := |cs| - 1;
            var before, now := AliasMap(n, cs[..m]), AliasMap(n, cs);
            if GoesBy(n, cs[m], |cs|, alias) then alias in now && now[alias] == PrimaryId(n, cs[m], |cs|)
            else (alias in now <==> alias in before) && (alias in now ==> now[alias] == before[alias])
  {
    hide ItemAliases, PrimaryId, GoesBy;
    OwnAliases(n, cs[|cs| - 1], |cs|, alias);
  }

  /** The table maps an alias to the id of the last item that goes by it. */
  lemma {:induction false} AliasMeaning(n: Naming, cs: seq<Capability>, alias: string)
    ensures alias in AliasMap(n, cs) ==> exists i :: LastToGoBy(n, cs, alias, i) && AliasMap(n, cs)[alias] == PrimaryId(n, cs[i], i + 1)
    ensures alias !in AliasMap(n, cs) ==> forall i :: 0 <= i < |cs| ==> !GoesBy(n, cs[i], i + 1, alias)
  {
    hide PrimaryId, GoesBy;
    if cs != [] {
      var m := |cs| - 1;
      var before := cs[..m];
      AliasStep(n, cs, alias);
      hide AliasMap;
      if GoesBy(n, cs[m], |cs|, alias) {
        assert LastToGoBy(n, cs, alias, m);
      } else {
        AliasMeaning(n, before, alias);
        if alias in AliasMap(n, before) {
          var i :| LastToGoBy(n, before, alias, i) && AliasMap(n, before)[alias] == PrimaryId(n, before[i], i + 1);
          assert LastToGoBy(n, cs, alias, i);
        }
      }
    }
  }

  lemma OneLast(n: Naming, cs: seq<Capability>, alias: string, i: int, j: int)
    requires LastToGoBy(n, cs, alias, i) && LastToGoBy(n, cs, alias, j)
    ensures i == j
  {
    hide GoesBy;
  }

  lemma ResolveMeaning(n: Naming, cs: seq<Capability>, ref: string, id: Id)
    ensures Resolve(n, cs, ref) == Some(id) <==> Means(n, cs, ref, id)
    ensures Resolve(n, cs, ref).None? <==> forall i :: 0 <= i < |cs| ==> !GoesBy(n, cs[i], i + 1, n.alias(ref))
  {
    hide AliasMap, PrimaryId, GoesBy, HasId;
    var alias := n.alias(ref);
    AliasMeaning(n, cs, alias);
    if alias in AliasMap(n, cs) {
      var i :| LastToGoBy(n, cs, alias, i) && AliasMap(n, cs)[alias] == PrimaryId(n, cs[i], i + 1);
      OwnId(n, cs[i], i + 1, id);
      if Means(n, cs, ref, id) {
        var j :| LastToGoBy(n, cs, alias, j) && HasId(n, cs[j], j + 1, id);
        OneLast(n, cs, alias, i, j);
      }
    }
  }

  // ----- Dependencies and findings -----

  /** The item is a mapping with this id whose references include `ref`. */
  ghost predicate RefersAt(n: Naming, cs: seq<Capability>, i: int, id: Id, ref: string) {
    && 0 <= i < |cs| && cs[i].Record? && cs[i].dependsOn.References? && ref in cs[i].dependsOn.refs
    && HasId(n, cs[i], i + 1, id)
  }

  ghost predicate Refers(n: Naming, cs: seq<Capability>, id: Id, ref: string) {
    exists i :: RefersAt(n, cs, i, id, ref)
  }

  ghost predicate ListMissing(n: Naming, cs: seq<Capability>, id: Id) {
    exists i :: 0 <= i < |cs| && cs[i].Record? && cs[i].dependsOn.NotAList? && HasId(n, cs[i], i + 1, id)
  }

  ghost predicate NobodyGoesBy(n: Naming, cs: seq<Capability>, alias: string) {
    forall i :: 0 <= i < |cs| ==> !GoesBy(n, cs[i], i + 1, alias)
  }

  lemma AnyDependsIff(n: Naming, cs: seq<Capability>, i: int, a: Id, b: Id)
    ensures DependsAt(n, cs, i, a, b) <==> exists ref :: RefersAt(n, cs, i, a, ref) && Means(n, cs, ref, b)
  {
    hide Resolve, PrimaryId, HasId, Means;
    if 0 <= i < |cs| {
      OwnId(n, cs[i], i + 1, a);
      forall ref ensures Resolve(n, cs, ref) == Some(b) <==> Means(n, cs, ref, b) {
        ResolveMeaning(n, cs, ref, b);
      }
    }
  }

  /** One capability depends on another exactly when an item with the one id has a reference that means the other. */
  lemma DependencyMeaning(n: Naming, cs: seq<Capability>, a: Id, b: Id)
    ensures (a, b) in Dependencies(n, cs) <==> exists ref :: Refers(n, cs, a, ref) && Means(n, cs, ref, b)
  {
    EdgesArePrimary(n, cs, a, b);
    hide DependsAt, RefersAt, Means, Primaries;
    forall i ensures DependsAt(n, cs, i, a, b) <==> exists ref :: RefersAt(n, cs, i, a, ref) && Means(n, cs, ref, b) {
      AnyDependsIff(n, cs, i, a, b);
    }
    if ref :| Refers(n, cs, a, ref) && Means(n, cs, ref, b) {
      var i :| RefersAt(n, cs, i, a, ref);
      assert DependsAt(n, cs, i, a, b);
    }
  }

  /** Every finding but a cycle, told from the items and the references they list. */
  lemma FindingMeaning(n: Naming, cs: seq<Capability>, f: Finding)
    ensures Warranted(n, cs, |cs|, f) <==>
            match f
            case MustBeList(id) => ListMissing(n, cs, id)
            case UnknownReference(id, ref) => Refers(n, cs, id, ref) && NobodyGoesBy(n, cs, n.alias(ref))
            case DependsOnItself(id) => exists ref :: Refers(n, cs, id, ref) && Means(n, cs, ref, id)
            case CycleFound(_) => false
  {
    match f
    case MustBeList(id) => MissingLists(n, cs, id);
    case UnknownReference(id, ref) => UnknownReferences(n, cs, id, ref);
    case DependsOnItself(id) => SelfReferences(n, cs, id);
    case CycleFound(_) =>
  }

  lemma MissingLists(n: Naming, cs: seq<Capability>, id: Id)
    ensures Warranted(n, cs, |cs|, MustBeList(id)) <==> ListMissing(n, cs, id)
  {
    hide PrimaryId, HasId, Resolve;
    forall i | 0 <= i < |cs|
      ensures WarrantedAt(n, cs, i, MustBeList(id)) <==> cs[i].Record? && cs[i].dependsOn.NotAList? && HasId(n, cs[i], i + 1, id)
    {
      OwnId(n, cs[i], i + 1, id);
    }
    hide WarrantedAt;
    if ListMissing(n, cs, id) {
      var i :| 0 <= i < |cs| && cs[i].Record? && cs[i].dependsOn.NotAList? && HasId(n, cs[i], i + 1, id);
      assert WarrantedAt(n, cs, i, MustBeList(id));
    }
  }

  lemma UnknownReferences(n: Naming, cs: seq<Capability>, id: Id, ref: string)
    ensures Warranted(n, cs, |cs|, UnknownReference(id, ref)) <==> Refers(n, cs, id, ref) && NobodyGoesBy(n, cs, n.alias(ref))
  {
    ResolveMeaning(n, cs, ref, id);
    hide PrimaryId, HasId, Resolve, GoesBy;
    var f := UnknownReference(id, ref);
    forall i ensures WarrantedAt(n, cs, i, f) <==> RefersAt(n, cs, i, id, ref) && Resolve(n, cs, ref).None? {
      if 0 <= i < |cs| {
        OwnId(n, cs[i], i + 1, id);
      }
    }
    hide WarrantedAt, RefersAt;
    if Refers(n, cs, id, ref) && NobodyGoesBy(n, cs, n.alias(ref)) {
      var i :| RefersAt(n, cs, i, id, ref);
      assert WarrantedAt(n, cs, i, f);
      InRange(n, cs, i, id, ref);
    }
  }

  lemma InRange(n: Naming, cs: seq<Capability>, i: int, id: Id, ref: string)
    requires RefersAt(n, cs, i, id, ref)
    ensures 0 <= i < |cs|
  {}

  lemma SelfReferences(n: Naming, cs: seq<Capability>, id: Id)
    ensures Warranted(n, cs, |cs|, DependsOnItself(id)) <==> exists ref :: Refers(n, cs, id, ref) && Means(n, cs, ref, id)
  {
    hide Resolve, PrimaryId, HasId, Means;
    var f := DependsOnItself(id);
    forall i ensures WarrantedAt(n, cs, i, f) <==> exists ref :: RefersAt(n, cs, i, id, ref) && Means(n, cs, ref, id) {
      AnyDependsIff(n, cs, i, id, id);
    }
    hide WarrantedAt, RefersAt;
    if ref :| Refers(n, cs, id, ref) && Means(n, cs, ref, id) {
      var i :| RefersAt(n, cs, i, id, ref);
      assert WarrantedAt(n, cs, i, f);
      InRange(n, cs, i, id, ref);
    }
  }
}
