/** Manifest intake's check of capability dependencies: aliases, references and cycles. */
module CapabilityDependencies {
  import opened Order
  import opened DependencyGraph
  import ManifestCycle
  import opened Wrappers

  /** `id`, `name` and `title` are None unless they hold a string that is not blank; other references went through `str`. */
  datatype Capability =
    | Named(text: string)
    | Record(id: Option<string>, name: Option<string>, title: Option<string>, dependsOn: DependsOn)
    | Other

  datatype DependsOn = NotAList | References(refs: seq<string>)

  /** The slug of a text, and the stand-in id of an item without one, which its position gives. */
  datatype Naming = Naming(alias: string -> string, standIn: nat -> string)

  datatype Finding = MustBeList(id: Id) | UnknownReference(id: Id, ref: string) | DependsOnItself(id: Id) | CycleFound(path: seq<Id>)

  function PrimaryId(n: Naming, c: Capability, index: nat): Id {
    match c
    case Named(text) => n.alias(text)
    case Record(Some(id), _, _, _) => id
    case Record(None, Some(name), _, _) => n.alias(name)
    case Record(None, None, Some(title), _) => n.alias(title)
    case _ => n.standIn(index)
  }

  function AliasOf(n: Naming, text: Option<string>): set<string> {
    match text case None => {} case Some(t) => {n.alias(t)}
  }

  function ItemAliases(n: Naming, c: Capability, primary: Id): set<string> {
    {n.alias(primary)}
    + match c
      case Named(text) => {n.alias(text)}
      case Record(id, name, title, _) => AliasOf(n, id) + AliasOf(n, name) + AliasOf(n, title)
      case Other => {}
  }

  /** Positions count from one; of items sharing an alias the last one has it. */
  function AliasMap(n: Naming, cs: seq<Capability>): map<string, Id> {
    if cs == [] then map[]
    else
      var c, primary := cs[|cs| - 1], PrimaryId(n, cs[|cs| - 1], |cs|);
      AliasMap(n, cs[..|cs| - 1]) + map a | a in ItemAliases(n, c, primary) :: primary
  }

  function Primary(n: Naming, cs: seq<Capability>, i: nat): Id
    requires i < |cs|
  {
    PrimaryId(n, cs[i], i + 1)
  }

  function Primaries(n: Naming, cs: seq<Capability>): set<Id> {
    set i | 0 <= i < |cs| :: Primary(n, cs, i)
  }

  function Resolve(n: Naming, cs: seq<Capability>, ref: string): Option<Id> {
    var m := AliasMap(n, cs);
    if n.alias(ref) in m then Some(m[n.alias(ref)]) else None
  }

  /** The ids that references resolve to. */
  function Targets(n: Naming, cs: seq<Capability>, refs: seq<string>): set<Id> {
    set ref | ref in refs && Resolve(n, cs, ref).Some? :: Resolve(n, cs, ref).value
  }

  predicate HasReferences(c: Capability) {
    c.Record? && c.dependsOn.References?
  }

  /** The capability at `i` has id `a` and refers to `b`. */
  predicate DependsAt(n: Naming, cs: seq<Capability>, i: int, a: Id, b: Id) {
    0 <= i < |cs| && HasReferences(cs[i]) && Primary(n, cs, i) == a && b in Targets(n, cs, cs[i].dependsOn.refs)
  }

  /** What the references of one capability give rise to. */
  function ReferenceFindings(n: Naming, cs: seq<Capability>, id: Id, refs: seq<string>): set<Finding> {
    (set ref | ref in refs && Resolve(n, cs, ref).None? :: UnknownReference(id, ref))
    + if id in Targets(n, cs, refs) then {DependsOnItself(id)} else {}
  }

  predicate WarrantedAt(n: Naming, cs: seq<Capability>, i: int, f: Finding) {
    && 0 <= i < |cs| && cs[i].Record?
    && match cs[i].dependsOn
       case NotAList => f == MustBeList(Primary(n, cs, i))
       case References(refs) => f in ReferenceFindings(n, cs, Primary(n, cs, i), refs)
  }

  lemma {:induction false} AliasesArePrimaries(n: Naming, cs: seq<Capability>, a: string)
    ensures a in AliasMap(n, cs) ==> AliasMap(n, cs)[a] in Primaries(n, cs)
  {
    hide ItemAliases, PrimaryId;
    if cs != [] {
      var before := cs[..|cs| - 1];
      AliasesArePrimaries(n, before, a);
      forall p | p in Primaries(n, before) ensures p in Primaries(n, cs) {
        var i :| 0 <= i < |before| && Primary(n, before, i) == p;
        assert Primary(n, cs, i) == p;
      }
      assert Primary(n, cs, |cs| - 1) in Primaries(n, cs);
    }
  }

  method Aliases(n: Naming, cs: seq<Capability>) returns (aliases: map<string, Id>, primaries: seq<Id>)
    ensures aliases == AliasMap(n, cs)
    ensures |primaries| == |cs| && forall i :: 0 <= i < |cs| ==> primaries[i] == Primary(n, cs, i)
  {
    aliases, primaries := map[], [];
    for index := 0 to |cs|
      invariant aliases == AliasMap(n, cs[..index])
      invariant |primaries| == index && forall i :: 0 <= i < index ==> primaries[i] == Primary(n, cs, i)
    {
      var primary := PrimaryId(n, cs[index], index + 1);
      assert cs[..index + 1][..index] == cs[..index];
      primaries := primaries + [primary];
      aliases := aliases + map a | a in ItemAliases(n, cs[index], primary) :: primary;
    }
    assert cs[..|cs|] == cs;
  }

  method AddReferences(n: Naming, cs: seq<Capability>, aliases: map<string, Id>, id: Id, refs: seq<string>,
                       graph: map<Id, set<Id>>, findings: seq<Finding>)
    returns (g: map<Id, set<Id>>, fs: seq<Finding>)
    requires aliases == AliasMap(n, cs) && id in graph
    ensures g == graph[id := graph[id] + Targets(n, cs, refs)]
    ensures Elements(fs) == Elements(findings) + ReferenceFindings(n, cs, id, refs)
  {
    hide AliasMap;
    g, fs := graph, findings;
    assert Targets(n, cs, refs[..0]) == {} && graph[id] + {} == graph[id];
    assert graph == graph[id := graph[id]];
    for j := 0 to |refs|
      invariant g == graph[id := graph[id] + Targets(n, cs, refs[..j])]
      invariant Elements(fs) == Elements(findings) + ReferenceFindings(n, cs, id, refs[..j])
    {
      hide Targets, ReferenceFindings, Elements;
      ReferenceNext(n, cs, id, refs, j);
      var ref := refs[j];
      if n.alias(ref) !in aliases {
        ElementsAppend(fs, UnknownReference(id, ref));
        fs := fs + [UnknownReference(id, ref)];
        continue;
      }
      var dependency := aliases[n.alias(ref)];
      if dependency == id {
        ElementsAppend(fs, DependsOnItself(id));
        fs := fs + [DependsOnItself(id)];
      }
      assert graph[id] + (Targets(n, cs, refs[..j]) + {dependency}) == g[id] + {dependency};
      g := g[id := g[id] + {dependency}];
    }
    assert refs[..|refs|] == refs;
  }

  lemma ElementsAppend<T>(xs: seq<T>, x: T)
    ensures Elements(xs + [x]) == Elements(xs) + {x}
  {}

  lemma ReferenceNext(n: Naming, cs: seq<Capability>, id: Id, refs: seq<string>, j: nat)
    requires j < |refs|
    ensures Resolve(n, cs, refs[j]).None? ==> Targets(n, cs, refs[..j + 1]) == Targets(n, cs, refs[..j])
    ensures Resolve(n, cs, refs[j]).Some? ==>
              Targets(n, cs, refs[..j + 1]) == Targets(n, cs, refs[..j]) + {Resolve(n, cs, refs[j]).value}
    ensures ReferenceFindings(n, cs, id, refs[..j + 1]) ==
            ReferenceFindings(n, cs, id, refs[..j])
            + match Resolve(n, cs, refs[j])
              case None => {UnknownReference(id, refs[j])}
              case Some(b) => if b == id then {DependsOnItself(id)} else {}
  {
    hide Resolve;
    assert refs[..j + 1] == refs[..j] + [refs[j]];
  }

  ghost predicate EdgeBefore(n: Naming, cs: seq<Capability>, upTo: nat, a: Id, b: Id) {
    exists i :: i < upTo && DependsAt(n, cs, i, a, b)
  }

  ghost predicate Warranted(n: Naming, cs: seq<Capability>, upTo: nat, f: Finding) {
    exists i :: i < upTo && WarrantedAt(n, cs, i, f)
  }

  /** The graph of the first `upTo` capabilities. */
  ghost predicate GraphOf(n: Naming, cs: seq<Capability>, g: map<Id, set<Id>>, upTo: nat) {
    g.Keys == Primaries(n, cs) && forall a, b :: a in g ==> (b in g[a] <==> EdgeBefore(n, cs, upTo, a, b))
  }

  ghost predicate FindingsOf(n: Naming, cs: seq<Capability>, fs: seq<Finding>, upTo: nat) {
    forall f :: f in Elements(fs) <==> Warranted(n, cs, upTo, f)
  }

  lemma GraphNext(n: Naming, cs: seq<Capability>, i: nat, before: map<Id, set<Id>>, g: map<Id, set<Id>>)
    requires i < |cs| && GraphOf(n, cs, before, i) && Primary(n, cs, i) in before
    requires g == if HasReferences(cs[i])
                  then before[Primary(n, cs, i) := before[Primary(n, cs, i)] + Targets(n, cs, cs[i].dependsOn.refs)] else before
    ensures GraphOf(n, cs, g, i + 1)
  {
    hide Primary, Targets, Primaries;
    forall a, b | a in g ensures b in g[a] <==> EdgeBefore(n, cs, i + 1, a, b) {
      assert b in before[a] <==> EdgeBefore(n, cs, i, a, b);
      assert DependsAt(n, cs, i, a, b) ==> EdgeBefore(n, cs, i + 1, a, b);
    }
  }

  lemma FindingsNext(n: Naming, cs: seq<Capability>, i: nat, before: seq<Finding>, fs: seq<Finding>)
    requires i < |cs| && FindingsOf(n, cs, before, i)
    requires forall f :: f in Elements(fs) <==> f in Elements(before) || WarrantedAt(n, cs, i, f)
    ensures FindingsOf(n, cs, fs, i + 1)
  {
    hide WarrantedAt, Elements;
  }

  lemma NothingBefore(n: Naming, cs: seq<Capability>)
    ensures forall a, b :: !EdgeBefore(n, cs, 0, a, b)
    ensures FindingsOf(n, cs, [], 0)
  {}

  method ReadDependencies(n: Naming, cs: seq<Capability>) returns (graph: map<Id, set<Id>>, findings: seq<Finding>)
    ensures GraphOf(n, cs, graph, |cs|) && FindingsOf(n, cs, findings, |cs|)
  {
    var aliases, primaries := Aliases(n, cs);
    graph := map p | p in primaries :: {};
    assert graph.Keys == Primaries(n, cs) by {
      forall p ensures p in primaries <==> p in Primaries(n, cs) {}
    }
    findings := [];
    NothingBefore(n, cs);
    hide AliasMap, Primary, ReferenceFindings, Targets, Elements, EdgeBefore;
    for i := 0 to |cs|
      invariant GraphOf(n, cs, graph, i) && FindingsOf(n, cs, findings, i)
    {
      var id := primaries[i];
      ghost var g, fs := graph, findings;
      assert id in Primaries(n, cs);
      if cs[i].Record? {
        if cs[i].dependsOn.NotAList? {
          ElementsAppend(findings, MustBeList(id));
          findings := findings + [MustBeList(id)];
        } else {
          graph, findings := AddReferences(n, cs, aliases, id, cs[i].dependsOn.refs, graph, findings);
        }
      }
      hide GraphOf, FindingsOf, Primaries;
      GraphNext(n, cs, i, g, graph);
      FindingsNext(n, cs, i, fs, findings);
    }
  }

  /** Some capability with id `a` refers to one with id `b`. */
  ghost predicate DependsOnCapability(n: Naming, cs: seq<Capability>, a: Id, b: Id) {
    exists i :: DependsAt(n, cs, i, a, b)
  }

  /** All dependencies between capability ids. */
  ghost function Dependencies(n: Naming, cs: seq<Capability>): set<Edge> {
    set a, b | a in Primaries(n, cs) && b in Primaries(n, cs) && DependsOnCapability(n, cs, a, b) :: (a, b)
  }

  /** The findings besides a cycle are the warranted ones; a cycle is found, and written out, exactly when dependencies have one. */
  method ValidateCapabilityDependencies(n: Naming, cs: seq<Capability>) returns (findings: seq<Finding>)
    ensures forall f: Finding :: !f.CycleFound? ==> (f in findings <==> Warranted(n, cs, |cs|, f))
    ensures forall f :: f in findings && f.CycleFound? ==> SimpleCycle(Dependencies(n, cs), f.path)
    ensures HasCycleFinding(findings) <==> Cyclic(Dependencies(n, cs))
  {
    var graph;
    graph, findings := ReadDependencies(n, cs);
    GraphIsDependencies(n, cs, graph);
    NoCyclesYet(n, cs, findings);
    hide Warranted, GraphOf, Dependencies, Cyclic, SimpleCycle;
    var cycle := ManifestCycle.Cycle(graph);
    if cycle != [] {
      findings := findings + [CycleFound(cycle)];
      assert findings[|findings| - 1].CycleFound?;
    }
  }

  ghost predicate HasCycleFinding(findings: seq<Finding>) {
    exists f :: f in findings && f.CycleFound?
  }

  lemma NoCyclesYet(n: Naming, cs: seq<Capability>, findings: seq<Finding>)
    requires FindingsOf(n, cs, findings, |cs|)
    ensures forall f :: f in findings ==> !f.CycleFound?
    ensures forall f :: f in findings <==> Warranted(n, cs, |cs|, f)
  {
    forall f ensures f in findings <==> Warranted(n, cs, |cs|, f) {
      assert f in findings <==> f in Elements(findings);
    }
  }

  lemma GraphIsDependencies(n: Naming, cs: seq<Capability>, graph: map<Id, set<Id>>)
    requires GraphOf(n, cs, graph, |cs|)
    ensures EdgesOf(graph) == Dependencies(n, cs)
  {
    forall a, b ensures (a, b) in EdgesOf(graph) <==> (a, b) in Dependencies(n, cs) {
      EdgesArePrimary(n, cs, a, b);
      hide Primaries, DependsAt;
      assert (a, b) in EdgesOf(graph) <==> a in graph && b in graph[a];
    }
  }

  lemma EdgesArePrimary(n: Naming, cs: seq<Capability>, a: Id, b: Id)
    ensures DependsOnCapability(n, cs, a, b) <==> EdgeBefore(n, cs, |cs|, a, b)
    ensures DependsOnCapability(n, cs, a, b) ==> a in Primaries(n, cs) && b in Primaries(n, cs)
  {
    hide AliasMap;
    if DependsOnCapability(n, cs, a, b) {
      var i :| DependsAt(n, cs, i, a, b);
      assert i < |cs|;
      var ref :| ref in cs[i].dependsOn.refs && Resolve(n, cs, ref) == Some(b);
      AliasesArePrimaries(n, cs, n.alias(ref));
    }
  }

  /** No finding: every dependency list is one, every reference resolves, and no capability depends on itself in any number of steps. */
  lemma CleanIff(n: Naming, cs: seq<Capability>, findings: seq<Finding>)
    requires forall f: Finding :: !f.CycleFound? ==> (f in findings <==> Warranted(n, cs, |cs|, f))
    requires HasCycleFinding(findings) <==> Cyclic(Dependencies(n, cs))
    ensures findings == [] <==>
            && (forall i :: 0 <= i < |cs| && cs[i].Record? ==> cs[i].dependsOn.References?)
            && (forall i, ref :: 0 <= i < |cs| && HasReferences(cs[i]) && ref in cs[i].dependsOn.refs ==> Resolve(n, cs, ref).Some?)
            && !Cyclic(Dependencies(n, cs))
  {
    hide AliasMap, Primary, Cyclic;
    if findings == [] {
      forall i | 0 <= i < |cs| && cs[i].Record? ensures cs[i].dependsOn.References? {
        var f := MustBeList(Primary(n, cs, i));
        assert WarrantedAt(n, cs, i, f) ==> f in findings;
      }
      forall i, ref | 0 <= i < |cs| && HasReferences(cs[i]) && ref in cs[i].dependsOn.refs ensures Resolve(n, cs, ref).Some? {
        var f := UnknownReference(Primary(n, cs, i), ref);
        assert WarrantedAt(n, cs, i, f) ==> f in findings;
      }
    } else if !findings[0].CycleFound? {
      var f := findings[0];
      assert f in findings;
      var i :| i < |cs| && WarrantedAt(n, cs, i, f);
      if f.DependsOnItself? {
        assert DependsAt(n, cs, i, f.id, f.id);
        SelfDependencyCycles(n, cs, f.id);
      }
    } else {
      assert findings[0] in findings;
    }
  }

  lemma SelfDependencyCycles(n: Naming, cs: seq<Capability>, id: Id)
    requires DependsOnCapability(n, cs, id, id)
    ensures Cyclic(Dependencies(n, cs))
  {
    EdgesArePrimary(n, cs, id, id);
    assert (id, id) in Dependencies(n, cs);
    EdgeReaches(Dependencies(n, cs), id, id);
  }
}
