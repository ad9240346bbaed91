/** The definitions of human gates: which of them count, before a plan goes through its document and after. */
module GateDefinitions {
  import opened Order
  import opened JsonValues
  import opened DependencyGraph
  import opened ExternalProjectModel
  import opened ExternalProjectDocument
  import SortPlaces

  /** Gate definitions by the text of their id; of definitions sharing one the last counts. */
  function DefinitionsById(env: Env, gates: seq<Fields>): map<string, Fields> {
    if gates == [] then map[]
    else map[TextOf(env, gates[0], "id") := gates[0]] + DefinitionsById(env, gates[1..])
  }

  /** Every required gate is approved or pending, and no gate is both. */
  predicate GatesBound(p: FrozenPlan) {
    var approved := Elements(p.project.binding.approvedHumanGates);
    var pending := Elements(p.project.binding.pendingHumanGates);
    approved !! pending && Required(p) <= approved + pending
  }

  function Required(p: FrozenPlan): set<string> {
    Elements(p.project.plan.requiredHumanGates)
  }

  predicate NameTasks(env: Env, definitions: map<string, Fields>, tasks: seq<Id>) {
    forall id :: id in definitions ==> TextOf(env, definitions[id], "task_id") in tasks
  }

  /** The gate check ends without a finding. */
  predicate GatesDefined(env: Env, p: FrozenPlan) {
    var definitions := DefinitionsById(env, p.humanGateDefinitions);
    GatesBound(p) && definitions.Keys == Required(p) && NameTasks(env, definitions, TaskIds(p))
  }

  // ----- Told from the plan before -----

  function PlainText(env: Env, key: string): Fields -> string {
    g => TextOf(env, g, key)
  }

  /** The text a field of a gate has once it is redacted. */
  function RedactedText(env: Env, key: string): Fields -> string {
    g => TextOf(env, RedactMapping(env.secretKey, g), key)
  }

  function TextsOf(text: Fields -> string, gates: seq<Fields>): set<string> {
    set i | 0 <= i < |gates| :: text(gates[i])
  }

  function Names(text: Fields -> string, tasks: seq<Id>): Fields -> bool {
    g => text(g) in tasks
  }

  /** The gates that count after redaction, each the last with its id text in the order of the texts before, name tasks. */
  predicate CountingNameTasks(env: Env, gates: seq<Fields>, tasks: seq<Id>) {
    SortPlaces.AllLastSorted(GateOrder(env), RedactedText(env, "id"), Names(RedactedText(env, "task_id"), tasks), gates)
  }

  /** What the gate check says of the plan that is read back. */
  predicate GatesDefinedReadBack(env: Env, p: FrozenPlan) {
    var gates := p.humanGateDefinitions;
    GatesBound(p) && TextsOf(RedactedText(env, "id"), gates) == Required(p) && CountingNameTasks(env, gates, TaskIds(p))
  }

  // ----- Definitions -----

  lemma {:induction false} DefinedTexts(env: Env, gates: seq<Fields>)
    ensures DefinitionsById(env, gates).Keys == TextsOf(PlainText(env, "id"), gates)
  {
    var id := PlainText(env, "id");
    if gates != [] {
      DefinedTexts(env, gates[1..]);
      forall x ensures x in TextsOf(id, gates) <==> x == id(gates[0]) || x in TextsOf(id, gates[1..]) {
        if i :| 0 <= i < |gates| && x == id(gates[i]) {
          assert i > 0 ==> gates[1..][i - 1] == gates[i];
        }
        if i :| 0 <= i < |gates| - 1 && x == id(gates[1..][i]) {
          assert gates[1..][i] == gates[i + 1];
        }
      }
    }
  }

  /** The definition under an id is the last with its text. */
  lemma {:induction false} DefinitionIsLast(env: Env, gates: seq<Fields>, i: nat)
    requires i < |gates| && SortPlaces.LastIn(PlainText(env, "id"), gates, i)
    ensures var id := PlainText(env, "id")(gates[i]); id in DefinitionsById(env, gates) && DefinitionsById(env, gates)[id] == gates[i]
  {
    hide TextOf, SortPlaces.LastIn;
    if i > 0 {
      LastInTail(PlainText(env, "id"), gates, i);
      DefinitionIsLast(env, gates[1..], i - 1);
    } else {
      DefinedTexts(env, gates[1..]);
      LastHead(PlainText(env, "id"), gates);
    }
    hide PlainText, TextsOf;
  }

  lemma LastInTail(text: Fields -> string, gates: seq<Fields>, i: nat)
    requires 0 < i < |gates| && SortPlaces.LastIn(text, gates, i)
    ensures SortPlaces.LastIn(text, gates[1..], i - 1)
  {
    assert forall j :: i - 1 < j < |gates| - 1 ==> gates[1..][j] == gates[j + 1];
  }

  lemma LastHead(text: Fields -> string, gates: seq<Fields>)
    requires gates != [] && SortPlaces.LastIn(text, gates, 0)
    ensures text(gates[0]) !in TextsOf(text, gates[1..])
  {
    assert forall j :: 0 <= j < |gates| - 1 ==> gates[1..][j] == gates[j + 1];
  }

  lemma {:induction false} LastFrom(text: Fields -> string, gates: seq<Fields>, first: nat) returns (i: nat)
    requires first < |gates|
    ensures i < |gates| && text(gates[i]) == text(gates[first]) && SortPlaces.LastIn(text, gates, i)
    decreases |gates| - first
  {
    i := first;
    if j :| first < j < |gates| && text(gates[j]) == text(gates[first]) {
      i := LastFrom(text, gates, j);
    }
  }

  lemma DefinitionsNameTasks(env: Env, gates: seq<Fields>, tasks: seq<Id>)
    ensures NameTasks(env, DefinitionsById(env, gates), tasks)
            <==> SortPlaces.AllLast(PlainText(env, "id"), Names(PlainText(env, "task_id"), tasks), gates)
  {
    hide TextOf;
    var definitions, id := DefinitionsById(env, gates), PlainText(env, "id");
    DefinedTexts(env, gates);
    forall x | x in definitions
      ensures exists i: nat :: i < |gates| && SortPlaces.LastIn(id, gates, i) && id(gates[i]) == x && definitions[x] == gates[i]
    {
      var first :| 0 <= first < |gates| && id(gates[first]) == x;
      var i := LastFrom(id, gates, first);
      DefinitionIsLast(env, gates, i);
    }
    forall i: nat | i < |gates| && SortPlaces.LastIn(id, gates, i)
      ensures id(gates[i]) in definitions && definitions[id(gates[i])] == gates[i]
    {
      DefinitionIsLast(env, gates, i);
    }
  }

  // ----- Definitions read back -----

  lemma TextsReadBack(env: Env, gates: seq<Fields>)
    ensures TextsOf(PlainText(env, "id"), ReadBackGates(env, SortGates(env, gates))) == TextsOf(RedactedText(env, "id"), gates)
  {
    hide TextOf, RedactMapping;
    var once := SortGates(env, gates);
    var back := ReadBackGates(env, once);
    SortKeepsElements(GateOrder(env), gates);
    assert forall g :: g in once <==> g in gates;
    hide SortGates;
    var before, after := PlainText(env, "id"), RedactedText(env, "id");
    assert forall k :: 0 <= k < |back| ==> before(back[k]) == after(once[k]);
    forall x ensures x in TextsOf(before, back) <==> x in TextsOf(after, gates) {
      if k :| 0 <= k < |back| && x == before(back[k]) {
        assert once[k] in gates;
      }
      if i :| 0 <= i < |gates| && x == after(gates[i]) {
        assert gates[i] in once;
        var k :| 0 <= k < |once| && once[k] == gates[i];
        assert before(back[k]) == x;
      }
    }
  }

  /** Texts read back are the redacted ones, so the same definitions count. */
  lemma SameLast(env: Env, once: seq<Fields>, tasks: seq<Id>)
    ensures SortPlaces.AllLast(PlainText(env, "id"), Names(PlainText(env, "task_id"), tasks), ReadBackGates(env, once))
            <==> SortPlaces.AllLast(RedactedText(env, "id"), Names(RedactedText(env, "task_id"), tasks), once)
  {
    hide TextOf, RedactMapping;
    var back := ReadBackGates(env, once);
    var before, after := PlainText(env, "id"), RedactedText(env, "id");
    assert forall k :: 0 <= k < |back| ==> before(back[k]) == after(once[k]);
    forall i: nat | i < |once|
      ensures SortPlaces.LastIn(before, back, i) <==> SortPlaces.LastIn(after, once, i)
      ensures PlainText(env, "task_id")(back[i]) == RedactedText(env, "task_id")(once[i])
    {}
    hide SortPlaces.LastIn;
  }

  /** The gate check on the plan read back, told from the plan before, for all gates. */
  lemma GatesReadBack(env: Env, p: FrozenPlan)
    ensures GatesDefined(env, ReadBack(env, p)) <==> GatesDefinedReadBack(env, p)
  {
    hide GatesBound, Required, ReadBack, TaskIds, NameTasks, TextsOf, PlainText, RedactedText, Names, SortPlaces.AllLast;
    hide SortPlaces.AllLastSorted, TotalPreorder, DefinitionsById, ReadBackGates, GateOrder, Sort;
    var gates := p.humanGateDefinitions;
    var back := ReadBackGates(env, SortGates(env, gates));
    TaskIdsSame(env, p);
    BoundSame(env, p);
    DefinedTexts(env, back);
    TextsReadBack(env, gates);
    DefinitionsNameTasks(env, back, TaskIds(p));
    SameLast(env, SortGates(env, gates), TaskIds(p));
    GateOrderTotal(env);
    SortPlaces.LastSorted(GateOrder(env), RedactedText(env, "id"), Names(RedactedText(env, "task_id"), TaskIds(p)), gates);
  }

  lemma BoundSame(env: Env, p: FrozenPlan)
    ensures GatesBound(ReadBack(env, p)) == GatesBound(p) && Required(ReadBack(env, p)) == Required(p)
    ensures ReadBack(env, p).humanGateDefinitions == ReadBackGates(env, SortGates(env, p.humanGateDefinitions))
  {}

  /** Redaction keeps the set of id texts, and the gates that count after it name tasks. */
  predicate GatesKept(env: Env, p: FrozenPlan) {
    var gates := p.humanGateDefinitions;
    && TextsOf(RedactedText(env, "id"), gates) == TextsOf(PlainText(env, "id"), gates)
    && CountingNameTasks(env, gates, TaskIds(p))
  }

  lemma DefinedGatesKept(env: Env, p: FrozenPlan)
    requires GatesDefined(env, p)
    ensures GatesDefinedReadBack(env, p) <==> GatesKept(env, p)
  {
    DefinedTexts(env, p.humanGateDefinitions);
    hide GatesBound, Required, TextsOf, CountingNameTasks, NameTasks, RedactedText, PlainText;
  }

  /** Redaction leaves the texts of a gate's `id` and `task_id` alone. */
  predicate GateTextsStay(env: Env, g: Fields) {
    TextStays(env, g, "id") && TextStays(env, g, "task_id")
  }

  /** As it does when they are neither objects nor lists. */
  lemma PlainGateTextsStay(env: Env, g: Fields)
    requires !env.secretKey("id") && !env.secretKey("task_id")
    requires "id" in g ==> !g["id"].Obj? && !g["id"].List?
    requires "task_id" in g ==> !g["task_id"].Obj? && !g["task_id"].List?
    ensures GateTextsStay(env, g)
  {
    PlainTextStays(env, g, "id");
    PlainTextStays(env, g, "task_id");
  }

  lemma UnmovedTexts(env: Env, gates: seq<Fields>)
    requires forall g :: g in gates ==> GateTextsStay(env, g)
    ensures forall i :: 0 <= i < |gates| ==>
              && RedactedText(env, "id")(gates[i]) == PlainText(env, "id")(gates[i])
              && RedactedText(env, "task_id")(gates[i]) == PlainText(env, "task_id")(gates[i])
    ensures TextsOf(RedactedText(env, "id"), gates) == TextsOf(PlainText(env, "id"), gates)
  {
    hide TextOf, RedactMapping;
    forall i | 0 <= i < |gates|
      ensures RedactedText(env, "id")(gates[i]) == PlainText(env, "id")(gates[i])
      ensures RedactedText(env, "task_id")(gates[i]) == PlainText(env, "task_id")(gates[i])
    {
      assert GateTextsStay(env, gates[i]);
    }
  }

  lemma UnmovedCounting(env: Env, gates: seq<Fields>, tasks: seq<Id>)
    requires forall g :: g in gates ==> GateTextsStay(env, g)
    ensures CountingNameTasks(env, gates, tasks)
            <==> SortPlaces.AllLast(PlainText(env, "id"), Names(PlainText(env, "task_id"), tasks), gates)
  {
    hide GateTextsStay, RedactedText, PlainText, GateOrder, SortPlaces.Last, SortPlaces.LastIn;
    UnmovedTexts(env, gates);
    forall i: nat | i < |gates|
      ensures SortPlaces.Last(GateOrder(env), RedactedText(env, "id"), gates, i) <==> SortPlaces.LastIn(PlainText(env, "id"), gates, i)
    {
      UnmovedLast(env, gates, i);
    }
  }

  /** Gates whose texts redaction leaves alone are judged as before. */
  lemma UnmovedGates(env: Env, p: FrozenPlan)
    requires forall g :: g in p.humanGateDefinitions ==> GateTextsStay(env, g)
    ensures GatesDefinedReadBack(env, p) <==> GatesDefined(env, p)
  {
    hide GateTextsStay, GatesBound, Required, TaskIds, NameTasks, TextsOf, PlainText, RedactedText, Names, CountingNameTasks;
    hide SortPlaces.AllLast, DefinitionsById;
    var gates := p.humanGateDefinitions;
    DefinedTexts(env, gates);
    DefinitionsNameTasks(env, gates, TaskIds(p));
    UnmovedTexts(env, gates);
    UnmovedCounting(env, gates, TaskIds(p));
  }

  lemma UnmovedLast(env: Env, gates: seq<Fields>, i: nat)
    requires i < |gates|
    requires forall j :: 0 <= j < |gates| ==> RedactedText(env, "id")(gates[j]) == PlainText(env, "id")(gates[j])
    ensures SortPlaces.Last(GateOrder(env), RedactedText(env, "id"), gates, i) <==> SortPlaces.LastIn(PlainText(env, "id"), gates, i)
  {
    StrOrder();
    hide TextOf, RedactMapping, StrLe;
    var before, after := PlainText(env, "id"), RedactedText(env, "id");
    forall j: nat | j < |gates| && after(gates[j]) == after(gates[i])
      ensures j != i ==> (SortPlaces.Precedes(GateOrder(env), gates, j, i) <==> j < i)
    {
      assert before(gates[j]) == before(gates[i]);
    }
  }

  /** A single gate whose id text redaction changes is not the required one any more. */
  lemma MovedIdUndefined(env: Env, p: FrozenPlan)
    requires |p.humanGateDefinitions| == 1 && !TextStays(env, p.humanGateDefinitions[0], "id")
    requires GatesDefined(env, p)
    ensures !GatesDefined(env, ReadBack(env, p))
  {
    hide TextOf, RedactMapping;
    var g := p.humanGateDefinitions[0];
    GatesReadBack(env, p);
    DefinedGatesKept(env, p);
    assert PlainText(env, "id")(g) in TextsOf(PlainText(env, "id"), p.humanGateDefinitions);
    hide CountingNameTasks, GatesDefined, GatesDefinedReadBack;
  }

  /** Of several gates texts can move and the set of them stay: when others have the shown id before and after as theirs. */
  lemma MovedTextKept(env: Env, id: Json, gates: seq<Fields>)
    requires !env.secretKey("id") && !id.Str?
    requires gates == [map["id" := id], map["id" := Str(env.show(id))], map["id" := Str(env.show(Redact(env.secretKey, id)))]]
    ensures TextsOf(RedactedText(env, "id"), gates) == TextsOf(PlainText(env, "id"), gates)
  {
    hide Redact;
    var before, after := env.show(id), env.show(Redact(env.secretKey, id));
    TextUnredacted(env.secretKey, before);
    TextUnredacted(env.secretKey, after);
    RedactKeepsShape(env.secretKey, id);
    assert RedactMapping(env.secretKey, gates[0])["id"] == Redact(env.secretKey, id);
    hide RedactMapping;
    ThreeTexts(PlainText(env, "id"), gates);
    ThreeTexts(RedactedText(env, "id"), gates);
  }

  lemma ThreeTexts(text: Fields -> string, gates: seq<Fields>)
    requires |gates| == 3
    ensures TextsOf(text, gates) == {text(gates[0]), text(gates[1]), text(gates[2])}
  {
    forall x | x in {text(gates[0]), text(gates[1]), text(gates[2])} ensures x in TextsOf(text, gates) {
      var i := if x == text(gates[0]) then 0 else if x == text(gates[1]) then 1 else 2;
      assert text(gates[i]) in TextsOf(text, gates);
    }
  }
}
