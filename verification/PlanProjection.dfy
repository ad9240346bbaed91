/** The normal form that plan reconciliation compares, and what two documents with one normal form have in common. */
module PlanProjection {
  import opened Order
  import opened JsonValues

  /** How Python prints a normalised value; lists are sorted by it. */
  type Printer = Json -> string

  ghost predicate Injective(repr: Printer) {
    forall a, b :: repr(a) == repr(b) ==> a == b
  }

  predicate Provenance(key: string) {
    key == "plan_hash" || key == "baseline_head" || key == "bound_evidence"
  }

  function ByRepr(repr: Printer): (Json, Json) -> bool {
    (a, b) => StrLe(repr(a), repr(b))
  }

  function Normalize(repr: Printer, j: Json): Json {
    match j
    case Obj(m, _) => Record(map k | k in m && !Provenance(k) :: Normalize(repr, m[k]))
    case List(xs) => List(Sort(ByRepr(repr), NormalizeAll(repr, xs)))
    case _ => j
  }

  function NormalizeAll(repr: Printer, xs: seq<Json>): seq<Json> {
    seq(|xs|, i requires 0 <= i < |xs| => Normalize(repr, xs[i]))
  }

  lemma ByReprOrder(repr: Printer)
    ensures TotalPreorder(ByRepr(repr))
  {
    StrOrder();
  }

  lemma InjectiveTieless(repr: Printer, xs: multiset<Json>)
    requires Injective(repr)
    ensures Tieless(ByRepr(repr), xs)
  {
    StrOrder();
  }

  // ----- Likeness of documents -----

  /** The same document but for provenance fields and the order of list members, at any depth. */
  ghost predicate Alike(x: Json, y: Json)
    decreases x
  {
    match x
    case Obj(m, _) =>
      && y.Obj?
      && (forall k :: k != "plan_hash" && k != "baseline_head" && k != "bound_evidence" ==> (k in m <==> k in y.fields))
      && (forall k | k in m :: k == "plan_hash" || k == "baseline_head" || k == "bound_evidence" || Alike(m[k], y.fields[k]))
    case List(xs) => y.List? && exists zs :: Paired(x, xs, zs, y.items)
    case _ => x == y
  }

  /** `zs` lists the members of `ys` in an order that sets each beside its like in `xs`. */
  ghost predicate Paired(x: Json, xs: seq<Json>, zs: seq<Json>, ys: seq<Json>)
    requires forall i :: 0 <= i < |xs| ==> xs[i] < x
    decreases x, 0
  {
    multiset(zs) == multiset(ys) && |zs| == |xs| && forall i :: 0 <= i < |xs| ==> Alike(xs[i], zs[i])
  }

  function Normal(repr: Printer): Json -> Json {
    j => Normalize(repr, j)
  }

  lemma NormalizeAllMaps(repr: Printer, xs: seq<Json>)
    ensures NormalizeAll(repr, xs) == Mapped(Normal(repr), xs)
  {}

  function NormalFields(repr: Printer, m: Fields): Fields {
    map k | k in m && !Provenance(k) :: Normalize(repr, m[k])
  }

  lemma SameFieldsSameForm(repr: Printer, x: Json, y: Json)
    requires x.Obj? && y.Obj?
    requires forall k :: !Provenance(k) ==> (k in x.fields <==> k in y.fields)
    requires forall k :: k in x.fields && !Provenance(k) ==> Normalize(repr, x.fields[k]) == Normalize(repr, y.fields[k])
    ensures Normalize(repr, x) == Normalize(repr, y)
  {
    hide Record, Provenance;
    assert NormalFields(repr, x.fields) == NormalFields(repr, y.fields);
  }

  /** Documents alike have one normal form. */
  lemma {:induction false} AlikeSameForm(repr: Printer, x: Json, y: Json)
    requires Injective(repr) && Alike(x, y)
    ensures Normalize(repr, x) == Normalize(repr, y)
    decreases x
  {
    match x
    case Obj(m, _) =>
      forall k | k in m && !Provenance(k) ensures Normalize(repr, m[k]) == Normalize(repr, y.fields[k]) {
        AlikeSameForm(repr, m[k], y.fields[k]);
      }
      SameFieldsSameForm(repr, x, y);
    case List(xs) =>
      hide Injective;
      var zs :| Paired(x, xs, zs, y.items);
      forall i | 0 <= i < |xs| ensures Normalize(repr, xs[i]) == Normalize(repr, zs[i]) {
        AlikeSameForm(repr, xs[i], zs[i]);
      }
      SameImagesSameForm(repr, xs, zs, y.items);
    case _ =>
  }

  lemma SameImagesSameForm(repr: Printer, xs: seq<Json>, zs: seq<Json>, ys: seq<Json>)
    requires Injective(repr) && multiset(zs) == multiset(ys) && |xs| == |zs|
    requires forall i :: 0 <= i < |xs| ==> Normalize(repr, xs[i]) == Normalize(repr, zs[i])
    ensures Normalize(repr, List(xs)) == Normalize(repr, List(ys))
  {
    assert NormalizeAll(repr, xs) == NormalizeAll(repr, zs);
    NormalizeAllMaps(repr, zs);
    NormalizeAllMaps(repr, ys);
    MappedPermutes(Normal(repr), zs, ys);
    ByReprOrder(repr);
    InjectiveTieless(repr, multiset(NormalizeAll(repr, zs)));
    SortCanonicalOn(ByRepr(repr), NormalizeAll(repr, zs), NormalizeAll(repr, ys));
  }

  lemma SameFormLineUp(repr: Printer, xs: seq<Json>, ys: seq<Json>) returns (zs: seq<Json>)
    requires Normalize(repr, List(xs)) == Normalize(repr, List(ys))
    ensures multiset(zs) == multiset(ys) && |zs| == |xs|
    ensures forall i :: 0 <= i < |xs| ==> Normalize(repr, xs[i]) == Normalize(repr, zs[i])
  {
    SortPermutes(ByRepr(repr), NormalizeAll(repr, xs));
    SortPermutes(ByRepr(repr), NormalizeAll(repr, ys));
    NormalizeAllMaps(repr, xs);
    NormalizeAllMaps(repr, ys);
    zs := LineUp(Normal(repr), xs, ys);
    forall i | 0 <= i < |xs| ensures Normalize(repr, xs[i]) == Normalize(repr, zs[i]) {
      assert Mapped(Normal(repr), zs)[i] == Mapped(Normal(repr), xs)[i];
    }
  }

  /** Documents with one normal form are alike. */
  lemma {:induction false} SameFormAlike(repr: Printer, x: Json, y: Json)
    requires Normalize(repr, x) == Normalize(repr, y)
    ensures Alike(x, y)
    decreases x
  {
    match x
    case Obj(m, _) =>
      var n := y.fields;
      var fx, fy := Normalize(repr, x).fields, Normalize(repr, y).fields;
      forall k | !Provenance(k) ensures k in m <==> k in n {
        assert k in m <==> k in fx;
        assert k in n <==> k in fy;
      }
      forall k | k in m && !Provenance(k) ensures Alike(m[k], n[k]) {
        assert fx[k] == fy[k];
        SameFormAlike(repr, m[k], n[k]);
      }
    case List(xs) =>
      assert y.List?;
      var zs := SameFormLineUp(repr, xs, y.items);
      forall i | 0 <= i < |xs| ensures Alike(xs[i], zs[i]) {
        SameFormAlike(repr, xs[i], zs[i]);
      }
      assert Paired(x, xs, zs, y.items);
    case _ =>
      assert x == y;
  }

  /** The normal form decides likeness, when values print differently. */
  lemma SameFormIffAlike(repr: Printer, x: Json, y: Json)
    requires Injective(repr)
    ensures Normalize(repr, x) == Normalize(repr, y) <==> Alike(x, y)
  {
    if Alike(x, y) {
      AlikeSameForm(repr, x, y);
    }
    if Normalize(repr, x) == Normalize(repr, y) {
      SameFormAlike(repr, x, y);
    }
  }

  /** Values that Python finds equal have one normal form: it does not depend on the order of keys either. */
  lemma {:induction false} EqualSameForm(repr: Printer, x: Json, y: Json)
    requires Same(x, y)
    ensures Normalize(repr, x) == Normalize(repr, y)
    decreases x
  {
    hide Record;
    match x
    case Obj(m, _) =>
      forall k | k in m ensures Normalize(repr, m[k]) == Normalize(repr, y.fields[k]) {
        EqualSameForm(repr, m[k], y.fields[k]);
      }
      assert NormalFields(repr, m) == NormalFields(repr, y.fields);
    case List(xs) =>
      forall i | 0 <= i < |xs| ensures Normalize(repr, xs[i]) == Normalize(repr, y.items[i]) {
        EqualSameForm(repr, xs[i], y.items[i]);
      }
      assert NormalizeAll(repr, xs) == NormalizeAll(repr, y.items);
    case _ =>
  }
}
