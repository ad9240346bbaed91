/** JSON documents, the field readers of the external-project loader, and structural redaction. */
module JsonValues {
  import opened Order
  import opened Wrappers

  /**
   * Objects remember the order of their keys, which `str` shows. Python's equality and the canonical encoding do not
   * look at it: see `Same`.
   */
  datatype Json =
    | Null
    | Bool(b: bool)
    | Int(i: int)
    | Real(r: real)
    | Str(s: string)
    | List(items: seq<Json>)
    | Obj(fields: Fields, order: seq<string>)

  type Fields = map<string, Json>

  /** A service error names the field it complains about. */
  datatype Read<+T> = Ok(value: T) | Bad(field: string) {
    predicate IsFailure() { Bad? }
    function PropagateFailure<U>(): Read<U>
      requires Bad?
    {
      Bad(field)
    }
    function Extract(): T
      requires Ok?
    {
      value
    }
  }

  /** The object with its keys in order, as redaction and the canonical encoding leave it. */
  function Record(m: Fields): (r: Json)
    ensures r.Obj? && r.fields == m
  {
    Obj(m, Sorted(m.Keys))
  }

  /** Python's equality. */
  predicate Same(x: Json, y: Json)
    decreases x
  {
    match x
    case Obj(m, _) => y.Obj? && m.Keys == y.fields.Keys && forall k | k in m :: Same(m[k], y.fields[k])
    case List(xs) => y.List? && |xs| == |y.items| && forall i | 0 <= i < |xs| :: Same(xs[i], y.items[i])
    case _ => x == y
  }

  function StrList(xs: seq<string>): Json {
    List(seq(|xs|, i requires 0 <= i < |xs| => Str(xs[i])))
  }

  function Nullable(x: Option<string>): Json {
    match x case None => Null case Some(s) => Str(s)
  }

  // ----- Field readers -----

  function RequireMapping(m: Fields, key: string): Read<Fields> {
    if key in m && m[key].Obj? then Ok(m[key].fields) else Bad(key)
  }

  function RequiredStr(m: Fields, key: string): Read<string> {
    if key in m && m[key].Str? && m[key].s != "" then Ok(m[key].s) else Bad(key)
  }

  function OptionalStr(m: Fields, key: string, default: string): Read<string> {
    var value := if key in m then m[key] else Str(default);
    if value.Str? && value.s != "" then Ok(value.s) else Bad(key)
  }

  function NullableStr(m: Fields, key: string): Read<Option<string>> {
    if key !in m || m[key].Null? then Ok(None)
    else if m[key].Str? then Ok(Some(m[key].s))
    else Bad(key)
  }

  predicate IsStrList(j: Json) {
    j.List? && forall i :: 0 <= i < |j.items| ==> j.items[i].Str?
  }

  function StrItems(j: Json): seq<string>
    requires IsStrList(j)
  {
    seq(|j.items|, i requires 0 <= i < |j.items| => j.items[i].s)
  }

  function RequiredStrs(m: Fields, key: string): Read<seq<string>> {
    if key in m && IsStrList(m[key]) then Ok(StrItems(m[key])) else Bad(key)
  }

  function OptionalStrs(m: Fields, key: string, default: seq<string>): Read<seq<string>> {
    if key !in m then Ok(default) else RequiredStrs(m, key)
  }

  function OptionalBool(m: Fields, key: string, default: bool): Read<bool> {
    if key !in m then Ok(default)
    else if m[key].Bool? then Ok(m[key].b)
    else Bad(key)
  }

  /** Python counts booleans among the integers, so both are let through as they are. */
  function OptionalInt(m: Fields, key: string, default: int): Read<Json> {
    var value := if key in m then m[key] else Int(default);
    if value.Int? || value.Bool? then Ok(value) else Bad(key)
  }

  predicate IsMappingList(j: Json) {
    j.List? && forall i :: 0 <= i < |j.items| ==> j.items[i].Obj?
  }

  function Mappings(j: Json): seq<Fields>
    requires IsMappingList(j)
  {
    seq(|j.items|, i requires 0 <= i < |j.items| => j.items[i].fields)
  }

  function RequiredMappings(m: Fields, key: string): Read<seq<Fields>> {
    if key in m && IsMappingList(m[key]) then Ok(Mappings(m[key])) else Bad(key)
  }

  function OptionalMappings(m: Fields, key: string): Read<seq<Fields>> {
    if key !in m || m[key].Null? then Ok([]) else RequiredMappings(m, key)
  }

  function ReadAll<T>(f: Fields -> Read<T>, items: seq<Fields>): Read<seq<T>> {
    if items == [] then Ok([])
    else
      var head :- f(items[0]);
      var tail :- ReadAll(f, items[1..]);
      Ok([head] + tail)
  }

  lemma StrListReadsBack(xs: seq<string>)
    ensures IsStrList(StrList(xs)) && StrItems(StrList(xs)) == xs
  {}

  lemma {:induction false} ReadAllOk<T>(f: Fields -> Read<T>, items: seq<Fields>, values: seq<T>)
    requires |items| == |values|
    requires forall i :: 0 <= i < |items| ==> f(items[i]) == Ok(values[i])
    ensures ReadAll(f, items) == Ok(values)
  {
    if items != [] {
      ReadAllOk(f, items[1..], values[1..]);
      assert values == [values[0]] + values[1..];
    }
  }

  lemma {:induction false} ReadAllBad<T>(f: Fields -> Read<T>, items: seq<Fields>, i: nat)
    requires i < |items| && f(items[i]).Bad?
    ensures ReadAll(f, items).Bad?
  {
    if i > 0 {
      ReadAllBad(f, items[1..], i - 1);
    }
  }

  // ----- Redaction -----

  /** Values under secret keys are masked and keys are put in order, at every depth. */
  function Redact(secretKey: string -> bool, j: Json): Json {
    match j
    case Obj(m, _) => Record(map k | k in m :: if secretKey(k) then Str("<redacted>") else Redact(secretKey, m[k]))
    case List(xs) => List(seq(|xs|, i requires 0 <= i < |xs| => Redact(secretKey, xs[i])))
    case _ => j
  }

  function RedactMapping(secretKey: string -> bool, m: Fields): Fields {
    map k | k in m :: if secretKey(k) then Str("<redacted>") else Redact(secretKey, m[k])
  }

  lemma RedactsToRecord(secretKey: string -> bool, j: Json)
    requires j.Obj?
    ensures Redact(secretKey, j) == Record(RedactMapping(secretKey, j.fields))
  {
    hide Record;
  }

  lemma {:induction false} RedactIdempotent(secretKey: string -> bool, j: Json)
    ensures Redact(secretKey, Redact(secretKey, j)) == Redact(secretKey, j)
  {
    match j
    case Obj(m, _) =>
      forall k | k in m && !secretKey(k) ensures Redact(secretKey, Redact(secretKey, m[k])) == Redact(secretKey, m[k]) {
        RedactIdempotent(secretKey, m[k]);
      }
      RedactsToRecord(secretKey, j);
      RedactsToRecord(secretKey, Redact(secretKey, j));
      assert Redact(secretKey, Redact(secretKey, j)).fields == Redact(secretKey, j).fields;
    case List(xs) =>
      forall i | 0 <= i < |xs| {
        RedactIdempotent(secretKey, xs[i]);
      }
    case _ =>
  }

  lemma RedactMappingIdempotent(secretKey: string -> bool, m: Fields)
    ensures RedactMapping(secretKey, RedactMapping(secretKey, m)) == RedactMapping(secretKey, m)
  {
    forall k | k in m {
      RedactIdempotent(secretKey, m[k]);
    }
  }

  /** A secret-bearing key in this object, below it, or in the objects of a list in it. */
  predicate HasSecretField(secretKey: string -> bool, j: Json) {
    j.Obj? && exists k | k in j.fields ::
      || secretKey(k)
      || HasSecretField(secretKey, j.fields[k])
      || (j.fields[k].List? && exists i | 0 <= i < |j.fields[k].items| :: HasSecretField(secretKey, j.fields[k].items[i]))
  }

  ghost predicate SecretUnder(secretKey: string -> bool, v: Json) {
    || HasSecretField(secretKey, v)
    || (v.List? && exists i :: 0 <= i < |v.items| && HasSecretField(secretKey, v.items[i]))
  }

  /** Masking values hides no key, so the secret-field check sees the same in a redacted document. */
  lemma {:induction false} RedactionKeepsSecretFields(secretKey: string -> bool, j: Json)
    ensures HasSecretField(secretKey, Redact(secretKey, j)) <==> HasSecretField(secretKey, j)
  {
    if j.Obj? {
      var m, r := j.fields, Redact(secretKey, j).fields;
      forall k | k in m && !secretKey(k) ensures SecretUnder(secretKey, r[k]) <==> SecretUnder(secretKey, m[k]) {
        RedactionKeepsSecretFields(secretKey, m[k]);
        if m[k].List? {
          forall i | 0 <= i < |m[k].items|
            ensures HasSecretField(secretKey, r[k].items[i]) <==> HasSecretField(secretKey, m[k].items[i])
          {
            RedactionKeepsSecretFields(secretKey, m[k].items[i]);
          }
        }
      }
      assert HasSecretField(secretKey, j) <==> exists k :: k in m && (secretKey(k) || SecretUnder(secretKey, m[k]));
      assert HasSecretField(secretKey, Record(r)) <==> exists k :: k in r && (secretKey(k) || SecretUnder(secretKey, r[k]));
    }
  }
}
