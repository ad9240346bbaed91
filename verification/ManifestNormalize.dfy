/** The canonical form of manifests: rewritten keys in order, null fields dropped, strings stripped. */
module ManifestNormalize {
  import opened Order
  import opened Wrappers

  // ----- Keys -----

  predicate IsBlank(c: char) {
    c == ' ' || 9 <= c as int <= 13 || 28 <= c as int <= 31
  }

  predicate IsUpper(c: char) { 'A' <= c <= 'Z' }

  function Lower(c: char): char {
    if IsUpper(c) then (c as int + 32) as char else c
  }

  function Dash(c: char): char {
    if c == '-' || c == ' ' then '_' else c
  }

  function StripLeft(s: string): string {
    if s != "" && IsBlank(s[0]) then StripLeft(s[1..]) else s
  }

  function StripRight(s: string): string {
    if s != "" && IsBlank(s[|s| - 1]) then StripRight(s[..|s| - 1]) else s
  }

  function Strip(s: string): string { StripRight(StripLeft(s)) }

  function SeparateRest(s: string): string {
    if s == "" then "" else (if IsUpper(s[0]) then ['_', s[0]] else [s[0]]) + SeparateRest(s[1..])
  }

  /** An underscore before every capital but a first one. */
  function Separate(s: string): string {
    if s == "" then "" else [s[0]] + SeparateRest(s[1..])
  }

  /** Runs of underscores become one. */
  function Collapse(s: string): string {
    if |s| < 2 then s
    else if s[0] == '_' && s[1] == '_' then Collapse(s[1..])
    else [s[0]] + Collapse(s[1..])
  }

  function NormalizeKey(key: string): string {
    Collapse(Mapped(Lower, Separate(Mapped(Dash, Strip(key)))))
  }

  predicate SolidEnds(s: string) {
    s == "" || (!IsBlank(s[0]) && !IsBlank(s[|s| - 1]))
  }

  predicate Free(s: string, bad: char -> bool) {
    forall i :: 0 <= i < |s| ==> !bad(s[i])
  }

  predicate IsDash(c: char) { c == '-' || c == ' ' }

  predicate NoDouble(s: string) {
    forall i :: 0 <= i < |s| - 1 ==> !(s[i] == '_' && s[i + 1] == '_')
  }

  /** What the rewriting leaves alone. */
  predicate SettledKey(s: string) {
    SolidEnds(s) && Free(s, IsDash) && Free(s, IsUpper) && NoDouble(s)
  }

  lemma {:induction false} StripLeftSolid(s: string)
    ensures var r := StripLeft(s); r == "" || !IsBlank(r[0])
  {
    if s != "" && IsBlank(s[0]) {
      StripLeftSolid(s[1..]);
    }
  }

  lemma {:induction false} StripRightSolid(s: string)
    requires s == "" || !IsBlank(s[0])
    ensures SolidEnds(StripRight(s))
  {
    if s != "" && IsBlank(s[|s| - 1]) {
      StripRightSolid(s[..|s| - 1]);
    }
  }

  lemma StripSolid(s: string)
    ensures SolidEnds(Strip(s))
  {
    StripLeftSolid(s);
    StripRightSolid(StripLeft(s));
  }

  lemma SolidStaysStripped(s: string)
    requires SolidEnds(s)
    ensures Strip(s) == s
  {}

  lemma StripIdempotent(s: string)
    ensures Strip(Strip(s)) == Strip(s)
  {
    StripSolid(s);
    SolidStaysStripped(Strip(s));
  }

  lemma {:induction false} SeparateRestKeeps(s: string)
    requires Free(s, IsDash)
    ensures var r := SeparateRest(s);
            && Free(r, IsDash) && (s == "" <==> r == "") && (s != "" ==> r[|r| - 1] == s[|s| - 1])
  {
    if s != "" {
      SeparateRestKeeps(s[1..]);
    }
  }

  lemma {:induction false} SeparateRestIdle(s: string)
    requires Free(s, IsUpper)
    ensures SeparateRest(s) == s
  {
    if s != "" {
      SeparateRestIdle(s[1..]);
      assert s == [s[0]] + s[1..];
    }
  }

  lemma {:induction false} CollapseSettles(s: string)
    ensures var r := Collapse(s);
            && NoDouble(r) && (s == "" <==> r == "") && (s != "" ==> r[0] == s[0] && r[|r| - 1] == s[|s| - 1])
    ensures forall i :: 0 <= i < |Collapse(s)| ==> Collapse(s)[i] in s
  {
    if |s| >= 2 {
      CollapseSettles(s[1..]);
      var rest := Collapse(s[1..]);
      forall i | 0 <= i < |Collapse(s)| ensures Collapse(s)[i] in s {
        if s[0] == '_' && s[1] == '_' {
          assert rest[i] in s[1..];
        } else if i > 0 {
          assert rest[i - 1] in s[1..];
        }
      }
    }
  }

  lemma {:induction false} CollapseIdle(s: string)
    requires NoDouble(s)
    ensures Collapse(s) == s
  {
    if |s| >= 2 {
      assert !(s[0] == '_' && s[0 + 1] == '_');
      CollapseIdle(s[1..]);
      assert s == [s[0]] + s[1..];
    }
  }

  lemma KeyBeforeCollapse(key: string)
    ensures var s := Mapped(Lower, Separate(Mapped(Dash, Strip(key)))); SolidEnds(s) && Free(s, IsDash) && Free(s, IsUpper)
  {
    StripSolid(key);
    var dashed := Mapped(Dash, Strip(key));
    forall c {:trigger Dash(c)} ensures !IsDash(Dash(c)) && (!IsBlank(c) ==> !IsBlank(Dash(c))) {
      DashChar(c);
    }
    assert SolidEnds(dashed) && Free(dashed, IsDash);
    if dashed != "" {
      SeparateRestKeeps(dashed[1..]);
    }
    var separated := Separate(dashed);
    assert SolidEnds(separated) && Free(separated, IsDash);
    LowerKeeps(separated);
  }

  lemma LowerKeeps(s: string)
    requires SolidEnds(s) && Free(s, IsDash)
    ensures SolidEnds(Mapped(Lower, s)) && Free(Mapped(Lower, s), IsDash) && Free(Mapped(Lower, s), IsUpper)
  {
    forall i | 0 <= i < |s| ensures !IsDash(Lower(s[i])) && !IsUpper(Lower(s[i])) && (!IsBlank(s[i]) ==> !IsBlank(Lower(s[i]))) {
      LowerChar(s[i]);
    }
  }

  lemma DashChar(c: char)
    ensures !IsDash(Dash(c)) && (!IsBlank(c) ==> !IsBlank(Dash(c)))
  {
    assert '_' as int == 95;
  }

  lemma LowerChar(c: char)
    ensures !IsUpper(Lower(c)) && (!IsDash(c) ==> !IsDash(Lower(c))) && (!IsBlank(c) ==> !IsBlank(Lower(c)))
  {
    if IsUpper(c) {
      assert Lower(c) as int == c as int + 32;
      assert 97 <= Lower(c) as int <= 122;
    }
  }

  lemma NormalizedKeySettled(key: string)
    ensures SettledKey(NormalizeKey(key))
  {
    KeyBeforeCollapse(key);
    var s := Mapped(Lower, Separate(Mapped(Dash, Strip(key))));
    CollapseSettles(s);
    var r := Collapse(s);
    forall i | 0 <= i < |r| ensures !IsDash(r[i]) && !IsUpper(r[i]) {
      assert r[i] in s;
    }
  }

  lemma SettledKeyStays(key: string)
    requires SettledKey(key)
    ensures NormalizeKey(key) == key
  {
    SolidStaysStripped(key);
    assert Mapped(Dash, key) == key;
    if key != "" {
      SeparateRestIdle(key[1..]);
      assert key == [key[0]] + key[1..];
    }
    assert Separate(key) == key;
    assert Mapped(Lower, key) == key;
    CollapseIdle(key);
  }

  /** All five rewriting steps together are idempotent. */
  lemma NormalizeKeyIdempotent(key: string)
    ensures NormalizeKey(NormalizeKey(key)) == NormalizeKey(key)
  {
    NormalizedKeySettled(key);
    SettledKeyStays(NormalizeKey(key));
  }

  // ----- Documents -----

  /** A loaded YAML or JSON document; mappings are Python dicts, which remember the order of their keys. */
  datatype Doc =
    | Nothing
    | Flag(b: bool)
    | Whole(i: int)
    | Fraction(r: real)
    | Text(s: string)
    | Items(items: seq<Doc>)
    | Mapping(entries: seq<Entry>)

  type Entry = (string, Doc)

  predicate HasValue(e: Entry) { !e.1.Nothing? }

  function Kept(es: seq<Entry>): seq<Entry> {
    if es == [] then [] else (if HasValue(es[0]) then [es[0]] else []) + Kept(es[1..])
  }

  predicate ByNormalKey(a: Entry, b: Entry) {
    StrLe(NormalizeKey(a.0), NormalizeKey(b.0))
  }

  /** Setting a key of a dict: an existing key keeps its place. */
  function Put(es: seq<Entry>, k: string, v: Doc): seq<Entry> {
    if es == [] then [(k, v)]
    else if es[0].0 == k then [(k, v)] + es[1..]
    else [es[0]] + Put(es[1..], k, v)
  }

  /** The dict a comprehension builds from entries in this order. */
  function Dict(es: seq<Entry>): seq<Entry> {
    if es == [] then []
    else
      var last := es[|es| - 1];
      Put(Dict(es[..|es| - 1]), NormalizeKey(last.0), last.1)
  }

  /** Keys in order of their rewritten form; null values left out. */
  function Rebuild(es: seq<Entry>): seq<Entry> {
    Dict(Kept(Sort(ByNormalKey, es)))
  }

  function Normalize(d: Doc): Doc {
    match d
    case Mapping(es) => Mapping(Rebuild(seq(|es|, i requires 0 <= i < |es| => (es[i].0, Normalize(es[i].1)))))
    case Items(xs) => Items(seq(|xs|, i requires 0 <= i < |xs| => Normalize(xs[i])))
    case Text(s) => Text(Strip(s))
    case _ => d
  }

  function NormalValues(es: seq<Entry>): (r: seq<Entry>)
    ensures |r| == |es|
  {
    seq(|es|, i requires 0 <= i < |es| => (es[i].0, Normalize(es[i].1)))
  }

  // ----- What rebuilding yields -----

  /** The last value, in the order of the document, whose key rewrites to `k`. */
  function LastWith(es: seq<Entry>, k: string): Option<Doc> {
    if es == [] then None
    else
      var later := LastWith(es[1..], k);
      if later.Some? then later
      else if HasValue(es[0]) && NormalizeKey(es[0].0) == k then Some(es[0].1)
      else None
  }

  ghost predicate StrictKeys(es: seq<Entry>) {
    forall i, j :: 0 <= i < j < |es| ==> es[i].0 != es[j].0 && StrLe(es[i].0, es[j].0)
  }

  ghost predicate UpTo(es: seq<Entry>, k: string) {
    forall i :: 0 <= i < |es| ==> StrLe(es[i].0, k)
  }

  lemma {:induction false} InsertKeepsLast(x: Entry, es: seq<Entry>, k: string)
    ensures LastWith(Insert(ByNormalKey, x, es), k) == LastWith([x] + es, k)
  {
    hide NormalizeKey, StrLe;
    assert ([x] + es)[1..] == es;
    if es == [] || ByNormalKey(x, es[0]) {
    } else {
      InsertKeepsLast(x, es[1..], k);
      assert ([x] + es[1..])[1..] == es[1..];
      StrReflexive(NormalizeKey(x.0));
      var rest := Insert(ByNormalKey, x, es[1..]);
      assert Insert(ByNormalKey, x, es) == [es[0]] + rest && ([es[0]] + rest)[1..] == rest;
    }
  }

  lemma {:induction false} SortKeepsLast(es: seq<Entry>, k: string)
    ensures LastWith(Sort(ByNormalKey, es), k) == LastWith(es, k)
  {
    hide NormalizeKey, ByNormalKey;
    if es != [] {
      SortKeepsLast(es[1..], k);
      var rest := Sort(ByNormalKey, es[1..]);
      InsertKeepsLast(es[0], rest, k);
      assert ([es[0]] + rest)[1..] == rest;
    }
  }

  lemma {:induction false} KeptKeepsLast(es: seq<Entry>, k: string)
    ensures LastWith(Kept(es), k) == LastWith(es, k)
  {
    hide NormalizeKey;
    if es != [] {
      KeptKeepsLast(es[1..], k);
      assert HasValue(es[0]) ==> ([es[0]] + Kept(es[1..]))[1..] == Kept(es[1..]);
      assert !HasValue(es[0]) ==> Kept(es) == Kept(es[1..]);
    }
  }

  lemma {:induction false} KeptMeaning(es: seq<Entry>, e: Entry)
    ensures e in Kept(es) <==> e in es && HasValue(e)
  {
    if es != [] {
      KeptMeaning(es[1..], e);
      assert es == [es[0]] + es[1..];
    }
  }

  lemma {:induction false} KeptAscends(es: seq<Entry>)
    requires Ascending(ByNormalKey, es)
    ensures Ascending(ByNormalKey, Kept(es))
  {
    hide ByNormalKey;
    if es != [] {
      KeptAscends(es[1..]);
      forall j | 0 <= j < |Kept(es[1..])| ensures ByNormalKey(es[0], Kept(es[1..])[j]) {
        KeptMeaning(es[1..], Kept(es[1..])[j]);
      }
    }
  }

  lemma {:induction false} LastWithAppend(es: seq<Entry>, e: Entry, k: string)
    ensures LastWith(es + [e], k) == if HasValue(e) && NormalizeKey(e.0) == k then Some(e.1) else LastWith(es, k)
  {
    hide NormalizeKey;
    if es == [] {
      assert es + [e] == [e] && [e][1..] == [];
    } else {
      LastWithAppend(es[1..], e, k);
      assert (es + [e])[1..] == es[1..] + [e];
    }
  }

  lemma GreatestIsLast(es: seq<Entry>, k: string)
    requires es != [] && StrictKeys(es) && UpTo(es, k) && es[0].0 == k
    ensures es == [es[0]]
  {
    hide StrLe;
    if |es| > 1 {
      StrLeAntisymmetric(es[1].0, k);
      assert false;
    }
  }

  lemma StrictPush(e: Entry, rest: seq<Entry>)
    requires StrictKeys(rest) && forall r :: r in rest ==> e.0 != r.0 && StrLe(e.0, r.0)
    ensures StrictKeys([e] + rest)
  {
    hide StrLe;
    forall j | 0 <= j < |rest| ensures e.0 != rest[j].0 && StrLe(e.0, rest[j].0) {
      assert rest[j] in rest;
    }
  }

  lemma StrictHead(es: seq<Entry>, r: Entry)
    requires es != [] && StrictKeys(es) && r in es[1..]
    ensures es[0].0 != r.0 && StrLe(es[0].0, r.0)
  {
    hide StrLe;
    var j :| 0 <= j < |es[1..]| && es[1..][j] == r;
    assert es[j + 1] == r;
  }

  /** Putting the greatest key so far keeps the keys strictly ascending. */
  lemma {:induction false} PutLast(es: seq<Entry>, k: string, v: Doc)
    requires StrictKeys(es) && UpTo(es, k)
    ensures StrictKeys(Put(es, k, v)) && UpTo(Put(es, k, v), k)
    ensures forall e :: e in Put(es, k, v) <==> e == (k, v) || (e in es && e.0 != k)
  {
    hide StrLe;
    StrReflexive(k);
    if es != [] {
      var tail := es[1..];
      assert es == [es[0]] + tail;
      if es[0].0 == k {
        GreatestIsLast(es, k);
        assert Put(es, k, v) == [(k, v)];
      } else {
        assert StrictKeys(tail) && UpTo(tail, k);
        PutLast(tail, k, v);
        PutBehind(es, Put(tail, k, v), k, v);
      }
    }
  }

  lemma PutBehind(es: seq<Entry>, rest: seq<Entry>, k: string, v: Doc)
    requires es != [] && StrictKeys(es) && UpTo(es, k) && es[0].0 != k
    requires StrictKeys(rest) && UpTo(rest, k) && forall e :: e in rest <==> e == (k, v) || (e in es[1..] && e.0 != k)
    ensures StrictKeys([es[0]] + rest) && UpTo([es[0]] + rest, k)
    ensures forall e :: e in [es[0]] + rest <==> e == (k, v) || (e in es && e.0 != k)
  {
    hide StrLe;
    forall r | r in rest ensures es[0].0 != r.0 && StrLe(es[0].0, r.0) {
      if r != (k, v) {
        StrictHead(es, r);
      }
    }
    StrictPush(es[0], rest);
    assert es == [es[0]] + es[1..];
  }

  lemma StrLeAntisymmetric(a: string, b: string)
    requires StrLe(a, b) && StrLe(b, a)
    ensures a == b
  {
    StrAntisymmetric();
  }

  ghost predicate Answers(es: seq<Entry>, source: seq<Entry>) {
    forall e :: e in es <==> LastWith(source, e.0) == Some(e.1)
  }

  lemma {:induction false} DictMeaning(es: seq<Entry>)
    requires Ascending(ByNormalKey, es) && forall i :: 0 <= i < |es| ==> HasValue(es[i])
    ensures StrictKeys(Dict(es)) && Answers(Dict(es), es)
    ensures es != [] ==> UpTo(Dict(es), NormalizeKey(es[|es| - 1].0))
    decreases |es|
  {
    hide NormalizeKey, StrLe;
    if es != [] {
      var before, last := es[..|es| - 1], es[|es| - 1];
      DictMeaning(before);
      var k := NormalizeKey(last.0);
      UpToLast(es, Dict(before));
      PutLast(Dict(before), k, last.1);
      assert es == before + [last];
      forall e ensures e in Dict(es) <==> LastWith(es, e.0) == Some(e.1) {
        LastWithAppend(before, last, e.0);
      }
    }
  }

  lemma UpToLast(es: seq<Entry>, dict: seq<Entry>)
    requires es != [] && Ascending(ByNormalKey, es)
    requires dict != [] ==> |es| > 1 && UpTo(dict, NormalizeKey(es[|es| - 2].0))
    ensures UpTo(dict, NormalizeKey(es[|es| - 1].0))
  {
    StrOrder();
    hide NormalizeKey, StrLe;
    if |es| > 1 {
      assert ByNormalKey(es[|es| - 2], es[|es| - 1]);
    }
  }

  lemma ByNormalKeyOrder()
    ensures TotalPreorder(ByNormalKey)
  {
    StrOrder();
    hide NormalizeKey, StrLe;
  }

  /** A rebuilt mapping has strictly ascending keys and, for each, the last value given for it. */
  lemma RebuildMeaning(es: seq<Entry>)
    ensures StrictKeys(Rebuild(es)) && Answers(Rebuild(es), es)
  {
    hide NormalizeKey, StrLe, ByNormalKey, HasValue, Sort, Kept, LastWith;
    var sorted := Sort(ByNormalKey, es);
    ByNormalKeyOrder();
    SortAscends(ByNormalKey, es);
    KeptAscends(sorted);
    forall i | 0 <= i < |Kept(sorted)| ensures HasValue(Kept(sorted)[i]) {
      KeptMeaning(sorted, Kept(sorted)[i]);
    }
    DictMeaning(Kept(sorted));
    forall k ensures LastWith(Kept(sorted), k) == LastWith(es, k) {
      SortKeepsLast(es, k);
      KeptKeepsLast(sorted, k);
    }
  }

  predicate ByKey(a: Entry, b: Entry) { StrLe(a.0, b.0) }

  /** Strictly ascending entries are determined by what is among them. */
  lemma StrictUnique(a: seq<Entry>, b: seq<Entry>)
    requires StrictKeys(a) && StrictKeys(b) && forall e :: e in a <==> e in b
    ensures a == b
  {
    StrAntisymmetric();
    hide StrLe;
    SameElementsPermute(a, b);
    forall x, y | x in multiset(a) && y in multiset(a) && ByKey(x, y) && ByKey(y, x) ensures x == y {
      var i := IndexOf(a, x);
      var j := IndexOf(a, y);
    }
    AscendingUnique(ByKey, a, b);
  }

  ghost predicate SameLast(a: seq<Entry>, b: seq<Entry>) {
    forall k :: LastWith(a, k) == LastWith(b, k)
  }

  /** So rebuilt mappings are the same exactly when every key has the same last value. */
  lemma RebuildSameIff(a: seq<Entry>, b: seq<Entry>)
    ensures Rebuild(a) == Rebuild(b) <==> SameLast(a, b)
  {
    hide LastWith, Rebuild, StrictKeys;
    RebuildMeaning(a);
    RebuildMeaning(b);
    if Rebuild(a) == Rebuild(b) {
      forall k ensures LastWith(a, k) == LastWith(b, k) {
        AnswerSame(Rebuild(a), a, b, k);
      }
    }
    if SameLast(a, b) {
      assert forall e :: e in Rebuild(a) <==> e in Rebuild(b);
      StrictUnique(Rebuild(a), Rebuild(b));
    }
  }

  lemma AnswerSame(es: seq<Entry>, a: seq<Entry>, b: seq<Entry>, k: string)
    requires Answers(es, a) && Answers(es, b)
    ensures LastWith(a, k) == LastWith(b, k)
  {
    hide LastWith;
    assert forall v {:trigger (k, v) in es} :: (k, v) in es <==> LastWith(a, k) == Some(v);
    assert forall v {:trigger (k, v) in es} :: (k, v) in es <==> LastWith(b, k) == Some(v);
    if LastWith(a, k).Some? {
      assert (k, LastWith(a, k).value) in es <==> LastWith(b, k) == LastWith(a, k);
    }
    if LastWith(b, k).Some? {
      assert (k, LastWith(b, k).value) in es <==> LastWith(a, k) == LastWith(b, k);
    }
  }

  lemma {:induction false} LastWithOrigin(es: seq<Entry>, k: string)
    ensures var v := LastWith(es, k);
            (v.Some? ==> exists i :: 0 <= i < |es| && HasValue(es[i]) && NormalizeKey(es[i].0) == k && es[i].1 == v.value)
            && (v.None? ==> forall i :: 0 <= i < |es| && HasValue(es[i]) ==> NormalizeKey(es[i].0) != k)
  {
    hide NormalizeKey;
    if es != [] {
      LastWithOrigin(es[1..], k);
      if LastWith(es[1..], k).Some? {
        var i :| 0 <= i < |es[1..]| && HasValue(es[1..][i]) && NormalizeKey(es[1..][i].0) == k && es[1..][i].1 == LastWith(es[1..], k).value;
        assert es[i + 1] == es[1..][i];
      } else {
        forall i | 1 <= i < |es| && HasValue(es[i]) ensures NormalizeKey(es[i].0) != k {
          assert es[1..][i - 1] == es[i];
        }
      }
    }
  }

  // ----- Idempotence -----

  lemma NormalizeMapping(es: seq<Entry>)
    ensures Normalize(Mapping(es)) == Mapping(Rebuild(NormalValues(es)))
  {
    assert NormalValues(es) == seq(|es|, i requires 0 <= i < |es| => (es[i].0, Normalize(es[i].1)));
  }

  lemma NormalKeepsValue(d: Doc)
    ensures Normalize(d).Nothing? <==> d.Nothing?
  {
    hide Rebuild;
  }

  /** Keys of a rebuilt mapping are rewritten ones, and its values are among the given ones. */
  lemma RebuiltEntry(es: seq<Entry>, e: Entry)
    requires e in Rebuild(es)
    ensures HasValue(e) && NormalizeKey(e.0) == e.0
    ensures exists i :: 0 <= i < |es| && es[i].1 == e.1 && NormalizeKey(es[i].0) == e.0
  {
    hide Rebuild, NormalizeKey, StrictKeys;
    RebuildMeaning(es);
    LastWithOrigin(es, e.0);
    var i :| 0 <= i < |es| && HasValue(es[i]) && NormalizeKey(es[i].0) == e.0 && es[i].1 == e.1;
    NormalizeKeyIdempotent(es[i].0);
  }

  lemma {:induction false} LastWithDistinct(es: seq<Entry>, i: nat)
    requires StrictKeys(es) && i < |es| && forall j :: 0 <= j < |es| ==> HasValue(es[j]) && NormalizeKey(es[j].0) == es[j].0
    ensures LastWith(es, es[i].0) == Some(es[i].1)
  {
    hide NormalizeKey, StrLe;
    LastWithOrigin(es, es[i].0);
    var j :| 0 <= j < |es| && HasValue(es[j]) && NormalizeKey(es[j].0) == es[i].0 && es[j].1 == LastWith(es, es[i].0).value;
    assert j < i ==> es[j].0 != es[i].0;
    assert i < j ==> es[i].0 != es[j].0;
  }

  /** Entries that are already in normal order are rebuilt as they are. */
  lemma RebuildIdle(es: seq<Entry>)
    requires StrictKeys(es) && forall j :: 0 <= j < |es| ==> HasValue(es[j]) && NormalizeKey(es[j].0) == es[j].0
    ensures Rebuild(es) == es
  {
    hide Rebuild, NormalizeKey, StrLe, LastWith;
    RebuildMeaning(es);
    forall e ensures e in Rebuild(es) <==> e in es {
      LastWithOrigin(es, e.0);
      if e in es {
        var i :| 0 <= i < |es| && es[i] == e;
        LastWithDistinct(es, i);
      }
      if e in Rebuild(es) {
        var i :| 0 <= i < |es| && HasValue(es[i]) && NormalizeKey(es[i].0) == e.0 && es[i].1 == LastWith(es, e.0).value;
        assert es[i] == (e.0, e.1);
      }
    }
    StrictUnique(Rebuild(es), es);
  }

  /** Normalising a normal form changes nothing. */
  lemma {:induction false} NormalizeIdempotent(d: Doc)
    ensures Normalize(Normalize(d)) == Normalize(d)
    decreases d
  {
    match d
    case Mapping(es) =>
      forall i | 0 <= i < |es| ensures Normalize(Normalize(es[i].1)) == Normalize(es[i].1) {
        NormalizeIdempotent(es[i].1);
      }
      MappingIdempotent(es);
    case Items(xs) =>
      forall i | 0 <= i < |xs| ensures Normalize(Normalize(xs[i])) == Normalize(xs[i]) {
        NormalizeIdempotent(xs[i]);
      }
    case Text(s) => StripIdempotent(s);
    case _ =>
  }

  lemma MappingIdempotent(es: seq<Entry>)
    requires forall i :: 0 <= i < |es| ==> Normalize(Normalize(es[i].1)) == Normalize(es[i].1)
    ensures Normalize(Normalize(Mapping(es))) == Normalize(Mapping(es))
  {
    NormalizeMapping(es);
    hide Rebuild, NormalizeKey, Normalize, HasValue;
    var values := NormalValues(es);
    var built := Rebuild(values);
    NormalizeMapping(built);
    RebuildMeaning(values);
    forall j | 0 <= j < |built| ensures HasValue(built[j]) && NormalizeKey(built[j].0) == built[j].0 && Normalize(built[j].1) == built[j].1 {
      RebuiltEntry(values, built[j]);
      var i :| 0 <= i < |values| && values[i].1 == built[j].1 && NormalizeKey(values[i].0) == built[j].0;
    }
    assert NormalValues(built) == built;
    RebuildIdle(built);
  }

  // ----- Keys of a normal form, and their order in the document -----

  /** The keys of a normalised mapping ascend, are distinct, and are the rewritten keys that had a value. */
  lemma NormalKeys(es: seq<Entry>, k: string)
    ensures Normalize(Mapping(es)).Mapping? && StrictKeys(Normalize(Mapping(es)).entries)
    ensures (exists e :: e in Normalize(Mapping(es)).entries && e.0 == k) <==>
            exists i :: 0 <= i < |es| && HasValue(es[i]) && NormalizeKey(es[i].0) == k
  {
    NormalizeMapping(es);
    hide Rebuild, NormalizeKey, Normalize, LastWith, StrictKeys;
    var values := NormalValues(es);
    RebuildMeaning(values);
    LastWithOrigin(values, k);
    forall i | 0 <= i < |es| ensures HasValue(values[i]) <==> HasValue(es[i]) {
      NormalKeepsValue(es[i].1);
    }
    if LastWith(values, k).Some? {
      assert (k, LastWith(values, k).value) in Rebuild(values);
    }
  }

  /** Siblings whose keys rewrite alike have the same normal value. */
  ghost predicate SiblingsAgree(es: seq<Entry>) {
    forall i, j :: 0 <= i < |es| && 0 <= j < |es| && HasValue(es[i]) && HasValue(es[j]) && NormalizeKey(es[i].0) == NormalizeKey(es[j].0)
                   ==> es[i].1 == es[j].1
  }

  ghost predicate KeyOrderIrrelevant(es: seq<Entry>) {
    forall other {:trigger Rebuild(other)} :: multiset(other) == multiset(es) ==> Rebuild(other) == Rebuild(es)
  }

  lemma AgreeingOrders(es: seq<Entry>, other: seq<Entry>, k: string)
    requires SiblingsAgree(es) && multiset(other) == multiset(es)
    ensures LastWith(other, k) == LastWith(es, k)
  {
    hide NormalizeKey, LastWith;
    LastWithOrigin(es, k);
    LastWithOrigin(other, k);
    if LastWith(es, k).Some? {
      var i :| 0 <= i < |es| && HasValue(es[i]) && NormalizeKey(es[i].0) == k && es[i].1 == LastWith(es, k).value;
      assert es[i] in multiset(es);
      var j := IndexOf(other, es[i]);
    }
    if LastWith(other, k).Some? {
      var i :| 0 <= i < |other| && HasValue(other[i]) && NormalizeKey(other[i].0) == k && other[i].1 == LastWith(other, k).value;
      assert other[i] in multiset(other);
      var j := IndexOf(es, other[i]);
    }
  }

  lemma MovedLast(es: seq<Entry>, i: nat)
    requires KeyOrderIrrelevant(es) && i < |es| && HasValue(es[i])
    ensures LastWith(es, NormalizeKey(es[i].0)) == Some(es[i].1)
  {
    hide NormalizeKey, LastWith, Rebuild;
    var other := Order.Without(es, i) + [es[i]];
    WithoutMultiset(es, i);
    LastWithAppend(Order.Without(es, i), es[i], NormalizeKey(es[i].0));
    assert Rebuild(other) == Rebuild(es);
    RebuildSameIff(other, es);
  }

  /** The order of sibling keys never matters exactly when siblings that rewrite alike agree. */
  lemma KeyOrderIrrelevantIff(es: seq<Entry>)
    ensures KeyOrderIrrelevant(es) <==> SiblingsAgree(es)
  {
    hide NormalizeKey, LastWith, Rebuild;
    if SiblingsAgree(es) {
      forall other | multiset(other) == multiset(es) ensures Rebuild(other) == Rebuild(es) {
        forall k {
          AgreeingOrders(es, other, k);
        }
        RebuildSameIff(other, es);
      }
    }
    if KeyOrderIrrelevant(es) {
      forall i, j | 0 <= i < |es| && 0 <= j < |es| && HasValue(es[i]) && HasValue(es[j]) && NormalizeKey(es[i].0) == NormalizeKey(es[j].0)
        ensures es[i].1 == es[j].1
      {
        MovedLast(es, i);
        MovedLast(es, j);
      }
    }
  }

  // ----- Key order at any depth -----

  /** The same document but for the order of keys, at any depth. */
  ghost predicate Reordered(x: Doc, y: Doc)
    decreases x
  {
    match x
    case Mapping(es) => y.Mapping? && exists fs :: ReorderedEntries(x, es, fs, y.entries)
    case Items(xs) => y.Items? && |y.items| == |xs| && forall i :: 0 <= i < |xs| ==> Reordered(xs[i], y.items[i])
    case _ => x == y
  }

  ghost predicate ReorderedEntries(x: Doc, es: seq<Entry>, fs: seq<Entry>, gs: seq<Entry>)
    requires forall i :: 0 <= i < |es| ==> es[i].1 < x
    decreases x, 0
  {
    && multiset(fs) == multiset(gs) && |fs| == |es|
    && forall i :: 0 <= i < |es| ==> fs[i].0 == es[i].0 && Reordered(es[i].1, fs[i].1)
  }

  /** At no depth do two sibling keys with values rewrite alike. */
  ghost predicate NoClash(d: Doc) {
    match d
    case Mapping(es) =>
      && (forall i, j :: 0 <= i < j < |es| && HasValue(es[i]) && HasValue(es[j]) ==> NormalizeKey(es[i].0) != NormalizeKey(es[j].0))
      && (forall i :: 0 <= i < |es| ==> NoClash(es[i].1))
    case Items(xs) => forall i :: 0 <= i < |xs| ==> NoClash(xs[i])
    case _ => true
  }

  /** Without clashes the normal form, and so any digest of it, ignores the order of keys at every depth. */
  lemma {:induction false} NormalFormIgnoresKeyOrder(x: Doc, y: Doc)
    requires NoClash(x) && Reordered(x, y)
    ensures Normalize(x) == Normalize(y)
    decreases x
  {
    match x
    case Mapping(es) =>
      var fs: seq<Entry> :| ReorderedEntries(x, es, fs, y.entries);
      forall i | 0 <= i < |es| ensures Normalize(es[i].1) == Normalize(fs[i].1) {
        NormalFormIgnoresKeyOrder(es[i].1, fs[i].1);
      }
      SameValuesReordered(es, fs, y.entries);
    case Items(xs) =>
      forall i | 0 <= i < |xs| ensures Normalize(xs[i]) == Normalize(y.items[i]) {
        NormalFormIgnoresKeyOrder(xs[i], y.items[i]);
      }
    case _ =>
  }

  lemma SameValuesReordered(es: seq<Entry>, fs: seq<Entry>, gs: seq<Entry>)
    requires NoClash(Mapping(es)) && multiset(fs) == multiset(gs) && |fs| == |es|
    requires forall i :: 0 <= i < |es| ==> fs[i].0 == es[i].0 && Normalize(es[i].1) == Normalize(fs[i].1)
    ensures Normalize(Mapping(es)) == Normalize(Mapping(gs))
  {
    NormalizeMapping(es);
    NormalizeMapping(gs);
    assert NormalValues(es) == NormalValues(fs);
    NormalValuesMapped(fs);
    NormalValuesMapped(gs);
    MappedPermutes(WithNormalValue(), fs, gs);
    SiblingsApart(es);
    KeyOrderIrrelevantIff(NormalValues(es));
    assert Rebuild(NormalValues(gs)) == Rebuild(NormalValues(es));
  }

  function WithNormalValue(): Entry -> Entry {
    (e: Entry) => (e.0, Normalize(e.1))
  }

  lemma NormalValuesMapped(es: seq<Entry>)
    ensures NormalValues(es) == Mapped(WithNormalValue(), es)
  {}

  lemma SiblingsApart(es: seq<Entry>)
    requires NoClash(Mapping(es))
    ensures SiblingsAgree(NormalValues(es))
  {
    hide NormalizeKey, Normalize;
    var values := NormalValues(es);
    forall i, j | 0 <= i < |values| && 0 <= j < |values| && HasValue(values[i]) && HasValue(values[j])
                  && NormalizeKey(values[i].0) == NormalizeKey(values[j].0)
      ensures values[i].1 == values[j].1
    {
      NormalKeepsValue(es[i].1);
      NormalKeepsValue(es[j].1);
      SiblingsDistinct(es, i, j);
    }
  }

  lemma SiblingsDistinct(es: seq<Entry>, i: nat, j: nat)
    requires NoClash(Mapping(es)) && i < |es| && j < |es| && HasValue(es[i]) && HasValue(es[j])
    ensures NormalizeKey(es[i].0) == NormalizeKey(es[j].0) ==> i == j
  {
    hide NormalizeKey;
    if i < j {
      assert NormalizeKey(es[i].0) != NormalizeKey(es[j].0);
    } else if j < i {
      assert NormalizeKey(es[j].0) != NormalizeKey(es[i].0);
    }
  }

  // ----- Hashing -----

  /** Intake normalises the document, and the canonical encoding normalises once more. */
  function ManifestHash(digest: Doc -> string, d: Doc): string {
    digest(Normalize(Normalize(d)))
  }

  lemma HashIgnoresKeyOrder(digest: Doc -> string, x: Doc, y: Doc)
    requires NoClash(x) && Reordered(x, y)
    ensures ManifestHash(digest, x) == ManifestHash(digest, y) == digest(Normalize(x))
  {
    NormalFormIgnoresKeyOrder(x, y);
    NormalizeIdempotent(x);
  }
}
