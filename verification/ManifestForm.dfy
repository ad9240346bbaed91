/** The canonical form of manifests, said in one pass and without the rewriting that computes it. */
module ManifestForm {
  import opened Order
  import opened ManifestNormalize
  import opened Wrappers

  // ----- Stripping -----

  predicate White(c: char) {
    c == ' ' || c == '\t' || c == '\n' || c == '\r' || c as int in {11, 12, 28, 29, 30, 31}
  }

  ghost predicate TrimmedAt(s: string, t: string, a: int, b: int) {
    && 0 <= a <= b <= |s| && t == s[a..b]
    && (forall i :: 0 <= i < |s| && (i < a || b <= i) ==> White(s[i]))
    && (t != "" ==> !White(t[0]) && !White(t[|t| - 1]))
  }

  /** `t` is what white space on both sides of it leaves of `s`. */
  ghost predicate Trimmed(s: string, t: string) {
    exists a, b :: TrimmedAt(s, t, a, b)
  }

  lemma WhiteIsBlank(c: char)
    ensures White(c) <==> IsBlank(c)
  {
    assert '\t' as int == 9 && '\n' as int == 10 && '\r' as int == 13;
  }

  lemma WhitesAreBlank()
    ensures forall c :: White(c) <==> IsBlank(c)
  {
    forall c ensures White(c) <==> IsBlank(c) {
      WhiteIsBlank(c);
    }
  }

  lemma {:induction false} LeftStripped(s: string) returns (a: nat)
    ensures a <= |s| && StripLeft(s) == s[a..] && forall i :: 0 <= i < a ==> IsBlank(s[i])
  {
    hide IsBlank;
    if s != "" && IsBlank(s[0]) {
      var rest := LeftStripped(s[1..]);
      a := rest + 1;
      forall i | 0 <= i < a ensures IsBlank(s[i]) {
        if i > 0 {
          assert s[i] == s[1..][i - 1];
        }
      }
    } else {
      a := 0;
    }
  }

  lemma {:induction false} RightStripped(s: string) returns (b: nat)
    ensures b <= |s| && StripRight(s) == s[..b] && forall i :: b <= i < |s| ==> IsBlank(s[i])
  {
    hide IsBlank;
    if s != "" && IsBlank(s[|s| - 1]) {
      b := RightStripped(s[..|s| - 1]);
      assert s[..|s| - 1][..b] == s[..b];
    } else {
      b := |s|;
      assert s[..b] == s;
    }
  }

  lemma StripTrims(s: string)
    ensures Trimmed(s, Strip(s))
  {
    WhitesAreBlank();
    hide White, IsBlank;
    var a := LeftStripped(s);
    var b := RightStripped(StripLeft(s));
    StripSolid(s);
    forall i | 0 <= i < |s| && (i < a || a + b <= i) ensures IsBlank(s[i]) {
      if a <= i {
        assert s[i] == s[a..][i - a];
      }
    }
    assert s[a..][..b] == s[a..a + b];
    assert TrimmedAt(s, Strip(s), a, a + b);
  }

  lemma TrimmedOnce(s: string, t: string, u: string)
    requires Trimmed(s, t) && Trimmed(s, u)
    ensures t == u
  {
    hide White;
    var a, b :| TrimmedAt(s, t, a, b);
    var c, d :| TrimmedAt(s, u, c, d);
    assert t != "" ==> t[0] == s[a] && t[|t| - 1] == s[b - 1];
    assert u != "" ==> u[0] == s[c] && u[|u| - 1] == s[d - 1];
    assert t != "" && u != "" ==> a == c && b == d;
  }

  // ----- Keys in one pass -----

  predicate Open(s: string) {
    s == "" || s[|s| - 1] == '_'
  }

  /**
   * One pass over the key: a separator leaves one underscore, unless one stands there; a capital becomes small, behind
   * an underscore unless one stands there or nothing comes before; anything else stays.
   */
  function Joined(s: string): string {
    if s == "" then ""
    else
      var before, c := Joined(s[..|s| - 1]), s[|s| - 1];
      if c == '-' || c == ' ' || c == '_' then
        if before != "" && Open(before) then before else before + "_"
      else if 'A' <= c <= 'Z' then
        (if Open(before) then before else before + "_") + [(c as int - 'A' as int + 'a' as int) as char]
      else before + [c]
  }

  function Units(c: char): string {
    if IsUpper(c) then ['_', c] else [c]
  }

  lemma {:induction false} SeparateRestAppend(x: string, c: char)
    ensures SeparateRest(x + [c]) == SeparateRest(x) + Units(c)
  {
    if x == "" {
      assert x + [c] == [c] && [c][1..] == "";
    } else {
      assert (x + [c])[1..] == x[1..] + [c];
      SeparateRestAppend(x[1..], c);
    }
  }

  lemma SeparateAppend(x: string, c: char)
    ensures Separate(x + [c]) == if x == "" then [c] else Separate(x) + Units(c)
  {
    if x == "" {
      assert x + [c] == [c] && [c][1..] == "";
    } else {
      assert (x + [c])[1..] == x[1..] + [c];
      SeparateRestAppend(x[1..], c);
    }
  }

  lemma {:induction false} CollapseAppend(x: string, c: char)
    ensures Collapse(x + [c]) == if x != "" && x[|x| - 1] == '_' && c == '_' then Collapse(x) else Collapse(x) + [c]
  {
    if |x| >= 2 {
      assert (x + [c])[1..] == x[1..] + [c];
      CollapseAppend(x[1..], c);
    } else if |x| == 1 {
      assert x + [c] == [x[0], c] && (x + [c])[1..] == [c];
    }
  }

  lemma CollapseLast(x: string)
    ensures x == "" <==> Collapse(x) == ""
    ensures x != "" ==> Collapse(x)[|Collapse(x)| - 1] == x[|x| - 1]
  {
    CollapseSettles(x);
  }

  function Spread(s: string): string {
    Mapped(Lower, Separate(Mapped(Dash, s)))
  }

  lemma MappedAppend(f: char -> char, x: string, c: char)
    ensures Mapped(f, x + [c]) == Mapped(f, x) + [f(c)]
  {}

  /** The next character adds itself, made small, and an underscore before a capital that is not the first. */
  lemma SpreadAppend(x: string, c: char)
    ensures Spread(x + [c]) == Spread(x) + (if x != "" && IsUpper(Dash(c)) then "_" else "") + [Lower(Dash(c))]
  {
    hide Dash, Lower;
    MappedAppend(Dash, x, c);
    var dashed, d := Mapped(Dash, x), Dash(c);
    SeparateAppend(dashed, d);
    if x == "" {
      assert Separate(dashed) == "" && [d] == "" + [d];
      MappedAppend(Lower, "", d);
    } else if IsUpper(d) {
      assert Separate(dashed) + ['_', d] == Separate(dashed) + ['_'] + [d];
      MappedAppend(Lower, Separate(dashed) + ['_'], d);
      MappedAppend(Lower, Separate(dashed), '_');
      UnderscoreStays();
    } else {
      MappedAppend(Lower, Separate(dashed), d);
    }
  }

  lemma UnderscoreStays()
    ensures Lower('_') == '_' && !IsUpper('_')
  {
    assert '_' as int == 95 && 'Z' as int == 90;
  }

  lemma Characters(c: char)
    ensures c == '-' || c == ' ' || c == '_' ==> Dash(c) == '_' && !IsUpper(Dash(c)) && Lower(Dash(c)) == '_'
    ensures c != '-' && c != ' ' && c != '_' ==> Dash(c) == c && Lower(Dash(c)) != '_'
    ensures 'A' <= c <= 'Z' ==> IsUpper(Dash(c)) && Lower(Dash(c)) == (c as int - 'A' as int + 'a' as int) as char
    ensures !('A' <= c <= 'Z') ==> !IsUpper(Dash(c)) && Lower(Dash(c)) == Dash(c)
  {
    assert '_' as int == 95 && 'A' as int == 65 && 'Z' as int == 90 && 'a' as int == 97 && '-' as int == 45 && ' ' as int == 32;
    if 'A' <= c <= 'Z' {
      assert Lower(Dash(c)) as int == c as int + 32;
    }
  }

  /** The five rewriting steps, one after the other over the whole text, come to this one pass. */
  lemma {:induction false} StepsAreOnePass(s: string)
    ensures Collapse(Spread(s)) == Joined(s)
  {
    if s == "" {
    } else {
      var x, c := s[..|s| - 1], s[|s| - 1];
      assert s == x + [c];
      StepsAreOnePass(x);
      SpreadAppend(x, c);
      SpreadEmpty(x);
      CollapseLast(Spread(x));
      Characters(c);
      hide Joined, Spread, Collapse, Dash, Lower, IsUpper;
      NextJoined(x, c);
      NextCollapsed(Spread(x), x != "" && IsUpper(Dash(c)), Lower(Dash(c)));
    }
  }

  lemma SpreadEmpty(x: string)
    ensures x == "" <==> Spread(x) == ""
  {
    if x != "" {
      assert Separate(Mapped(Dash, x)) != "";
    }
  }

  lemma NextJoined(x: string, c: char)
    ensures var before := Joined(x);
            Joined(x + [c]) ==
            if c == '-' || c == ' ' || c == '_' then (if before != "" && Open(before) then before else before + "_")
            else if 'A' <= c <= 'Z' then (if Open(before) then before else before + "_") + [(c as int - 'A' as int + 'a' as int) as char]
            else before + [c]
  {
    assert (x + [c])[..|x + [c]| - 1] == x;
  }

  lemma NextCollapsed(u: string, gap: bool, c: char)
    ensures Collapse(u + (if gap then "_" else "") + [c]) ==
            var under := u != "" && u[|u| - 1] == '_';
            if gap then
              var v := if under then Collapse(u) else Collapse(u) + "_";
              if c == '_' then v else v + [c]
            else if under && c == '_' then Collapse(u)
            else Collapse(u) + [c]
  {
    if gap {
      CollapseAppend(u, '_');
      CollapseAppend(u + ['_'], c);
    } else {
      assert u + "" == u;
      CollapseAppend(u, c);
    }
  }

  /** `k` is the rewritten form of `key`. */
  ghost predicate KeyForm(key: string, k: string) {
    exists t :: Trimmed(key, t) && k == Joined(t)
  }

  /** A key is stripped and then rewritten in one pass. */
  lemma KeyFormIff(key: string, k: string)
    ensures k == NormalizeKey(key) <==> KeyForm(key, k)
  {
    hide Trimmed, Joined, Strip, Collapse;
    StripTrims(key);
    StepsAreOnePass(Strip(key));
    if KeyForm(key, k) {
      var t :| Trimmed(key, t) && k == Joined(t);
      TrimmedOnce(key, t, Strip(key));
    }
  }

  // ----- Documents -----

  /** The entry at `i` is the last one with a value whose key comes to `k`. */
  ghost predicate LastFor(es: seq<Entry>, k: string, i: int) {
    && 0 <= i < |es| && !es[i].1.Nothing? && KeyForm(es[i].0, k)
    && forall j :: i < j < |es| && !es[j].1.Nothing? ==> !KeyForm(es[j].0, k)
  }

  /**
   * `n` is the canonical form of `d`: texts are stripped; lists keep their members; the keys of a mapping ascend, and
   * its entries are, for every rewritten key, the form of the last value given for it.
   */
  ghost predicate FormOf(d: Doc, n: Doc)
    decreases d
  {
    match d
    case Text(s) => n.Text? && Trimmed(s, n.s)
    case Items(xs) => n.Items? && |n.items| == |xs| && forall i :: 0 <= i < |xs| ==> FormOf(xs[i], n.items[i])
    case Mapping(es) => n.Mapping? && StrictKeys(n.entries) && forall k, v :: (k, v) in n.entries <==> EntryForm(d, es, k, v)
    case _ => n == d
  }

  ghost predicate EntryForm(d: Doc, es: seq<Entry>, k: string, v: Doc)
    requires forall i :: 0 <= i < |es| ==> es[i].1 < d
    decreases d, 0
  {
    exists i :: LastFor(es, k, i) && FormOf(es[i].1, v)
  }

  lemma {:induction false} LastWithMeaning(es: seq<Entry>, k: string)
    ensures LastWith(es, k).Some? ==> exists i :: LastFor(es, k, i) && es[i].1 == LastWith(es, k).value
    ensures LastWith(es, k).None? ==> forall i :: !LastFor(es, k, i)
  {
    hide NormalizeKey, KeyForm;
    if es != [] {
      KeyFormIff(es[0].0, k);
      LastWithMeaning(es[1..], k);
      if LastWith(es[1..], k).Some? {
        var i :| LastFor(es[1..], k, i) && es[1..][i].1 == LastWith(es[1..], k).value;
        LastForTail(es, k, i);
      } else {
        forall i | LastFor(es, k, i) ensures i == 0 {
          LastForHead(es, k, i);
        }
        NoneInTail(es, k);
      }
    }
  }

  lemma LastForTail(es: seq<Entry>, k: string, i: int)
    requires es != [] && LastFor(es[1..], k, i)
    ensures LastFor(es, k, i + 1)
  {
    hide KeyForm;
    forall j | i + 1 < j < |es| && !es[j].1.Nothing? ensures !KeyForm(es[j].0, k) {
      assert es[1..][j - 1] == es[j];
    }
  }

  lemma LastForHead(es: seq<Entry>, k: string, i: int)
    requires es != [] && LastFor(es, k, i)
    ensures i == 0 || LastFor(es[1..], k, i - 1)
  {
    hide KeyForm;
  }

  lemma {:induction false} SomeLast(es: seq<Entry>, k: string, i: int)
    requires 0 <= i < |es| && !es[i].1.Nothing? && KeyForm(es[i].0, k)
    ensures exists j :: LastFor(es, k, j)
    decreases |es| - i
  {
    hide KeyForm;
    if j :| i < j < |es| && !es[j].1.Nothing? && KeyForm(es[j].0, k) {
      SomeLast(es, k, j);
    } else {
      assert LastFor(es, k, i);
    }
  }

  lemma NoneInTail(es: seq<Entry>, k: string)
    requires es != [] && forall j :: !LastFor(es[1..], k, j)
    ensures !es[0].1.Nothing? && KeyForm(es[0].0, k) ==> LastFor(es, k, 0)
  {
    hide KeyForm;
    forall j | 0 < j < |es| && !es[j].1.Nothing? ensures !KeyForm(es[j].0, k) {
      if KeyForm(es[j].0, k) {
        assert es[1..][j - 1] == es[j];
        SomeLast(es[1..], k, j - 1);
      }
    }
  }

  lemma LastForOnce(es: seq<Entry>, k: string, i: int, j: int)
    requires LastFor(es, k, i) && LastFor(es, k, j)
    ensures i == j
  {
    hide KeyForm;
  }

  /** The normalised document is the one and only canonical form. */
  lemma {:induction false} FormOfIff(d: Doc, n: Doc)
    ensures FormOf(d, n) <==> n == Normalize(d)
    decreases d
  {
    match d
    case Text(s) =>
      hide Trimmed, Strip;
      StripTrims(s);
      if n.Text? && Trimmed(s, n.s) {
        TrimmedOnce(s, n.s, Strip(s));
      }
    case Items(xs) =>
      forall i, v | 0 <= i < |xs| ensures FormOf(xs[i], v) <==> v == Normalize(xs[i]) {
        FormOfIff(xs[i], v);
      }
      ListForm(xs, n);
    case Mapping(es) =>
      forall i, v | 0 <= i < |es| ensures FormOf(es[i].1, v) <==> v == Normalize(es[i].1) {
        FormOfIff(es[i].1, v);
      }
      MappingForm(es, n);
    case _ =>
  }

  lemma ListForm(xs: seq<Doc>, n: Doc)
    requires forall i, v :: 0 <= i < |xs| ==> (FormOf(xs[i], v) <==> v == Normalize(xs[i]))
    ensures FormOf(Items(xs), n) <==> n == Normalize(Items(xs))
  {}

  lemma EntryFormIff(es: seq<Entry>, k: string, v: Doc)
    requires forall i, w :: 0 <= i < |es| ==> (FormOf(es[i].1, w) <==> w == Normalize(es[i].1))
    ensures EntryForm(Mapping(es), es, k, v) <==> LastWith(NormalValues(es), k) == Some(v)
  {
    hide Normalize, KeyForm, LastWith, FormOf;
    var values := NormalValues(es);
    LastWithMeaning(values, k);
    forall i ensures LastFor(values, k, i) <==> LastFor(es, k, i) {
      ValuesLast(es, k, i);
    }
    if LastWith(values, k).Some? {
      var i :| LastFor(values, k, i) && values[i].1 == LastWith(values, k).value;
      forall j | LastFor(es, k, j) ensures j == i {
        LastForOnce(values, k, i, j);
      }
      assert LastFor(es, k, i);
    }
  }

  lemma ValuesLast(es: seq<Entry>, k: string, i: int)
    ensures LastFor(NormalValues(es), k, i) <==> LastFor(es, k, i)
  {
    hide Normalize, KeyForm;
    forall j | 0 <= j < |es| ensures NormalValues(es)[j].1.Nothing? <==> es[j].1.Nothing? {
      NormalKeepsValue(es[j].1);
    }
  }

  lemma MappingForm(es: seq<Entry>, n: Doc)
    requires forall i, v :: 0 <= i < |es| ==> (FormOf(es[i].1, v) <==> v == Normalize(es[i].1))
    ensures FormOf(Mapping(es), n) <==> n == Normalize(Mapping(es))
  {
    NormalizeMapping(es);
    var built := Rebuild(NormalValues(es));
    RebuildMeaning(NormalValues(es));
    forall k, v ensures (k, v) in built <==> EntryForm(Mapping(es), es, k, v) {
      EntryFormIff(es, k, v);
      assert (k, v) in built <==> LastWith(NormalValues(es), k) == Some(v);
    }
    hide Rebuild, Normalize, LastWith, EntryForm, StrictKeys, Answers;
    if FormOf(Mapping(es), n) {
      forall e ensures e in n.entries <==> e in built {
        assert e == (e.0, e.1);
      }
      StrictUnique(n.entries, built);
    }
  }
}
