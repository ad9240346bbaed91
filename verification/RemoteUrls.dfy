/** Redaction of remote URLs, and which URLs a second redaction leaves alone. */
module RemoteUrls {
  import opened Order
  import opened Wrappers

  /** Does the text contain one of the secret markers? */
  type Marker = string -> bool

  const MASK := "<redacted>"

  // ----- Cutting texts -----

  function Tail(c: char, text: Option<string>): string {
    match text case None => "" case Some(t) => [c] + t
  }

  /** What stands before the first `c`, and what follows it. */
  function Cut(s: string, c: char): (r: (string, Option<string>))
    ensures c !in r.0 && s == r.0 + Tail(c, r.1)
    ensures r.1.None? ==> c !in s
  {
    if s == "" then ("", None)
    else if s[0] == c then ("", Some(s[1..]))
    else
      var (head, tail) := Cut(s[1..], c);
      assert s == [s[0]] + s[1..];
      assert [s[0]] + (head + Tail(c, tail)) == [s[0]] + head + Tail(c, tail);
      ([s[0]] + head, tail)
  }

  lemma {:induction false} CutAt(a: string, c: char, t: Option<string>)
    requires c !in a
    ensures Cut(a + Tail(c, t), c) == (a, t)
  {
    var s := a + Tail(c, t);
    if a == "" {
      assert s == Tail(c, t);
      if t.Some? {
        assert s[1..] == t.value;
      }
    } else {
      assert s[1..] == a[1..] + Tail(c, t);
      CutAt(a[1..], c, t);
      assert a == [a[0]] + a[1..];
    }
  }

  /** `base`, `base?query`, `base#fragment` or `base?query#fragment`; a `#` before the first `?` belongs to the base. */
  datatype Parts = Parts(base: string, query: Option<string>, fragment: Option<string>)

  predicate WellCut(p: Parts) {
    && '?' !in p.base
    && (p.query.Some? ==> '#' !in p.query.value)
    && (p.query.None? ==> '#' !in p.base && '?' !in Tail('#', p.fragment))
  }

  function Join(p: Parts): string {
    p.base + Tail('?', p.query) + Tail('#', p.fragment)
  }

  function Split(v: string): Parts {
    var (base, rest) := Cut(v, '?');
    match rest
    case Some(r) => var (query, fragment) := Cut(r, '#'); Parts(base, Some(query), fragment)
    case None => var (plain, fragment) := Cut(v, '#'); Parts(plain, None, fragment)
  }

  lemma Regroup(base: string, c: char, a: string, b: string)
    ensures base + Tail(c, Some(a + b)) == base + Tail(c, Some(a)) + b
  {
    assert [c] + (a + b) == [c] + a + b;
    assert base + ([c] + a + b) == base + ([c] + a) + b;
  }

  lemma PlainCut(v: string, c: char)
    requires '?' !in v
    ensures '?' !in Cut(v, c).0 && '?' !in Tail(c, Cut(v, c).1)
  {
    var (head, tail) := Cut(v, c);
    forall i | 0 <= i < |head| ensures head[i] != '?' {
      assert v[i] == head[i];
    }
    forall i | 0 <= i < |Tail(c, tail)| ensures Tail(c, tail)[i] != '?' {
      assert v[|head| + i] == Tail(c, tail)[i];
    }
  }

  lemma SplitCuts(v: string)
    ensures WellCut(Split(v)) && Join(Split(v)) == v
  {
    var (base, rest) := Cut(v, '?');
    if rest.Some? {
      var (query, fragment) := Cut(rest.value, '#');
      hide Tail, Cut;
      Regroup(base, '?', query, Tail('#', fragment));
    } else {
      PlainCut(v, '#');
      var (plain, fragment) := Cut(v, '#');
      assert plain + Tail('?', None) == plain;
      hide Cut;
    }
  }

  lemma SplitJoin(p: Parts)
    requires WellCut(p)
    ensures Split(Join(p)) == p
  {
    hide Cut;
    if p.query.Some? {
      var r := p.query.value + Tail('#', p.fragment);
      assert Join(p) == p.base + Tail('?', Some(r));
      CutAt(p.base, '?', Some(r));
      CutAt(p.query.value, '#', p.fragment);
    } else {
      assert Join(p) == p.base + Tail('#', p.fragment);
      assert Join(p) == Join(p) + Tail('?', None);
      CutAt(Join(p), '?', None);
      CutAt(p.base, '#', p.fragment);
    }
  }

  // ----- Redaction -----

  function Mask(m: Marker, t: string): string {
    if m(t) then MASK else t
  }

  function MaskOption(m: Marker, t: Option<string>): Option<string> {
    match t case None => None case Some(x) => Some(Mask(m, x))
  }

  function MaskParts(m: Marker, p: Parts): Parts {
    Parts(p.base, MaskOption(m, p.query), MaskOption(m, p.fragment))
  }

  /** Query and fragment are masked when they contain a marker. */
  function RedactTail(m: Marker, v: string): string {
    Join(MaskParts(m, Split(v)))
  }

  predicate SepAt(s: string, i: int) {
    0 <= i && i + 2 < |s| && s[i] == ':' && s[i + 1] == '/' && s[i + 2] == '/'
  }

  function SepFrom(s: string, i: nat): (k: nat)
    requires i <= |s|
    ensures i <= k <= |s| && (k < |s| ==> SepAt(s, k)) && forall j :: i <= j < k ==> !SepAt(s, j)
    decreases |s| - i
  {
    if i == |s| || SepAt(s, i) then i else SepFrom(s, i + 1)
  }

  /** The place of the first `://`, or the length of the text. */
  function Sep(s: string): (k: nat)
    ensures k <= |s| && (k < |s| ==> SepAt(s, k)) && forall j :: 0 <= j < k ==> !SepAt(s, j)
  {
    SepFrom(s, 0)
  }

  /** What follows the last `@`, or all of the text. */
  function AfterLast(s: string): (r: string)
    ensures '@' !in r && |r| <= |s| && s[|s| - |r|..] == r
  {
    if s == "" then ""
    else if '@' in s[1..] then AfterLast(s[1..])
    else if s[0] == '@' then s[1..]
    else
      assert s == [s[0]] + s[1..];
      s
  }

  /** What stands before the last `@` of the authority is masked. */
  function MaskUserinfo(v: string): string {
    var i := Sep(v);
    if i < |v| then v[..i] + "://" + MASK + "@" + AfterLast(v[i + 3..]) else MASK + "@" + AfterLast(v)
  }

  function RedactUrl(m: Marker, v: string): string {
    if '@' !in v then RedactTail(m, v) else RedactTail(m, MaskUserinfo(v))
  }

  // ----- The tail settles at once -----

  lemma MaskedWellCut(m: Marker, p: Parts)
    requires WellCut(p)
    ensures WellCut(MaskParts(m, p))
  {}

  /** Masking is not undone or repeated, whatever the marker test says of the mask itself. */
  lemma RedactTailIdempotent(m: Marker, v: string)
    ensures RedactTail(m, RedactTail(m, v)) == RedactTail(m, v)
  {
    SplitCuts(v);
    MaskedWellCut(m, Split(v));
    SplitJoin(MaskParts(m, Split(v)));
    hide Split, Join;
  }

  // ----- What becomes of a masked user -----

  ghost predicate NoSep(s: string) {
    forall i {:trigger SepAt(s, i)} :: 0 <= i < |s| ==> !SepAt(s, i)
  }

  /** A `://` appended to this text is its first one. */
  ghost predicate SepFree(s: string) {
    forall i {:trigger SepAt(s + "://", i)} :: 0 <= i < |s| ==> !SepAt(s + "://", i)
  }

  lemma SepAfter(s: string, rest: string)
    requires SepFree(s)
    ensures Sep(s + "://" + rest) == |s|
  {
    var v, w := s + "://" + rest, s + "://";
    assert SepAt(v, |s|);
    forall i | 0 <= i < |s| ensures !SepAt(v, i) {
      assert !SepAt(w, i);
      assert v[i] == w[i] && v[i + 1] == w[i + 1] && v[i + 2] == w[i + 2];
    }
  }

  lemma SepBefore(v: string)
    requires Sep(v) < |v|
    ensures var k := Sep(v); SepFree(v[..k]) && v == v[..k] + "://" + v[k + 3..]
  {
    var k := Sep(v);
    assert v == v[..k] + "://" + v[k + 3..];
    forall i | 0 <= i < k ensures !SepAt(v[..k] + "://", i) {
      assert SepAt(v[..k] + "://", i) ==> SepAt(v, i);
    }
  }

  lemma {:induction false} LastAt(a: string, h: string)
    requires '@' !in h
    ensures AfterLast(a + "@" + h) == h
  {
    var s := a + "@" + h;
    if a == "" {
      assert s[1..] == h;
    } else {
      assert s[1..] == a[1..] + "@" + h;
      assert s[1..][|a| - 1] == '@';
      LastAt(a[1..], h);
    }
  }

  /** A text with one masked user, where a mask would go. */
  lemma MaskedUserStays(s: string, h: string)
    requires SepFree(s) && '@' !in h
    ensures MaskUserinfo(s + "://" + MASK + "@" + h) == s + "://" + MASK + "@" + h
  {
    var rest := MASK + "@" + h;
    assert s + "://" + MASK + "@" + h == s + "://" + rest;
    SepAfter(s, rest);
    LastAt(MASK, h);
    assert (s + "://" + rest)[..|s|] == s && (s + "://" + rest)[|s| + 3..] == rest;
  }

  lemma NoSepCut(a: string, c: char, b: string)
    requires c != ':' && c != '/' && NoSep(a) && NoSep(b)
    ensures NoSep(a + [c] + b)
  {
    var s := a + [c] + b;
    forall i | 0 <= i < |s| ensures !SepAt(s, i) {
      if i < |a| {
        assert SepAt(s, i) ==> SepAt(a, i);
      } else if i > |a| {
        assert SepAt(s, i) ==> SepAt(b, i - |a| - 1);
      }
    }
  }

  lemma SepFreeCut(a: string, c: char, b: string)
    requires c != ':' && c != '/'
    ensures SepFree(a + [c] + b) <==> NoSep(a) && SepFree(b)
  {
    var s := a + [c] + b;
    var v := s + "://";
    if SepFree(s) {
      forall i | 0 <= i < |a| ensures !SepAt(a, i) {
        assert SepAt(a, i) ==> SepAt(v, i);
      }
      forall i | 0 <= i < |b| ensures !SepAt(b + "://", i) {
        assert SepAt(b + "://", i) ==> SepAt(v, |a| + 1 + i);
      }
    }
    if NoSep(a) && SepFree(b) {
      forall i | 0 <= i < |s| ensures !SepAt(v, i) {
        if i < |a| {
          assert SepAt(v, i) ==> SepAt(a, i);
        } else if i > |a| {
          assert SepAt(v, i) ==> SepAt(b + "://", i - |a| - 1);
        }
      }
    }
  }

  lemma MaskNoSep(m: Marker, t: string)
    requires NoSep(t)
    ensures NoSep(Mask(m, t))
  {}

  /** Nothing is masked before the first `?` or, without one, before the first `#`. */
  lemma RedactTailPrefix(m: Marker, pre: string, h: string)
    requires '?' !in pre && ('?' in h || '#' !in pre)
    ensures RedactTail(m, pre + h) == pre + RedactTail(m, h)
  {
    var p := Split(h);
    SplitCuts(h);
    var q := Parts(pre + p.base, p.query, p.fragment);
    QueryKnown(h);
    assert Join(q) == pre + Join(p) && Join(MaskParts(m, q)) == pre + Join(MaskParts(m, p)) by {
      JoinPrefix(pre, p);
      JoinPrefix(pre, MaskParts(m, p));
    }
    SplitJoin(q);
  }

  lemma JoinPrefix(pre: string, p: Parts)
    ensures Join(Parts(pre + p.base, p.query, p.fragment)) == pre + Join(p)
  {
    var q, f := Tail('?', p.query), Tail('#', p.fragment);
    assert (pre + p.base) + q + f == pre + (p.base + q + f);
  }

  lemma QueryKnown(v: string)
    ensures Split(v).query.Some? <==> '?' in v
  {}

  lemma RedactTailNoUser(m: Marker, h: string)
    requires '@' !in h
    ensures '@' !in RedactTail(m, h)
  {
    SplitCuts(h);
    var p := Split(h);
    assert '@' !in p.base && '@' !in Tail('?', p.query) && '@' !in Tail('#', p.fragment) by {
      assert '@' !in Join(p);
      TailMembers(p, '@');
    }
    assert '@' !in MASK;
    if p.query.Some? { TextInTail('?', p.query.value, '@'); }
    if p.fragment.Some? { TextInTail('#', p.fragment.value, '@'); }
    hide Split;
  }

  lemma TailMembers(p: Parts, c: char)
    ensures c in Join(p) <==> c in p.base || c in Tail('?', p.query) || c in Tail('#', p.fragment)
  {}

  lemma TextInTail(c: char, t: string, x: char)
    ensures x in t ==> x in Tail(c, Some(t))
  {}

  function Masked(h: string): string { "://" + MASK + "@" + h }

  /** The mask of the user went under when the text around it was masked. */
  predicate Swallowed(u: string, s: string) {
    !(s + "://" <= u) && ('@' in u ==> '@' in s) && ('?' in s || '#' in s)
  }

  lemma Associate(pre: string, s: string, x: string, y: string, z: string, h: string, t: string)
    ensures pre + s + x + y + z + (h + t) == pre + (s + (x + y + z + h)) + t
    ensures pre + s + x + y + z + h == pre + (s + (x + y + z + h))
  {}

  lemma PrefixCancel(pre: string, a: string, b: string)
    ensures pre + a <= pre + b <==> a <= b
  {
    if a <= b {
      assert pre + b == (pre + a) + b[|a|..];
    }
    if pre + a <= pre + b {
      assert b == (pre + b)[|pre|..] && a == (pre + a)[|pre|..];
      assert (pre + b)[..|pre + a|] == pre + a;
    }
  }

  lemma NoSepSwallows(u: string, s: string)
    requires NoSep(u)
    ensures !(s + "://" <= u)
  {
    if |s| + 3 <= |u| {
      assert !SepAt(u, |s|);
      assert SepAt(s + "://", |s|);
    }
  }

  lemma FragmentMasked(head: string, maskedHead: string, s3: string)
    requires NoSep(maskedHead) && ('@' in maskedHead ==> '@' in head)
    ensures Swallowed(maskedHead + "#" + MASK, head + "#" + s3)
  {
    var u, s := maskedHead + "#" + MASK, head + "#" + s3;
    NoSepCut(maskedHead, '#', MASK);
    NoSepSwallows(u, s);
    assert s[|head|] == '#';
    hide NoSep;
  }

  lemma FragmentKept(maskedHead: string, s3: string, h: string)
    requires SepFree(s3) && NoSep(maskedHead) && '@' !in h
    ensures var u := maskedHead + "#" + (s3 + Masked(h)); MaskUserinfo(u) == u
  {
    var s := maskedHead + "#" + s3;
    SepFreeCut(maskedHead, '#', s3);
    MaskedUserStays(s, h);
    hide MaskUserinfo, SepFree, NoSep;
    Associate(maskedHead + "#", s3, "://", MASK, "@", h, "");
  }

  /** A fragment that begins before the authority, behind a head without separator: masked as a whole, or not at all. */
  lemma FragmentSwallowed(m: Marker, head: string, maskedHead: string, s3: string, h: string)
    requires SepFree(head + "#" + s3) && NoSep(maskedHead) && '@' !in h
    requires '@' in maskedHead ==> '@' in head
    ensures var u := maskedHead + "#" + Mask(m, s3 + Masked(h));
            MaskUserinfo(u) == u || Swallowed(u, head + "#" + s3)
  {
    SepFreeCut(head, '#', s3);
    hide MaskUserinfo, SepFree, NoSep, Swallowed, Masked;
    if m(s3 + Masked(h)) {
      FragmentMasked(head, maskedHead, s3);
    } else {
      FragmentKept(maskedHead, s3, h);
    }
  }

  lemma QueryMasked(b: string, s2: string, t: string)
    requires '#' !in s2 && '@' !in t && (t == "" || t[0] == '#')
    ensures Swallowed(b + "?" + MASK + t, b + "?" + s2)
  {
    var u, s, pre := b + "?" + MASK + t, b + "?" + s2, b + "?";
    assert u == pre + (MASK + t) && s + "://" == pre + (s2 + "://");
    QueryDiffers(s2, t);
    PrefixCancel(pre, s2 + "://", MASK + t);
    assert s[|b|] == '?';
    assert '@' in u ==> '@' in b by {
      assert '@' !in MASK + t;
    }
  }

  lemma QueryKept(b: string, s2: string, h1: string, t: string)
    requires SepFree(b + "?" + s2) && '@' !in h1 && '@' !in t
    ensures var u := b + "?" + (s2 + Masked(h1)) + t; MaskUserinfo(u) == u
  {
    MaskedUserStays(b + "?" + s2, h1 + t);
    hide MaskUserinfo, SepFree;
    Associate(b + "?", s2, "://", MASK, "@", h1, t);
  }

  /** A query that begins before the authority and holds it. */
  lemma QuerySwallowed(m: Marker, b: string, s2: string, h1: string, f: Option<string>)
    requires SepFree(b + "?" + s2) && '#' !in s2 && '@' !in h1 && '@' !in Tail('#', f)
    ensures var u := b + "?" + Mask(m, s2 + Masked(h1)) + Tail('#', f);
            MaskUserinfo(u) == u || Swallowed(u, b + "?" + s2)
  {
    hide MaskUserinfo, SepFree, Swallowed, Masked;
    if m(s2 + Masked(h1)) {
      QueryMasked(b, s2, Tail('#', f));
    } else {
      QueryKept(b, s2, h1, Tail('#', f));
    }
  }

  lemma QueryDiffers(s2: string, t: string)
    requires '#' !in s2 && (t == "" || t[0] == '#')
    ensures !(s2 + "://" <= MASK + t)
  {
    var p, q := s2 + "://", MASK + t;
    var k := if |s2| < |MASK| then |s2| else |MASK|;
    assert ':' !in MASK;
    if |p| <= |q| {
      assert p[k] != q[k];
    }
  }

  // ----- Which URLs a second redaction leaves alone -----

  /** After the first `?` of the scheme, when there is one. */
  lemma QueryInScheme(m: Marker, b: string, s2: string, h: string)
    requires SepFree(b + "?" + s2) && '?' !in b && '@' !in h
    ensures var u := RedactTail(m, b + "?" + s2 + Masked(h)); MaskUserinfo(u) == u || Swallowed(u, b + "?" + s2)
  {
    hide MaskUserinfo, Swallowed, SepFree, NoSep, RedactTail;
    var (q0, rest) := Cut(s2, '#');
    match rest {
      case Some(s3) =>
        RedactedFragment(m, b, q0, s3 + Masked(h));
        JoinFragment(q0, s3);
        RegroupFragment(b + "?", q0, s3, Masked(h));
        HeadNoSep(m, b, q0, s3);
        FragmentSwallowed(m, b + "?" + q0, b + "?" + Mask(m, q0), s3, h);
      case None =>
        var (h1, f) := Cut(h, '#');
        RedactedQuery(m, b, s2 + Masked(h1), f);
        NoFragmentInMask(s2, h1);
        RegroupQuery(b + "?", s2, h1, Tail('#', f));
        FragmentNoUser(m, h1, f);
        QuerySwallowed(m, b, s2, h1, MaskOption(m, f));
    }
  }

  lemma JoinQuery(b: string, q: string, f: Option<string>)
    ensures Join(Parts(b, Some(q), f)) == b + "?" + q + Tail('#', f)
  {
    assert b + (['?'] + q) == b + "?" + q;
  }

  lemma JoinFragment(head: string, f: string)
    ensures head + Tail('#', Some(f)) == head + "#" + f
  {
    assert head + (['#'] + f) == head + "#" + f;
  }

  lemma RedactedQuery(m: Marker, b: string, q: string, f: Option<string>)
    requires '?' !in b && '#' !in q
    ensures RedactTail(m, b + "?" + q + Tail('#', f)) == b + "?" + Mask(m, q) + Tail('#', MaskOption(m, f))
  {
    SplitJoin(Parts(b, Some(q), f));
    JoinQuery(b, q, f);
    JoinQuery(b, Mask(m, q), MaskOption(m, f));
    hide Split, Join, Tail, Mask;
  }

  lemma RedactedFragment(m: Marker, b: string, q: string, f: string)
    requires '?' !in b && '#' !in q
    ensures RedactTail(m, b + "?" + q + "#" + f) == b + "?" + Mask(m, q) + "#" + Mask(m, f)
  {
    RedactedQuery(m, b, q, Some(f));
    JoinFragment(b + "?" + q, f);
    JoinFragment(b + "?" + Mask(m, q), Mask(m, f));
    hide RedactTail, Tail, Mask;
  }

  lemma RedactedPlainFragment(m: Marker, b: string, f: string)
    requires '?' !in b && '#' !in b && '?' !in f
    ensures RedactTail(m, b + "#" + f) == b + "#" + Mask(m, f)
  {
    SplitJoin(Parts(b, None, Some(f)));
    assert b + Tail('?', None) == b;
    JoinFragment(b, f);
    JoinFragment(b, Mask(m, f));
    hide Split, Mask;
  }

  lemma RegroupFragment(pre: string, q: string, f: string, t: string)
    ensures pre + (q + "#" + f) + t == pre + q + "#" + (f + t) && pre + (q + "#" + f) == pre + q + "#" + f
  {}

  lemma RegroupQuery(pre: string, s2: string, h1: string, t: string)
    ensures pre + s2 + Masked(h1 + t) == pre + (s2 + Masked(h1)) + t
  {
    Associate(pre, s2, "://", MASK, "@", h1, t);
    Associate(pre, s2, "://", MASK, "@", h1 + t, "");
  }

  lemma NoFragmentInMask(s2: string, h1: string)
    requires '#' !in s2 && '#' !in h1
    ensures '#' !in s2 + Masked(h1)
  {}

  lemma HeadNoSep(m: Marker, b: string, q0: string, s3: string)
    requires SepFree(b + "?" + q0 + "#" + s3)
    ensures NoSep(b + "?" + Mask(m, q0)) && ('@' in b + "?" + Mask(m, q0) ==> '@' in b + "?" + q0)
  {
    assert b + "?" + q0 + "#" + s3 == b + "?" + (q0 + "#" + s3);
    SepFreeCut(b, '?', q0 + "#" + s3);
    SepFreeCut(q0, '#', s3);
    MaskNoSep(m, q0);
    NoSepCut(b, '?', Mask(m, q0));
    hide NoSep, SepFree;
    assert '@' !in MASK;
  }

  lemma FragmentNoUser(m: Marker, h1: string, f: Option<string>)
    requires '@' !in h1 + Tail('#', f)
    ensures '@' !in h1 && '@' !in Tail('#', MaskOption(m, f))
  {
    assert forall c :: c in h1 || c in Tail('#', f) ==> c in h1 + Tail('#', f);
    if f.Some? {
      TextInTail('#', f.value, '@');
      assert '@' !in MASK;
    }
  }

  /** What redaction makes of a URL with a user: the masked user is there to stay, or was swallowed by a mask. */
  lemma KeptOrSwallowed(m: Marker, s: string, h: string)
    requires SepFree(s) && '@' !in h
    ensures var u := RedactTail(m, s + Masked(h)); MaskUserinfo(u) == u || Swallowed(u, s)
  {
    hide MaskUserinfo, Swallowed, SepFree, NoSep, RedactTail, Masked;
    var (b, rest) := Cut(s, '?');
    if rest.Some? {
      assert s == b + "?" + rest.value;
      QueryInScheme(m, b, rest.value, h);
    } else if '?' in h || '#' !in s {
      SchemeUntouched(m, s, h);
    } else {
      FragmentInScheme(m, s, h);
    }
  }

  lemma SchemeUntouched(m: Marker, s: string, h: string)
    requires SepFree(s) && '@' !in h && '?' !in s && ('?' in h || '#' !in s)
    ensures var u := RedactTail(m, s + Masked(h)); MaskUserinfo(u) == u
  {
    hide MaskUserinfo, SepFree, RedactTail;
    var pre := s + "://" + MASK + "@";
    assert s + Masked(h) == pre + h;
    assert '?' !in pre && ('#' in pre ==> '#' in s);
    RedactTailPrefix(m, pre, h);
    RedactTailNoUser(m, h);
    MaskedUserStays(s, RedactTail(m, h));
  }

  lemma FragmentInScheme(m: Marker, s: string, h: string)
    requires SepFree(s) && '@' !in h && '?' !in s && '?' !in h && '#' in s
    ensures var u := RedactTail(m, s + Masked(h)); MaskUserinfo(u) == u || Swallowed(u, s)
  {
    hide MaskUserinfo, SepFree, NoSep, Swallowed, RedactTail;
    var (b, rest) := Cut(s, '#');
    var s3 := rest.value;
    JoinFragment(b, s3);
    SepFreeCut(b, '#', s3);
    assert '?' !in b && '?' !in s3;
    NoQueryInMasked(s3, h);
    FragmentRun(b, s3, Masked(h));
    hide Masked, Cut, Tail;
    RedactedPlainFragment(m, b, s3 + Masked(h));
    FragmentSwallowed(m, b, b, s3, h);
  }

  lemma FragmentRun(b: string, f: string, t: string)
    ensures (b + "#" + f) + t == b + "#" + (f + t)
  {}

  lemma NoQueryInMasked(s: string, h: string)
    requires '?' !in s && '?' !in h
    ensures '?' !in s + Masked(h)
  {}

  /** What follows the first `://`, or all of the text. */
  function Authority(u: string): string {
    if Sep(u) < |u| then u[Sep(u) + 3..] else u
  }

  /** The authority begins with a masked user and holds no other. */
  predicate UserMasked(u: string) {
    MASK + "@" <= Authority(u) && '@' !in Authority(u)[|MASK| + 1..]
  }

  lemma AuthorityMasked(a: string)
    ensures MASK + "@" <= a && '@' !in a[|MASK| + 1..] <==> a == MASK + "@" + AfterLast(a)
  {
    hide AfterLast;
    var pre := MASK + "@";
    if pre <= a && '@' !in a[|pre|..] {
      assert a == pre + a[|pre|..];
      LastAt(MASK, a[|pre|..]);
    }
    if a == pre + AfterLast(a) {
      assert a[|pre|..] == AfterLast(a);
    }
  }

  /** A URL with a separator, taken apart and masked. */
  lemma MaskForm(v: string) returns (s: string, h: string)
    requires Sep(v) < |v|
    ensures SepFree(s) && '@' !in h && s == v[..Sep(v)] && h == AfterLast(Authority(v))
    ensures v == s + "://" + Authority(v) && MaskUserinfo(v) == s + "://" + (MASK + "@" + h) && MaskUserinfo(v) == s + Masked(h)
  {
    SepBefore(v);
    hide SepFree, AfterLast;
    s, h := v[..Sep(v)], AfterLast(Authority(v));
    assert MaskUserinfo(v) == s + "://" + MASK + "@" + h;
    Associate("", s, "://", MASK, "@", h, "");
    assert "" + s == s;
    FourParts(s, "://", MASK, "@", h);
  }

  lemma FourParts(s: string, x: string, y: string, z: string, h: string)
    ensures s + x + y + z + h == s + x + (y + z + h) && s + x + y + z + h == s + (x + y + z + h)
  {}

  lemma UserMaskedMeaning(u: string)
    ensures MaskUserinfo(u) == u <==> UserMasked(u)
  {
    AuthorityMasked(Authority(u));
    if Sep(u) < |u| {
      var s, h := MaskForm(u);
      hide MaskUserinfo, AfterLast, SepFree;
      Cancel(s + "://", Authority(u), MASK + "@" + h);
    }
  }

  lemma Cancel(pre: string, a: string, b: string)
    ensures pre + a == pre + b <==> a == b
  {
    assert (pre + a)[|pre|..] == a && (pre + b)[|pre|..] == b;
  }

  /** There is no user, or a masked one and no other. */
  predicate UserSettled(u: string) {
    '@' !in u || UserMasked(u)
  }

  lemma UserWithoutSep(m: Marker, h: string)
    requires '@' !in h
    ensures RedactTail(m, MASK + "@" + h) == MASK + "@" + RedactTail(m, h)
    ensures AfterLast(MASK + "@" + RedactTail(m, h)) == RedactTail(m, h)
  {
    hide RedactTail, AfterLast;
    RedactTailPrefix(m, MASK + "@", h);
    RedactTailNoUser(m, h);
    LastAt(MASK, RedactTail(m, h));
  }

  /** A settled tail that redaction leaves alone has its user masked. */
  lemma FixedUserMasked(m: Marker, u: string)
    requires '@' in u && RedactTail(m, MaskUserinfo(u)) == u
    ensures UserMasked(u)
  {
    UserMaskedMeaning(u);
    hide UserMasked, RedactTail;
    if Sep(u) < |u| {
      var s, h := MaskForm(u);
      KeptOrSwallowed(m, s, h);
      assert s + "://" <= u;
      hide MaskUserinfo, Masked, SepFree, AfterLast;
    } else {
      UserWithoutSep(m, AfterLast(u));
    }
  }

  /** Redacting twice is redacting once exactly when the first result has its user settled. */
  lemma FixedIffSettled(m: Marker, v: string)
    ensures RedactUrl(m, RedactUrl(m, v)) == RedactUrl(m, v) <==> UserSettled(RedactUrl(m, v))
  {
    var u := RedactUrl(m, v);
    RedactTailIdempotent(m, if '@' !in v then v else MaskUserinfo(v));
    assert RedactTail(m, u) == u;
    UserMaskedMeaning(u);
    hide RedactTail, MaskUserinfo, UserMasked;
    if '@' in u && RedactUrl(m, u) == u {
      FixedUserMasked(m, u);
    }
  }

  lemma PieceNoSep(a: string, b: string, c: string)
    requires NoSep(a + b + c)
    ensures NoSep(b)
  {
    forall i | 0 <= i < |b| ensures !SepAt(b, i) {
      assert SepAt(b, i) ==> SepAt(a + b + c, |a| + i);
      assert !SepAt(a + b + c, |a| + i);
    }
  }

  ghost predicate OptionNoSep(t: Option<string>) {
    t.Some? ==> NoSep(t.value)
  }

  lemma SplitNoSep(h: string)
    requires NoSep(h)
    ensures NoSep(Split(h).base) && OptionNoSep(Split(h).query) && OptionNoSep(Split(h).fragment)
  {
    SplitCuts(h);
    var p := Split(h);
    hide Split, NoSep;
    var q, f := Tail('?', p.query), Tail('#', p.fragment);
    assert h == "" + p.base + (q + f);
    PieceNoSep("", p.base, q + f);
    if p.query.Some? {
      assert h == (p.base + "?") + p.query.value + f;
      PieceNoSep(p.base + "?", p.query.value, f);
    }
    if p.fragment.Some? {
      assert h == (p.base + q + "#") + p.fragment.value + "";
      PieceNoSep(p.base + q + "#", p.fragment.value, "");
    }
  }

  lemma TailNoSep(head: string, c: char, t: Option<string>)
    requires c != ':' && c != '/' && NoSep(head) && OptionNoSep(t)
    ensures NoSep(head + Tail(c, t))
  {
    hide NoSep;
    match t {
      case None => assert head + Tail(c, t) == head;
      case Some(x) =>
        assert head + Tail(c, t) == head + [c] + x;
        NoSepCut(head, c, x);
    }
  }

  lemma MaskOptionNoSep(m: Marker, t: Option<string>)
    requires OptionNoSep(t)
    ensures OptionNoSep(MaskOption(m, t))
  {
    hide NoSep, Mask;
    if t.Some? {
      MaskNoSep(m, t.value);
    }
  }

  lemma RedactTailNoSep(m: Marker, h: string)
    requires NoSep(h)
    ensures NoSep(RedactTail(m, h))
  {
    hide NoSep, OptionNoSep, Split, Tail;
    SplitNoSep(h);
    var p := Split(h);
    MaskOptionNoSep(m, p.query);
    MaskOptionNoSep(m, p.fragment);
    TailNoSep(p.base, '?', MaskOption(m, p.query));
    TailNoSep(p.base + Tail('?', MaskOption(m, p.query)), '#', MaskOption(m, p.fragment));
  }

  // What is left of a URL whose masked user goes under with a query or fragment that begins before the authority.

  /** A user in a text without `://`: an `@` that is not the one of a mask at the front. */
  predicate Bare(w: string) {
    '@' in w && !(MASK + "@" <= w && '@' !in w[|MASK| + 1..])
  }

  /** A fragment that stays as it is and brings a `://` of its own. */
  predicate ShownSep(m: Marker, f: Option<string>) {
    f.Some? && !m(f.value) && Sep(f.value) < |f.value|
  }

  /**
   * With `s` before the `://` and `h` after the last `@`: the query or fragment that holds the masked user is marked,
   * and what stands before it has a user.
   */
  predicate LeftBare(m: Marker, s: string, h: string) {
    var (b, query) := Cut(s, '?');
    match query
    case Some(s2) => BareBeforeQuery(m, b, s2, h)
    case None =>
      var (head, fragment) := Cut(s, '#');
      fragment.Some? && '?' !in h && m(fragment.value + Masked(h)) && Bare(head)
  }

  predicate BareBeforeQuery(m: Marker, b: string, s2: string, h: string) {
    var (q, fragment) := Cut(s2, '#');
    match fragment
    case Some(s3) => m(s3 + Masked(h)) && Bare(b + "?" + Mask(m, q))
    case None =>
      var (h1, f) := Cut(h, '#');
      m(s2 + Masked(h1)) && '@' in b && (Bare(b) || ShownSep(m, f))
  }

  /** The URLs that a second redaction changes again, told from the URL. */
  predicate Unsettled(m: Marker, v: string) {
    '@' in v && Sep(v) < |v| && LeftBare(m, v[..Sep(v)], AfterLast(Authority(v)))
  }

  lemma KeptSettled(u: string)
    requires MaskUserinfo(u) == u
    ensures UserSettled(u)
  {
    UserMaskedMeaning(u);
  }

  /** What follows a `?` or `#` makes no difference to the user before it. */
  lemma BareUpTo(w: string, t: string)
    requires '@' !in t && (t == "" || t[0] == '?' || t[0] == '#')
    ensures Bare(w + t) <==> Bare(w)
  {
    var pre, u := MASK + "@", w + t;
    assert '?' !in pre && '#' !in pre;
    if pre <= u {
      PrefixAt(pre, u, |w|);
      assert |pre| <= |w|;
      assert u[|pre|..] == w[|pre|..] + t;
    }
  }

  lemma PrefixAt(pre: string, u: string, i: nat)
    ensures pre <= u && i < |pre| ==> pre[i] == u[i] && pre[i] in u
  {}

  lemma PlainSettled(w: string, t: string)
    requires NoSep(w + t) && '@' !in t && (t == "" || t[0] == '?' || t[0] == '#')
    ensures UserSettled(w + t) <==> !Bare(w)
  {
    assert Sep(w + t) == |w + t|;
    BareUpTo(w, t);
  }

  lemma FragmentLeft(m: Marker, head: string, s3: string, h: string)
    requires NoSep(head) && SepFree(s3) && '@' !in h
    ensures UserSettled(head + "#" + Mask(m, s3 + Masked(h))) <==> !(m(s3 + Masked(h)) && Bare(head))
  {
    hide NoSep, SepFree, Bare, UserSettled, Masked, MaskUserinfo;
    if m(s3 + Masked(h)) {
      MaskIsPlain();
      NoSepCut(head, '#', MASK);
      assert head + "#" + MASK == head + ("#" + MASK);
      PlainSettled(head, "#" + MASK);
    } else {
      FragmentKept(head, s3, h);
      KeptSettled(head + "#" + (s3 + Masked(h)));
    }
  }

  lemma QueryLeft(m: Marker, b: string, s2: string, h1: string, f: Option<string>)
    requires SepFree(b + "?" + s2) && '#' !in s2 && '@' !in h1 && '@' !in Tail('#', f) && '@' !in Tail('#', MaskOption(m, f))
    ensures UserSettled(b + "?" + Mask(m, s2 + Masked(h1)) + Tail('#', MaskOption(m, f)))
            <==> !(m(s2 + Masked(h1)) && '@' in b && (Bare(b) || ShownSep(m, f)))
  {
    hide NoSep, SepFree, Bare, UserSettled, Masked, MaskUserinfo, ShownSep;
    if m(s2 + Masked(h1)) {
      SepFreeCut(b, '?', s2);
      if ShownSep(m, f) {
        MaskIsPlain();
        NoSepCut(b, '?', MASK);
        SeparatedTail(b + "?" + MASK, m, f);
        MaskedQueryUser(b);
      } else {
        PlainTail(m, b, f);
      }
    } else {
      QueryKept(b, s2, h1, Tail('#', MaskOption(m, f)));
      KeptSettled(b + "?" + (s2 + Masked(h1)) + Tail('#', MaskOption(m, f)));
    }
  }

  lemma MaskedQueryUser(b: string)
    ensures '@' in b + "?" + MASK <==> '@' in b
  {
    assert '@' !in MASK;
    assert b <= b + "?" + MASK;
  }

  lemma PlainTail(m: Marker, b: string, f: Option<string>)
    requires NoSep(b) && !ShownSep(m, f) && '@' !in Tail('#', MaskOption(m, f))
    ensures UserSettled(b + "?" + MASK + Tail('#', MaskOption(m, f))) <==> !('@' in b && Bare(b))
  {
    var t := Tail('#', MaskOption(m, f));
    MaskIsPlain();
    NoSepCut(b, '?', MASK);
    MaskedSepGone(m, f);
    hide NoSep, UserSettled, ShownSep;
    TailNoSep(b + "?" + MASK, '#', MaskOption(m, f));
    assert b + "?" + MASK + t == b + ("?" + MASK + t);
    assert '@' !in "?" + MASK + t by { assert '@' !in MASK; }
    PlainSettled(b, "?" + MASK + t);
  }

  lemma MaskedSepGone(m: Marker, f: Option<string>)
    requires !ShownSep(m, f)
    ensures OptionNoSep(MaskOption(m, f))
  {
    MaskIsPlain();
    if f.Some? && !m(f.value) {
      WholeNoSep(f.value);
    }
  }

  lemma SeparatedTail(w: string, m: Marker, f: Option<string>)
    requires NoSep(w) && ShownSep(m, f) && '@' !in Tail('#', f)
    ensures UserSettled(w + Tail('#', MaskOption(m, f))) <==> '@' !in w
  {
    var u := w + Tail('#', f);
    assert MaskOption(m, f) == f;
    LateSep(w, f.value);
    hide NoSep, Sep;
    assert '@' !in u[Sep(u) + 3..] by {
      SuffixMembers(w, Tail('#', f), Sep(u) + 3);
    }
    assert Authority(u) == u[Sep(u) + 3..];
    PrefixAt(MASK + "@", Authority(u), |MASK|);
  }

  lemma LateSep(w: string, f: string)
    requires NoSep(w) && Sep(f) < |f|
    ensures var u := w + Tail('#', Some(f)); |w| < Sep(u) < |u|
  {
    var u := w + Tail('#', Some(f));
    assert u == w + "#" + f;
    assert SepAt(u, |w| + 1 + Sep(f));
    forall i | 0 <= i <= |w| ensures !SepAt(u, i) {
      if i < |w| {
        assert SepAt(u, i) ==> SepAt(w, i);
      }
    }
  }

  lemma SuffixMembers(a: string, b: string, k: nat)
    requires |a| <= k <= |a + b|
    ensures forall c :: c in (a + b)[k..] ==> c in b
  {}

  /** What redaction makes of a URL with a user, told from the URL. */
  lemma LeftBareMeaning(m: Marker, s: string, h: string)
    requires SepFree(s) && '@' !in h
    ensures UserSettled(RedactTail(m, s + Masked(h))) <==> !LeftBare(m, s, h)
  {
    hide MaskUserinfo, UserSettled, SepFree, NoSep, RedactTail, Masked, Bare, BareBeforeQuery;
    var (b, rest) := Cut(s, '?');
    if rest.Some? {
      assert s == b + "?" + rest.value;
      QueryLeftBare(m, b, rest.value, h);
    } else if '?' in h || '#' !in s {
      SchemeUntouched(m, s, h);
      KeptSettled(RedactTail(m, s + Masked(h)));
    } else {
      FragmentLeftBare(m, s, h);
    }
  }

  lemma QueryLeftBare(m: Marker, b: string, s2: string, h: string)
    requires SepFree(b + "?" + s2) && '?' !in b && '@' !in h
    ensures UserSettled(RedactTail(m, b + "?" + s2 + Masked(h))) <==> !BareBeforeQuery(m, b, s2, h)
  {
    hide MaskUserinfo, UserSettled, SepFree, NoSep, RedactTail, Bare, ShownSep;
    var (q0, rest) := Cut(s2, '#');
    match rest {
      case Some(s3) =>
        RedactedFragment(m, b, q0, s3 + Masked(h));
        JoinFragment(q0, s3);
        RegroupFragment(b + "?", q0, s3, Masked(h));
        HeadNoSep(m, b, q0, s3);
        SepFreeCut(b + "?" + q0, '#', s3);
        FragmentLeft(m, b + "?" + Mask(m, q0), s3, h);
      case None =>
        var (h1, f) := Cut(h, '#');
        RedactedQuery(m, b, s2 + Masked(h1), f);
        NoFragmentInMask(s2, h1);
        RegroupQuery(b + "?", s2, h1, Tail('#', f));
        FragmentNoUser(m, h1, f);
        QueryLeft(m, b, s2, h1, f);
    }
  }

  lemma FragmentLeftBare(m: Marker, s: string, h: string)
    requires SepFree(s) && '@' !in h && '?' !in s && '?' !in h && '#' in s
    ensures UserSettled(RedactTail(m, s + Masked(h))) <==> !(m(Cut(s, '#').1.value + Masked(h)) && Bare(Cut(s, '#').0))
  {
    hide MaskUserinfo, SepFree, NoSep, UserSettled, RedactTail, Bare;
    var (b, rest) := Cut(s, '#');
    var s3 := rest.value;
    JoinFragment(b, s3);
    SepFreeCut(b, '#', s3);
    assert '?' !in b && '?' !in s3;
    NoQueryInMasked(s3, h);
    FragmentRun(b, s3, Masked(h));
    RedactedPlainFragment(m, b, s3 + Masked(h));
    FragmentLeft(m, b, s3, h);
  }

  /** Redacting twice is redacting once for all other URLs, and for no such one. */
  lemma SettlesIff(m: Marker, v: string)
    ensures RedactUrl(m, RedactUrl(m, v)) == RedactUrl(m, v) <==> !Unsettled(m, v)
  {
    FixedIffSettled(m, v);
    if '@' !in v {
      RedactTailNoUser(m, v);
    } else if Sep(v) < |v| {
      var s, h := MaskForm(v);
      LeftBareMeaning(m, s, h);
    } else {
      SettledWithoutSep(m, v);
    }
    hide RedactTail, MaskUserinfo, Masked, UserMasked, LeftBare, SepFree;
  }

  lemma SettledWithoutSep(m: Marker, v: string)
    requires '@' in v && Sep(v) == |v|
    ensures UserSettled(RedactUrl(m, v))
  {
    var h := AfterLast(v);
    LastNoSep(v);
    hide NoSep, AfterLast, RedactTail;
    RedactTailNoSep(m, h);
    UserWithoutSep(m, h);
    RedactTailNoUser(m, h);
    NoSepCut(MASK, '@', RedactTail(m, h)) by { assert NoSep(MASK) by { MaskIsPlain(); } }
    MaskedAtFront(RedactTail(m, h));
    hide UserMasked;
  }

  lemma MaskIsPlain()
    ensures NoSep(MASK)
  {
    assert ':' !in MASK;
    forall i | 0 <= i < |MASK| ensures !SepAt(MASK, i) {
      assert MASK[i] != ':';
    }
  }

  lemma LastNoSep(v: string)
    requires Sep(v) == |v|
    ensures NoSep(AfterLast(v))
  {
    WholeNoSep(v);
    hide NoSep, Sep;
    SuffixNoSep(v, |v| - |AfterLast(v)|);
  }

  lemma WholeNoSep(v: string)
    requires Sep(v) == |v|
    ensures NoSep(v)
  {}

  lemma SuffixNoSep(v: string, k: nat)
    requires NoSep(v) && k <= |v|
    ensures NoSep(v[k..])
  {
    forall i | 0 <= i < |v| - k ensures !SepAt(v[k..], i) {
      assert SepAt(v[k..], i) ==> SepAt(v, k + i);
    }
  }

  lemma MaskedAtFront(h: string)
    requires NoSep(MASK + ['@'] + h) && '@' !in h
    ensures UserMasked(MASK + "@" + h)
  {
    var u := MASK + ['@'] + h;
    assert Sep(u) == |u|;
    assert u == MASK + "@" + h && u[|MASK| + 1..] == h;
  }

  /** Such a URL has a user before its `://`, and a `?` or `#` there. */
  lemma UnsettledScheme(m: Marker, v: string)
    requires Unsettled(m, v)
    ensures var scheme := v[..Sep(v)]; '@' in scheme && ('?' in scheme || '#' in scheme)
  {
    var s, h := v[..Sep(v)], AfterLast(Authority(v));
    hide AfterLast, Masked;
    var (b, query) := Cut(s, '?');
    if query.Some? {
      BareBeforeQueryUser(m, b, query.value, h);
    }
  }

  lemma BareBeforeQueryUser(m: Marker, b: string, s2: string, h: string)
    requires BareBeforeQuery(m, b, s2, h)
    ensures '@' in b + "?" + s2
  {
    var (q, fragment) := Cut(s2, '#');
    assert '@' !in MASK;
  }

  /** A query that runs from the scheme into the authority, and no fragment. */
  lemma UnsettledQuery(m: Marker, b: string, s2: string, rest: string)
    requires SepFree(b + "?" + s2) && '?' !in b && '#' !in s2 && '@' in rest && '#' !in AfterLast(rest)
    ensures Unsettled(m, b + "?" + s2 + "://" + rest) <==> m(s2 + Masked(AfterLast(rest))) && Bare(b)
  {
    hide SepFree, AfterLast, Masked, Bare;
    var s := b + "?" + s2;
    SepAfter(s, rest);
    AuthorityAfter(s, rest);
    LastPart(s + "://", rest);
    assert s == b + Tail('?', Some(s2));
    CutAt(b, '?', Some(s2));
    NotThere(s2, '#');
    NotThere(AfterLast(rest), '#');
    BareHasUser(b);
  }

  lemma LastPart(a: string, rest: string)
    ensures '@' in rest ==> '@' in a + rest
  {}

  lemma BareHasUser(w: string)
    ensures Bare(w) ==> '@' in w
  {}

  /** For one: the query is marked from before the `://` on, and leaves the user before it bare. */
  lemma BareUserExample(m: Marker)
    requires m("token://<redacted>@d")
    ensures var v := "a@b?token://c@d"; RedactUrl(m, RedactUrl(m, v)) != RedactUrl(m, v)
  {
    var v := "a@b?token://c@d";
    assert v == "a@b" + "?" + "token" + "://" + "c@d" && "a@b" + "?" + "token" == "a@b?token";
    assert "token" + Masked("d") == "token://<redacted>@d";
    assert "c" + "@" + "d" == "c@d";
    LastAt("c", "d");
    ExampleScheme();
    hide RedactUrl, Unsettled, Bare, SepFree, Masked, AfterLast;
    UnsettledQuery(m, "a@b", "token", "c@d");
    SettlesIff(m, v);
  }

  lemma ExampleScheme()
    ensures SepFree("a@b?token") && Bare("a@b")
  {
    forall i | 0 <= i < 9 ensures !SepAt("a@b?token" + "://", i) {}
    assert "a@b"[1] == '@';
  }

  lemma NotThere(a: string, c: char)
    requires c !in a
    ensures Cut(a, c) == (a, None)
  {
    CutAt(a, c, None);
    assert a + Tail(c, None) == a;
  }

  lemma AuthorityAfter(s: string, rest: string)
    requires Sep(s + "://" + rest) == |s|
    ensures Authority(s + "://" + rest) == rest && (s + "://" + rest)[..|s|] == s && |s| < |s + "://" + rest|
  {}

  // ----- Redaction, text by text -----

  predicate SeparatorAt(s: string, i: int) {
    0 <= i <= |s| - 3 && s[i..i + 3] == "://"
  }

  /** No `://` begins in the text when one follows it. */
  predicate NoneBefore(s: string) {
    forall i | 0 <= i < |s| :: !SeparatorAt(s + "://", i)
  }

  predicate NoneIn(s: string) {
    forall i | 0 <= i < |s| :: !SeparatorAt(s, i)
  }

  lemma SepAtMeaning(s: string, i: int)
    ensures SepAt(s, i) <==> SeparatorAt(s, i)
  {
    if 0 <= i <= |s| - 3 {
      assert |s[i..i + 3]| == 3 && s[i..i + 3][0] == s[i] && s[i..i + 3][1] == s[i + 1] && s[i..i + 3][2] == s[i + 2];
    }
  }

  lemma NoneBeforeMeaning(s: string)
    ensures NoneBefore(s) <==> SepFree(s)
  {
    hide SepAt, SeparatorAt;
    var w := s + "://";
    forall i | 0 <= i < |s| ensures SepAt(w, i) <==> SeparatorAt(w, i) {
      SepAtMeaning(w, i);
    }
  }

  lemma NoneInMeaning(s: string)
    ensures NoneIn(s) <==> Sep(s) == |s|
  {
    hide SepAt, SeparatorAt;
    forall i | 0 <= i < |s| ensures SepAt(s, i) <==> SeparatorAt(s, i) {
      SepAtMeaning(s, i);
    }
  }

  /** A URL with a separator and an `@` gets a masked user before what follows the last `@` of the rest. */
  lemma RedactedWithUser(m: Marker, s: string, rest: string, user: string, h: string)
    requires NoneBefore(s) && '@' in s + rest && '@' !in h && (rest == h || rest == user + "@" + h)
    ensures RedactUrl(m, s + "://" + rest) == RedactTail(m, s + "://<redacted>@" + h)
  {
    hide MaskUserinfo, RedactTail, NoneBefore;
    UserMaskedIn(s, rest, user, h);
    UserInEither(s, "://", rest);
    MaskSpelled(s, h);
  }

  lemma MaskSpelled(s: string, h: string)
    ensures s + "://" + MASK + "@" + h == s + "://<redacted>@" + h
  {
    Spelled(s, "://", MASK, "@", "://<redacted>@", h);
  }

  lemma Spelled(s: string, x: string, y: string, z: string, all: string, h: string)
    requires x + y + z == all
    ensures s + x + y + z + h == s + all + h
  {}

  lemma UserMaskedIn(s: string, rest: string, user: string, h: string)
    requires NoneBefore(s) && '@' !in h && (rest == h || rest == user + "@" + h)
    ensures MaskUserinfo(s + "://" + rest) == s + "://" + MASK + "@" + h
  {
    NoneBeforeMeaning(s);
    SepAfter(s, rest);
    AuthorityAfter(s, rest);
    if rest == h {
      LastOfPlain(h);
    } else {
      LastAt(user, h);
    }
    hide SepFree, AfterLast, NoneBefore;
  }

  lemma {:induction false} LastOfPlain(h: string)
    requires '@' !in h
    ensures AfterLast(h) == h
  {
    if h != "" {
      assert '@' !in h[1..];
    }
  }

  lemma UserInEither(s: string, x: string, rest: string)
    requires '@' in s + rest
    ensures '@' in s + x + rest
  {
    if i :| 0 <= i < |s| && s[i] == '@' {
      assert (s + x + rest)[i] == '@';
    } else {
      var j :| 0 <= j < |rest| && rest[j] == '@';
      assert (s + x + rest)[|s| + |x| + j] == '@';
    }
  }

  /** A text without separator keeps what follows its last `@`. */
  lemma RedactedWithoutSeparator(m: Marker, user: string, h: string)
    requires NoneIn(user + "@" + h) && '@' !in h
    ensures RedactUrl(m, user + "@" + h) == RedactTail(m, "<redacted>@" + h)
  {
    NoneInMeaning(user + "@" + h);
    LastAt(user, h);
    hide AfterLast, RedactTail, Sep;
    assert (user + "@" + h)[|user|] == '@';
    assert MASK + "@" + h == "<redacted>@" + h;
  }

  lemma RedactedWithoutUser(m: Marker, v: string)
    requires '@' !in v
    ensures RedactUrl(m, v) == RedactTail(m, v)
  {}

  function MaskOr(m: Marker, t: string): string {
    if m(t) then "<redacted>" else t
  }

  /** Then the query and the fragment are masked when they are marked; a `#` before the first `?` does not count. */
  lemma TailRedacted(m: Marker, base: string, query: string, fragment: string)
    requires '?' !in base && '#' !in query
    ensures RedactTail(m, base + "?" + query + "#" + fragment) == base + "?" + MaskOr(m, query) + "#" + MaskOr(m, fragment)
    ensures RedactTail(m, base + "?" + query) == base + "?" + MaskOr(m, query)
    ensures '#' !in base && '?' !in fragment ==> RedactTail(m, base + "#" + fragment) == base + "#" + MaskOr(m, fragment)
    ensures '#' !in base ==> RedactTail(m, base) == base
  {
    assert MaskOr(m, query) == Mask(m, query) && MaskOr(m, fragment) == Mask(m, fragment);
    hide Mask, MaskOr;
    RedactedFragment(m, base, query, fragment);
    QueryAlone(m, base, query);
    if '#' !in base {
      if '?' !in fragment {
        RedactedPlainFragment(m, base, fragment);
      }
      UnmarkedTail(m, base);
    }
    hide RedactTail;
  }

  lemma QueryAlone(m: Marker, base: string, query: string)
    requires '?' !in base && '#' !in query
    ensures RedactTail(m, base + "?" + query) == base + "?" + Mask(m, query)
  {
    RedactedQuery(m, base, query, None);
    hide RedactTail, Mask;
    assert base + "?" + query + Tail('#', None) == base + "?" + query;
    assert base + "?" + Mask(m, query) + Tail('#', MaskOption(m, None)) == base + "?" + Mask(m, query);
  }

  lemma UnmarkedTail(m: Marker, base: string)
    requires '?' !in base && '#' !in base
    ensures RedactTail(m, base) == base
  {
    SplitJoin(Parts(base, None, None));
    assert base + Tail('?', None) + Tail('#', None) == base;
    hide Split;
  }
}
