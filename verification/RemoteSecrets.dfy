/** The secret test of the import check on remote URLs, before and after their redaction. */
module RemoteSecrets {
  import opened Wrappers
  import opened RemoteUrls
  import opened Order
  import ManifestNormalize

  // ----- Secret markers -----

  const MARKERS := ["secret", "token", "password", "credential", "private_key", "api_key"]

  const SEPARATORS := {' ', '?', '#', ':', '/', '@'}

  function Underscore(c: char): char {
    if c == '-' then '_' else ManifestNormalize.Lower(c)
  }

  function Normalized(s: string): string {
    seq(|s|, i requires 0 <= i < |s| => Underscore(s[i]))
  }

  predicate OccursAt(word: string, s: string, i: int) {
    0 <= i <= |s| - |word| && forall k :: 0 <= k < |word| ==> s[i + k] == word[k]
  }

  predicate Occurs(word: string, s: string) {
    exists i | 0 <= i <= |s| :: OccursAt(word, s, i)
  }

  /** The marker test of the code. */
  predicate HasMarker(s: string) {
    exists k | 0 <= k < |MARKERS| :: Occurs(MARKERS[k], Normalized(s))
  }

  /** No marker holds a separator, and none is found in nothing or in the mask. */
  ghost predicate Separable(m: Marker) {
    && (forall a, c, b {:trigger m(a + [c] + b)} :: c in {' ', '?', '#'} ==> (m(a + [c] + b) <==> m(a) || m(b)))
    && !m("") && !m(MASK)
  }

  lemma OccursOver(word: string, s: string, i: int, at: nat)
    requires OccursAt(word, s, i) && at < |s|
    ensures i <= at < i + |word| ==> s[at] in word
  {
    if i <= at < i + |word| {
      assert word[at - i] == s[at];
    }
  }

  lemma OccursWithin(word: string, s: string, a: string, b: string)
    requires Occurs(word, s)
    ensures Occurs(word, a + s + b)
  {
    var i :| 0 <= i <= |s| && OccursAt(word, s, i);
    assert OccursAt(word, a + s + b, |a| + i);
  }

  lemma OccursApart(word: string, a: string, c: char, b: string)
    requires c !in word
    ensures Occurs(word, a + [c] + b) <==> Occurs(word, a) || Occurs(word, b)
  {
    var s := a + [c] + b;
    if Occurs(word, a) {
      OccursWithin(word, a, "", [c] + b);
      assert "" + a + ([c] + b) == s;
    }
    if Occurs(word, b) {
      OccursWithin(word, b, a + [c], "");
      assert a + [c] + b + "" == s;
    }
    hide OccursAt;
    if i :| 0 <= i <= |s| && OccursAt(word, s, i) {
      OccursOver(word, s, i, |a|);
      OccursBeside(word, a, c, b, i);
    }
  }

  lemma OccursBeside(word: string, a: string, c: char, b: string, i: nat)
    requires OccursAt(word, a + [c] + b, i) && (i + |word| <= |a| || |a| < i)
    ensures Occurs(word, a) || Occurs(word, b)
  {
    if i + |word| <= |a| {
      assert OccursAt(word, a, i);
    } else {
      assert OccursAt(word, b, i - |a| - 1);
    }
  }

  lemma OccursMembers(word: string, s: string, c: char)
    requires Occurs(word, s) && c in word
    ensures c in s
  {
    var i :| 0 <= i <= |s| && OccursAt(word, s, i);
    var j :| 0 <= j < |word| && word[j] == c;
    assert s[i + j] == c;
  }

  lemma NormalizedApart(a: string, c: char, b: string)
    requires Underscore(c) == c
    ensures Normalized(a + [c] + b) == Normalized(a) + [c] + Normalized(b)
  {}

  lemma MarkersApart(k: nat)
    requires k < |MARKERS|
    ensures forall c :: c in SEPARATORS ==> c !in MARKERS[k]
    ensures 's' in MARKERS[k] || 'o' in MARKERS[k] || 'p' in MARKERS[k] || 'i' in MARKERS[k]
  {
    assert "secret"[0] == 's' && "token"[1] == 'o' && "password"[0] == 'p';
    assert "credential"[5] == 'n' && "credential"[6] == 't' && "credential"[7] == 'i';
    assert "private_key"[0] == 'p' && "api_key"[1] == 'p';
  }

  lemma MarkerApart(a: string, c: char, b: string)
    requires c in SEPARATORS
    ensures HasMarker(a + [c] + b) <==> HasMarker(a) || HasMarker(b)
  {
    NormalizedApart(a, c, b);
    hide Normalized, Occurs;
    forall k: nat | k < |MARKERS|
      ensures Occurs(MARKERS[k], Normalized(a + [c] + b)) <==> Occurs(MARKERS[k], Normalized(a)) || Occurs(MARKERS[k], Normalized(b))
    {
      MarkersApart(k);
      OccursApart(MARKERS[k], Normalized(a), c, Normalized(b));
    }
  }

  /** The code's test is such a test, and it finds nothing in the keys that gates are read by. */
  lemma MarkersSeparable()
    ensures Separable(HasMarker)
    ensures !HasMarker("id") && !HasMarker("task_id")
  {
    forall a, c, b | c in {' ', '?', '#'} ensures HasMarker(a + [c] + b) <==> HasMarker(a) || HasMarker(b) {
      MarkerApart(a, c, b);
    }
    hide HasMarker;
    NothingMarked();
    GateKeysUnmarked();
  }

  /** A text around a masked user is marked exactly when it is before the `://` or after the `@`. */
  lemma MarkedAround(s: string, h: string)
    ensures HasMarker(s + Masked(h)) <==> HasMarker(s) || HasMarker(h)
  {
    assert s + Masked(h) == s + [':'] + ("" + ['/'] + ("" + ['/'] + (MASK + ['@'] + h)));
    hide HasMarker;
    NothingMarked();
    MarkerApart(MASK, '@', h);
    MarkerApart("", '/', MASK + ['@'] + h);
    MarkerApart("", '/', "" + ['/'] + (MASK + ['@'] + h));
    MarkerApart(s, ':', "" + ['/'] + ("" + ['/'] + (MASK + ['@'] + h)));
  }

  lemma NothingMarked()
    ensures !HasMarker("") && !HasMarker(MASK)
  {
    hide Occurs;
    assert Normalized(MASK) == MASK && Normalized("") == "";
    forall k: nat, s | k < |MARKERS| && (s == "" || s == MASK) ensures !Occurs(MARKERS[k], s) {
      MarkersApart(k);
      assert 's' !in MASK && 'o' !in MASK && 'p' !in MASK && 'i' !in MASK;
      var c := if 's' in MARKERS[k] then 's' else if 'o' in MARKERS[k] then 'o' else if 'p' in MARKERS[k] then 'p' else 'i';
      if Occurs(MARKERS[k], s) {
        OccursMembers(MARKERS[k], s, c);
      }
    }
  }

  lemma MarkerLetters(k: nat)
    requires k < |MARKERS|
    ensures 'c' in MARKERS[k] || 'o' in MARKERS[k] || 'p' in MARKERS[k]
  {
    assert "secret"[2] == 'c' && "token"[1] == 'o' && "password"[0] == 'p' && "credential"[0] == 'c';
    assert "private_key"[0] == 'p' && "api_key"[1] == 'p';
  }

  lemma Unmarked(s: string)
    requires 'c' !in Normalized(s) && 'o' !in Normalized(s) && 'p' !in Normalized(s)
    ensures !HasMarker(s)
  {
    hide Occurs, Normalized;
    var t := Normalized(s);
    forall k: nat | k < |MARKERS| ensures !Occurs(MARKERS[k], t) {
      MarkerLetters(k);
      if Occurs(MARKERS[k], t) {
        OccursMembers(MARKERS[k], t, if 'c' in MARKERS[k] then 'c' else if 'o' in MARKERS[k] then 'o' else 'p');
      }
    }
  }

  lemma GateKeysUnmarked()
    ensures !HasMarker("id") && !HasMarker("task_id")
  {
    assert Normalized("id") == "id" && Normalized("task_id") == "task_id";
    Unmarked("id");
    Unmarked("task_id");
  }

  // ----- The secret test -----

  function After(s: string, c: char): string {
    match Cut(s, c).1 case None => "" case Some(t) => t
  }

  predicate Web(scheme: string) {
    var lower := Mapped(ManifestNormalize.Lower, scheme);
    lower == "http" || lower == "https"
  }

  predicate SecretRest(m: Marker, rest: string) {
    var (user, host) := Cut(rest, '@');
    (host.Some? && user != "") || m(After(rest, '?') + " " + After(rest, '#'))
  }

  /** Does the remote URL carry secret material? */
  predicate Secret(m: Marker, v: string) {
    var k := Sep(v);
    k < |v| && Web(v[..k]) && SecretRest(m, v[k + 3..])
  }

  /** A marker between a `#` and a later `?`, where redaction does not look. */
  predicate EarlyFragment(m: Marker, rest: string) {
    '?' in rest && m(After(Cut(rest, '?').0, '#'))
  }

  /** Redaction puts a user in the place of any user, so one is found again, also where there was an empty one. */
  predicate SecretOnceRedacted(m: Marker, v: string) {
    var k := Sep(v);
    k < |v| && Web(v[..k]) && ('@' in v || EarlyFragment(m, v[k + 3..]))
  }

  lemma WebPlain(scheme: string)
    requires Web(scheme)
    ensures '@' !in scheme && '?' !in scheme && '#' !in scheme && '<' !in scheme
  {
    var lower := Mapped(ManifestNormalize.Lower, scheme);
    assert |lower| == |scheme| && forall i :: 0 <= i < |scheme| ==> lower[i] == ManifestNormalize.Lower(scheme[i]);
    forall i | 0 <= i < |scheme| ensures lower[i] in {'h', 't', 'p', 's'} {
      assert lower[i] in "https";
    }
  }

  lemma MaskClean(m: Marker, t: string)
    requires Separable(m)
    ensures !m(Mask(m, t))
  {}

  lemma AfterFirst(a: string, c: char, t: Option<string>)
    requires c !in a
    ensures After(a + Tail(c, t), c) == match t case None => "" case Some(x) => x
  {
    CutAt(a, c, t);
  }

  lemma AfterKept(a: string, c: char, b: string)
    requires c in a
    ensures After(a + b, c) == After(a, c) + b
  {
    var (head, tail) := Cut(a, c);
    hide After, Cut;
    Spread(head, c, tail.value, b);
    AfterHead(head, c, tail.value);
    AfterHead(head, c, tail.value + b);
  }

  lemma Spread(head: string, c: char, x: string, b: string)
    ensures head + Tail(c, Some(x)) == head + [c] + x && head + [c] + x + b == head + [c] + (x + b)
  {
    assert head + ([c] + x) == head + [c] + x;
  }

  lemma FragmentClean(m: Marker, a: string, f: Option<string>)
    requires Separable(m) && !m(a)
    ensures !m(a + Tail('#', MaskOption(m, f)))
  {
    match f {
      case None => assert a + Tail('#', MaskOption(m, f)) == a;
      case Some(x) =>
        MaskClean(m, x);
        assert a + Tail('#', MaskOption(m, f)) == a + ['#'] + Mask(m, x);
    }
  }

  /** A rest without user, redacted: what the test still finds lies between a `#` and a later `?`. */
  lemma TailSecret(m: Marker, rest: string)
    requires Separable(m) && '@' !in rest
    ensures SecretRest(m, RedactTail(m, rest)) <==> EarlyFragment(m, rest)
  {
    SplitCuts(rest);
    var q := MaskParts(m, Split(rest));
    RedactTailNoUser(m, rest);
    QueryKnown(rest);
    if q.query.Some? {
      QueryAfter(m, Split(rest));
    } else {
      PlainAfter(m, Split(rest));
    }
    hide Split, Join, After, Separable;
    RestWithoutUser(m, RedactTail(m, rest));
  }

  lemma RestWithoutUser(m: Marker, r: string)
    requires Separable(m) && '@' !in r
    ensures SecretRest(m, r) <==> m(After(r, '?')) || m(After(r, '#'))
  {
    assert r + Tail('@', None) == r;
    CutAt(r, '@', None);
    assert m(After(r, '?') + [' '] + After(r, '#')) <==> m(After(r, '?')) || m(After(r, '#'));
    hide After, Separable;
  }

  lemma QueryAfter(m: Marker, p: Parts)
    requires Separable(m) && p.query.Some? && WellCut(p)
    ensures var r := Join(MaskParts(m, p)); !m(After(r, '?')) && (m(After(r, '#')) <==> m(After(p.base, '#')))
  {
    MaskClean(m, p.query.value);
    if p.fragment.Some? { MaskClean(m, p.fragment.value); }
    FragmentClean(m, Mask(m, p.query.value), p.fragment);
    assert '#' !in MASK;
    AfterQuestion(m, p.base, Mask(m, p.query.value), MaskOption(m, p.fragment));
    AfterHash(m, p.base, Mask(m, p.query.value), MaskOption(m, p.fragment));
  }

  lemma AfterQuestion(m: Marker, base: string, q: string, f: Option<string>)
    requires '?' !in base
    ensures After(base + Tail('?', Some(q)) + Tail('#', f), '?') == q + Tail('#', f)
  {
    Regroup(base, '?', q, Tail('#', f));
    AfterFirst(base, '?', Some(q + Tail('#', f)));
    hide After;
  }

  lemma AfterHash(m: Marker, base: string, q: string, f: Option<string>)
    requires Separable(m) && '#' !in q && !m(q + Tail('#', f)) && (f.Some? ==> !m(f.value))
    ensures m(After(base + Tail('?', Some(q)) + Tail('#', f), '#')) <==> m(After(base, '#'))
  {
    hide After;
    Regroup(base, '?', q, Tail('#', f));
    if '#' in base {
      var early, rest := After(base, '#'), q + Tail('#', f);
      assert base + Tail('?', Some(rest)) == base + (['?'] + rest);
      AfterKept(base, '#', ['?'] + rest);
      assert early + (['?'] + rest) == early + ['?'] + rest;
    } else {
      AfterFirst(base + Tail('?', Some(q)), '#', f);
      AfterNothing(base, '#');
    }
  }

  lemma AfterNothing(s: string, c: char)
    requires c !in s
    ensures After(s, c) == ""
  {
    assert s + Tail(c, None) == s;
    AfterFirst(s, c, None);
  }

  lemma PlainAfter(m: Marker, p: Parts)
    requires Separable(m) && p.query.None? && WellCut(p)
    ensures var r := Join(MaskParts(m, p)); !m(After(r, '?')) && !m(After(r, '#'))
  {
    var f := MaskOption(m, p.fragment);
    var r := Join(MaskParts(m, p));
    assert r == p.base + Tail('#', f) by { assert p.base + Tail('?', None) == p.base; }
    assert '?' !in MASK && '?' !in r by {
      if p.fragment.Some? { TextInTail('#', p.fragment.value, '?'); }
    }
    AfterNothing(r, '?');
    AfterFirst(p.base, '#', f);
    if p.fragment.Some? { MaskClean(m, p.fragment.value); }
  }

  // ----- Schemes -----

  lemma WebSepFree(s: string)
    requires Web(s)
    ensures SepFree(s)
  {
    var lower := Mapped(ManifestNormalize.Lower, s);
    forall i | 0 <= i < |s| ensures !SepAt(s + "://", i) {
      assert lower[i] == ManifestNormalize.Lower(s[i]) && lower[i] in "https";
    }
  }

  lemma SepOf(s: string, rest: string)
    requires SepFree(s)
    ensures var v := s + "://" + rest; Sep(v) == |s| && |s| < |v| && v[..|s|] == s && v[|s| + 3..] == rest
  {
    SepAfter(s, rest);
    AuthorityAfter(s, rest);
  }

  lemma SecretForm(m: Marker, s: string, rest: string)
    requires SepFree(s)
    ensures Secret(m, s + "://" + rest) <==> Web(s) && SecretRest(m, rest)
  {
    SepOf(s, rest);
    hide Web, SecretRest;
  }

  lemma PrefixAt(pre: string, u: string, i: nat)
    requires pre <= u
    ensures i < |pre| ==> pre[i] == u[i]
  {}

  lemma PrefixKept(pre: string, base: string, c: char, t: Option<string>)
    requires pre <= base + Tail(c, t) && c !in pre
    ensures pre <= base
  {
    PrefixAt(pre, base + Tail(c, t), |base|);
  }

  /** Redaction of the tail does not bring about a scheme without `?` and `#`. */
  lemma SchemeKept(m: Marker, w: string, pre: string)
    requires pre <= RedactTail(m, w) && '?' !in pre && '#' !in pre
    ensures pre <= w
  {
    SplitCuts(w);
    var p := Split(w);
    var q := MaskParts(m, p);
    PrefixKept(pre, q.base + Tail('?', q.query), '#', q.fragment);
    PrefixKept(pre, q.base, '?', q.query);
    assert p.base <= Join(p);
  }

  lemma WebWithUser(m: Marker, v: string)
    requires Sep(v) < |v| && Web(v[..Sep(v)]) && '@' in v
    ensures Secret(m, RedactUrl(m, v))
  {
    var s, h := MaskForm(v);
    WebPlain(s);
    hide Web, Secret, MaskUserinfo, SepFree;
    UserKept(m, s, h);
  }

  lemma UserKept(m: Marker, s: string, h: string)
    requires Web(s) && SepFree(s) && '@' !in h && '?' !in s && '#' !in s
    ensures Secret(m, RedactTail(m, s + "://" + (MASK + "@" + h)))
  {
    var tail := RedactTail(m, h);
    Associate("", s, "://", MASK, "@", h, "");
    FourParts(s, "://", MASK, "@", h);
    FourParts(s, "://", MASK, "@", tail);
    assert '?' !in s + "://" + MASK + "@" && '#' !in s + "://" + MASK + "@";
    assert s + "://" + (MASK + "@" + h) == (s + "://" + MASK + "@") + h;
    RedactTailPrefix(m, s + "://" + MASK + "@", h);
    UserFound(m, tail);
    hide RedactTail, Web, Secret, SepFree, SecretRest;
    SecretForm(m, s, MASK + "@" + tail);
  }

  lemma UserFound(m: Marker, tail: string)
    ensures SecretRest(m, MASK + "@" + tail)
  {
    assert MASK + "@" + tail == MASK + Tail('@', Some(tail));
    CutAt(MASK, '@', Some(tail));
  }

  lemma WebWithoutUser(m: Marker, v: string)
    requires Separable(m) && Sep(v) < |v| && Web(v[..Sep(v)]) && '@' !in v
    ensures Secret(m, RedactUrl(m, v)) <==> EarlyFragment(m, v[Sep(v) + 3..])
  {
    var s, rest := v[..Sep(v)], v[Sep(v) + 3..];
    WebPlain(s);
    SepBefore(v);
    hide Web, Secret, SepFree, RedactTail, EarlyFragment, Separable;
    RedactTailPrefix(m, s + "://", rest);
    SecretForm(m, s, RedactTail(m, rest));
    TailSecret(m, rest);
  }

  lemma SchemeAt(s: string, v: string)
    requires SepFree(s) && s + "://" <= v
    ensures Sep(v) == |s| && |s| < |v| && v[..|s|] == s
  {
    var rest := v[|s| + 3..];
    assert v == s + "://" + rest;
    SepOf(s, rest);
  }

  lemma OtherSchemeKept(m: Marker, v: string, s: string)
    requires Web(s) && SepFree(s) && s + "://" <= RedactUrl(m, v)
    ensures Sep(v) < |v| && v[..Sep(v)] == s
  {
    WebPlain(s);
    assert s != "";
    assert '?' !in s + "://" && '#' !in s + "://";
    hide Web, SepFree, RedactTail, MaskUserinfo;
    if '@' !in v {
      SchemeKept(m, v, s + "://");
      SchemeAt(s, v);
    } else if Sep(v) < |v| {
      var s', h := MaskForm(v);
      SchemeKept(m, MaskUserinfo(v), s + "://");
      SchemeAt(s, MaskUserinfo(v));
      SepOf(s', MASK + "@" + h);
    } else {
      SchemeNotMasked(m, v, s);
    }
  }

  lemma SchemeNotMasked(m: Marker, v: string, s: string)
    requires '@' in v && Sep(v) == |v| && s != "" && '<' !in s
    ensures !(s <= RedactUrl(m, v))
  {
    hide RedactTail, AfterLast;
    UserWithoutSep(m, AfterLast(v));
    assert RedactUrl(m, v)[0] == '<';
    assert s[0] in s;
  }

  /** Redaction makes no URL one of the web. */
  lemma OtherScheme(m: Marker, v: string)
    requires Sep(v) < |v| ==> !Web(v[..Sep(v)])
    ensures !Secret(m, RedactUrl(m, v))
  {
    hide RedactUrl, RedactTail, MaskUserinfo, Web, SepFree;
    var u := RedactUrl(m, v);
    if Secret(m, u) {
      var s := SecretScheme(m, u);
      OtherSchemeKept(m, v, s);
    }
  }

  lemma SecretScheme(m: Marker, u: string) returns (s: string)
    requires Secret(m, u)
    ensures Web(s) && SepFree(s) && s + "://" <= u
  {
    s := u[..Sep(u)];
    WebSepFree(s);
    SepBefore(u);
    hide Web, SepFree;
  }

  /** What the import check says of a redacted URL, told from the URL before. */
  lemma SecretRedacted(m: Marker, v: string)
    requires Separable(m)
    ensures Secret(m, RedactUrl(m, v)) <==> SecretOnceRedacted(m, v)
  {
    hide Web, Secret, EarlyFragment, Separable, RedactUrl;
    if Sep(v) < |v| && Web(v[..Sep(v)]) {
      if '@' in v {
        WebWithUser(m, v);
      } else {
        WebWithoutUser(m, v);
      }
    } else {
      OtherScheme(m, v);
    }
  }

  /** A clean URL stays clean unless it is one of the web with an `@`, whose user is then empty. */
  lemma CleanOnceRedacted(m: Marker, v: string)
    requires Separable(m) && !Secret(m, v)
    ensures Secret(m, RedactUrl(m, v)) <==> Sep(v) < |v| && Web(v[..Sep(v)]) && '@' in v
  {
    SecretRedacted(m, v);
    var rest := v[if Sep(v) < |v| then Sep(v) + 3 else 0..];
    hide Web, RedactUrl;
    if EarlyFragment(m, rest) {
      EarlyFragmentFound(m, rest);
    }
  }

  lemma EarlyFragmentFound(m: Marker, rest: string)
    requires Separable(m) && EarlyFragment(m, rest)
    ensures SecretRest(m, rest)
  {
    var (base, query) := Cut(rest, '?');
    if '#' in base {
      AfterKept(base, '#', Tail('?', query));
      assert After(base, '#') + Tail('?', query) == After(base, '#') + ['?'] + query.value;
    } else {
      AfterNothing(base, '#');
    }
    var q := After(rest, '?');
    assert m(q + [' '] + After(rest, '#'));
  }

  // ----- Both tests, character by character -----

  /** The characters from `i` on spell the word, in any case and with dashes for underscores. */
  predicate Spells(s: string, i: int, word: string) {
    0 <= i <= |s| - |word| && forall k :: 0 <= k < |word| ==> SpellsChar(s[i + k], word[k])
  }

  predicate SpellsChar(c: char, letter: char) {
    c == letter || ('A' <= c <= 'Z' && c as int + 32 == letter as int) || (c == '-' && letter == '_')
  }

  lemma LetterSpelled(c: char, letter: char)
    requires letter == '_' || 'a' <= letter <= 'z'
    ensures Underscore(c) == letter <==> SpellsChar(c, letter)
  {}

  lemma MarkerLetter(k: nat, n: nat)
    requires k < |MARKERS| && n < |MARKERS[k]|
    ensures MARKERS[k][n] == '_' || 'a' <= MARKERS[k][n] <= 'z'
  {}

  lemma MarkerSpelled(s: string, i: int, k: nat)
    requires k < |MARKERS|
    ensures OccursAt(MARKERS[k], Normalized(s), i) <==> Spells(s, i, MARKERS[k])
  {
    var word := MARKERS[k];
    hide MARKERS;
    if 0 <= i <= |s| - |word| {
      forall n | 0 <= n < |word| ensures Normalized(s)[i + n] == word[n] <==> SpellsChar(s[i + n], word[n]) {
        MarkerLetter(k, n);
        LetterSpelled(s[i + n], word[n]);
      }
    }
  }

  predicate SpelledSomewhere(s: string, word: string) {
    exists i | 0 <= i <= |s| :: Spells(s, i, word)
  }

  /** The marker test says yes exactly when one of the six words is spelled somewhere. */
  lemma MarkedIff(s: string)
    ensures HasMarker(s) <==>
            || SpelledSomewhere(s, "secret") || SpelledSomewhere(s, "token") || SpelledSomewhere(s, "password")
            || SpelledSomewhere(s, "credential") || SpelledSomewhere(s, "private_key") || SpelledSomewhere(s, "api_key")
  {
    forall k: nat | k < |MARKERS| ensures Occurs(MARKERS[k], Normalized(s)) <==> SpelledSomewhere(s, MARKERS[k]) {
      MarkerOccurs(s, k);
    }
    hide Occurs, Normalized, SpelledSomewhere;
    SixMarkers();
    hide MARKERS;
    assert HasMarker(s) <==> exists k: nat :: k < 6 && SpelledSomewhere(s, MARKERS[k]);
    assert SpelledSomewhere(s, MARKERS[0]) <==> SpelledSomewhere(s, "secret");
    assert SpelledSomewhere(s, MARKERS[1]) <==> SpelledSomewhere(s, "token");
    assert SpelledSomewhere(s, MARKERS[2]) <==> SpelledSomewhere(s, "password");
    assert SpelledSomewhere(s, MARKERS[3]) <==> SpelledSomewhere(s, "credential");
    assert SpelledSomewhere(s, MARKERS[4]) <==> SpelledSomewhere(s, "private_key");
    assert SpelledSomewhere(s, MARKERS[5]) <==> SpelledSomewhere(s, "api_key");
  }

  lemma SixMarkers()
    ensures |MARKERS| == 6 && MARKERS[0] == "secret" && MARKERS[1] == "token" && MARKERS[2] == "password"
    ensures MARKERS[3] == "credential" && MARKERS[4] == "private_key" && MARKERS[5] == "api_key"
  {}

  lemma MarkerOccurs(s: string, k: nat)
    requires k < |MARKERS|
    ensures Occurs(MARKERS[k], Normalized(s)) <==> SpelledSomewhere(s, MARKERS[k])
  {
    hide OccursAt, Spells, MARKERS;
    forall i | 0 <= i <= |s| ensures OccursAt(MARKERS[k], Normalized(s), i) <==> Spells(s, i, MARKERS[k]) {
      MarkerSpelled(s, i, k);
    }
  }

  /** What follows the first such character, or nothing. */
  ghost predicate Follows(rest: string, c: char, x: string) {
    (c !in rest && x == "") || exists head :: c !in head && rest == head + [c] + x
  }

  lemma AfterHead(head: string, c: char, x: string)
    requires c !in head
    ensures After(head + [c] + x, c) == x
  {
    assert head + [c] + x == head + Tail(c, Some(x)) by {
      assert [c] + x == Tail(c, Some(x));
      assert head + [c] + x == head + ([c] + x);
    }
    AfterFirst(head, c, Some(x));
    hide After, Tail;
  }

  lemma FollowsIsAfter(rest: string, c: char, x: string)
    requires Follows(rest, c, x)
    ensures After(rest, c) == x
  {
    hide After;
    if c in rest {
      var head :| c !in head && rest == head + [c] + x;
      AfterHead(head, c, x);
    } else {
      AfterNothing(rest, c);
    }
  }

  predicate SpellsAll(s: string, word: string) {
    |s| == |word| && Spells(s, 0, word)
  }

  /** Something stands before the first `@`. */
  predicate NamesUser(rest: string) {
    '@' in rest && rest[0] != '@'
  }

  lemma CutUser(rest: string)
    ensures NamesUser(rest) <==> Cut(rest, '@').1.Some? && Cut(rest, '@').0 != ""
  {
    var (user, host) := Cut(rest, '@');
    if user != "" {
      assert rest[0] == user[0] && user[0] in user;
    } else if host.Some? {
      assert rest[0] == '@';
    }
    if host.Some? {
      assert rest[|user|] == '@';
    }
  }

  lemma WebSpelled(s: string)
    ensures Web(s) <==> SpellsAll(s, "http") || SpellsAll(s, "https")
  {
    var lower := Mapped(ManifestNormalize.Lower, s);
    assert |lower| == |s|;
    forall i | 0 <= i < |s| ensures lower[i] == ManifestNormalize.Lower(s[i]) {}
    LowerSpelled(s, lower, "http");
    LowerSpelled(s, lower, "https");
    hide SpellsAll;
  }

  lemma LowerSpelled(s: string, lower: string, word: string)
    requires |lower| == |s| && forall i :: 0 <= i < |s| ==> lower[i] == ManifestNormalize.Lower(s[i])
    requires forall k :: 0 <= k < |word| ==> 'a' <= word[k] <= 'z'
    ensures lower == word <==> SpellsAll(s, word)
  {
    if |s| == |word| {
      forall k | 0 <= k < |word| ensures lower[k] == word[k] <==> SpellsChar(s[k], word[k]) {}
      if SpellsAll(s, word) {
        assert forall k :: 0 <= k < |word| ==> SpellsChar(s[0 + k], word[k]);
      }
    }
  }

  /** A URL is secret exactly when it is one of the web and names a user, or its query or fragment is marked. */
  lemma SecretRule(m: Marker, s: string, rest: string, query: string, fragment: string)
    requires NoneBefore(s) && Follows(rest, '?', query) && Follows(rest, '#', fragment)
    ensures Secret(m, s + "://" + rest) <==>
            (SpellsAll(s, "http") || SpellsAll(s, "https")) && (NamesUser(rest) || m(query + " " + fragment))
  {
    NoneBeforeMeaning(s);
    hide NoneBefore, SepFree, SpellsAll, NamesUser, Follows, After, Cut, Web;
    SecretForm(m, s, rest);
    WebSpelled(s);
    CutUser(rest);
    FollowsIsAfter(rest, '?', query);
    FollowsIsAfter(rest, '#', fragment);
  }

  lemma NoSecretWithoutSeparator(m: Marker, v: string)
    requires NoneIn(v)
    ensures !Secret(m, v)
  {
    NoneInMeaning(v);
  }
}
