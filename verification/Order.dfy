/** Python's comparison of strings and of tuples of strings, and what `sorted` does with them. */
module Order {

  ghost predicate TotalPreorder<T(!new)>(le: (T, T) -> bool) {
    && (forall a, b :: le(a, b) || le(b, a))
    && (forall a, b, c :: le(a, b) && le(b, c) ==> le(a, c))
  }

  ghost predicate Antisymmetric<T(!new)>(le: (T, T) -> bool) {
    forall a, b :: le(a, b) && le(b, a) ==> a == b
  }

  ghost predicate TotalOrder<T(!new)>(le: (T, T) -> bool) {
    TotalPreorder(le) && Antisymmetric(le)
  }

  /** Lexicographic comparison: the first difference decides, a prefix comes first. */
  predicate LexLe<T(==)>(le: (T, T) -> bool, a: seq<T>, b: seq<T>) {
    if a == [] then true
    else if b == [] then false
    else if a[0] == b[0] then LexLe(le, a[1..], b[1..])
    else le(a[0], b[0])
  }

  lemma LexReflexive<T>(le: (T, T) -> bool, a: seq<T>)
    ensures LexLe(le, a, a)
  {}

  lemma StrReflexive(a: string)
    ensures StrLe(a, a)
  {
    LexReflexive(CharLe, a);
  }

  lemma LexTotal<T(!new)>(le: (T, T) -> bool, a: seq<T>, b: seq<T>)
    requires TotalOrder(le)
    ensures LexLe(le, a, b) || LexLe(le, b, a)
  {}

  lemma LexAntisymmetric<T(!new)>(le: (T, T) -> bool, a: seq<T>, b: seq<T>)
    requires TotalOrder(le)
    requires LexLe(le, a, b) && LexLe(le, b, a)
    ensures a == b
  {
    if a != [] && b != [] {
      assert a[0] == b[0];
      LexAntisymmetric(le, a[1..], b[1..]);
      assert a == [a[0]] + a[1..] && b == [b[0]] + b[1..];
    }
  }

  lemma LexTransitive<T(!new)>(le: (T, T) -> bool, a: seq<T>, b: seq<T>, c: seq<T>)
    requires TotalOrder(le)
    requires LexLe(le, a, b) && LexLe(le, b, c)
    ensures LexLe(le, a, c)
  {
    if a != [] {
      if a[0] == b[0] == c[0] {
        LexTransitive(le, a[1..], b[1..], c[1..]);
      }
    }
  }

  /** Appending the same element to two sequences of one length keeps their order. */
  lemma LexAppend<T>(le: (T, T) -> bool, a: seq<T>, b: seq<T>, x: T)
    requires |a| == |b| && LexLe(le, a, b)
    ensures LexLe(le, a + [x], b + [x])
  {
    if a != [] {
      assert (a + [x])[1..] == a[1..] + [x] && (b + [x])[1..] == b[1..] + [x];
      if a[0] == b[0] {
        LexAppend(le, a[1..], b[1..], x);
      }
    }
  }

  predicate CharLe(a: char, b: char) { a <= b }

  /** The order of strings, by code points. */
  predicate StrLe(a: string, b: string) { LexLe(CharLe, a, b) }

  lemma StrOrder()
    ensures TotalOrder(StrLe)
  {
    assert TotalOrder(CharLe);
    forall a: string { LexReflexive(CharLe, a); }
    forall a: string, b: string ensures StrLe(a, b) || StrLe(b, a) { LexTotal(CharLe, a, b); }
    forall a: string, b: string | StrLe(a, b) && StrLe(b, a) ensures a == b { LexAntisymmetric(CharLe, a, b); }
    forall a: string, b: string, c: string | StrLe(a, b) && StrLe(b, c) ensures StrLe(a, c) {
      LexTransitive(CharLe, a, b, c);
    }
  }

  /** The text comes before the other one: it ends where the other goes on, or the first difference is in its favour. */
  ghost predicate TextBefore(a: string, b: string) {
    || (|a| < |b| && a == b[..|a|])
    || exists i :: FirstLess(a, b, i)
  }

  ghost predicate FirstLess(a: string, b: string, i: int) {
    0 <= i < |a| && i < |b| && a[..i] == b[..i] && a[i] as int < b[i] as int
  }

  lemma FirstLessTail(a: string, b: string, i: int)
    requires a != [] && b != [] && a[0] == b[0]
    ensures FirstLess(a[1..], b[1..], i) ==> FirstLess(a, b, i + 1)
    ensures i > 0 && FirstLess(a, b, i) ==> FirstLess(a[1..], b[1..], i - 1)
  {
    if FirstLess(a[1..], b[1..], i) {
      assert a[..i + 1] == [a[0]] + a[1..][..i] && b[..i + 1] == [b[0]] + b[1..][..i];
    }
    if i > 0 && FirstLess(a, b, i) {
      assert a[1..][..i - 1] == a[..i][1..] && b[1..][..i - 1] == b[..i][1..];
    }
  }

  lemma TextBeforeTail(a: string, b: string)
    requires a != [] && b != [] && a[0] == b[0]
    ensures TextBefore(a, b) <==> TextBefore(a[1..], b[1..])
  {
    assert a == [a[0]] + a[1..] && b == [b[0]] + b[1..];
    if i :| FirstLess(a, b, i) {
      FirstLessTail(a, b, i);
    }
    if i :| FirstLess(a[1..], b[1..], i) {
      FirstLessTail(a, b, i);
    }
    if |a| <= |b| {
      assert b[..|a|] == [b[0]] + b[1..][..|a| - 1];
    }
  }

  lemma FirstDifference(a: string, b: string, i: int)
    requires FirstLess(a, b, i)
    ensures i == 0 || a[0] == b[0]
  {
    assert i > 0 ==> a[..i][0] == a[0] && b[..i][0] == b[0];
  }

  /** Comparing texts means what it says. */
  lemma {:induction false} StrLeMeaning(a: string, b: string)
    ensures StrLe(a, b) <==> a == b || TextBefore(a, b)
  {
    if a == [] || b == [] {
    } else if a[0] == b[0] {
      StrLeMeaning(a[1..], b[1..]);
      TextBeforeTail(a, b);
      assert a == [a[0]] + a[1..] && b == [b[0]] + b[1..];
    } else {
      assert FirstLess(a, b, 0) <==> a[0] < b[0];
      forall i | FirstLess(a, b, i) ensures i == 0 {
        FirstDifference(a, b, i);
      }
    }
  }

  /** The order of tuples of strings. */
  predicate TupleLe(a: seq<string>, b: seq<string>) { LexLe(StrLe, a, b) }

  lemma TupleOrder()
    ensures TotalOrder(TupleLe)
  {
    StrOrder();
    forall a: seq<string> { LexReflexive(StrLe, a); }
    forall a: seq<string>, b: seq<string> ensures TupleLe(a, b) || TupleLe(b, a) { LexTotal(StrLe, a, b); }
    forall a: seq<string>, b: seq<string> | TupleLe(a, b) && TupleLe(b, a) ensures a == b { LexAntisymmetric(StrLe, a, b); }
    forall a: seq<string>, b: seq<string>, c: seq<string> | TupleLe(a, b) && TupleLe(b, c) ensures TupleLe(a, c) {
      LexTransitive(StrLe, a, b, c);
    }
  }

  /** Of two different tuples as long as each other, the one that has the earlier text at the first difference. */
  ghost predicate TupleBefore(a: seq<string>, b: seq<string>) {
    |a| == |b| && exists i :: 0 <= i < |a| && a[..i] == b[..i] && TextBefore(a[i], b[i])
  }

  lemma {:induction false} TupleLeMeaning(a: seq<string>, b: seq<string>)
    requires |a| == |b|
    ensures TupleLe(a, b) ==> a == b || TupleBefore(a, b)
  {
    hide TextBefore;
    if a != [] {
      assert a == [a[0]] + a[1..] && b == [b[0]] + b[1..];
      if a[0] == b[0] {
        TupleLeMeaning(a[1..], b[1..]);
        if TupleLe(a, b) && a != b {
          var i :| 0 <= i < |a[1..]| && a[1..][..i] == b[1..][..i] && TextBefore(a[1..][i], b[1..][i]);
          assert a[..i + 1] == [a[0]] + a[1..][..i] && b[..i + 1] == [b[0]] + b[1..][..i];
          assert a[i + 1] == a[1..][i] && b[i + 1] == b[1..][i];
        }
      } else {
        StrLeMeaning(a[0], b[0]);
        assert a[..0] == b[..0];
      }
    }
  }

  ghost predicate Ascending<T>(le: (T, T) -> bool, xs: seq<T>) {
    forall i, j :: 0 <= i < j < |xs| ==> le(xs[i], xs[j])
  }

  ghost predicate Distinct<T>(xs: seq<T>) {
    forall i, j :: 0 <= i < j < |xs| ==> xs[i] != xs[j]
  }

  function Elements<T>(xs: seq<T>): set<T> { set x | x in xs }

  lemma ElementsPush<T>(xs: seq<T>, i: nat)
    requires i < |xs|
    ensures Elements(xs[..i + 1]) == Elements(xs[..i]) + {xs[i]}
  {
    assert xs[..i + 1] == xs[..i] + [xs[i]];
  }

  lemma StrTotal(a: string, b: string)
    ensures StrLe(a, b) || StrLe(b, a)
  {
    StrOrder();
  }

  lemma StrTransitive(a: string, b: string, c: string)
    requires StrLe(a, b) && StrLe(b, c)
    ensures StrLe(a, c)
  {
    StrOrder();
  }

  lemma {:induction false} FindLeast(s: set<string>) returns (least: string)
    requires s != {}
    ensures least in s && forall x :: x in s ==> StrLe(least, x)
    decreases |s|
  {
    hide StrLe;
    var a :| a in s;
    var rest := s - {a};
    StrTotal(a, a);
    if rest == {} {
      least := a;
      forall x | x in s ensures StrLe(least, x) {
        assert x !in rest;
      }
    } else {
      var m := FindLeast(rest);
      StrTotal(a, m);
      least := if StrLe(a, m) then a else m;
      forall x | x in s ensures StrLe(least, x) {
        if x != a {
          assert x in rest;
          if least == a {
            StrTransitive(a, m, x);
          }
        }
      }
    }
  }

  lemma LeastExists(s: set<string>)
    requires s != {}
    ensures exists m :: m in s && forall x :: x in s ==> StrLe(m, x)
  {
    var m := FindLeast(s);
  }

  lemma StrAntisymmetric()
    ensures forall a: string, b: string :: StrLe(a, b) && StrLe(b, a) ==> a == b
  {
    StrOrder();
  }

  function Least(s: set<string>): (m: string)
    requires s != {}
    ensures m in s && forall x :: x in s ==> StrLe(m, x)
  {
    LeastExists(s);
    StrAntisymmetric();
    var m :| m in s && forall x :: x in s ==> StrLe(m, x);
    m
  }

  /** `sorted(s)` of a set of strings. */
  function Sorted(s: set<string>): (r: seq<string>)
    ensures Elements(r) == s && Distinct(r) && Ascending(StrLe, r)
  {
    if s == {} then []
    else
      var m := Least(s);
      var tail := Sorted(s - {m});
      SortedPush(m, s, tail);
      [m] + tail
  }

  lemma SortedPush(m: string, s: set<string>, tail: seq<string>)
    requires m in s && forall x :: x in s ==> StrLe(m, x)
    requires Elements(tail) == s - {m} && Distinct(tail) && Ascending(StrLe, tail)
    ensures Elements([m] + tail) == s && Distinct([m] + tail) && Ascending(StrLe, [m] + tail)
  {
    forall i | 0 <= i < |tail| ensures tail[i] in s - {m} {
      assert tail[i] in Elements(tail);
    }
    forall x ensures x in Elements([m] + tail) <==> x in s {
      assert x in Elements(tail) <==> x in s - {m};
    }
  }

  /** An ascending listing without repeats is determined by its elements. */
  lemma {:induction false} SortedUnique(r: seq<string>)
    requires Ascending(StrLe, r) && Distinct(r)
    ensures r == Sorted(Elements(r))
    decreases |r|
  {
    StrOrder();
    var s := Elements(r);
    if r != [] {
      assert r[0] in s;
      var sorted := Sorted(s);
      assert sorted[0] in s;
      assert StrLe(r[0], sorted[0]) by {
        var i :| 0 <= i < |r| && r[i] == sorted[0];
      }
      assert StrLe(sorted[0], r[0]) by {
        assert r[0] in Elements(sorted);
        var i :| 0 <= i < |sorted| && sorted[i] == r[0];
      }
      assert Elements(r[1..]) == s - {r[0]} by {
        assert r == [r[0]] + r[1..];
        assert forall x :: x in s ==> x == r[0] || x in r[1..];
      }
      SortedUnique(r[1..]);
      assert r == [r[0]] + r[1..];
    }
  }

  /** A listing of a set in no particular order, as iteration over a Python set gives it. */
  method ListOf(s: set<string>) returns (r: seq<string>)
    ensures Elements(r) == s
  {
    r := [];
    var rest := s;
    while rest != {}
      invariant Elements(r) + rest == s
    {
      var x :| x in rest;
      rest := rest - {x};
      r := r + [x];
    }
  }

  // ----- Stable sorting of sequences -----

  function Insert<T>(le: (T, T) -> bool, x: T, ys: seq<T>): seq<T> {
    if ys == [] || le(x, ys[0]) then [x] + ys
    else [ys[0]] + Insert(le, x, ys[1..])
  }

  /** Python's `sorted`: ascending, and stable because an element goes before the equals that followed it. */
  function Sort<T>(le: (T, T) -> bool, xs: seq<T>): seq<T> {
    if xs == [] then [] else Insert(le, xs[0], Sort(le, xs[1..]))
  }

  lemma {:induction false} InsertPermutes<T>(le: (T, T) -> bool, x: T, ys: seq<T>)
    ensures multiset(Insert(le, x, ys)) == multiset{x} + multiset(ys)
  {
    if ys == [] || le(x, ys[0]) {
    } else {
      InsertPermutes(le, x, ys[1..]);
      assert ys == [ys[0]] + ys[1..];
    }
  }

  lemma {:induction false} SortPermutes<T>(le: (T, T) -> bool, xs: seq<T>)
    ensures multiset(Sort(le, xs)) == multiset(xs)
    ensures |Sort(le, xs)| == |xs|
  {
    if xs != [] {
      SortPermutes(le, xs[1..]);
      InsertPermutes(le, xs[0], Sort(le, xs[1..]));
      assert xs == [xs[0]] + xs[1..];
    }
    assert |multiset(Sort(le, xs))| == |Sort(le, xs)|;
  }

  lemma SortKeepsElements<T>(le: (T, T) -> bool, xs: seq<T>)
    ensures forall x :: x in Sort(le, xs) <==> x in xs
  {
    SortPermutes(le, xs);
    forall x ensures x in Sort(le, xs) <==> x in xs {
      assert x in multiset(Sort(le, xs)) <==> x in multiset(xs);
    }
  }

  lemma {:induction false} InsertAscends<T(!new)>(le: (T, T) -> bool, x: T, ys: seq<T>)
    requires TotalPreorder(le) && Ascending(le, ys)
    ensures Ascending(le, Insert(le, x, ys))
  {
    if ys == [] || le(x, ys[0]) {
      forall j | 0 <= j < |ys| ensures le(x, ys[j]) {
        assert j > 0 ==> le(ys[0], ys[j]);
      }
    } else {
      InsertAscends(le, x, ys[1..]);
      var rest := Insert(le, x, ys[1..]);
      InsertPermutes(le, x, ys[1..]);
      forall j | 0 <= j < |rest| ensures le(ys[0], rest[j]) {
        assert rest[j] in multiset(rest);
        if rest[j] != x {
          assert rest[j] in ys[1..];
        }
      }
    }
  }

  lemma {:induction false} SortAscends<T(!new)>(le: (T, T) -> bool, xs: seq<T>)
    requires TotalPreorder(le)
    ensures Ascending(le, Sort(le, xs))
  {
    if xs != [] {
      SortAscends(le, xs[1..]);
      InsertAscends(le, xs[0], Sort(le, xs[1..]));
    }
  }

  lemma {:induction false} SortOfAscending<T>(le: (T, T) -> bool, xs: seq<T>)
    requires Ascending(le, xs)
    ensures Sort(le, xs) == xs
  {
    if xs != [] {
      SortOfAscending(le, xs[1..]);
      assert |xs| > 1 ==> le(xs[0], xs[1]);
    }
  }

  /** Without ties the sorted form depends only on what is in the sequence, and how often. */
  lemma SortCanonicalOn<T(!new)>(le: (T, T) -> bool, xs: seq<T>, ys: seq<T>)
    requires TotalPreorder(le) && multiset(xs) == multiset(ys) && Tieless(le, multiset(xs))
    ensures Sort(le, xs) == Sort(le, ys)
  {
    SortAscends(le, xs);
    SortAscends(le, ys);
    SortPermutes(le, xs);
    SortPermutes(le, ys);
    AscendingUnique(le, Sort(le, xs), Sort(le, ys));
  }

  /** In particular under a total order. */
  lemma SortCanonical<T(!new)>(le: (T, T) -> bool, xs: seq<T>, ys: seq<T>)
    requires TotalOrder(le) && multiset(xs) == multiset(ys)
    ensures Sort(le, xs) == Sort(le, ys)
  {
    SortCanonicalOn(le, xs, ys);
  }

  lemma HeadLeast<T>(le: (T, T) -> bool, a: seq<T>, x: T)
    requires Ascending(le, a) && x in multiset(a)
    ensures a != [] && (x == a[0] || le(a[0], x))
  {
    assert x in a;
    var i :| 0 <= i < |a| && a[i] == x;
    assert i > 0 ==> le(a[0], a[i]);
  }

  lemma SameMembers<T>(xs: seq<T>, ys: seq<T>)
    requires multiset(xs) == multiset(ys)
    ensures forall x :: x in xs <==> x in ys
    ensures forall i :: 0 <= i < |xs| ==> xs[i] in ys
  {
    forall x ensures x in xs <==> x in ys {
      assert x in multiset(xs) <==> x in multiset(ys);
    }
  }

  lemma SameMultisetSameLength<T>(a: seq<T>, b: seq<T>)
    requires multiset(a) == multiset(b)
    ensures |a| == |b|
  {
    assert |multiset(a)| == |a| && |multiset(b)| == |b|;
  }

  /** Among these elements the order never ties two different ones. */
  ghost predicate Tieless<T(!new)>(le: (T, T) -> bool, xs: multiset<T>) {
    forall x, y :: x in xs && y in xs && le(x, y) && le(y, x) ==> x == y
  }

  lemma SameHead<T(!new)>(le: (T, T) -> bool, a: seq<T>, b: seq<T>)
    requires Ascending(le, a) && Ascending(le, b) && Tieless(le, multiset(a))
    requires a != [] && b != [] && a[0] in multiset(b) && b[0] in multiset(a)
    ensures a[0] == b[0]
  {
    HeadLeast(le, a, b[0]);
    HeadLeast(le, b, a[0]);
    assert a[0] in multiset(a);
  }

  lemma TielessTail<T(!new)>(le: (T, T) -> bool, a: seq<T>)
    requires a != [] && Tieless(le, multiset(a))
    ensures Tieless(le, multiset(a[1..]))
  {
    TailMultiset(a);
  }

  lemma {:induction false} AscendingUnique<T(!new)>(le: (T, T) -> bool, a: seq<T>, b: seq<T>)
    requires Ascending(le, a) && Ascending(le, b) && multiset(a) == multiset(b) && Tieless(le, multiset(a))
    ensures a == b
    decreases |a|
  {
    hide Tieless;
    SameMultisetSameLength(a, b);
    if a != [] {
      assert a[0] in multiset(a) && b[0] in multiset(b);
      SameHead(le, a, b);
      TielessTail(le, a);
      assert multiset(a[1..]) == multiset(b[1..]) by {
        TailMultiset(a);
        TailMultiset(b);
      }
      AscendingUnique(le, a[1..], b[1..]);
      assert a == [a[0]] + a[1..] && b == [b[0]] + b[1..];
    }
  }

  lemma TailMultiset<T>(a: seq<T>)
    requires a != []
    ensures multiset(a[1..]) == multiset(a) - multiset{a[0]}
  {
    assert a == [a[0]] + a[1..];
  }

  function SortStrings(xs: seq<string>): seq<string> { Sort(StrLe, xs) }

  lemma SortStringsIdempotent(xs: seq<string>)
    ensures SortStrings(SortStrings(xs)) == SortStrings(xs)
  {
    StrOrder();
    SortAscends(StrLe, xs);
    SortOfAscending(StrLe, SortStrings(xs));
  }

  lemma {:induction false} DistinctIffSizes<T>(xs: seq<T>)
    ensures |Elements(xs)| <= |xs|
    ensures |Elements(xs)| == |xs| <==> Distinct(xs)
  {
    if xs != [] {
      var rest := xs[1..];
      DistinctIffSizes(rest);
      assert xs == [xs[0]] + rest;
      assert Elements(xs) == {xs[0]} + Elements(rest);
      if xs[0] in rest {
        assert Elements(xs) == Elements(rest);
      } else {
        assert |Elements(xs)| == 1 + |Elements(rest)|;
      }
      if Distinct(xs) {
        assert Distinct(rest) && xs[0] !in rest;
      }
    }
  }

  lemma {:induction false} DistinctOnce<T>(xs: seq<T>, x: T)
    requires Distinct(xs)
    ensures multiset(xs)[x] == if x in xs then 1 else 0
  {
    if xs != [] {
      assert xs == [xs[0]] + xs[1..];
      DistinctOnce(xs[1..], x);
      if xs[0] == x {
        assert x !in xs[1..];
      }
    }
  }

  /** Sequences without repeats and with the same elements are permutations of each other. */
  lemma SameElementsPermute<T>(xs: seq<T>, ys: seq<T>)
    requires Distinct(xs) && Distinct(ys) && forall x :: x in xs <==> x in ys
    ensures multiset(xs) == multiset(ys)
  {
    forall x ensures multiset(xs)[x] == multiset(ys)[x] {
      DistinctOnce(xs, x);
      DistinctOnce(ys, x);
    }
  }

  // ----- Mapped sequences and permutations -----

  function Mapped<A, B>(f: A -> B, xs: seq<A>): (r: seq<B>)
    ensures |r| == |xs|
  {
    seq(|xs|, i requires 0 <= i < |xs| => f(xs[i]))
  }

  function Without<T>(xs: seq<T>, i: nat): seq<T>
    requires i < |xs|
  {
    xs[..i] + xs[i + 1..]
  }

  lemma WithoutMultiset<T>(xs: seq<T>, i: nat)
    requires i < |xs|
    ensures multiset(xs) == multiset(Without(xs, i)) + multiset{xs[i]}
    ensures multiset(Without(xs, i)) == multiset(xs) - multiset{xs[i]}
  {
    assert xs == xs[..i] + [xs[i]] + xs[i + 1..];
  }

  lemma MappedWithout<A, B>(f: A -> B, xs: seq<A>, i: nat)
    requires i < |xs|
    ensures Mapped(f, Without(xs, i)) == Without(Mapped(f, xs), i)
    ensures multiset(Mapped(f, xs)) == multiset(Mapped(f, Without(xs, i))) + multiset{f(xs[i])}
    ensures multiset(Mapped(f, Without(xs, i))) == multiset(Mapped(f, xs)) - multiset{f(xs[i])}
  {
    assert Mapped(f, Without(xs, i)) == Without(Mapped(f, xs), i);
    WithoutMultiset(Mapped(f, xs), i);
  }

  lemma IndexOf<T>(xs: seq<T>, x: T) returns (i: nat)
    requires x in multiset(xs)
    ensures i < |xs| && xs[i] == x
  {
    assert x in xs;
    i :| 0 <= i < |xs| && xs[i] == x;
  }

  lemma {:induction false} MappedPermutes<A, B>(f: A -> B, xs: seq<A>, ys: seq<A>)
    requires multiset(xs) == multiset(ys)
    ensures multiset(Mapped(f, xs)) == multiset(Mapped(f, ys))
    decreases |xs|
  {
    SameMultisetSameLength(xs, ys);
    if xs != [] {
      assert xs[0] in multiset(xs);
      var i := IndexOf(ys, xs[0]);
      WithoutMultiset(xs, 0);
      WithoutMultiset(ys, i);
      MappedPermutes(f, Without(xs, 0), Without(ys, i));
      MappedWithout(f, xs, 0);
      MappedWithout(f, ys, i);
    }
  }

  /** Sequences with the same images, up to order, can be lined up. */
  lemma {:induction false} LineUp<A, B>(f: A -> B, xs: seq<A>, ys: seq<A>) returns (zs: seq<A>)
    requires multiset(Mapped(f, xs)) == multiset(Mapped(f, ys))
    ensures multiset(zs) == multiset(ys) && Mapped(f, zs) == Mapped(f, xs)
    decreases |xs|
  {
    SameMultisetSameLength(Mapped(f, xs), Mapped(f, ys));
    if xs == [] {
      zs := [];
    } else {
      var image := Mapped(f, xs);
      assert image[0] in multiset(image);
      var i := IndexOf(Mapped(f, ys), image[0]);
      MappedWithout(f, xs, 0);
      MappedWithout(f, ys, i);
      var rest := LineUp(f, Without(xs, 0), Without(ys, i));
      zs := [ys[i]] + rest;
      WithoutMultiset(ys, i);
      HeadedImages(f, xs, zs, rest);
    }
  }

  lemma HeadedImages<A, B>(f: A -> B, xs: seq<A>, zs: seq<A>, rest: seq<A>)
    requires xs != [] && zs != [] && zs == [zs[0]] + rest && f(zs[0]) == f(xs[0])
    requires Mapped(f, rest) == Mapped(f, Without(xs, 0))
    ensures Mapped(f, zs) == Mapped(f, xs)
  {
    forall k | 0 < k < |xs| ensures k < |zs| && f(zs[k]) == f(xs[k]) {
      assert Mapped(f, rest)[k - 1] == Mapped(f, Without(xs, 0))[k - 1];
    }
  }
}
