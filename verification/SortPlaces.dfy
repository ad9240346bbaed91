/** Which places the elements of a list come to when it is sorted, and which element comes last under its key. */
module SortPlaces {
  import opened Order

  /** Sorting puts the element at `i` before the one at `j`; equals stay in order. */
  predicate Precedes<T>(le: (T, T) -> bool, xs: seq<T>, i: nat, j: nat)
    requires i < |xs| && j < |xs|
  {
    if i <= j then le(xs[i], xs[j]) else !le(xs[j], xs[i])
  }

  /** `at` lists all places of `xs`, and in the order in which sorting takes them. */
  ghost predicate Places<T(!new)>(le: (T, T) -> bool, xs: seq<T>, at: seq<nat>) {
    && |at| == |xs|
    && InRange(xs, at)
    && (forall i :: 0 <= i < |xs| ==> i in at)
    && (forall k, l :: 0 <= k < l < |at| ==> at[k] != at[l] && Precedes(le, xs, at[k], at[l]))
  }

  function At<T>(xs: seq<T>, at: seq<nat>): seq<T>
    requires InRange(xs, at)
  {
    seq(|at|, k requires 0 <= k < |at| => xs[at[k]])
  }

  /** Where `Insert` puts its element. */
  lemma {:induction false} InsertAt<T(!new)>(le: (T, T) -> bool, x: T, ys: seq<T>) returns (p: nat)
    requires TotalPreorder(le) && Ascending(le, ys)
    ensures p <= |ys| && Insert(le, x, ys) == ys[..p] + [x] + ys[p..]
    ensures forall k :: 0 <= k < |ys| ==> (k < p <==> !le(x, ys[k]))
  {
    if ys == [] || le(x, ys[0]) {
      p := 0;
      forall k | 0 < k < |ys| ensures le(x, ys[k]) {
        assert le(ys[0], ys[k]);
      }
    } else {
      var q := InsertAt(le, x, ys[1..]);
      p := q + 1;
      forall k | 0 <= k < |ys| ensures k < p <==> !le(x, ys[k]) {
        assert k > 0 ==> ys[1..][k - 1] == ys[k];
      }
      assert ys[1..][..q] == ys[1..p] && ys[1..][q..] == ys[p..];
      assert ys[..p] == [ys[0]] + ys[1..p];
    }
  }

  /** The places of a list with one more element in front, which sorting takes at `p`. */
  function Opened(rest: seq<nat>, p: nat): (r: seq<nat>)
    requires p <= |rest|
    ensures |r| == |rest| + 1
  {
    seq(|rest| + 1, k requires 0 <= k <= |rest| => if k < p then rest[k] + 1 else if k == p then 0 else rest[k - 1] + 1)
  }

  /** Sorting lists the elements by their places. */
  lemma {:induction false} SortPlaces<T(!new)>(le: (T, T) -> bool, xs: seq<T>) returns (at: seq<nat>)
    requires TotalPreorder(le)
    ensures Places(le, xs, at) && Sort(le, xs) == At(xs, at)
  {
    if xs == [] {
      at := [];
    } else {
      var tail, ys := xs[1..], Sort(le, xs[1..]);
      var rest := SortPlaces(le, tail);
      SortAscends(le, tail);
      var p := InsertAt(le, xs[0], ys);
      hide TotalPreorder, Sort, Insert;
      assert forall k :: 0 <= k < |rest| ==> ys[k] == tail[rest[k]];
      at := Opened(rest, p);
      OpenedPlaces(le, xs, tail, rest, p);
      OpenedLists(le, xs, tail, rest, p);
      assert Sort(le, xs) == Insert(le, xs[0], ys) by { SortStep(le, xs); }
    }
  }

  lemma SortStep<T>(le: (T, T) -> bool, xs: seq<T>)
    requires xs != []
    ensures Sort(le, xs) == Insert(le, xs[0], Sort(le, xs[1..]))
  {}

  predicate InRange<T>(xs: seq<T>, at: seq<nat>) {
    forall k :: 0 <= k < |at| ==> at[k] < |xs|
  }

  lemma OpenedLists<T>(le: (T, T) -> bool, xs: seq<T>, tail: seq<T>, rest: seq<nat>, p: nat)
    requires xs != [] && tail == xs[1..] && p <= |rest| && InRange(tail, rest)
    ensures InRange(xs, Opened(rest, p))
    ensures At(xs, Opened(rest, p)) == At(tail, rest)[..p] + [xs[0]] + At(tail, rest)[p..]
  {
    var at, ys := Opened(rest, p), At(tail, rest);
    assert forall k :: 0 <= k < |ys| ==> ys[k] == xs[rest[k] + 1];
  }

  lemma OpenedPlaces<T(!new)>(le: (T, T) -> bool, xs: seq<T>, tail: seq<T>, rest: seq<nat>, p: nat)
    requires xs != [] && tail == xs[1..] && Places(le, tail, rest) && p <= |rest|
    requires forall k :: 0 <= k < |rest| ==> (k < p <==> !le(xs[0], tail[rest[k]]))
    ensures Places(le, xs, Opened(rest, p))
  {
    var at := Opened(rest, p);
    forall i | 0 <= i < |xs| ensures i in at {
      OpenedCovers(rest, p, i);
    }
    forall k, l | 0 <= k < l < |at| ensures at[k] != at[l] && Precedes(le, xs, at[k], at[l]) {
      OpenedPair(le, xs, tail, rest, p, k, l);
    }
    hide Opened, Precedes;
  }

  lemma OpenedCovers(rest: seq<nat>, p: nat, i: nat)
    requires p <= |rest| && (i > 0 ==> i - 1 in rest)
    ensures i in Opened(rest, p)
  {
    var at := Opened(rest, p);
    if i == 0 {
      assert at[p] == 0;
    } else {
      var k :| 0 <= k < |rest| && rest[k] == i - 1;
      assert at[if k < p then k else k + 1] == i;
    }
  }

  lemma OpenedPair<T(!new)>(le: (T, T) -> bool, xs: seq<T>, tail: seq<T>, rest: seq<nat>, p: nat, k: nat, l: nat)
    requires xs != [] && tail == xs[1..] && Places(le, tail, rest) && p <= |rest|
    requires forall k :: 0 <= k < |rest| ==> (k < p <==> !le(xs[0], tail[rest[k]]))
    requires k < l <= |rest|
    ensures var at := Opened(rest, p);
            at[k] < |xs| && at[l] < |xs| && at[k] != at[l] && Precedes(le, xs, at[k], at[l])
  {
    if k != p && l != p {
      var k', l' := if k < p then k else k - 1, if l < p then l else l - 1;
      assert Precedes(le, tail, rest[k'], rest[l']);
    }
  }

  /** A relation holds all along the sorted list exactly when it holds along the precedence in the list itself. */
  lemma SortedPairs<T(!new)>(le: (T, T) -> bool, ok: (T, T) -> bool, xs: seq<T>)
    requires TotalPreorder(le)
    ensures Ascending(ok, Sort(le, xs))
            <==> forall i, j :: 0 <= i < |xs| && 0 <= j < |xs| && i != j && Precedes(le, xs, i, j) ==> ok(xs[i], xs[j])
  {
    var at := SortPlaces(le, xs);
    var sorted := Sort(le, xs);
    if Ascending(ok, sorted) {
      forall i: nat, j: nat | i < |xs| && j < |xs| && i != j && Precedes(le, xs, i, j) ensures ok(xs[i], xs[j]) {
        var k, l := PlacesMet(le, xs, at, i, j);
        assert ok(sorted[k], sorted[l]);
      }
    }
  }

  lemma PlacesMet<T(!new)>(le: (T, T) -> bool, xs: seq<T>, at: seq<nat>, i: nat, j: nat) returns (k: nat, l: nat)
    requires Places(le, xs, at) && i < |xs| && j < |xs| && i != j && Precedes(le, xs, i, j)
    ensures k < l < |at| && at[k] == i && at[l] == j
  {
    assert i in at && j in at;
    k :| 0 <= k < |at| && at[k] == i;
    l :| 0 <= l < |at| && at[l] == j;
    assert l < k ==> Precedes(le, xs, at[l], at[k]);
  }

  // ----- The last element under a key -----

  /** Of the elements with this key, sorting puts the one at `i` last. */
  predicate Last<T(!new)>(le: (T, T) -> bool, key: T -> string, xs: seq<T>, i: nat)
    requires i < |xs|
  {
    forall j | 0 <= j < |xs| :: j != i && key(xs[j]) == key(xs[i]) ==> Precedes(le, xs, j, i)
  }

  /** No later element has the key. */
  predicate LastIn<T>(key: T -> string, xs: seq<T>, i: nat)
    requires i < |xs|
  {
    forall j | i < j < |xs| :: key(xs[j]) != key(xs[i])
  }

  lemma LastWhenSorted<T(!new)>(le: (T, T) -> bool, key: T -> string, xs: seq<T>, at: seq<nat>, k: nat)
    requires Places(le, xs, at) && k < |at|
    ensures LastIn(key, At(xs, at), k) <==> Last(le, key, xs, at[k])
  {
    var sorted := At(xs, at);
    if LastIn(key, sorted, k) {
      forall j | 0 <= j < |xs| && j != at[k] && key(xs[j]) == key(xs[at[k]]) ensures Precedes(le, xs, j, at[k]) {
        assert j in at;
        var l :| 0 <= l < |at| && at[l] == j;
        assert sorted[l] == xs[j];
      }
    }
    if Last(le, key, xs, at[k]) {
      forall l | k < l < |sorted| ensures key(sorted[l]) != key(sorted[k]) {
        assert Precedes(le, xs, at[k], at[l]);
      }
    }
  }

  /** Every element that no later one shares its key with. */
  ghost predicate AllLast<T(!new)>(key: T -> string, ok: T -> bool, xs: seq<T>) {
    forall i: nat {:trigger LastIn(key, xs, i)} :: i < |xs| && LastIn(key, xs, i) ==> ok(xs[i])
  }

  /** Every element that sorting puts last under its key. */
  predicate AllLastSorted<T(!new)>(le: (T, T) -> bool, key: T -> string, ok: T -> bool, xs: seq<T>) {
    forall i: nat {:trigger Last(le, key, xs, i)} | i < |xs| :: Last(le, key, xs, i) ==> ok(xs[i])
  }

  lemma LastSorted<T(!new)>(le: (T, T) -> bool, key: T -> string, ok: T -> bool, xs: seq<T>)
    requires TotalPreorder(le)
    ensures AllLast(key, ok, Sort(le, xs)) <==> AllLastSorted(le, key, ok, xs)
  {
    var at := SortPlaces(le, xs);
    var sorted := At(xs, at);
    forall k: nat | k < |at| ensures LastIn(key, sorted, k) <==> Last(le, key, xs, at[k]) {
      LastWhenSorted(le, key, xs, at, k);
    }
    hide LastIn, Last, Sort, TotalPreorder;
    if AllLast(key, ok, sorted) {
      forall i: nat | i < |xs| && Last(le, key, xs, i) ensures ok(xs[i]) {
        assert i in at;
        var k :| 0 <= k < |at| && at[k] == i;
        assert LastIn(key, sorted, k) && sorted[k] == xs[i];
      }
    }
  }
}
