/** What redaction does to a document, told path by path. */
module RedactionPaths {
  import opened Order
  import opened JsonValues
  import opened Wrappers

  /** A step into an object or into a list. */
  datatype Hop = Key(key: string) | At(index: nat)

  type Path = seq<Hop>

  /** What one step leads to, if anything. */
  function Into(j: Json, hop: Hop): Option<Json> {
    match hop
    case Key(k) => if j.Obj? && k in j.fields then Some(j.fields[k]) else None
    case At(i) => if j.List? && i < |j.items| then Some(j.items[i]) else None
  }

  function Follow(j: Json, path: Path): Option<Json> {
    if path == [] then Some(j)
    else match Into(j, path[0]) case None => None case Some(next) => Follow(next, path[1..])
  }

  predicate Secret(secretKey: string -> bool, hop: Hop) {
    hop.Key? && secretKey(hop.key)
  }

  predicate Open(secretKey: string -> bool, path: Path) {
    forall i :: 0 <= i < |path| ==> !Secret(secretKey, path[i])
  }

  /** The same kind of value: an object with the same keys, now in order, a list as long, or the very same leaf. */
  ghost predicate SameShape(x: Json, y: Json) {
    match x
    case Obj(m, _) => y.Obj? && y.fields.Keys == m.Keys && Ascending(StrLe, y.order) && Distinct(y.order) && Elements(y.order) == m.Keys
    case List(xs) => y.List? && |y.items| == |xs|
    case _ => y == x
  }

  /**
   * The second document is the first with its secrets masked. Along a path without a secret key nothing appears,
   * disappears or changes its shape; a secret key that such a path leads to holds the mask alone.
   */
  ghost predicate Masked(secretKey: string -> bool, j: Json, masked: Json) {
    && (forall path :: Open(secretKey, path) ==> OpenlySame(j, masked, path))
    && (forall path, k :: Open(secretKey, path) && secretKey(k) ==> SecretMasked(j, masked, path, k))
  }

  ghost predicate OpenlySame(j: Json, masked: Json, path: Path) {
    var x, y := Follow(j, path), Follow(masked, path);
    (x.Some? <==> y.Some?) && (x.Some? ==> SameShape(x.value, y.value))
  }

  ghost predicate SecretMasked(j: Json, masked: Json, path: Path, k: string) {
    && Follow(masked, path + [Key(k)]) == (if Follow(j, path + [Key(k)]).Some? then Some(Str("<redacted>")) else None)
    && forall below: Path :: below != [] ==> Follow(masked, path + [Key(k)] + below) == None
  }

  lemma {:induction false} FollowOn(j: Json, path: Path, more: Path)
    ensures Follow(j, path + more) == match Follow(j, path) case None => None case Some(x) => Follow(x, more)
  {
    if path == [] {
      assert path + more == more;
    } else {
      assert (path + more)[1..] == path[1..] + more;
      if Into(j, path[0]).Some? {
        FollowOn(Into(j, path[0]).value, path[1..], more);
      }
    }
  }

  lemma RedactInto(secretKey: string -> bool, j: Json, hop: Hop)
    requires !Secret(secretKey, hop)
    ensures Into(Redact(secretKey, j), hop) == match Into(j, hop) case None => None case Some(x) => Some(Redact(secretKey, x))
  {}

  /** Redaction goes down with an open path. */
  lemma {:induction false} RedactFollows(secretKey: string -> bool, j: Json, path: Path)
    requires Open(secretKey, path)
    ensures Follow(Redact(secretKey, j), path) == match Follow(j, path) case None => None case Some(x) => Some(Redact(secretKey, x))
    decreases |path|
  {
    hide Redact, Into;
    if path != [] {
      RedactInto(secretKey, j, path[0]);
      if Into(j, path[0]).Some? {
        RedactFollows(secretKey, Into(j, path[0]).value, path[1..]);
      }
    }
  }

  lemma RedactKeepsShape(secretKey: string -> bool, x: Json)
    ensures SameShape(x, Redact(secretKey, x))
  {
    if x.Obj? {
      RedactsToRecord(secretKey, x);
      RecordOrdered(RedactMapping(secretKey, x.fields));
      assert RedactMapping(secretKey, x.fields).Keys == x.fields.Keys;
      hide Redact, RedactMapping, Record;
    }
  }

  lemma RecordOrdered(m: Fields)
    ensures Ascending(StrLe, Record(m).order) && Distinct(Record(m).order) && Elements(Record(m).order) == m.Keys
  {}

  lemma MaskAtKey(secretKey: string -> bool, x: Json, k: string)
    requires secretKey(k)
    ensures Into(Redact(secretKey, x), Key(k)) == if Into(x, Key(k)).Some? then Some(Str("<redacted>")) else None
  {}

  lemma SingleStep(j: Json, hop: Hop)
    ensures Follow(j, [hop]) == Into(j, hop)
  {
    hide Into;
    var path: Path := [hop];
    assert path[1..] == [];
  }

  lemma NothingBelowText(s: string, below: Path)
    requires below != []
    ensures Follow(Str(s), below) == None
  {}

  lemma RedactMasksKey(secretKey: string -> bool, j: Json, path: Path, k: string)
    requires Open(secretKey, path) && secretKey(k)
    ensures SecretMasked(j, Redact(secretKey, j), path, k)
  {
    hide Redact, Follow, Into;
    RedactFollows(secretKey, j, path);
    FollowOn(j, path, [Key(k)]);
    FollowOn(Redact(secretKey, j), path, [Key(k)]);
    if Follow(j, path).Some? {
      var x := Follow(j, path).value;
      SingleStep(x, Key(k));
      SingleStep(Redact(secretKey, x), Key(k));
      MaskAtKey(secretKey, x, k);
    }
    forall below: Path | below != [] ensures Follow(Redact(secretKey, j), path + [Key(k)] + below) == None {
      FollowOn(Redact(secretKey, j), path + [Key(k)], below);
      NothingBelowText("<redacted>", below);
    }
  }

  /** Redaction masks exactly the values under secret keys, at every depth, and changes nothing else but the order of keys. */
  lemma RedactionMasks(secretKey: string -> bool, j: Json)
    ensures Masked(secretKey, j, Redact(secretKey, j))
  {
    forall path | Open(secretKey, path) ensures OpenlySame(j, Redact(secretKey, j), path) {
      RedactFollows(secretKey, j, path);
      if Follow(j, path).Some? {
        RedactKeepsShape(secretKey, Follow(j, path).value);
      }
      hide Redact, Follow;
    }
    forall path, k | Open(secretKey, path) && secretKey(k) ensures SecretMasked(j, Redact(secretKey, j), path, k) {
      RedactMasksKey(secretKey, j, path, k);
    }
  }

  lemma MappingMasks(secretKey: string -> bool, m: Fields)
    ensures Masked(secretKey, Record(m), Record(RedactMapping(secretKey, m)))
  {
    RedactsToRecord(secretKey, Record(m));
    RedactionMasks(secretKey, Record(m));
    hide Redact, RedactMapping, Record, Masked;
  }

  // ----- The secret-field check -----

  /** Where the check looks for keys: anywhere but in the objects of a list that is itself in a list. */
  predicate LooksAlong(path: Path) {
    && path != [] && path[0].Key? && path[|path| - 1].Key?
    && forall i :: 0 <= i < |path| - 1 && path[i].At? ==> path[i + 1].Key?
  }

  ghost predicate SecretAlong(secretKey: string -> bool, j: Json, path: Path) {
    LooksAlong(path) && Follow(j, path).Some? && secretKey(path[|path| - 1].key)
  }

  lemma SecretFieldKey(secretKey: string -> bool, j: Json) returns (k: string)
    requires HasSecretField(secretKey, j)
    ensures j.Obj? && k in j.fields && (secretKey(k) || SecretUnder(secretKey, j.fields[k]))
  {
    k :| k in j.fields && (secretKey(k) || HasSecretField(secretKey, j.fields[k])
         || (j.fields[k].List? && exists i | 0 <= i < |j.fields[k].items| :: HasSecretField(secretKey, j.fields[k].items[i])));
  }

  lemma Lengthen(secretKey: string -> bool, j: Json, first: Path, rest: Path)
    requires (|first| == 1 && first[0].Key?) || (|first| == 2 && first[0].Key? && first[1].At?)
    requires Follow(j, first).Some? && SecretAlong(secretKey, Follow(j, first).value, rest)
    ensures SecretAlong(secretKey, j, first + rest)
  {
    FollowOn(j, first, rest);
    hide Follow;
    var path := first + rest;
    assert path[|path| - 1] == rest[|rest| - 1];
    forall i | 0 <= i < |path| - 1 && path[i].At? ensures path[i + 1].Key? {
      if i >= |first| {
        assert path[i] == rest[i - |first|] && path[i + 1] == rest[i - |first| + 1];
      } else {
        assert path[i + 1] == rest[0];
      }
    }
  }

  lemma TwoSteps(j: Json, k: string, i: nat)
    requires j.Obj? && k in j.fields && j.fields[k].List? && i < |j.fields[k].items|
    ensures Follow(j, [Key(k), At(i)]) == Some(j.fields[k].items[i])
  {
    var path: Path := [Key(k), At(i)];
    assert path[1..] == [At(i)];
    SingleStep(j.fields[k], At(i));
  }

  lemma {:induction false} SecretFieldIsAlong(secretKey: string -> bool, j: Json) returns (path: Path)
    requires HasSecretField(secretKey, j)
    ensures SecretAlong(secretKey, j, path)
  {
    var k := SecretFieldKey(secretKey, j);
    hide HasSecretField, SecretAlong, Follow;
    var v := j.fields[k];
    SingleStep(j, Key(k));
    if secretKey(k) {
      path := [Key(k)];
      assert SecretAlong(secretKey, j, path) by { OneStepAlong(secretKey, j, k); }
    } else if HasSecretField(secretKey, v) {
      var rest := SecretFieldIsAlong(secretKey, v);
      Lengthen(secretKey, j, [Key(k)], rest);
      path := [Key(k)] + rest;
    } else {
      var i :| 0 <= i < |v.items| && HasSecretField(secretKey, v.items[i]);
      TwoSteps(j, k, i);
      var rest := SecretFieldIsAlong(secretKey, v.items[i]);
      Lengthen(secretKey, j, [Key(k), At(i)], rest);
      path := [Key(k), At(i)] + rest;
    }
  }

  lemma OneStepAlong(secretKey: string -> bool, j: Json, k: string)
    requires j.Obj? && k in j.fields && secretKey(k)
    ensures SecretAlong(secretKey, j, [Key(k)])
  {
    SingleStep(j, Key(k));
  }

  lemma {:induction false} AlongIsSecretField(secretKey: string -> bool, j: Json, path: Path)
    requires SecretAlong(secretKey, j, path)
    ensures HasSecretField(secretKey, j)
    decreases |path|
  {
    var k := path[0].key;
    if |path| > 1 {
      var v, rest := j.fields[k], path[1..];
      if rest[0].Key? {
        assert LooksAlong(rest) by {
          forall i | 0 <= i < |rest| - 1 && rest[i].At? ensures rest[i + 1].Key? {
            assert path[i + 1] == rest[i];
          }
        }
        AlongIsSecretField(secretKey, v, rest);
      } else {
        var below := rest[1..];
        assert path[1].At? && path[2].Key?;
        assert LooksAlong(below) by {
          forall i | 0 <= i < |below| - 1 && below[i].At? ensures below[i + 1].Key? {
            assert path[i + 2] == below[i];
          }
        }
        AlongIsSecretField(secretKey, v.items[rest[0].index], below);
      }
    }
  }

  /** The check finds exactly the documents with a secret key on such a path. */
  lemma SecretFieldIff(secretKey: string -> bool, j: Json)
    ensures HasSecretField(secretKey, j) <==> exists path :: SecretAlong(secretKey, j, path)
  {
    if HasSecretField(secretKey, j) {
      var path := SecretFieldIsAlong(secretKey, j);
    }
    if path :| SecretAlong(secretKey, j, path) {
      AlongIsSecretField(secretKey, j, path);
    }
  }
}
