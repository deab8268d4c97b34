/**
 * `_map_rails_fields`: rebuilds a form-data hash, renaming Rails
 * nested-attributes keys to their canonical names. A key in the arrays table
 * is renamed and its index-keyed hash replaced by that hash's values; a key
 * in the objects table is renamed; every hash value (but no array element)
 * is rebuilt the same way, with the same table.
 */
module RailsFields {
  import opened Wrappers
  import opened OrderedHash
  import opened Data
  import opened FormSetters

  /** `v.values` on a value that is not a hash: Ruby raises NoMethodError. */
  datatype NormalizeError = NotAHash(key: Key)

  /** The key under which an entry with key `k` is stored. */
  function OutKey(t: Aliases, k: Key): Key {
    if k in t.arrays then t.arrays[k]
    else if k in t.objects then t.objects[k]
    else k
  }

  /**
   * The normalised form-data hash, or the error raised while building it.
   * It succeeds exactly when every top-level entry can be rebuilt, and the
   * hash it builds never repeats a key.
   */
  function MapRailsFields(t: Aliases, h: seq<(Key, Value)>): (r: Result<seq<(Key, Value)>, NormalizeError>)
    ensures r.Ok? <==> forall i :: 0 <= i < |h| ==> MapEntry(t, h[i]).Ok?
    ensures r.Ok? ==> UniqueKeys(r.value)
  {
    Fold(t, h, [])
  }

  /** `each_with_object`: rebuilds the entries of `h` one by one into `acc`. */
  function Fold(t: Aliases, h: seq<(Key, Value)>, acc: seq<(Key, Value)>): (r: Result<seq<(Key, Value)>, NormalizeError>)
    decreases h
    ensures r.Ok? <==> forall i :: 0 <= i < |h| ==> MapEntry(t, h[i]).Ok?
    ensures r.Ok? && UniqueKeys(acc) ==> UniqueKeys(r.value)
  {
    if h == [] then Ok(acc)
    else
      assert forall i :: 0 <= i < |h| - 1 ==> h[1..][i] == h[i + 1];
      match MapEntry(t, h[0])
      case Err(err) => Err(err)
      case Ok(e) =>
        var acc' := Put(acc, e.0, e.1);
        assert UniqueKeys(acc) ==> UniqueKeys(acc') by {
          if UniqueKeys(acc) {
            PutUnique(acc, e.0, e.1);
          }
        }
        Fold(t, h[1..], acc')
  }

  /** The renamed key and rebuilt value of one entry. */
  function MapEntry(t: Aliases, e: (Key, Value)): (r: Result<(Key, Value), NormalizeError>)
    decreases e
    ensures r.Ok? ==> r.value.0 == OutKey(t, e.0)
  {
    var (k, v) := e;
    if k in t.arrays then
      if v.Hash? then Ok((t.arrays[k], Arr(ValuesOf(v.entries))))
      else Err(NotAHash(k))
    else
      var k' := if k in t.objects then t.objects[k] else k;
      if v.Hash? then
        match Fold(t, v.entries, [])
        case Ok(sub) => Ok((k', Hash(sub)))
        case Err(err) => Err(err)
      else Ok((k', v))
  }

  /** Every entry rebuilt on its own, in order; the first failure if any fails. */
  function Steps(t: Aliases, h: seq<(Key, Value)>): (r: Result<seq<(Key, Value)>, NormalizeError>)
    ensures r.Ok? <==> forall i :: 0 <= i < |h| ==> MapEntry(t, h[i]).Ok?
    ensures r.Ok? ==> |r.value| == |h| && forall i :: 0 <= i < |h| ==> r.value[i] == MapEntry(t, h[i]).value
  {
    if h == [] then Ok([])
    else
      match MapEntry(t, h[0])
      case Err(err) => Err(err)
      case Ok(e) =>
        match Steps(t, h[1..])
        case Err(err) => Err(err)
        case Ok(rest) => Ok([e] + rest)
  }

  /** The keys the entries of `h` are stored under, in order. */
  function OutKeys(t: Aliases, h: seq<(Key, Value)>): (ks: seq<Key>)
    ensures |ks| == |h| && forall i :: 0 <= i < |h| ==> ks[i] == OutKey(t, h[i].0)
  {
    if h == [] then [] else [OutKey(t, h[0].0)] + OutKeys(t, h[1..])
  }

  /**
   * Every array-table key holds a hash, at every position the normaliser
   * visits: the entries of `h` and of the hash values below them, but not
   * array elements and not the values of an index hash.
   */
  ghost predicate WellShaped(t: Aliases, h: seq<(Key, Value)>)
    decreases h
  {
    forall i :: 0 <= i < |h| ==> EntryWellShaped(t, h[i])
  }

  ghost predicate EntryWellShaped(t: Aliases, e: (Key, Value))
    decreases e
  {
    if e.0 in t.arrays then e.1.Hash?
    else e.1.Hash? ==> WellShaped(t, e.1.entries)
  }

  /**
   * No alias-table key and no repeated key, at every position the normaliser
   * visits (the entries of `h` and of the hash values below them, not array
   * elements).
   */
  ghost predicate Canonical(t: Aliases, h: seq<(Key, Value)>)
    decreases h
  {
    UniqueKeys(h) && forall i :: 0 <= i < |h| ==> EntryCanonical(t, h[i])
  }

  ghost predicate EntryCanonical(t: Aliases, e: (Key, Value))
    decreases e
  {
    e.0 !in t.arrays && e.0 !in t.objects && (e.1.Hash? ==> Canonical(t, e.1.entries))
  }

  /** The fold stores the entries rebuilt one by one, in order. */
  lemma {:induction false} FoldIsPutAll(t: Aliases, h: seq<(Key, Value)>, acc: seq<(Key, Value)>)
    ensures Fold(t, h, acc) == match Steps(t, h) case Ok(es) => Ok(PutAll(acc, es)) case Err(err) => Err(err)
    decreases h
  {
    if h != [] {
      match MapEntry(t, h[0])
      case Err(_) =>
      case Ok(e) =>
        FoldIsPutAll(t, h[1..], Put(acc, e.0, e.1));
    }
  }

  /**
   * Normalisation succeeds exactly when every array-table key holds a hash, at
   * every position the normaliser visits (hash values; not array elements, not
   * the values of an index hash).
   */
  lemma {:induction false} SucceedsIffWellShaped(t: Aliases, h: seq<(Key, Value)>)
    ensures MapRailsFields(t, h).Ok? <==> WellShaped(t, h)
  {
    FoldOk(t, h, []);
  }

  lemma {:induction false} FoldOk(t: Aliases, h: seq<(Key, Value)>, acc: seq<(Key, Value)>)
    ensures Fold(t, h, acc).Ok? <==> WellShaped(t, h)
    decreases h
  {
    FoldIsPutAll(t, h, acc);
    forall i | 0 <= i < |h|
      ensures MapEntry(t, h[i]).Ok? <==> EntryWellShaped(t, h[i])
    {
      EntryOk(t, h[i]);
    }
  }

  lemma {:induction false} EntryOk(t: Aliases, e: (Key, Value))
    ensures MapEntry(t, e).Ok? <==> EntryWellShaped(t, e)
    decreases e
  {
    if e.0 !in t.arrays && e.1.Hash? {
      FoldOk(t, e.1.entries, []);
    }
  }

  /** An array-table key whose value is not a hash makes the whole normalisation fail. */
  lemma ArrayAttributesNeedHash(t: Aliases, h: seq<(Key, Value)>, i: nat)
    requires i < |h| && h[i].0 in t.arrays && !h[i].1.Hash?
    ensures MapRailsFields(t, h).Err?
  {
    SucceedsIffWellShaped(t, h);
    assert !EntryWellShaped(t, h[i]);
  }

  /** The result keeps, for every stored key, the rebuilt value of the last entry stored under it. */
  lemma LookupNormalized(t: Aliases, h: seq<(Key, Value)>, i: nat)
    requires MapRailsFields(t, h).Ok?
    requires i < |h|
    requires forall j :: i < j < |h| ==> OutKey(t, h[j].0) != OutKey(t, h[i].0)
    ensures MapEntry(t, h[i]).Ok?
    ensures Lookup(MapRailsFields(t, h).value, OutKey(t, h[i].0)) == Some(MapEntry(t, h[i]).value.1)
  {
    FoldIsPutAll(t, h, []);
    var es := Steps(t, h).value;
    LastForAt(es, i);
    LookupPutAll([], es, OutKey(t, h[i].0));
  }

  /**
   * `friends_attributes: {"0" => a, "1" => b}` becomes `friends: [a, b]`: the
   * collection name, holding the hash's values in insertion order, not
   * re-sorted by index and not themselves rebuilt.
   */
  lemma ArrayAttributesBecomeValues(t: Aliases, h: seq<(Key, Value)>, i: nat)
    requires MapRailsFields(t, h).Ok?
    requires i < |h| && h[i].0 in t.arrays
    requires forall j :: i < j < |h| ==> OutKey(t, h[j].0) != t.arrays[h[i].0]
    ensures h[i].1.Hash?
    ensures Lookup(MapRailsFields(t, h).value, t.arrays[h[i].0]) == Some(Arr(ValuesOf(h[i].1.entries)))
  {
    LookupNormalized(t, h, i);
  }

  /** `account_attributes: {...}` becomes `account: {...}`, a hash value being rebuilt in turn. */
  lemma ObjectAttributesRenamed(t: Aliases, h: seq<(Key, Value)>, i: nat)
    requires MapRailsFields(t, h).Ok?
    requires i < |h| && h[i].0 !in t.arrays && h[i].0 in t.objects
    requires forall j :: i < j < |h| ==> OutKey(t, h[j].0) != t.objects[h[i].0]
    ensures h[i].1.Hash? ==>
              && MapRailsFields(t, h[i].1.entries).Ok?
              && Lookup(MapRailsFields(t, h).value, t.objects[h[i].0]) == Some(Hash(MapRailsFields(t, h[i].1.entries).value))
    ensures !h[i].1.Hash? ==> Lookup(MapRailsFields(t, h).value, t.objects[h[i].0]) == Some(h[i].1)
  {
    LookupNormalized(t, h, i);
  }

  /** A key in neither table keeps its name; a non-hash value (an array included) is stored untouched. */
  lemma OtherKeysKept(t: Aliases, h: seq<(Key, Value)>, i: nat)
    requires MapRailsFields(t, h).Ok?
    requires i < |h| && h[i].0 !in t.arrays && h[i].0 !in t.objects
    requires forall j :: i < j < |h| ==> OutKey(t, h[j].0) != h[i].0
    ensures h[i].1.Hash? ==>
              && MapRailsFields(t, h[i].1.entries).Ok?
              && Lookup(MapRailsFields(t, h).value, h[i].0) == Some(Hash(MapRailsFields(t, h[i].1.entries).value))
    ensures !h[i].1.Hash? ==> Lookup(MapRailsFields(t, h).value, h[i].0) == Some(h[i].1)
  {
    LookupNormalized(t, h, i);
  }

  /**
   * The result's keys are the stored keys in order of first occurrence (a
   * later entry stored under an earlier key overwrites it in place), and
   * no key repeats.
   */
  lemma NormalizedKeys(t: Aliases, h: seq<(Key, Value)>)
    requires MapRailsFields(t, h).Ok?
    ensures KeysOf(MapRailsFields(t, h).value) == DedupOnto([], OutKeys(t, h))
    ensures UniqueKeys(MapRailsFields(t, h).value)
  {
    FoldIsPutAll(t, h, []);
    var es := Steps(t, h).value;
    KeysPutAll([], es);
    assert KeysOf(es) == OutKeys(t, h);
    PutAllUnique([], es);
  }

  /** A hash holding no alias-table key at any position the normaliser visits is returned unchanged, key order included. */
  lemma {:induction false} CanonicalUnchanged(t: Aliases, h: seq<(Key, Value)>)
    requires Canonical(t, h)
    ensures MapRailsFields(t, h) == Ok(h)
    decreases h
  {
    forall i | 0 <= i < |h|
      ensures MapEntry(t, h[i]) == Ok(h[i])
    {
      CanonicalEntryUnchanged(t, h[i]);
    }
    FoldIsPutAll(t, h, []);
    assert Steps(t, h).value == h;
    PutAllFresh([], h);
    assert [] + h == h;
  }

  lemma {:induction false} CanonicalEntryUnchanged(t: Aliases, e: (Key, Value))
    requires EntryCanonical(t, e)
    ensures MapEntry(t, e) == Ok(e)
    decreases e
  {
    if e.1.Hash? {
      CanonicalUnchanged(t, e.1.entries);
    }
  }
}
