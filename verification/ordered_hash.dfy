/**
 * Ruby hashes keep their keys in insertion order, and that order is
 * observable (`Hash#values`, `each`). A hash is modelled as a sequence of
 * key/value entries; `Put` is `h[k] = v`, which overwrites the value of a
 * key already present without moving it and appends a new key at the end.
 */
module OrderedHash {
  import opened Wrappers

  /** Hash keys: Ruby symbols, by their names. */
  type Key = string

  /** The keys of `m`, in order. */
  function KeysOf<V>(m: seq<(Key, V)>): (ks: seq<Key>)
    ensures |ks| == |m|
    ensures forall i :: 0 <= i < |m| ==> ks[i] == m[i].0
  {
    if m == [] then [] else [m[0].0] + KeysOf(m[1..])
  }

  /** `Hash#values`: the values of `m`, in insertion order. */
  function ValuesOf<V>(m: seq<(Key, V)>): (vs: seq<V>)
    ensures |vs| == |m|
    ensures forall i :: 0 <= i < |m| ==> vs[i] == m[i].1
  {
    if m == [] then [] else [m[0].1] + ValuesOf(m[1..])
  }

  /** No key occurs twice: what every Ruby hash satisfies. */
  ghost predicate UniqueKeys<V>(m: seq<(Key, V)>) {
    forall i, j :: 0 <= i < j < |m| ==> m[i].0 != m[j].0
  }

  /** `h[k]`: the value stored under `k`, if any. */
  function Lookup<V>(m: seq<(Key, V)>, k: Key): (r: Option<V>)
    ensures r.None? <==> k !in KeysOf(m)
    ensures r.Some? ==> (k, r.value) in m
    ensures UniqueKeys(m) ==> forall i :: 0 <= i < |m| && m[i].0 == k ==> r == Some(m[i].1)
  {
    if m == [] then None
    else if m[0].0 == k then Some(m[0].1)
    else Lookup(m[1..], k)
  }

  /** `h[k] = v`. */
  function Put<V>(m: seq<(Key, V)>, k: Key, v: V): (r: seq<(Key, V)>)
    ensures k !in KeysOf(m) ==> r == m + [(k, v)]
  {
    if m == [] then [(k, v)]
    else if m[0].0 == k then [(k, v)] + m[1..]
    else
      assert KeysOf(m) == [m[0].0] + KeysOf(m[1..]);
      assert [m[0]] + (m[1..] + [(k, v)]) == m + [(k, v)];
      [m[0]] + Put(m[1..], k, v)
  }

  /** `h[k] = v` keeps the key order when `k` is present, else appends `k`. */
  lemma {:induction false} KeysPut<V>(m: seq<(Key, V)>, k: Key, v: V)
    ensures KeysOf(Put(m, k, v)) == if k in KeysOf(m) then KeysOf(m) else KeysOf(m) + [k]
  {
    if m != [] && m[0].0 != k {
      KeysPut(m[1..], k, v);
      assert KeysOf(m) == [m[0].0] + KeysOf(m[1..]);
    }
  }

  /** After `h[k] = v`, `h[k]` is `v` and every other key reads as before. */
  lemma {:induction false} LookupPut<V>(m: seq<(Key, V)>, k: Key, v: V, k': Key)
    ensures Lookup(Put(m, k, v), k') == if k' == k then Some(v) else Lookup(m, k')
  {
    if m != [] && m[0].0 != k {
      LookupPut(m[1..], k, v, k');
    }
  }

  lemma {:induction false} PutUnique<V>(m: seq<(Key, V)>, k: Key, v: V)
    requires UniqueKeys(m)
    ensures UniqueKeys(Put(m, k, v))
  {
    KeysPut(m, k, v);
    var r := Put(m, k, v);
    assert forall i :: 0 <= i < |r| ==> r[i].0 == KeysOf(r)[i];
    if k in KeysOf(m) {
      assert forall i :: 0 <= i < |m| ==> m[i].0 == KeysOf(m)[i];
    }
  }

  /** Stores the entries `es` into `acc` one after the other, as a loop of `acc[k] = v` does. */
  function PutAll<V>(acc: seq<(Key, V)>, es: seq<(Key, V)>): seq<(Key, V)>
    decreases es
  {
    if es == [] then acc else PutAll(Put(acc, es[0].0, es[0].1), es[1..])
  }

  /** The value of the last entry of `es` whose key is `k`. */
  function LastFor<V>(es: seq<(Key, V)>, k: Key): Option<V>
  {
    if es == [] then None
    else
      var later := LastFor(es[1..], k);
      if later.Some? then later
      else if es[0].0 == k then Some(es[0].1)
      else None
  }

  /** `seen` followed by the elements of `ks` not seen before, each at its first occurrence. */
  function DedupOnto(seen: seq<Key>, ks: seq<Key>): seq<Key>
    decreases ks
  {
    if ks == [] then seen
    else DedupOnto(if ks[0] in seen then seen else seen + [ks[0]], ks[1..])
  }

  /** After storing `es`, a key holds the value of its last entry in `es`, or else what it held before. */
  lemma {:induction false} LookupPutAll<V>(acc: seq<(Key, V)>, es: seq<(Key, V)>, k: Key)
    ensures Lookup(PutAll(acc, es), k) == if LastFor(es, k).Some? then LastFor(es, k) else Lookup(acc, k)
    decreases es
  {
    if es != [] {
      LookupPut(acc, es[0].0, es[0].1, k);
      LookupPutAll(Put(acc, es[0].0, es[0].1), es[1..], k);
    }
  }

  /** The entry at `i` is the last one for its key. */
  lemma {:induction false} LastForAt<V>(es: seq<(Key, V)>, i: nat)
    requires i < |es|
    requires forall j :: i < j < |es| ==> es[j].0 != es[i].0
    ensures LastFor(es, es[i].0) == Some(es[i].1)
  {
    if i == 0 {
      LastForAbsent(es[1..], es[0].0);
    } else {
      LastForAt(es[1..], i - 1);
    }
  }

  lemma {:induction false} LastForAbsent<V>(es: seq<(Key, V)>, k: Key)
    requires forall j :: 0 <= j < |es| ==> es[j].0 != k
    ensures LastFor(es, k) == None
  {
    if es != [] {
      LastForAbsent(es[1..], k);
    }
  }

  /** Storing into a hash with unique keys keeps them unique. */
  lemma {:induction false} PutAllUnique<V>(acc: seq<(Key, V)>, es: seq<(Key, V)>)
    requires UniqueKeys(acc)
    ensures UniqueKeys(PutAll(acc, es))
    decreases es
  {
    if es != [] {
      PutUnique(acc, es[0].0, es[0].1);
      PutAllUnique(Put(acc, es[0].0, es[0].1), es[1..]);
    }
  }

  /** Keys keep the position of their first insertion; new keys are appended. */
  lemma {:induction false} KeysPutAll<V>(acc: seq<(Key, V)>, es: seq<(Key, V)>)
    ensures KeysOf(PutAll(acc, es)) == DedupOnto(KeysOf(acc), KeysOf(es))
    decreases es
  {
    if es != [] {
      var m := Put(acc, es[0].0, es[0].1);
      KeysPut(acc, es[0].0, es[0].1);
      assert KeysOf(es)[1..] == KeysOf(es[1..]);
      KeysPutAll(m, es[1..]);
    }
  }

  /** Storing entries whose keys are all new and distinct appends them unchanged. */
  lemma {:induction false} PutAllFresh<V>(acc: seq<(Key, V)>, es: seq<(Key, V)>)
    requires UniqueKeys(acc + es)
    ensures PutAll(acc, es) == acc + es
    decreases es
  {
    if es != [] {
      var e := es[0];
      assert forall i :: 0 <= i < |acc| ==> (acc + es)[i] == acc[i];
      assert (acc + es)[|acc|] == e;
      assert acc + [e] + es[1..] == acc + es;
      PutAllFresh(acc + [e], es[1..]);
    }
  }
}
