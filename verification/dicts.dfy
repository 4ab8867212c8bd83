/** Python dictionaries: a map together with the order in which its keys
    were first inserted.

    `Set` is `d[k] = v`: an existing key keeps its position and takes the
    new value, a new key goes to the end. `Update` is `d.update(u)` and
    also the merge `{**d, **u}`. */
module Dicts {
  import opened Wrappers

  datatype RawDict<K(==, !new), V> = RawDict(order: seq<K>, entries: map<K, V>) {
    ghost predicate Valid() {
      && (forall i, j :: 0 <= i < j < |order| ==> order[i] != order[j])
      && (forall k :: k in order <==> k in entries)
    }
  }

  type Dict<K(==, !new), V> = d: RawDict<K, V> | d.Valid() witness RawDict([], map[])

  function Empty<K(==, !new), V>(): (d: Dict<K, V>)
    ensures d.order == [] && d.entries == map[]
  {
    RawDict([], map[])
  }

  /** `d.get(k)`: the value stored under `k`, if any. */
  function Get<K(==, !new), V>(d: Dict<K, V>, k: K): (r: Option<V>)
    ensures r.Some? <==> k in d.entries
    ensures r.Some? ==> r.value == d.entries[k]
  {
    if k in d.entries then Some(d.entries[k]) else None
  }

  /** `d[k] = v`. */
  function Set<K(==, !new), V>(d: Dict<K, V>, k: K, v: V): (r: Dict<K, V>)
    ensures r.entries == d.entries[k := v]
    ensures k in d.entries ==> r.order == d.order
    ensures k !in d.entries ==> r.order == d.order + [k]
  {
    if k in d.entries then RawDict(d.order, d.entries[k := v])
    else
      var r := RawDict(d.order + [k], d.entries[k := v]);
      assert forall i :: 0 <= i < |d.order| ==> d.order[i] in d.entries;
      r
  }

  /** `d.update(u)`: the pairs of `u`, in `u`'s order, are set into `d`. */
  function Update<K(==, !new), V>(d: Dict<K, V>, u: Dict<K, V>): Dict<K, V>
  {
    UpdateFrom(d, u, 0)
  }

  function UpdateFrom<K(==, !new), V>(d: Dict<K, V>, u: Dict<K, V>, i: nat): Dict<K, V>
    requires i <= |u.order|
    decreases |u.order| - i
  {
    if i == |u.order| then d
    else
      assert u.order[i] in u.entries;
      UpdateFrom(Set(d, u.order[i], u.entries[u.order[i]]), u, i + 1)
  }

  /** The keys of `u` from position `i` on. */
  ghost function KeysFrom<K(!new), V>(u: Dict<K, V>, i: nat): set<K>
    requires i <= |u.order|
  {
    set j | i <= j < |u.order| :: u.order[j]
  }

  lemma {:induction false} UpdateFromSpec<K(!new), V>(d: Dict<K, V>, u: Dict<K, V>, i: nat)
    requires i <= |u.order|
    ensures forall k :: k in UpdateFrom(d, u, i).entries <==> k in d.entries || k in KeysFrom(u, i)
    ensures forall k :: k in KeysFrom(u, i) ==> UpdateFrom(d, u, i).entries[k] == u.entries[k]
    ensures forall k :: k in d.entries && k !in KeysFrom(u, i) ==> UpdateFrom(d, u, i).entries[k] == d.entries[k]
    ensures d.order <= UpdateFrom(d, u, i).order
    decreases |u.order| - i
  {
    if i < |u.order| {
      var k := u.order[i];
      assert k in u.entries;
      var d' := Set(d, k, u.entries[k]);
      UpdateFromSpec(d', u, i + 1);
      assert KeysFrom(u, i) == {k} + KeysFrom(u, i + 1);
    } else {
      assert KeysFrom(u, i) == {};
    }
  }

  /** After `d.update(u)` (or `{**d, **u}`) a key of `u` maps to its value
      in `u`, every other key keeps its value in `d`, no key of `d` is lost
      and the keys of `d` keep their order at the front. */
  lemma UpdateSpec<K(!new), V>(d: Dict<K, V>, u: Dict<K, V>)
    ensures Update(d, u).entries == d.entries + u.entries
    ensures d.order <= Update(d, u).order
  {
    UpdateFromSpec(d, u, 0);
    assert KeysFrom(u, 0) == u.entries.Keys by {
      forall k | k in u.entries ensures k in KeysFrom(u, 0) {
        assert k in u.order;
        var j :| 0 <= j < |u.order| && u.order[j] == k;
      }
    }
  }
}
