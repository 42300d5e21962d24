/** Python's `OrderedDict`: a map that remembers the order in which its keys
    were first inserted. */
module OrderedMaps {
  import opened Seqs

  datatype OrderedMap<K(==, !new), V> = OrderedMap(keys: seq<K>, values: map<K, V>)
  {
    /** The key list has no repeats and holds exactly the keys of the map. */
    ghost predicate Valid() {
      && (forall i, j :: 0 <= i < j < |keys| ==> keys[i] != keys[j])
      && (forall k :: k in values <==> k in keys)
    }

    /** `d[k] = v`: a new key goes to the end; an existing key keeps its
        place and gets the new value. */
    function Put(k: K, v: V): (r: OrderedMap<K, V>)
      requires Valid()
      ensures r.Valid()
      ensures r.values == values[k := v]
      ensures r.keys == if k in values then keys else keys + [k]
    {
      if k in values then OrderedMap(keys, values[k := v])
      else OrderedMap(keys + [k], values[k := v])
    }
  }

  function Empty<K(==, !new), V>(): (r: OrderedMap<K, V>)
    ensures r.Valid() && r.keys == [] && r.values == map[]
  {
    OrderedMap([], map[])
  }

  /** The map a loop `for k in ks: v = valueOf(k); if v: d[k] = v` builds
      from an empty one. */
  function Collect<K(==, !new), V>(ks: seq<K>, valueOf: K --> seq<V>): (d: OrderedMap<K, seq<V>>)
    requires forall i :: 0 <= i < |ks| ==> valueOf.requires(ks[i])
    ensures d.Valid()
    decreases |ks|
  {
    if ks == [] then Empty()
    else
      var d := Collect(ks[..|ks| - 1], valueOf);
      var v := valueOf(ks[|ks| - 1]);
      if v != [] then d.Put(ks[|ks| - 1], v) else d
  }

  /** A key is present exactly when it is one of `ks` with a non-empty value,
      and it holds that value. */
  lemma {:induction false} CollectMembership<K(!new), V>(ks: seq<K>, valueOf: K --> seq<V>)
    requires forall i :: 0 <= i < |ks| ==> valueOf.requires(ks[i])
    ensures forall k :: k in Collect(ks, valueOf).values <==> k in ks && valueOf(k) != []
    ensures forall k :: k in Collect(ks, valueOf).values ==> Collect(ks, valueOf).values[k] == valueOf(k)
    decreases |ks|
  {
    if ks != [] {
      var init := ks[..|ks| - 1];
      CollectMembership(init, valueOf);
      assert ks == init + [ks[|ks| - 1]];
    }
  }

  /** Keys are listed in the order of their first occurrence in `ks`. */
  lemma {:induction false} CollectKeyOrder<K(!new), V>(ks: seq<K>, valueOf: K --> seq<V>)
    requires forall i :: 0 <= i < |ks| ==> valueOf.requires(ks[i])
    ensures FirstOrdered(ks, Collect(ks, valueOf).keys)
    decreases |ks|
  {
    if ks != [] {
      var init, last := ks[..|ks| - 1], ks[|ks| - 1];
      var before := Collect(init, valueOf);
      var keys := Collect(ks, valueOf).keys;
      CollectKeyOrder(init, valueOf);
      CollectMembership(init, valueOf);
      assert ks == init + [last];
      if keys != before.keys {
        assert keys == before.keys + [last] && last !in before.values;
        assert last !in init;
      }
      FirstOrderSnoc(init, last, before.keys, keys);
    }
  }
}
