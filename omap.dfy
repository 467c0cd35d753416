/**
 * The JavaScript `Map` the core keys everything by: a finite map that also
 * remembers the order in which its keys were first inserted, because
 * `Array.from(map.values())` lists the values in that order.
 */
module OrderedMaps {
  import opened Wrappers
  import opened Seqs

  datatype OMap<K(==,!new), V> = OMap(keys: seq<K>, entries: map<K, V>) {

    /** Every key is listed once, and exactly the keys of `entries` are listed. */
    ghost predicate Valid() {
      Distinct(keys) && (forall k :: k in entries <==> k in keys)
    }

    /** `map.get(k)` */
    function Get(k: K): Option<V> {
      if k in entries then Some(entries[k]) else None
    }

    /**
     * `map.set(k, v)`: a new key goes to the end of the order, an existing
     * key keeps its place and only its value changes.
     */
    function Put(k: K, v: V): (m: OMap<K, V>)
      requires Valid()
      ensures m.Valid()
      ensures m.entries == entries[k := v]
      ensures k in entries ==> m.keys == keys
      ensures k !in entries ==> m.keys == keys + [k]
    {
      if k in entries then OMap(keys, entries[k := v])
      else
        var ks := keys + [k];
        assert forall i :: 0 <= i < |keys| ==> ks[i] == keys[i];
        OMap(ks, entries[k := v])
    }

    /** `Array.from(map.values())`: the values in key-insertion order. */
    function Values(): (vs: seq<V>)
      requires Valid()
      ensures |vs| == |keys|
      ensures forall i :: 0 <= i < |keys| ==> vs[i] == entries[keys[i]]
    {
      seq(|keys|, i requires 0 <= i < |keys| => entries[keys[i]])
    }
  }

  /** `new Map()` */
  function Empty<K(==,!new), V>(): (m: OMap<K, V>)
    ensures m.Valid()
  {
    OMap([], map[])
  }

  /** A value listed by `Values` is the value of one of the keys. */
  lemma ValuesAreStored<K(!new), V>(m: OMap<K, V>, i: nat)
    requires m.Valid() && i < |m.keys|
    ensures m.keys[i] in m.entries && m.Values()[i] == m.entries[m.keys[i]]
  {
  }
}
