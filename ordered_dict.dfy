/**
 * A Python dict: the keys in insertion order, and the value stored under
 * each key. Batches, the task mapping and the configuration are all dicts
 * whose key order is observable (column order, .env line order).
 */
module OrderedDict {
  import opened Wrappers

  datatype Dict<K(==, !new), V> = Dict(keys: seq<K>, entries: map<K, V>)

  /** Keys are listed once each, and the listed keys are exactly the stored ones. */
  predicate Valid<K(==, !new), V>(d: Dict<K, V>) {
    && (forall i, j :: 0 <= i < j < |d.keys| ==> d.keys[i] != d.keys[j])
    && (forall k :: k in d.entries ==> k in d.keys)
    && (forall i :: 0 <= i < |d.keys| ==> d.keys[i] in d.entries)
  }

  function Empty<K(==, !new), V>(): (d: Dict<K, V>)
    ensures Valid(d) && d.keys == [] && d.entries == map[]
  {
    Dict([], map[])
  }

  /** d.get(k) */
  function Get<K(==, !new), V>(d: Dict<K, V>, k: K): Option<V> {
    if k in d.entries then Some(d.entries[k]) else None
  }

  /** d.get(k, default) */
  function GetOr<K(==, !new), V>(d: Dict<K, V>, k: K, default: V): V {
    if k in d.entries then d.entries[k] else default
  }

  /**
   * d[k] = v: an existing key keeps its place in the order, a new key goes
   * last; no other key's value changes.
   */
  function Set<K(==, !new), V>(d: Dict<K, V>, k: K, v: V): (r: Dict<K, V>)
    requires Valid(d)
    ensures Valid(r)
    ensures Get(r, k) == Some(v)
    ensures forall k' :: k' != k ==> Get(r, k') == Get(d, k')
    ensures r.keys == if k in d.entries then d.keys else d.keys + [k]
  {
    if k in d.entries then Dict(d.keys, d.entries[k := v])
    else Dict(d.keys + [k], d.entries[k := v])
  }

  /** Two dicts listing the same keys in the same order store the same keys. */
  lemma SameKeys<K(!new), V, W>(a: Dict<K, V>, b: Dict<K, W>)
    requires Valid(a) && Valid(b) && a.keys == b.keys
    ensures a.entries.Keys == b.entries.Keys
  {
    forall k | k in a.entries ensures k in b.entries {
      var i :| 0 <= i < |a.keys| && a.keys[i] == k;
      assert b.keys[i] == k;
    }
    forall k | k in b.entries ensures k in a.entries {
      var i :| 0 <= i < |b.keys| && b.keys[i] == k;
      assert a.keys[i] == k;
    }
  }
}
