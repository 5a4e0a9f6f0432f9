/** Python's `dict` with string keys: a finite map that remembers the order
    in which its keys were first inserted. Assigning to a key that is already present replaces
    its value and keeps its position; iteration follows `keys`. */
module Dicts {

  datatype Dict<V> = Dict(keys: seq<string>, entries: map<string, V>)

  /** No element occurs twice. */
  predicate Distinct(s: seq<string>) {
    forall i, j :: 0 <= i < j < |s| ==> s[i] != s[j]
  }

  /** The keys list has no duplicates and lists exactly the map's keys. */
  predicate Valid<V>(d: Dict<V>) {
    && Distinct(d.keys)
    && d.entries.Keys == set k | k in d.keys
  }

  /** The keys list and the map agree, element by element. */
  lemma KeysListed<V>(d: Dict<V>)
    requires Valid(d)
    ensures forall i :: 0 <= i < |d.keys| ==> d.keys[i] in d.entries
    ensures forall k :: k in d.entries ==> k in d.keys
  {
  }

  function Empty<V>(): (d: Dict<V>)
    ensures Valid(d)
    ensures d.keys == [] && d.entries == map[]
  {
    Dict([], map[])
  }

  /** `d[k] = v` */
  function Put<V>(d: Dict<V>, k: string, v: V): (r: Dict<V>)
    requires Valid(d)
    ensures Valid(r)
    ensures r.entries == d.entries[k := v]
    ensures k in d.entries ==> r.keys == d.keys
    ensures k !in d.entries ==> r.keys == d.keys + [k]
  {
    Dict(if k in d.entries then d.keys else d.keys + [k], d.entries[k := v])
  }

  /** Assigning to one key leaves every other key's value alone. */
  lemma PutOther<V>(d: Dict<V>, k: string, v: V, k': string)
    requires Valid(d) && k' in d.entries && k' != k
    ensures k' in Put(d, k, v).entries && Put(d, k, v).entries[k'] == d.entries[k']
  {
  }

  /** After `d[k] = v`, `d[k]` is `v`. */
  lemma PutSame<V>(d: Dict<V>, k: string, v: V)
    requires Valid(d)
    ensures k in Put(d, k, v).entries && Put(d, k, v).entries[k] == v
  {
  }
}
