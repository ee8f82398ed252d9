/**
  Python's `dict` with string keys, as the samplesheet code uses it: a map
  together with the order in which its keys were first inserted (which is
  the order `json.dumps` and `yaml.dump` see).
*/
module Dicts {

  /** No key occurs twice in `s`. */
  predicate Distinct(s: seq<string>) {
    forall i, j :: 0 <= i < j < |s| ==> s[i] != s[j]
  }

  datatype Dict<V> = Dict(keys: seq<string>, entries: map<string, V>) {

    /** The order lists each key of the map exactly once. */
    ghost predicate Valid() {
      Distinct(keys) && forall k :: k in entries <==> k in keys
    }

    /** `d[k] = v`: a key already present keeps its place in the order,
        a new one goes to the end. */
    function Put(k: string, v: V): (d: Dict<V>)
      ensures Valid() ==> d.Valid()
      ensures k in d.entries && d.entries[k] == v
      ensures forall j :: j != k ==> (j in d.entries <==> j in entries)
      ensures forall j :: j != k && j in entries ==> d.entries[j] == entries[j]
      ensures k in entries ==> d.keys == keys
      ensures k !in entries ==> d.keys == keys + [k]
    {
      if k in entries then Dict(keys, entries[k := v])
      else
        var r := Dict(keys + [k], entries[k := v]);
        assert Valid() ==> r.Valid() by {
          if Valid() {
            assert forall i :: 0 <= i < |keys| ==> r.keys[i] == keys[i] && keys[i] in entries;
          }
        }
        r
    }
  }

  /** Assigning a key twice is assigning it once, with the second value. */
  lemma PutTwice<V>(d: Dict<V>, k: string, v: V, w: V)
    ensures d.Put(k, v).Put(k, w) == d.Put(k, w)
  {
    assert d.entries[k := v][k := w] == d.entries[k := w];
  }

  /** Two maps with the same keys and the same value at each are equal. */
  lemma MapsEqual<V>(a: map<string, V>, c: map<string, V>)
    requires a.Keys == c.Keys
    requires forall k :: k in a ==> a[k] == c[k]
    ensures a == c
  {
  }

  /** `{}` */
  function Empty<V>(): (d: Dict<V>)
    ensures d.Valid() && d.keys == [] && forall k :: k !in d.entries
  {
    Dict([], map[])
  }

  /** `{k: v}` */
  function Singleton<V>(k: string, v: V): (d: Dict<V>)
    ensures d.Valid() && d.keys == [k] && d.entries == map[k := v]
  {
    Empty().Put(k, v)
  }
}
