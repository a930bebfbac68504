/** A JavaScript plain object used as a dictionary: string keys, and
    `Object.values` lists the values in the order their keys were first set. */
module OrderedDict {

  datatype Dict<V> = Dict(keys: seq<string>, vals: map<string, V>)

  /** The key list has no repeats and lists exactly the keys of the map. */
  predicate Valid<V>(d: Dict<V>) {
    (forall i, j :: 0 <= i < j < |d.keys| ==> d.keys[i] != d.keys[j]) &&
    (forall k :: k in d.keys ==> k in d.vals) &&
    (forall k :: k in d.vals ==> k in d.keys)
  }

  function Empty<V>(): (d: Dict<V>)
    ensures Valid(d) && d.vals == map[]
  {
    Dict([], map[])
  }

  /** `o[k] = v`: a new key goes last, an existing key keeps its place. */
  function Put<V>(d: Dict<V>, k: string, v: V): (r: Dict<V>)
    requires Valid(d)
    ensures Valid(r)
    ensures r.vals == d.vals[k := v]
    ensures k in d.vals ==> r.keys == d.keys
    ensures k !in d.vals ==> r.keys == d.keys + [k]
  {
    if k in d.vals then Dict(d.keys, d.vals[k := v]) else Dict(d.keys + [k], d.vals[k := v])
  }

  /** `Object.values(o)`. */
  function Values<V>(d: Dict<V>): (r: seq<V>)
    requires Valid(d)
    ensures |r| == |d.keys|
    ensures forall i :: 0 <= i < |r| ==> r[i] == d.vals[d.keys[i]]
  {
    seq(|d.keys|, i requires 0 <= i < |d.keys| && Valid(d) => d.vals[d.keys[i]])
  }

  /** Each stored value appears in `Values`, and nothing else does. */
  lemma ValuesMembers<V>(d: Dict<V>)
    requires Valid(d)
    ensures forall v :: v in Values(d) <==> exists k :: k in d.vals && d.vals[k] == v
  {
    var r := Values(d);
    forall v ensures v in r <==> exists k :: k in d.vals && d.vals[k] == v {
      if v in r {
        var i :| 0 <= i < |r| && r[i] == v;
        assert d.keys[i] in d.vals;
      }
      if exists k :: k in d.vals && d.vals[k] == v {
        var k :| k in d.vals && d.vals[k] == v;
        var i :| 0 <= i < |d.keys| && d.keys[i] == k;
        assert r[i] == v;
      }
    }
  }
}
