/**
 * JavaScript plain objects used as dictionaries (`Record<string, V>`):
 * string keys enumerated in insertion order, as `Object.keys` and
 * `Object.entries` enumerate them.
 */
module Records {
  import opened Wrappers

  datatype Rec<V> = Rec(keys: seq<string>, vals: map<string, V>)

  /** Keys are distinct and are exactly the keys of the map. */
  ghost predicate Valid<V>(r: Rec<V>) {
    && (forall i, j | 0 <= i < j < |r.keys| :: r.keys[i] != r.keys[j])
    && (forall k :: k in r.vals <==> k in r.keys)
  }

  /** `{}` */
  function Empty<V>(): (r: Rec<V>)
    ensures Valid(r) && r.keys == [] && r.vals == map[]
  {
    Rec([], map[])
  }

  /** `r[k]`, with `undefined` as `None`. */
  function Get<V>(r: Rec<V>, k: string): Option<V> {
    if k in r.vals then Some(r.vals[k]) else None
  }

  /** `r[k] = v`: an existing key keeps its position, a new key is enumerated last. */
  function Put<V>(r: Rec<V>, k: string, v: V): (r': Rec<V>)
    ensures Valid(r) ==> Valid(r')
    ensures r'.vals == r.vals[k := v]
    ensures k in r.vals ==> r'.keys == r.keys
    ensures k !in r.vals ==> r'.keys == r.keys + [k]
  {
    if k in r.vals then Rec(r.keys, r.vals[k := v]) else Rec(r.keys + [k], r.vals[k := v])
  }

  /** Writing back the value a key already holds changes nothing, position included. */
  lemma PutSame<V>(r: Rec<V>, k: string)
    requires k in r.vals
    ensures Put(r, k, r.vals[k]) == r
  {
    assert r.vals[k := r.vals[k]] == r.vals;
  }

  /** Writing a key twice keeps only the second value. */
  lemma PutPut<V>(r: Rec<V>, k: string, a: V, b: V)
    ensures Put(Put(r, k, a), k, b) == Put(r, k, b)
  {
    assert r.vals[k := a][k := b] == r.vals[k := b];
  }

  /** Reading after a write: the written value at its key, any other key as before. */
  lemma PutGet<V>(r: Rec<V>, k: string, v: V, key: string)
    ensures Get(Put(r, k, v), key) == if key == k then Some(v) else Get(r, key)
  {
  }
}
