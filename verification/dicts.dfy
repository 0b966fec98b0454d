/**
 * An insertion-ordered dictionary with string keys: the model of a PHP
 * associative array and of a plain JavaScript object. `keys` lists every key
 * once, in the order it was first assigned; assigning to an existing key
 * replaces its value and keeps its position.
 */
module Dicts {
  import opened Sequences

  datatype RawDict<V> = RawDict(keys: seq<string>, entries: map<string, V>)

  ghost predicate WellFormed<V>(d: RawDict<V>) {
    && Distinct(d.keys)
    && forall k :: k in d.entries <==> k in d.keys
  }

  type Dict<V> = d: RawDict<V> | WellFormed(d) witness RawDict([], map[])

  function Empty<V>(): Dict<V> {
    RawDict([], map[])
  }

  /** `$a[$k] = $v` in PHP, `o[k] = v` in JavaScript. */
  function Put<V>(d: Dict<V>, k: string, v: V): (r: Dict<V>)
    ensures r.entries == d.entries[k := v]
    ensures r.keys == if k in d.entries then d.keys else d.keys + [k]
  {
    if k in d.entries then RawDict(d.keys, d.entries[k := v])
    else RawDict(d.keys + [k], d.entries[k := v])
  }

  /** `array_values` in PHP, `Object.values` in JavaScript: the values in key order. */
  function Values<V>(d: Dict<V>): (vs: seq<V>)
    ensures |vs| == |d.keys|
    ensures forall i :: 0 <= i < |vs| ==> vs[i] == d.entries[d.keys[i]]
  {
    seq(|d.keys|, i requires 0 <= i < |d.keys| => d.entries[d.keys[i]])
  }
}
