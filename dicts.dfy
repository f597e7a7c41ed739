/** Python dicts remember the order in which keys were inserted; both the
    species table and the island summary are iterated in that order. */
module Dicts {
  import opened Seqs

  /** An insertion-ordered dict with string keys. */
  datatype Dict<V> = Dict(keys: seq<string>, values: map<string, V>)
  {
    /** Every key is listed exactly once, in insertion order. */
    ghost predicate Valid()
    {
      NoDuplicates(keys) && (forall k :: k in values <==> k in keys)
    }
  }

  /** `{}` */
  function Empty<V>(): (d: Dict<V>)
    ensures d.Valid() && d.keys == [] && d.values == map[]
  {
    Dict([], map[])
  }

  /** `d[k] = v`: a new key goes to the end, a key already present keeps its
      place and gets the new value. */
  function Put<V>(d: Dict<V>, k: string, v: V): Dict<V>
  {
    Dict(if k in d.values then d.keys else d.keys + [k], d.values[k := v])
  }

  /** Assignment keeps a dict valid, and afterwards `k` maps to `v` while
      every other key keeps its value. */
  lemma PutValid<V>(d: Dict<V>, k: string, v: V)
    requires d.Valid()
    ensures Put(d, k, v).Valid()
    ensures k in Put(d, k, v).values && Put(d, k, v).values[k] == v
    ensures forall j :: j != k ==> (j in Put(d, k, v).values <==> j in d.values)
    ensures forall j :: j != k && j in d.values ==> Put(d, k, v).values[j] == d.values[j]
  {
    var keys := Put(d, k, v).keys;
    if k !in d.values {
      forall i, j | 0 <= i < j < |keys|
        ensures keys[i] != keys[j]
      {
        if j == |keys| - 1 {
          assert keys[i] in d.keys;
        }
      }
    }
  }
}
