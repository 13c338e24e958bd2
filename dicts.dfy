/** Python dictionaries as association lists: a dict iterates in insertion order, assigning to
    a present key replaces its value in place, and assigning to an absent key appends it. */
module Dicts {
  import opened Outcomes

  type Dict<K(==), V> = seq<(K, V)>

  /** The keys in iteration order. */
  function Keys<K(==), V>(d: Dict<K, V>): (r: seq<K>)
    ensures |r| == |d|
    ensures forall i :: 0 <= i < |d| ==> r[i] == d[i].0
    decreases |d|
  {
    if |d| == 0 then [] else [d[0].0] + Keys(d[1..])
  }

  /** No key occurs twice, as in every Python dict. */
  predicate Distinct<K(==), V>(d: Dict<K, V>) {
    forall i, j :: 0 <= i < j < |d| ==> d[i].0 != d[j].0
  }

  /** `d.get(k)`: the value of `k`, if present. */
  function Get<K(==), V>(d: Dict<K, V>, k: K): (r: Option<V>)
    ensures r.None? <==> k !in Keys(d)
    ensures r.Some? ==> (k, r.value) in d
    decreases |d|
  {
    if |d| == 0 then None
    else if d[0].0 == k then Some(d[0].1)
    else Get(d[1..], k)
  }

  /** `d[k]`, which raises `KeyError` for an absent key. */
  function Lookup<K(==), V>(d: Dict<K, V>, k: K): (r: Result<V>)
    ensures r.Err? <==> k !in Keys(d)
    ensures r.Err? ==> r.error == KeyError
    ensures r.Ok? ==> Get(d, k) == Some(r.value)
  {
    var v := Get(d, k);
    if v.None? then Err(KeyError) else Ok(v.value)
  }

  /** `d[k] = v`. */
  function Put<K(==), V>(d: Dict<K, V>, k: K, v: V): (r: Dict<K, V>)
    ensures Keys(r) == if k in Keys(d) then Keys(d) else Keys(d) + [k]
    decreases |d|
  {
    if |d| == 0 then [(k, v)]
    else if d[0].0 == k then [(k, v)] + d[1..]
    else [d[0]] + Put(d[1..], k, v)
  }

  /** After `d[k] = v`, `k` maps to `v` and every other key keeps its value. */
  lemma {:induction false} PutGet<K, V>(d: Dict<K, V>, k: K, v: V, k2: K)
    ensures Get(Put(d, k, v), k2) == if k2 == k then Some(v) else Get(d, k2)
    decreases |d|
  {
    if |d| > 0 && d[0].0 != k {
      PutGet(d[1..], k, v, k2);
    }
  }

  /** `d[k] = v` keeps the keys distinct. */
  lemma PutDistinct<K, V>(d: Dict<K, V>, k: K, v: V)
    requires Distinct(d)
    ensures Distinct(Put(d, k, v))
  {
    var r := Put(d, k, v);
    forall i, j | 0 <= i < j < |r|
      ensures r[i].0 != r[j].0
    {
      assert Keys(r)[i] == r[i].0 && Keys(r)[j] == r[j].0;
      assert Keys(d) == Keys(d[..|d|]);
      if k !in Keys(d) && j == |d| {
        assert Keys(d)[i] == d[i].0;
      } else {
        assert Keys(d)[i] == d[i].0 && Keys(d)[j] == d[j].0;
      }
    }
  }

  /** `if k not in d: d[k] = v`. */
  function PutAbsent<K(==), V>(d: Dict<K, V>, k: K, v: V): (r: Dict<K, V>)
    ensures k in Keys(d) ==> r == d
    ensures k !in Keys(d) ==> r == d + [(k, v)]
    ensures Keys(r) == if k in Keys(d) then Keys(d) else Keys(d) + [k]
  {
    if k in Keys(d) then d
    else
      KeysAppend(d, [(k, v)]);
      d + [(k, v)]
  }

  lemma KeysAppend<K, V>(a: Dict<K, V>, b: Dict<K, V>)
    ensures Keys(a + b) == Keys(a) + Keys(b)
  {
  }

  /** Every entry of `d` satisfies `p`. */
  predicate AllEntries<K(==), V>(d: Dict<K, V>, p: (K, V) -> bool) {
    forall i :: 0 <= i < |d| ==> p(d[i].0, d[i].1)
  }

  /** `d[k] = v` keeps a property every entry has, when the new entry has it too. */
  lemma {:induction false} PutAll<K, V>(d: Dict<K, V>, k: K, v: V, p: (K, V) -> bool)
    requires AllEntries(d, p) && p(k, v)
    ensures AllEntries(Put(d, k, v), p)
    decreases |d|
  {
    if |d| > 0 && d[0].0 != k {
      assert AllEntries(d[1..], p) by {
        forall i | 0 <= i < |d[1..]|
          ensures p(d[1..][i].0, d[1..][i].1)
        {
          assert d[1..][i] == d[i + 1];
        }
      }
      PutAll(d[1..], k, v, p);
      var r := Put(d, k, v);
      forall i | 0 <= i < |r|
        ensures p(r[i].0, r[i].1)
      {
        if i > 0 {
          assert r[i] == Put(d[1..], k, v)[i - 1];
        }
      }
    }
  }

  /** A value found in `d` comes with an entry of `d`, so it has every property all entries
      have. */
  lemma GetAll<K, V>(d: Dict<K, V>, k: K, p: (K, V) -> bool)
    requires AllEntries(d, p) && Get(d, k).Some?
    ensures p(k, Get(d, k).value)
  {
    var i :| 0 <= i < |d| && d[i] == (k, Get(d, k).value);
  }
}
