/** A dictionary that keeps insertion order: writing an existing key replaces its value in place. */
module Dictionaries {

  type Dictionary<V> = seq<(string, V)>

  function Put<V>(d: Dictionary<V>, key: string, v: V): Dictionary<V> {
    if d == [] then [(key, v)]
    else if d[0].0 == key then [(key, v)] + d[1..]
    else [d[0]] + Put(d[1..], key, v)
  }

  lemma {:induction false} PutFresh<V>(d: Dictionary<V>, key: string, v: V)
    requires forall e :: e in d ==> e.0 != key
    ensures Put(d, key, v) == d + [(key, v)]
  {
    if d != [] {
      assert d[0] in d;
      PutFresh(d[1..], key, v);
    }
  }

  /** No key occurs twice. */
  predicate DistinctKeys<V>(d: Dictionary<V>) {
    forall i, j :: 0 <= i < j < |d| ==> d[i].0 != d[j].0
  }

  /** Writing a key replaces whatever was written under it and nothing else. */
  lemma {:induction false} PutReplaces<V>(d: Dictionary<V>, key: string, v: V)
    requires DistinctKeys(d)
    ensures forall e :: e in Put(d, key, v) <==> e == (key, v) || (e in d && e.0 != key)
  {
    if d != [] {
      var rest := d[1..];
      assert forall e :: e in d <==> e == d[0] || e in rest by { assert d == [d[0]] + rest; }
      if d[0].0 == key {
        assert forall e :: e in rest ==> e.0 != key;
      } else {
        PutReplaces(rest, key, v);
      }
    }
  }

  /** And keeps the keys distinct, in the same places. */
  lemma {:induction false} PutKeepsKeys<V>(d: Dictionary<V>, key: string, v: V)
    requires DistinctKeys(d)
    ensures DistinctKeys(Put(d, key, v)) && |Put(d, key, v)| >= |d|
    ensures forall i :: 0 <= i < |d| ==> Put(d, key, v)[i].0 == d[i].0
    ensures forall i :: |d| <= i < |Put(d, key, v)| ==> Put(d, key, v)[i].0 == key
  {
    if d != [] && d[0].0 != key { PutKeepsKeys(d[1..], key, v); }
  }

  /** As many different keys as are needed. */
  function Name(i: nat): (s: string)
    ensures |s| == i + 1
  {
    seq(i + 1, _ => 'b')
  }
}
