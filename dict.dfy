/** A JavaScript object used as a dictionary (`acc[key] = value` inside a reduce):
    its entries in insertion order, as `Object.entries` lists them. Assigning to a
    key that is present replaces its value in place; a new key is appended. */
module Dict {
  import opened Text

  datatype Entry<K, V> = Entry(key: K, val: V)

  function Keys<K, V>(d: seq<Entry<K, V>>): (ks: seq<K>)
    ensures |ks| == |d| && forall i :: 0 <= i < |d| ==> ks[i] == d[i].key
  {
    if |d| == 0 then [] else [d[0].key] + Keys(d[1..])
  }

  /** A new last entry adds its key at the end of the keys. */
  lemma {:induction false} KeysAppend<K, V>(d: seq<Entry<K, V>>, e: Entry<K, V>)
    ensures Keys(d + [e]) == Keys(d) + [e.key]
  {
    var r := d + [e];
    forall i | 0 <= i < |r| ensures Keys(r)[i] == (Keys(d) + [e.key])[i] {
      if i < |d| {
        assert r[i] == d[i];
      }
    }
  }

  predicate DistinctKeys<K(==), V>(d: seq<Entry<K, V>>)
  {
    forall i, j :: 0 <= i < j < |d| ==> d[i].key != d[j].key
  }

  /** `obj[k]`: the value stored under `k`, or `undefined` (None). */
  function Get<K(==), V>(d: seq<Entry<K, V>>, k: K): (r: Option<V>)
    ensures r.Some? <==> exists i :: 0 <= i < |d| && d[i].key == k
  {
    if |d| == 0 then None
    else if d[0].key == k then Some(d[0].val)
    else
      assert forall i :: 1 <= i < |d| ==> d[i] == d[1..][i - 1];
      Get(d[1..], k)
  }

  /** With distinct keys, the entry at a position is what `obj[key]` reads. */
  lemma {:induction false} GetAt<K, V>(d: seq<Entry<K, V>>, i: nat)
    requires DistinctKeys(d) && i < |d|
    ensures Get(d, d[i].key) == Some(d[i].val)
  {
    if i > 0 {
      assert d[0].key != d[i].key;
      assert d[1..][i - 1] == d[i];
      GetAt(d[1..], i - 1);
    }
  }

  /** `obj[k] = v`. */
  function Put<K(==), V>(d: seq<Entry<K, V>>, k: K, v: V): (r: seq<Entry<K, V>>)
  {
    if |d| == 0 then [Entry(k, v)]
    else if d[0].key == k then [Entry(k, v)] + d[1..]
    else [d[0]] + Put(d[1..], k, v)
  }

  /** After `obj[k] = v`, `obj[k]` is `v` and every other key reads as before. */
  lemma {:induction false} PutGet<K, V>(d: seq<Entry<K, V>>, k: K, v: V, k': K)
    ensures Get(Put(d, k, v), k') == if k' == k then Some(v) else Get(d, k')
  {
    if |d| > 0 && d[0].key != k {
      PutGet(d[1..], k, v, k');
      assert Put(d, k, v)[1..] == Put(d[1..], k, v);
    }
  }

  /** Assigning to a present key keeps the key order; a new key goes last. */
  lemma {:induction false} PutShape<K, V>(d: seq<Entry<K, V>>, k: K, v: V)
    ensures Get(d, k).Some? ==> Keys(Put(d, k, v)) == Keys(d)
    ensures Get(d, k).None? ==> Put(d, k, v) == d + [Entry(k, v)]
  {
    if |d| > 0 {
      if d[0].key == k {
        assert Put(d, k, v)[1..] == d[1..];
      } else {
        PutShape(d[1..], k, v);
        assert Put(d, k, v)[1..] == Put(d[1..], k, v);
        assert d == [d[0]] + d[1..];
        assert Get(d, k) == Get(d[1..], k);
      }
    }
  }

  /** Assigning to a key never creates a second entry for it. */
  lemma {:induction false} PutKeepsKeysDistinct<K, V>(d: seq<Entry<K, V>>, k: K, v: V)
    requires DistinctKeys(d)
    ensures DistinctKeys(Put(d, k, v))
  {
    PutShape(d, k, v);
    var r := Put(d, k, v);
    if Get(d, k).Some? {
      assert forall i :: 0 <= i < |r| ==> r[i].key == Keys(r)[i] == Keys(d)[i] == d[i].key;
    } else {
      assert forall i :: 0 <= i < |d| ==> r[i] == d[i];
    }
  }
}
