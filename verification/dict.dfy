/**
 * Python's insertion-ordered `dict` (and `OrderedDict`) as a sequence of
 * key/value pairs: assignment replaces a present key in place and appends a
 * new one, `setdefault` only ever appends, and iteration follows insertion
 * order.
 */
module Dict {
  import opened Wrappers

  type Dict<K, V> = seq<(K, V)>

  /** `list(d.keys())`. */
  function Keys<K, V>(d: Dict<K, V>): (ks: seq<K>)
    ensures |ks| == |d|
    ensures forall i :: 0 <= i < |d| ==> ks[i] == d[i].0
  {
    seq(|d|, i requires 0 <= i < |d| => d[i].0)
  }

  /** `list(d.values())`. */
  function Values<K, V>(d: Dict<K, V>): (vs: seq<V>)
    ensures |vs| == |d|
    ensures forall i :: 0 <= i < |d| ==> vs[i] == d[i].1
  {
    seq(|d|, i requires 0 <= i < |d| => d[i].1)
  }

  lemma ValuesOfTwo<K, V>(p: (K, V), q: (K, V))
    ensures Values([p, q]) == [p.1, q.1]
  {
    var vs := Values([p, q]);
    assert vs[0] == p.1 && vs[1] == q.1;
  }

  /** Every key occurs once: the shape every Python dict has. */
  predicate DistinctKeys<K(==), V>(d: Dict<K, V>) {
    forall i, j :: 0 <= i < j < |d| ==> d[i].0 != d[j].0
  }

  /** `d.get(k)`, with `None` for a missing key. */
  function Get<K(==), V>(d: Dict<K, V>, k: K): (r: Option<V>)
    ensures r.Some? <==> k in Keys(d)
  {
    if d == [] then None
    else if d[0].0 == k then Some(d[0].1)
    else
      assert Keys(d) == [d[0].0] + Keys(d[1..]);
      Get(d[1..], k)
  }

  /** In a dict, `d[k_i]` is the value stored beside `k_i`. */
  lemma {:induction false} GetAt<K, V>(d: Dict<K, V>, i: nat)
    requires DistinctKeys(d) && i < |d|
    ensures Get(d, d[i].0) == Some(d[i].1)
  {
    if i > 0 {
      GetAt(d[1..], i - 1);
    }
  }

  /** The keys of a non-empty dict: its first key, then the keys of the rest. */
  lemma KeysCons<K, V>(d: Dict<K, V>)
    requires d != []
    ensures Keys(d) == [d[0].0] + Keys(d[1..])
  {
  }

  /** `d[k] = v`: a present key keeps its position, a new key goes last. */
  function Put<K(==), V>(d: Dict<K, V>, k: K, v: V): (r: Dict<K, V>)
    ensures Keys(r) == if k in Keys(d) then Keys(d) else Keys(d) + [k]
  {
    if d == [] then [(k, v)]
    else if d[0].0 == k then
      var r := [(k, v)] + d[1..];
      KeysCons(d);
      KeysCons(r);
      assert r[1..] == d[1..];
      r
    else
      var rest := Put(d[1..], k, v);
      var r := [d[0]] + rest;
      KeysCons(d);
      KeysCons(r);
      assert r[1..] == rest;
      r
  }

  /** After `d[k] = v`, `k` maps to `v` and every other key to what it mapped to before. */
  lemma {:induction false} GetPut<K, V>(d: Dict<K, V>, k: K, v: V, k': K)
    ensures Get(Put(d, k, v), k') == if k' == k then Some(v) else Get(d, k')
  {
    if d != [] && d[0].0 != k {
      GetPut(d[1..], k, v, k');
      assert Put(d, k, v)[1..] == Put(d[1..], k, v);
    }
  }

  /** Assigning a key the dict holds at position `i` replaces that pair and nothing else. */
  lemma {:induction false} PutAt<K, V>(d: Dict<K, V>, k: K, v: V, i: nat)
    requires DistinctKeys(d) && i < |d| && d[i].0 == k
    ensures Put(d, k, v) == d[i := (k, v)]
  {
    if i == 0 {
      assert Put(d, k, v) == [(k, v)] + d[1..];
    } else {
      var t := d[1..];
      assert d[0].0 != d[i].0;
      DistinctTail(d);
      PutAt(t, k, v, i - 1);
      assert Put(d, k, v) == [d[0]] + t[i - 1 := (k, v)];
      ConsUpdate(d, i, (k, v));
    }
  }

  /** Dropping the first pair keeps the keys distinct. */
  lemma DistinctTail<K, V>(d: Dict<K, V>)
    requires DistinctKeys(d) && d != []
    ensures DistinctKeys(d[1..])
  {
    var t := d[1..];
    forall a, b | 0 <= a < b < |t|
      ensures t[a].0 != t[b].0
    {
      assert t[a] == d[a + 1] && t[b] == d[b + 1];
    }
  }

  /** Updating behind the first element. */
  lemma ConsUpdate<T>(d: seq<T>, i: nat, x: T)
    requires 0 < i < |d|
    ensures [d[0]] + d[1..][i - 1 := x] == d[i := x]
  {
  }

  lemma PutDistinct<K, V>(d: Dict<K, V>, k: K, v: V)
    requires DistinctKeys(d)
    ensures DistinctKeys(Put(d, k, v))
  {
    var r := Put(d, k, v);
    assert forall i :: 0 <= i < |r| ==> r[i].0 == Keys(r)[i];
    assert forall i :: 0 <= i < |d| ==> d[i].0 == Keys(d)[i];
  }

  /** `d.setdefault(k, v)`: a present key keeps its value, a new key goes last. */
  function SetDefault<K(==), V>(d: Dict<K, V>, k: K, v: V): Dict<K, V> {
    if k in Keys(d) then d else d + [(k, v)]
  }

  /** Assigning a key the dict does not hold appends it. */
  lemma {:induction false} PutAppends<K, V>(d: Dict<K, V>, k: K, v: V)
    requires k !in Keys(d)
    ensures Put(d, k, v) == d + [(k, v)]
  {
    if d != [] {
      assert Keys(d) == [d[0].0] + Keys(d[1..]);
      PutAppends(d[1..], k, v);
      assert [d[0]] + (d[1..] + [(k, v)]) == d + [(k, v)];
    }
  }

  /** Every pair of `d[k] = v` is `(k, v)` or comes from `d`. */
  lemma {:induction false} PutPairs<K, V>(d: Dict<K, V>, k: K, v: V)
    ensures forall i :: 0 <= i < |Put(d, k, v)| ==> Put(d, k, v)[i] == (k, v) || Put(d, k, v)[i] in d
  {
    if d != [] && d[0].0 != k {
      PutPairs(d[1..], k, v);
      var r := Put(d, k, v);
      assert r == [d[0]] + Put(d[1..], k, v);
      forall i | 0 <= i < |r| ensures r[i] == (k, v) || r[i] in d {
        if i > 0 {
          assert r[i] == Put(d[1..], k, v)[i - 1];
        }
      }
    }
  }

  /** Looking a key up after appending one pair. */
  lemma {:induction false} GetAppend<K, V>(d: Dict<K, V>, k: K, v: V, k': K)
    ensures Get(d + [(k, v)], k') == if k' in Keys(d) then Get(d, k') else if k' == k then Some(v) else None
  {
    if d == [] {
      assert d + [(k, v)] == [(k, v)];
    } else {
      assert (d + [(k, v)])[1..] == d[1..] + [(k, v)];
      assert Keys(d) == [d[0].0] + Keys(d[1..]);
      GetAppend(d[1..], k, v, k');
    }
  }

  /** In a dict, the last key does not occur before it. */
  lemma LastKeyFresh<K, V>(d: Dict<K, V>)
    requires DistinctKeys(d) && d != []
    ensures d[|d| - 1].0 !in Keys(d[..|d| - 1])
  {
    var p := d[..|d| - 1];
    assert forall j :: 0 <= j < |p| ==> Keys(p)[j] == d[j].0;
  }
}
