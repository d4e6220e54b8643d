/**
 * Keeping the first pair per key: what `unique.setdefault(key, item)` does
 * to an `OrderedDict` when it is fed pairs in order (the dedup loop of
 * `load_movie_json` in src/jellyseek/rag/db_generator.py,
 * src/rag_gen/db_generator.py and src/rag_gen/rag.py).
 */
module Dedup {
  import opened Wrappers
  import opened Dict

  /** The position of the first `k` in `ks`. */
  function IndexOf<K(==)>(ks: seq<K>, k: K): (i: nat)
    requires k in ks
    ensures i < |ks| && ks[i] == k
    ensures k !in ks[..i]
  {
    if ks[0] == k then 0
    else
      var j := IndexOf(ks[1..], k);
      assert ks[..j + 1] == [ks[0]] + ks[1..][..j];
      j + 1
  }

  /** The first position of a key is the one before which it does not occur. */
  lemma IndexOfUnique<K>(ks: seq<K>, k: K, i: nat)
    requires i < |ks| && ks[i] == k && k !in ks[..i]
    ensures IndexOf(ks, k) == i
  {
    var j := IndexOf(ks, k);
    assert forall t :: 0 <= t < i ==> ks[..i][t] == ks[t];
    assert forall t :: 0 <= t < j ==> ks[..j][t] == ks[t];
  }

  /** Appending never moves the first occurrence of a key already present. */
  lemma IndexOfAppend<K>(ks: seq<K>, x: K, k: K)
    requires k in ks
    ensures IndexOf(ks + [x], k) == IndexOf(ks, k)
  {
    var i := IndexOf(ks, k);
    assert (ks + [x])[..i] == ks[..i];
    IndexOfUnique(ks + [x], k, i);
  }

  /** `d.get(k)` finds the first pair with key `k`. */
  lemma {:induction false} GetIsFirst<K, V>(d: Dict<K, V>, k: K)
    requires k in Keys(d)
    ensures Get(d, k) == Some(d[IndexOf(Keys(d), k)].1)
  {
    KeysCons(d);
    if d[0].0 != k {
      GetIsFirst(d[1..], k);
      assert Keys(d)[1..] == Keys(d[1..]);
      assert IndexOf(Keys(d), k) == IndexOf(Keys(d[1..]), k) + 1;
    }
  }

  /** `for k, v in ps: unique.setdefault(k, v)`, starting from an empty dict. */
  function FirstPerKey<K(==), V>(ps: Dict<K, V>): (r: Dict<K, V>)
    ensures DistinctKeys(r)
    ensures |r| <= |ps|
  {
    if ps == [] then []
    else
      var (k, v) := ps[|ps| - 1];
      var u := FirstPerKey(ps[..|ps| - 1]);
      assert forall i :: 0 <= i < |u| ==> Keys(u)[i] == u[i].0;
      SetDefault(u, k, v)
  }

  /** One more pair: `setdefault` on the dict built so far. */
  lemma FirstPerKeySnoc<K, V>(ps: Dict<K, V>, k: K, v: V)
    ensures FirstPerKey(ps + [(k, v)]) == SetDefault(FirstPerKey(ps), k, v)
  {
    assert (ps + [(k, v)])[..|ps|] == ps;
  }

  /** Two pairs with different keys are both kept, in order. */
  lemma FirstPerKeyOfTwo<K, V>(p: (K, V), q: (K, V))
    requires p.0 != q.0
    ensures FirstPerKey([p, q]) == [p, q]
  {
    assert [p, q][..1] == [p];
    assert [p][..0] == [];
    assert FirstPerKey([p]) == [p];
    assert Keys([p]) == [p.0];
  }

  lemma {:induction false} FirstPerKeyKeys<K, V>(ps: Dict<K, V>)
    ensures forall k :: k in Keys(FirstPerKey(ps)) <==> k in Keys(ps)
  {
    if ps != [] {
      var p := ps[..|ps| - 1];
      var (k, v) := ps[|ps| - 1];
      var u := FirstPerKey(p);
      FirstPerKeyKeys(p);
      assert Keys(ps) == Keys(p) + [k];
      assert Keys(u + [(k, v)]) == Keys(u) + [k];
    }
  }

  /** Every key of the input is kept, and it maps to the value of its first pair. */
  lemma {:induction false} FirstPerKeyGet<K, V>(ps: Dict<K, V>, k: K)
    ensures Get(FirstPerKey(ps), k) == Get(ps, k)
  {
    if ps != [] {
      var p := ps[..|ps| - 1];
      var (k', v) := ps[|ps| - 1];
      assert ps == p + [(k', v)];
      FirstPerKeyGet(p, k);
      FirstPerKeyKeys(p);
      GetAppend(p, k', v, k);
      GetAppend(FirstPerKey(p), k', v, k);
    }
  }

  /** Every kept key is a key of the input. */
  lemma FirstPerKeyMember<K, V>(ps: Dict<K, V>)
    ensures forall i :: 0 <= i < |FirstPerKey(ps)| ==> FirstPerKey(ps)[i].0 in Keys(ps)
  {
    var r := FirstPerKey(ps);
    FirstPerKeyKeys(ps);
    assert forall i :: 0 <= i < |r| ==> Keys(r)[i] == r[i].0;
  }

  /** Of two kept pairs, the earlier one has the earlier first occurrence in the input. */
  lemma {:induction false} FirstPerKeyOrderAt<K, V>(ps: Dict<K, V>, i: nat, j: nat)
    requires i < j < |FirstPerKey(ps)|
    ensures FirstPerKey(ps)[i].0 in Keys(ps) && FirstPerKey(ps)[j].0 in Keys(ps)
    ensures IndexOf(Keys(ps), FirstPerKey(ps)[i].0) < IndexOf(Keys(ps), FirstPerKey(ps)[j].0)
    decreases |ps|
  {
    var r := FirstPerKey(ps);
    FirstPerKeyMember(ps);
    var p := ps[..|ps| - 1];
    var (k, v) := ps[|ps| - 1];
    var u := FirstPerKey(p);
    assert ps == p + [(k, v)];
    FirstPerKeySnoc(p, k, v);
    assert Keys(ps) == Keys(p) + [k];
    FirstPerKeyMember(p);
    assert r[i] == u[i];
    IndexOfAppend(Keys(p), k, u[i].0);
    if j < |u| {
      assert r[j] == u[j];
      FirstPerKeyOrderAt(p, i, j);
      IndexOfAppend(Keys(p), k, u[j].0);
    } else {
      assert r[j] == (k, v) && k !in Keys(u);
      FirstPerKeyKeys(p);
      assert Keys(ps)[..|p|] == Keys(p);
      IndexOfUnique(Keys(ps), k, |p|);
    }
  }

  /** Kept keys appear in the order of their first occurrence in the input. */
  lemma FirstPerKeyOrder<K, V>(ps: Dict<K, V>)
    ensures forall i :: 0 <= i < |FirstPerKey(ps)| ==> FirstPerKey(ps)[i].0 in Keys(ps)
    ensures forall i, j :: 0 <= i < j < |FirstPerKey(ps)| ==>
              IndexOf(Keys(ps), FirstPerKey(ps)[i].0) < IndexOf(Keys(ps), FirstPerKey(ps)[j].0)
  {
    FirstPerKeyMember(ps);
    forall i, j | 0 <= i < j < |FirstPerKey(ps)|
      ensures IndexOf(Keys(ps), FirstPerKey(ps)[i].0) < IndexOf(Keys(ps), FirstPerKey(ps)[j].0)
    {
      FirstPerKeyOrderAt(ps, i, j);
    }
  }

  /** Each kept pair is the first pair of the input with its key. */
  lemma FirstPerKeyPicksFirst<K, V>(ps: Dict<K, V>)
    ensures forall i :: 0 <= i < |FirstPerKey(ps)| ==> FirstPerKey(ps)[i].0 in Keys(ps)
    ensures forall i :: 0 <= i < |FirstPerKey(ps)| ==>
              FirstPerKey(ps)[i] == ps[IndexOf(Keys(ps), FirstPerKey(ps)[i].0)]
  {
    var r := FirstPerKey(ps);
    FirstPerKeyOrder(ps);
    forall i | 0 <= i < |r| ensures r[i] == ps[IndexOf(Keys(ps), r[i].0)] {
      GetAt(r, i);
      FirstPerKeyGet(ps, r[i].0);
      GetIsFirst(ps, r[i].0);
    }
  }
}
