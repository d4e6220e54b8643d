/**
 * `clean_metadata(d)`: copy a metadata dict for the vector store, dropping
 * `None` values, keeping `str | int | float | bool` values as they are and
 * stringifying anything else (src/jellyseek/rag/db_generator.py and its
 * identical copy in src/rag_gen/db_generator.py).
 */
module Metadata {
  import opened Wrappers
  import opened Json
  import opened Dict

  /** A metadata record: an insertion-ordered dict of field name to value. */
  type Metadata = Dict<string, Value>

  /** What the sanitiser does with one value: omit it, or store this value. */
  function Sanitize(v: Value): (r: Option<Value>)
    ensures r.None? <==> v.Null?
    ensures r.Some? ==> IsScalar(r.value)
    ensures IsScalar(v) ==> r == Some(v)
    ensures v.List? ==> r == Some(Str(PyStr(v)))
  {
    match v
    case Null => None
    case Bool(_) => Some(v)
    case Int(_) => Some(v)
    case Float(_) => Some(v)
    case Str(_) => Some(v)
    case List(_) => Some(Str(PyStr(v)))
  }

  /** The dict `clean_metadata` builds after reading the pairs of `d` in order. */
  function Clean(d: Metadata): Metadata {
    if d == [] then []
    else
      var out := Clean(d[..|d| - 1]);
      var (k, v) := d[|d| - 1];
      match Sanitize(v)
      case None => out
      case Some(w) => Put(out, k, w)
  }

  /** `clean_metadata(d)`: one pass over `d.items()` filling `out`. */
  method CleanMetadata(d: Metadata) returns (out: Metadata)
    ensures out == Clean(d)
  {
    out := [];
    var i := 0;
    while i < |d|
      invariant 0 <= i <= |d|
      invariant out == Clean(d[..i])
    {
      var (k, v) := d[i];
      assert d[..i + 1][..i] == d[..i];
      if !v.Null? {
        out := Put(out, k, Sanitize(v).value);
      }
      i := i + 1;
    }
    assert d[..i] == d;
  }

  /** The keys of `d` whose values are not `None`, in order. */
  function NonNullKeys(d: Metadata): (ks: seq<string>)
    ensures forall k :: k in ks ==> k in Keys(d)
  {
    if d == [] then []
    else
      assert Keys(d) == Keys(d[..|d| - 1]) + [d[|d| - 1].0];
      NonNullKeys(d[..|d| - 1]) + (if d[|d| - 1].1.Null? then [] else [d[|d| - 1].0])
  }

  /** A single entry keeps its key exactly when its value is not `None`. */
  lemma NonNullKeysOne(k: string, v: Value)
    ensures NonNullKeys([(k, v)]) == if v.Null? then [] else [k]
  {
    assert [(k, v)][..0] == [];
  }

  lemma {:induction false} NonNullKeysConcat(a: Metadata, b: Metadata)
    ensures NonNullKeys(a + b) == NonNullKeys(a) + NonNullKeys(b)
    decreases |b|
  {
    if b != [] {
      var n := |b| - 1;
      assert (a + b)[..|a + b| - 1] == a + b[..n];
      NonNullKeysConcat(a, b[..n]);
    } else {
      assert a + b == a;
    }
  }

  /** Output keys are the input keys with non-`None` values, in input order. */
  lemma {:induction false} CleanKeys(d: Metadata)
    requires DistinctKeys(d)
    ensures Keys(Clean(d)) == NonNullKeys(d)
  {
    if d != [] {
      var p := d[..|d| - 1];
      var (k, v) := d[|d| - 1];
      CleanKeys(p);
      LastKeyFresh(d);
    }
  }

  /** Each kept key maps to its sanitised value; `None`-valued and absent keys map to nothing. */
  lemma {:induction false} CleanGet(d: Metadata, k: string)
    requires DistinctKeys(d)
    ensures Get(Clean(d), k) == match Get(d, k) case None => None case Some(v) => Sanitize(v)
  {
    if d != [] {
      var p := d[..|d| - 1];
      var (k', v) := d[|d| - 1];
      assert d == p + [(k', v)];
      CleanGet(p, k);
      CleanKeys(p);
      GetAppend(p, k', v, k);
      LastKeyFresh(d);
      if !v.Null? {
        GetPut(Clean(p), k', Sanitize(v).value, k);
      }
      if k in Keys(p) {
        assert k != k';
      }
    }
  }

  /** The store only ever receives `str | int | float | bool` values, under distinct keys. */
  lemma {:induction false} CleanIsScalar(d: Metadata)
    ensures DistinctKeys(Clean(d))
    ensures forall i :: 0 <= i < |Clean(d)| ==> IsScalar(Clean(d)[i].1)
  {
    if d != [] {
      var p := d[..|d| - 1];
      var (k, v) := d[|d| - 1];
      CleanIsScalar(p);
      if !v.Null? {
        PutDistinct(Clean(p), k, Sanitize(v).value);
        PutPairs(Clean(p), k, Sanitize(v).value);
      }
    }
  }

  /** A dict already fit for the store passes through unchanged. */
  lemma {:induction false} CleanFixesScalarDict(d: Metadata)
    requires DistinctKeys(d)
    requires forall i :: 0 <= i < |d| ==> IsScalar(d[i].1)
    ensures Clean(d) == d
  {
    if d != [] {
      var p := d[..|d| - 1];
      var (k, v) := d[|d| - 1];
      CleanFixesScalarDict(p);
      LastKeyFresh(d);
      PutAppends(p, k, v);
      assert p + [(k, v)] == d;
    }
  }

  /** `clean_metadata(clean_metadata(d)) == clean_metadata(d)`. */
  lemma CleanIdempotent(d: Metadata)
    ensures Clean(Clean(d)) == Clean(d)
  {
    CleanIsScalar(d);
    CleanFixesScalarDict(Clean(d));
  }
}
