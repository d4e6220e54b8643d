/**
 * Opening the collection and querying it (src/jellyseek/rag/database.py).
 *
 * Nearest-neighbour search is not part of this model: `Search` is whatever
 * the store answers for the records it holds, the query texts and the number
 * of results asked for, as one batch per query text.
 */
module Database {
  import opened Wrappers
  import opened Metadata
  import opened Store

  /** `collection.query(...)`: `documents` and `metadatas`, one batch per query text. */
  datatype QueryResult = QueryResult(documents: seq<seq<string>>, metadatas: seq<seq<Metadata>>)

  type Search = (seq<Record>, seq<string>, nat) -> QueryResult

  /** What `query_database` returns. */
  datatype Retrieved = Retrieved(documents: seq<string>, metadatas: seq<Metadata>)

  /** `n_results` when the caller gives none. */
  const DefaultResults: nat := 10

  // ------------------------------------------------------------ flattening

  /** `[x for batch in batches for x in batch]`. */
  function Flatten<T>(batches: seq<seq<T>>): seq<T>
    decreases |batches|
  {
    if batches == [] then [] else batches[0] + Flatten(batches[1..])
  }

  /** The number of entries over all batches. */
  function TotalLength<T>(batches: seq<seq<T>>): nat
    decreases |batches|
  {
    if batches == [] then 0 else |batches[0]| + TotalLength(batches[1..])
  }

  /** Flattening two runs of batches is concatenating their flattenings. */
  lemma {:induction false} FlattenAppend<T>(a: seq<seq<T>>, b: seq<seq<T>>)
    ensures Flatten(a + b) == Flatten(a) + Flatten(b)
    ensures TotalLength(a + b) == TotalLength(a) + TotalLength(b)
    decreases |a|
  {
    if a == [] {
      assert a + b == b;
    } else {
      assert (a + b)[1..] == a[1..] + b;
      FlattenAppend(a[1..], b);
    }
  }

  /** The output is as long as all batches together. */
  lemma {:induction false} FlattenLength<T>(batches: seq<seq<T>>)
    ensures |Flatten(batches)| == TotalLength(batches)
    decreases |batches|
  {
    if batches != [] {
      FlattenLength(batches[1..]);
    }
  }

  /** Entry `j` of batch `i` lands after every entry of the batches before it, in order. */
  lemma {:induction false} FlattenIndex<T>(batches: seq<seq<T>>, i: nat, j: nat)
    requires i < |batches| && j < |batches[i]|
    ensures TotalLength(batches[..i]) + j < |Flatten(batches)|
    ensures Flatten(batches)[TotalLength(batches[..i]) + j] == batches[i][j]
    decreases i
  {
    FlattenLength(batches);
    if i == 0 {
      assert batches[..0] == [];
    } else {
      var tail := batches[1..];
      FlattenIndex(tail, i - 1, j);
      assert batches[..i] == [batches[0]] + tail[..i - 1];
      FlattenAppend([batches[0]], tail[..i - 1]);
      assert [batches[0]][1..] == [];
    }
  }

  /** Batches of the same sizes. */
  predicate SameShape<T, U>(a: seq<seq<T>>, b: seq<seq<U>>) {
    |a| == |b| && forall i :: 0 <= i < |a| ==> |a[i]| == |b[i]|
  }

  /** Equal-shaped batches flatten to equally long outputs, with each batch at the same offset. */
  lemma {:induction false} SameShapeAligned<T, U>(a: seq<seq<T>>, b: seq<seq<U>>)
    requires SameShape(a, b)
    ensures TotalLength(a) == TotalLength(b)
    ensures |Flatten(a)| == |Flatten(b)|
    ensures forall i :: 0 <= i <= |a| ==> TotalLength(a[..i]) == TotalLength(b[..i])
    decreases |a|
  {
    FlattenLength(a);
    FlattenLength(b);
    if a != [] {
      SameShapeAligned(a[1..], b[1..]);
      forall i | 0 <= i <= |a|
        ensures TotalLength(a[..i]) == TotalLength(b[..i])
      {
        if i > 0 {
          assert a[..i] == [a[0]] + a[1..][..i - 1];
          assert b[..i] == [b[0]] + b[1..][..i - 1];
          FlattenAppend([a[0]], a[1..][..i - 1]);
          FlattenAppend([b[0]], b[1..][..i - 1]);
        }
      }
    }
  }

  /** Batches that are all empty give an empty output. */
  lemma {:induction false} FlattenAllEmpty<T>(batches: seq<seq<T>>)
    requires forall i :: 0 <= i < |batches| ==> batches[i] == []
    ensures Flatten(batches) == []
    decreases |batches|
  {
    if batches != [] {
      FlattenAllEmpty(batches[1..]);
    }
  }

  // ------------------------------------------------------------ the two entry points

  /** `query_database(collection, query_text, n_results=10)`: one query text, both batch lists flattened. */
  function QueryDatabase(search: Search, records: seq<Record>, text: string, n: nat := DefaultResults): (r: Retrieved)
    ensures |r.documents| == TotalLength(search(records, [text], n).documents)
    ensures |r.metadatas| == TotalLength(search(records, [text], n).metadatas)
  {
    var results := search(records, [text], n);
    FlattenLength(results.documents);
    FlattenLength(results.metadatas);
    Retrieved(Flatten(results.documents), Flatten(results.metadatas))
  }

  /** The store answering in equal-shaped batches gives documents and metadatas aligned position by position. */
  lemma QueryAligned(search: Search, records: seq<Record>, text: string, n: nat, i: nat, j: nat)
    requires SameShape(search(records, [text], n).documents, search(records, [text], n).metadatas)
    requires i < |search(records, [text], n).documents| && j < |search(records, [text], n).documents[i]|
    ensures var res := search(records, [text], n);
            var r := QueryDatabase(search, records, text, n);
            var k := TotalLength(res.documents[..i]) + j;
            && |r.documents| == |r.metadatas|
            && k < |r.documents|
            && r.documents[k] == res.documents[i][j]
            && r.metadatas[k] == res.metadatas[i][j]
  {
    var res := search(records, [text], n);
    SameShapeAligned(res.documents, res.metadatas);
    FlattenIndex(res.documents, i, j);
    FlattenIndex(res.metadatas, i, j);
  }

  /** What `initialize_database()` does to the store: create the collection when it is missing. */
  function OpenOps(s: State): seq<Op> {
    if s.present then [] else [Created]
  }

  /** The store once `initialize_database()` returns: open, holding whatever it held before. */
  function Opened(s: State): State {
    State(true, if s.present then s.records else [])
  }

  /** Opening is replaying what opening does. */
  lemma OpenedIsReplay(s: State)
    ensures Replay(s, OpenOps(s)) == Opened(s)
  {
    if !s.present {
      assert OpenOps(s)[1..] == [];
    }
  }

  /** `initialize_database()`: an existing collection is reused as it is; a missing one is created empty. */
  method InitializeDatabase(store: Client) returns (created: bool)
    modifies store
    ensures store.present
    ensures created == !old(store.present)
    ensures !created ==> unchanged(store)
    ensures store.Current() == Opened(old(store.Current()))
    ensures store.log == old(store.log) + OpenOps(old(store.Current()))
  {
    var found := store.GetCollection();
    if found.Ok? {
      return false;
    }
    var _ := store.CreateCollection();
    return true;
  }
}
