/**
 * The vector store as the pipeline sees it: one persistent collection,
 * `movies_rag`, that exists or not and holds the records added to it.
 * Nearest-neighbour search and embeddings are not part of this model; a
 * query is an uninterpreted function (see the Database module).
 */
module Store {
  import opened Wrappers
  import opened Metadata

  /** One stored document with its id and metadata. */
  datatype Record = Record(id: string, document: string, metadata: Metadata)

  /** A change to the collection, in the order the client performs them. */
  datatype Op = Deleted | Created | Added(batch: seq<Record>)

  /** Whether the collection exists, and what it holds. */
  datatype State = State(present: bool, records: seq<Record>)

  /** `get_collection` and `delete_collection` raise `ValueError` on a missing collection; `create_collection` raises on an existing one. */
  datatype StoreError = NotFound | AlreadyExists

  /** The effect of one change. */
  function Apply(s: State, op: Op): State {
    match op
    case Deleted => State(false, [])
    case Created => State(true, [])
    case Added(batch) => State(s.present, s.records + batch)
  }

  /** The effect of a sequence of changes, first to last. */
  function Replay(s: State, ops: seq<Op>): State
    decreases |ops|
  {
    if ops == [] then s else Replay(Apply(s, ops[0]), ops[1..])
  }

  lemma {:induction false} ReplayAppend(s: State, a: seq<Op>, b: seq<Op>)
    ensures Replay(s, a + b) == Replay(Replay(s, a), b)
    decreases |a|
  {
    if a == [] {
      assert a + b == b;
    } else {
      assert (a + b)[1..] == a[1..] + b;
      ReplayAppend(Apply(s, a[0]), a[1..], b);
    }
  }

  lemma ReplayCons(s: State, op: Op, rest: seq<Op>)
    ensures Replay(s, [op] + rest) == Replay(Apply(s, op), rest)
  {
    assert ([op] + rest)[1..] == rest;
  }

  /** A run of changes without a delete or create never removes a record. */
  lemma {:induction false} ReplayOnlyAdds(s: State, ops: seq<Op>)
    requires forall i :: 0 <= i < |ops| ==> ops[i].Added?
    ensures Replay(s, ops).present == s.present
    ensures s.records <= Replay(s, ops).records
    decreases |ops|
  {
    if ops != [] {
      ReplayOnlyAdds(Apply(s, ops[0]), ops[1..]);
    }
  }

  /** `collection.add(documents=..., ids=..., metadatas=...)`: one record per position. */
  function Zip(documents: seq<string>, ids: seq<string>, metadatas: seq<Metadata>): (rs: seq<Record>)
    requires |documents| == |ids| == |metadatas|
    ensures |rs| == |ids|
    ensures forall i :: 0 <= i < |rs| ==> rs[i] == Record(ids[i], documents[i], metadatas[i])
  {
    seq(|ids|, i requires 0 <= i < |ids| => Record(ids[i], documents[i], metadatas[i]))
  }

  /** A client bound to the `movies_rag` collection of one persistent store. */
  class Client {
    var present: bool
    var records: seq<Record>
    /** Every change made through this client, oldest first. */
    var log: seq<Op>

    function Current(): State
      reads this
    {
      State(present, records)
    }

    /** A missing collection holds nothing. */
    ghost predicate Valid()
      reads this
    {
      !present ==> records == []
    }

    constructor(s: State)
      requires s.present || s.records == []
      ensures Current() == s && log == []
      ensures Valid()
    {
      present := s.present;
      records := s.records;
      log := [];
    }

    /** `collection.count()`. */
    function Count(): nat
      reads this
    {
      |records|
    }

    /** `get_collection`: found, or `ValueError`. */
    method GetCollection() returns (r: Result<(), StoreError>)
      ensures r.Ok? <==> present
      ensures r.Err? ==> r.error == NotFound
    {
      if present {
        r := Ok(());
      } else {
        r := Err(NotFound);
      }
    }

    /** `delete_collection`. */
    method DeleteCollection() returns (r: Result<(), StoreError>)
      modifies this
      ensures old(present) ==> r.Ok? && Current() == Apply(old(Current()), Deleted) && log == old(log) + [Deleted]
      ensures !old(present) ==> r == Err(NotFound) && unchanged(this)
    {
      if !present {
        return Err(NotFound);
      }
      present, records := false, [];
      log := log + [Deleted];
      r := Ok(());
    }

    /** `create_collection`. */
    method CreateCollection() returns (r: Result<(), StoreError>)
      modifies this
      ensures !old(present) ==> r.Ok? && Current() == Apply(old(Current()), Created) && log == old(log) + [Created]
      ensures old(present) ==> r == Err(AlreadyExists) && unchanged(this)
    {
      if present {
        return Err(AlreadyExists);
      }
      present, records := true, [];
      log := log + [Created];
      r := Ok(());
    }

    /** `get_or_create_collection`: an existing collection is reused as it is. */
    method GetOrCreateCollection()
      modifies this
      ensures present
      ensures old(present) ==> unchanged(this)
      ensures !old(present) ==> Current() == Apply(old(Current()), Created) && log == old(log) + [Created]
    {
      if !present {
        present, records := true, [];
        log := log + [Created];
      }
    }

    /** `collection.add`: the new records go after the old ones, in order. */
    method Add(documents: seq<string>, ids: seq<string>, metadatas: seq<Metadata>)
      requires present && |documents| == |ids| == |metadatas|
      modifies this
      ensures Current() == Apply(old(Current()), Added(Zip(documents, ids, metadatas)))
      ensures log == old(log) + [Added(Zip(documents, ids, metadatas))]
    {
      var batch := Zip(documents, ids, metadatas);
      records := records + batch;
      log := log + [Added(batch)];
    }
  }
}
