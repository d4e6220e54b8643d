/**
 * `generate_database`: rebuild the `movies_rag` collection from the saved
 * catalog snapshot (src/jellyseek/rag/db_generator.py), and the earlier
 * get-or-create-and-add version (src/rag_gen/db_generator.py).
 *
 * The operator's answers to the 1/2 prompt are the lines `inputs`, read in
 * order; running out of them is `input()` raising `EOFError`. The snapshot
 * file is `None` when it does not exist and otherwise the item list it holds.
 */
module Generator {
  import opened Wrappers
  import opened Text
  import opened Json
  import opened Ingest
  import opened Store

  /** What the prompt loop accepts. */
  predicate IsChoice(s: string) {
    s == "1" || s == "2"
  }

  /** The accepted answer and how many lines the prompt loop read to get it. */
  datatype Choice = Choice(answer: string, read: nat)

  /** The prompt loop's answer; `None` when the lines run out first. */
  function Choose(inputs: seq<string>): Option<Choice>
    decreases |inputs|
  {
    if inputs == [] then None
    else if IsChoice(Strip(inputs[0])) then Some(Choice(Strip(inputs[0]), 1))
    else
      match Choose(inputs[1..])
      case None => None
      case Some(c) => Some(Choice(c.answer, c.read + 1))
  }

  /** The prompt loop fails only when no line strips to `1` or `2`. */
  lemma {:induction false} ChooseNone(inputs: seq<string>)
    ensures Choose(inputs).None? <==> forall j :: 0 <= j < |inputs| ==> !IsChoice(Strip(inputs[j]))
    decreases |inputs|
  {
    if inputs != [] && !IsChoice(Strip(inputs[0])) {
      var tail := inputs[1..];
      ChooseNone(tail);
      assert forall j :: 1 <= j < |inputs| ==> inputs[j] == tail[j - 1];
    }
  }

  /** Otherwise it reads exactly up to the first line that strips to `1` or `2`, and answers with it. */
  lemma {:induction false} ChooseFirstValid(inputs: seq<string>)
    requires Choose(inputs).Some?
    ensures 1 <= Choose(inputs).value.read <= |inputs|
    ensures IsChoice(Choose(inputs).value.answer)
    ensures Choose(inputs).value.answer == Strip(inputs[Choose(inputs).value.read - 1])
    ensures forall j :: 0 <= j < Choose(inputs).value.read - 1 ==> !IsChoice(Strip(inputs[j]))
    decreases |inputs|
  {
    if !IsChoice(Strip(inputs[0])) {
      var tail := inputs[1..];
      ChooseFirstValid(tail);
      var c := Choose(tail).value;
      assert Choose(inputs).value == Choice(c.answer, c.read + 1);
      assert inputs[c.read] == tail[c.read - 1];
      forall j | 0 <= j < c.read
        ensures !IsChoice(Strip(inputs[j]))
      {
        if j > 0 {
          assert inputs[j] == tail[j - 1];
        }
      }
    }
  }

  /** The `while True` prompt loop. */
  method PromptChoice(inputs: seq<string>) returns (r: Option<Choice>)
    ensures r == Choose(inputs)
  {
    var i := 0;
    while i < |inputs|
      invariant 0 <= i <= |inputs|
      invariant Choose(inputs) == match Choose(inputs[i..]) case None => None case Some(c) => Some(Choice(c.answer, c.read + i))
    {
      assert inputs[i..][1..] == inputs[i + 1..];
      var answer := Strip(inputs[i]);
      if IsChoice(answer) {
        return Some(Choice(answer, i + 1));
      }
      i := i + 1;
    }
    return None;
  }

  /** What the run does to the collection, decided before anything is loaded. */
  datatype Plan =
    | Keep     // existing collection, operator chose 2
    | Abort    // existing collection, input ran out while prompting
    | Replace  // existing collection, forced or operator chose 1: delete, create, add
    | Fresh    // no collection yet: create, add

  function Decide(present: bool, force: bool, inputs: seq<string>): Plan {
    if !present then Fresh
    else if force then Replace
    else
      match Choose(inputs)
      case None => Abort
      case Some(c) => if c.answer == "2" then Keep else Replace
  }

  /** The exception a run ends with. */
  datatype Failure = EndOfInput | SnapshotMissing | LoadFailed(error: Exception)

  datatype Outcome = Kept | Rebuilt(count: nat) | Raised(failure: Failure)

  /** The records `collection.add` receives for a load. */
  function LoadedRecords(l: Loaded): seq<Record>
    requires |l.documents| == |l.ids| == |l.metadatas|
  {
    Zip(l.documents, l.ids, l.metadatas)
  }

  /** Reading the snapshot: a missing file raises, and so does a load that raises. */
  function ReadSnapshot(v: Variant, lib: Library, snapshot: Option<seq<Item>>): (r: Result<Loaded, Failure>)
    ensures r.Ok? ==> |r.value.documents| == |r.value.ids| == |r.value.metadatas|
  {
    match snapshot
    case None => Err(SnapshotMissing)
    case Some(items) =>
      match Load(v, lib, items)
      case Err(e) => Err(LoadFailed(e))
      case Ok(l) =>
        LoadShape(v, lib, items);
        Ok(l)
  }

  /** What a run does to the collection, and how it ends. */
  datatype Run = Run(ops: seq<Op>, outcome: Outcome)

  /** The add step and how the run ends, once the collection is fresh. */
  function AddStep(read: Result<Loaded, Failure>): Run
    requires read.Ok? ==> |read.value.documents| == |read.value.ids| == |read.value.metadatas|
  {
    match read
    case Err(f) => Run([], Raised(f))
    case Ok(l) => Run([Added(LoadedRecords(l))], Rebuilt(|l.ids|))
  }

  /** `ops` first, then the rest of the run. */
  function Then(ops: seq<Op>, rest: Run): Run {
    Run(ops + rest.ops, rest.outcome)
  }

  // ------------------------------------------------------------ as written

  /**
   * The shipped run as written: decide, delete, create, and only then look
   * for the snapshot and load it.
   */
  function AsWritten(plan: Plan, read: Result<Loaded, Failure>): Run
    requires read.Ok? ==> |read.value.documents| == |read.value.ids| == |read.value.metadatas|
  {
    match plan
    case Keep => Run([], Kept)
    case Abort => Run([], Raised(EndOfInput))
    case Replace => Then([Deleted, Created], AddStep(read))
    case Fresh => Then([Created], AddStep(read))
  }

  /** Adding one batch to an empty collection leaves exactly that batch. */
  lemma FillEmpty(batch: seq<Record>)
    ensures Replay(State(true, []), [Added(batch)]) == State(true, batch)
  {
    assert [Added(batch)][1..] == [];
    assert [] + batch == batch;
  }

  /** What the run does before the collection is created again: only a replacement deletes. */
  function ClearOps(plan: Plan): seq<Op> {
    if plan.Replace? then [Deleted] else []
  }

  /**
   * The first half of a run: look the collection up, prompt unless forced,
   * and delete it when it is to be replaced. `stop` is how the run ends when
   * it ends here.
   */
  method ClearForRebuild(store: Client, force: bool, inputs: seq<string>) returns (stop: Option<Outcome>)
    modifies store
    ensures var plan := Decide(old(store.present), force, inputs);
            && (plan.Keep? ==> stop == Some(Kept))
            && (plan.Abort? ==> stop == Some(Raised(EndOfInput)))
            && (plan.Replace? || plan.Fresh? ==> stop.None? && !store.present)
            && store.Current() == Replay(old(store.Current()), ClearOps(plan))
            && store.log == old(store.log) + ClearOps(plan)
  {
    var found := store.GetCollection();
    if found.Ok? {
      if !force {
        var choice := PromptChoice(inputs);
        if choice.None? {
          return Some(Raised(EndOfInput));
        }
        if choice.value.answer == "2" {
          return Some(Kept);
        }
      }
      var _ := store.DeleteCollection();
      assert [Deleted][1..] == [];
    }
    return None;
  }

  /** A replacement deletes, then runs the fresh tail. */
  lemma ClearThen(plan: Plan, tail: seq<Op>)
    ensures ClearOps(plan) + ([Created] + tail) == (if plan.Replace? then [Deleted, Created] else [Created]) + tail
  {
    if plan.Replace? {
      AppendAssoc([Deleted], [Created], tail);
      assert [Deleted] + [Created] == [Deleted, Created];
    }
  }

  /** Read and load the snapshot, then add it to the open collection. */
  method LoadAndAdd(store: Client, v: Variant, lib: Library, snapshot: Option<seq<Item>>) returns (out: Outcome)
    requires store.present
    modifies store
    ensures var run := AddStep(ReadSnapshot(v, lib, snapshot));
            && out == run.outcome
            && store.Current() == Replay(old(store.Current()), run.ops)
            && store.log == old(store.log) + run.ops
  {
    if snapshot.None? {
      return Raised(SnapshotMissing);
    }
    var loaded := LoadMovieJson(v, lib, snapshot.value);
    if loaded.Err? {
      return Raised(LoadFailed(loaded.error));
    }
    LoadShape(v, lib, snapshot.value);
    assert ReadSnapshot(v, lib, snapshot) == Ok(loaded.value);
    store.Add(loaded.value.documents, loaded.value.ids, loaded.value.metadatas);
    assert [Added(LoadedRecords(loaded.value))][1..] == [];
    return Rebuilt(|loaded.value.ids|);
  }

  /** The create-then-load tail of the run as written, on a store without the collection. */
  method CreateAndLoad(store: Client, lib: Library, snapshot: Option<seq<Item>>) returns (out: Outcome)
    requires !store.present
    modifies store
    ensures var run := Then([Created], AddStep(ReadSnapshot(Shipped, lib, snapshot)));
            && out == run.outcome
            && store.Current() == Replay(old(store.Current()), run.ops)
            && store.log == old(store.log) + run.ops
  {
    ghost var start := store.Current();
    var _ := store.CreateCollection();
    ghost var adds := AddStep(ReadSnapshot(Shipped, lib, snapshot)).ops;
    out := LoadAndAdd(store, Shipped, lib, snapshot);
    ReplayCons(start, Created, adds);
    AppendAssoc(old(store.log), [Created], adds);
  }

  /** `generate_database(force_update)` as written. */
  method GenerateDatabaseAsWritten(store: Client, force: bool, inputs: seq<string>, lib: Library,
                                   snapshot: Option<seq<Item>>) returns (out: Outcome)
    modifies store
    ensures var run := AsWritten(Decide(old(store.present), force, inputs), ReadSnapshot(Shipped, lib, snapshot));
            && out == run.outcome
            && store.Current() == Replay(old(store.Current()), run.ops)
            && store.log == old(store.log) + run.ops
  {
    ghost var start := store.Current();
    ghost var plan := Decide(store.present, force, inputs);
    var stop := ClearForRebuild(store, force, inputs);
    if stop.Some? {
      return stop.value;
    }
    ghost var cleared := ClearOps(plan);
    ghost var adds := AddStep(ReadSnapshot(Shipped, lib, snapshot)).ops;
    out := CreateAndLoad(store, lib, snapshot);
    ReplayAppend(start, cleared, [Created] + adds);
    AppendAssoc(old(store.log), cleared, [Created] + adds);
    ClearThen(plan, adds);
  }

  /** Choosing 2 at the prompt leaves the existing collection as it is. */
  lemma KeepLeavesCollection(inputs: seq<string>, read: Result<Loaded, Failure>)
    requires read.Ok? ==> |read.value.documents| == |read.value.ids| == |read.value.metadatas|
    requires Choose(inputs).Some? && Choose(inputs).value.answer == "2"
    ensures Decide(true, false, inputs) == Keep
    ensures AsWritten(Decide(true, false, inputs), read) == Run([], Kept)
  {
  }

  /**
   * Forced, or after choosing 1: the collection is deleted, then created,
   * then filled with the load, which is only added when it succeeds. A
   * missing collection is created and filled, never deleted.
   */
  lemma RebuildOrder(present: bool, force: bool, inputs: seq<string>, read: Result<Loaded, Failure>)
    requires read.Ok? ==> |read.value.documents| == |read.value.ids| == |read.value.metadatas|
    requires !present || force || (Choose(inputs).Some? && Choose(inputs).value.answer == "1")
    ensures AsWritten(Decide(present, force, inputs), read).ops ==
              (if present then [Deleted, Created] else [Created]) +
              (if read.Ok? then [Added(LoadedRecords(read.value))] else [])
  {
    var plan := Decide(present, force, inputs);
    assert plan == if present then Replace else Fresh;
  }

  /**
   * The defect: with an existing collection and no snapshot file, a forced
   * run (or choosing 1) deletes the collection and leaves an empty one
   * behind before it raises `FileNotFoundError`.
   */
  lemma MissingSnapshotEmptiesCollection(records: seq<Record>, lib: Library)
    ensures AsWritten(Decide(true, true, []), ReadSnapshot(Shipped, lib, None)).outcome == Raised(SnapshotMissing)
    ensures Replay(State(true, records), AsWritten(Decide(true, true, []), ReadSnapshot(Shipped, lib, None)).ops)
            == State(true, [])
  {
    var ops := AsWritten(Replace, Err(SnapshotMissing)).ops;
    assert ops == [Deleted, Created];
    assert ops[1..] == [Created] && ops[1..][1..] == [];
  }

  /**
   * A forced run as written always ends with a present collection: holding
   * exactly the load when it succeeds, and empty when the snapshot is
   * missing or its load raises, whatever the collection held before.
   */
  lemma ForcedRunEffect(present: bool, read: Result<Loaded, Failure>, s: State)
    requires read.Ok? ==> |read.value.documents| == |read.value.ids| == |read.value.metadatas|
    ensures AsWritten(Decide(present, true, []), read).outcome.Rebuilt? <==> read.Ok?
    ensures read.Err? ==> AsWritten(Decide(present, true, []), read).outcome == Raised(read.error)
    ensures read.Ok? ==> AsWritten(Decide(present, true, []), read).outcome.count == |LoadedRecords(read.value)|
    ensures Replay(s, AsWritten(Decide(present, true, []), read).ops)
            == State(true, if read.Ok? then LoadedRecords(read.value) else [])
  {
    var fill: seq<Op> := if read.Ok? then [Added(LoadedRecords(read.value))] else [];
    assert Replay(State(true, []), fill) == State(true, if read.Ok? then LoadedRecords(read.value) else []) by {
      if read.Ok? {
        assert fill[1..] == [];
      }
    }
    if present {
      ReplayCons(s, Deleted, [Created] + fill);
      ReplayCons(State(false, []), Created, fill);
      assert [Deleted, Created] + fill == [Deleted] + ([Created] + fill);
    } else {
      ReplayCons(s, Created, fill);
    }
  }

  // ------------------------------------------------------------ corrected

  /**
   * The run with the snapshot read and loaded before the collection is
   * touched: a run that raises changes nothing.
   */
  function Checked(plan: Plan, read: Result<Loaded, Failure>): Run
    requires read.Ok? ==> |read.value.documents| == |read.value.ids| == |read.value.metadatas|
  {
    if read.Err? then Run([], Raised(read.error)) else AsWritten(plan, read)
  }

  /** Create the collection on a store without it and add a load already in hand. */
  method CreateAndAdd(store: Client, loaded: Loaded) returns (out: Outcome)
    requires !store.present && |loaded.documents| == |loaded.ids| == |loaded.metadatas|
    modifies store
    ensures var run := Then([Created], AddStep(Ok(loaded)));
            && out == run.outcome
            && store.Current() == Replay(old(store.Current()), run.ops)
            && store.log == old(store.log) + run.ops
  {
    ghost var start := store.Current();
    var _ := store.CreateCollection();
    store.Add(loaded.documents, loaded.ids, loaded.metadatas);
    ReplayCons(start, Created, [Added(LoadedRecords(loaded))]);
    FillEmpty(LoadedRecords(loaded));
    return Rebuilt(|loaded.ids|);
  }

  /** The decide, delete, create and add steps, with the load already in hand. */
  method ReplaceWith(store: Client, force: bool, inputs: seq<string>, loaded: Loaded) returns (out: Outcome)
    requires |loaded.documents| == |loaded.ids| == |loaded.metadatas|
    modifies store
    ensures var run := AsWritten(Decide(old(store.present), force, inputs), Ok(loaded));
            && out == run.outcome
            && store.Current() == Replay(old(store.Current()), run.ops)
            && store.log == old(store.log) + run.ops
  {
    ghost var start := store.Current();
    ghost var plan := Decide(store.present, force, inputs);
    var stop := ClearForRebuild(store, force, inputs);
    if stop.Some? {
      return stop.value;
    }
    ghost var cleared := ClearOps(plan);
    ghost var adds := AddStep(Ok(loaded)).ops;
    out := CreateAndAdd(store, loaded);
    ReplayAppend(start, cleared, [Created] + adds);
    AppendAssoc(old(store.log), cleared, [Created] + adds);
    ClearThen(plan, adds);
  }

  /** `generate_database(force_update)` with the snapshot checked and loaded first. */
  method GenerateDatabase(store: Client, force: bool, inputs: seq<string>, lib: Library,
                          snapshot: Option<seq<Item>>) returns (out: Outcome)
    modifies store
    ensures var run := Checked(Decide(old(store.present), force, inputs), ReadSnapshot(Shipped, lib, snapshot));
            && out == run.outcome
            && store.Current() == Replay(old(store.Current()), run.ops)
            && store.log == old(store.log) + run.ops
  {
    if snapshot.None? {
      return Raised(SnapshotMissing);
    }
    var loaded := LoadMovieJson(Shipped, lib, snapshot.value);
    if loaded.Err? {
      return Raised(LoadFailed(loaded.error));
    }
    LoadShape(Shipped, lib, snapshot.value);
    assert ReadSnapshot(Shipped, lib, snapshot) == Ok(loaded.value);
    out := ReplaceWith(store, force, inputs, loaded.value);
  }

  /** A corrected run that raises leaves the store exactly as it was. */
  lemma CheckedFailureChangesNothing(plan: Plan, read: Result<Loaded, Failure>, s: State)
    requires read.Ok? ==> |read.value.documents| == |read.value.ids| == |read.value.metadatas|
    requires Checked(plan, read).outcome.Raised?
    ensures Checked(plan, read).ops == []
    ensures Replay(s, Checked(plan, read).ops) == s
  {
  }

  /** When the snapshot loads, the corrected run does exactly what the original does. */
  lemma CheckedAgreesOnLoad(plan: Plan, read: Result<Loaded, Failure>)
    requires read.Ok? && |read.value.documents| == |read.value.ids| == |read.value.metadatas|
    ensures Checked(plan, read) == AsWritten(plan, read)
  {
  }

  /** A successful corrected run leaves exactly the loaded documents in a present collection. */
  lemma RebuiltHoldsLoad(plan: Plan, read: Result<Loaded, Failure>, s: State)
    requires read.Ok? ==> |read.value.documents| == |read.value.ids| == |read.value.metadatas|
    requires Checked(plan, read).outcome.Rebuilt?
    ensures read.Ok?
    ensures Replay(s, Checked(plan, read).ops) == State(true, LoadedRecords(read.value))
    ensures Checked(plan, read).outcome.count == |LoadedRecords(read.value)|
  {
    var batch := LoadedRecords(read.value);
    var fill := [Added(batch)];
    assert fill[1..] == [];
    assert Replay(State(true, []), fill) == State(true, batch);
    if plan.Replace? {
      ReplayCons(s, Deleted, [Created] + fill);
      ReplayCons(State(false, []), Created, fill);
      assert [Deleted, Created] + fill == [Deleted] + ([Created] + fill);
    } else {
      ReplayCons(s, Created, fill);
    }
  }

  // ------------------------------------------------------------ earlier copy

  /**
   * src/rag_gen/db_generator.py: get or create the collection, load the
   * item list, add. Nothing is ever deleted; existing records stay in front.
   */
  function GetOrCreateAndAdd(present: bool, read: Result<Loaded, Failure>): Run
    requires read.Ok? ==> |read.value.documents| == |read.value.ids| == |read.value.metadatas|
  {
    Then(if present then [] else [Created], AddStep(read))
  }

  /** `generate_database()` of the earlier copy; a missing item file raises once the collection exists. */
  method GenerateDatabaseLegacy(store: Client, lib: Library, snapshot: Option<seq<Item>>) returns (out: Outcome)
    requires store.Valid()
    modifies store
    ensures var run := GetOrCreateAndAdd(old(store.present), ReadSnapshot(Legacy, lib, snapshot));
            && out == run.outcome
            && store.Current() == Replay(old(store.Current()), run.ops)
            && store.log == old(store.log) + run.ops
  {
    ghost var start := store.Current();
    ghost var done: seq<Op> := if store.present then [] else [Created];
    store.GetOrCreateCollection();
    assert store.Current() == Replay(start, done) by {
      if done != [] {
        assert done[1..] == [];
      }
    }
    ghost var adds := AddStep(ReadSnapshot(Legacy, lib, snapshot)).ops;
    out := LoadAndAdd(store, Legacy, lib, snapshot);
    ReplayAppend(start, done, adds);
    AppendAssoc(old(store.log), done, adds);
  }

  /** The earlier copy never deletes: the collection ends present and keeps every old record in front. */
  lemma LegacyNeverDeletes(s: State, read: Result<Loaded, Failure>)
    requires read.Ok? ==> |read.value.documents| == |read.value.ids| == |read.value.metadatas|
    requires s.present || s.records == []
    ensures Deleted !in GetOrCreateAndAdd(s.present, read).ops
    ensures Replay(s, GetOrCreateAndAdd(s.present, read).ops).present
    ensures read.Ok? ==> Replay(s, GetOrCreateAndAdd(s.present, read).ops).records == s.records + LoadedRecords(read.value)
    ensures read.Err? ==> Replay(s, GetOrCreateAndAdd(s.present, read).ops).records == s.records
  {
    var ops := GetOrCreateAndAdd(s.present, read).ops;
    var adds := AddStep(read).ops;
    var t := if s.present then s else State(true, []);
    assert Replay(s, ops) == Replay(t, adds) by {
      if !s.present {
        assert ops[0] == Created && ops[1..] == adds;
      } else {
        assert ops == adds;
      }
    }
    if read.Ok? {
      assert adds[1..] == [];
      assert Replay(t, adds) == Replay(Apply(t, adds[0]), []);
    }
  }
}
