/**
 * `load_movie_json`: turn the list of raw catalog items into the three
 * parallel lists the vector store receives (document texts, ids and
 * metadata). Three copies exist and differ:
 *
 *   Shipped    src/jellyseek/rag/db_generator.py: required-field filter,
 *              nine text lines, sanitised metadata with a runtime key;
 *   Legacy     src/rag_gen/db_generator.py: required-field filter, six text
 *              lines, sanitised metadata without a runtime key;
 *   Standalone src/rag_gen/rag.py: no filter, six text lines, metadata as
 *              built (year as text, genres as the raw value, `None` kept).
 *
 * Each copy filters, then keeps the first item per `slug(title):year` key,
 * then builds one document per kept item. Any exception raised on the way
 * (a non-string title, a non-iterable genre list, ...) aborts the whole load.
 */
module Ingest {
  import opened Wrappers
  import opened Text
  import opened Dict
  import opened Json
  import opened Slug
  import opened Metadata
  import opened Dedup

  /** The range of `datetime.year`. */
  type Year = y: int | 1 <= y <= 9999 witness 1

  /**
   * The library routines the pipeline calls and the model takes as given:
   * the per-character NFKD decomposition behind `slug`, and
   * `datetime.fromisoformat(s).year` (`None` where it raises `ValueError`).
   */
  datatype Library = Library(decompose: Decomposition, parseYear: string -> Option<Year>)

  datatype Variant = Shipped | Legacy | Standalone

  // ------------------------------------------------------------ filter

  const RequiredFields: seq<string> := ["Title", "Plot", "Genres", "Tags", "Actors", "PremiereDate"]

  /** `item.get(field) not in (None, "")`. */
  predicate HasValue(item: Item, field: string) {
    GetField(item, field) != Null && GetField(item, field) != Str("")
  }

  predicate Complete(item: Item) {
    forall f :: f in RequiredFields ==> HasValue(item, f)
  }

  /** `[item for item in data if all(...)]`. */
  function FilterComplete(items: seq<Item>): (r: seq<Item>)
    ensures |r| <= |items|
    ensures forall x :: x in r <==> x in items && Complete(x)
  {
    if items == [] then []
    else (if Complete(items[0]) then [items[0]] else []) + FilterComplete(items[1..])
  }

  /** A required field holding an empty list does not drop the item. */
  lemma EmptyListIsKept(item: Item, field: string)
    requires Complete(item) && field in RequiredFields
    ensures Complete(item[field := List([])])
  {
    forall f | f in RequiredFields ensures HasValue(item[field := List([])], f) {
      assert f != field ==> GetField(item[field := List([])], f) == GetField(item, f);
    }
  }

  /** A required field that is absent, `None` or `""` drops the item. */
  lemma MissingFieldIsDropped(item: Item, field: string)
    requires field in RequiredFields
    requires field !in item || item[field] == Null || item[field] == Str("")
    ensures !Complete(item)
  {
    assert !HasValue(item, field);
  }

  // ------------------------------------------------------------ year and key

  /**
   * The year of `item["PremiereDate"]` with trailing `Z`s removed; `None` when
   * the date is falsy or does not parse. A truthy non-string date raises
   * `AttributeError` (only `ValueError` is caught).
   */
  function ParsedYear(lib: Library, item: Item): (r: Result<Option<Year>, Exception>)
    ensures !Truthy(GetField(item, "PremiereDate")) ==> r == Ok(None)
    ensures Truthy(GetField(item, "PremiereDate")) && !GetField(item, "PremiereDate").Str? ==> r == Err(AttributeError)
    ensures GetField(item, "PremiereDate").Str? && GetField(item, "PremiereDate").s != "" ==>
              r == Ok(lib.parseYear(RStripChar(GetField(item, "PremiereDate").s, 'Z')))
  {
    var date := GetField(item, "PremiereDate");
    if !Truthy(date) then Ok(None)
    else if date.Str? then Ok(lib.parseYear(RStripChar(date.s, 'Z')))
    else Err(AttributeError)
  }

  /** `year` / `year_from`: the decimal year, or `""`. */
  function YearText(y: Option<Year>): (r: string)
    ensures r == "" <==> y.None?
    ensures AllDigits(r)
  {
    match y
    case None => ""
    case Some(n) => NatToDecimal(n)
  }

  /** `int(year_from) if year_from else 0`. */
  function YearNumber(year: string): int
    requires AllDigits(year)
  {
    if year != "" then ParseDecimal(year) else 0
  }

  /** The metadata year is the parsed year, or 0 when none was parsed. */
  lemma YearNumberOfText(y: Option<Year>)
    ensures YearNumber(YearText(y)) == match y case None => 0 case Some(n) => n
  {
    if y.Some? {
      ParseDecimalOfNatToDecimal(y.value);
    }
  }

  /** `item.get("Title", "").strip()`. */
  function KeyTitle(item: Item): (r: Result<string, Exception>)
    ensures r.Ok? <==> GetOr(item, "Title", Str("")).Str?
    ensures r.Ok? ==> r.value == Strip(GetOr(item, "Title", Str("")).s)
  {
    match GetOr(item, "Title", Str(""))
    case Str(s) => Ok(Strip(s))
    case _ => Err(AttributeError)
  }

  /** `f"{slug(title)}:{year}"`. */
  function DedupKey(lib: Library, item: Item): (r: Result<string, Exception>)
    ensures r.Ok? <==> KeyTitle(item).Ok? && ParsedYear(lib, item).Ok?
    ensures r.Ok? ==> r.value == Slug.Slug(lib.decompose, KeyTitle(item).value) + ":" + YearText(ParsedYear(lib, item).value)
  {
    var title :- KeyTitle(item);
    var y :- ParsedYear(lib, item);
    Ok(Slug.Slug(lib.decompose, title) + ":" + YearText(y))
  }

  /** One step of the dedup loop: the item with its key. */
  function KeyedItem(lib: Library): Item -> Result<(string, Item), Exception> {
    item => match DedupKey(lib, item) case Ok(k) => Ok((k, item)) case Err(e) => Err(e)
  }

  /** The `unique` OrderedDict after `for item in data: unique.setdefault(dedup_key, item)`. */
  function Unique(lib: Library, data: seq<Item>): Result<Dict<string, Item>, Exception> {
    var ps :- MapAll(KeyedItem(lib), data);
    Ok(FirstPerKey(ps))
  }

  /** The dedup keys of `data`, in order. */
  function KeySeq(lib: Library, data: seq<Item>): (ks: seq<string>)
    requires forall i :: 0 <= i < |data| ==> DedupKey(lib, data[i]).Ok?
    ensures |ks| == |data|
    ensures forall i :: 0 <= i < |data| ==> DedupKey(lib, data[i]) == Ok(ks[i])
  {
    seq(|data|, i requires 0 <= i < |data| => DedupKey(lib, data[i]).value)
  }

  /** The dedup loop succeeds exactly when every key can be computed. */
  lemma UniqueOk(lib: Library, data: seq<Item>)
    ensures Unique(lib, data).Ok? <==> forall i :: 0 <= i < |data| ==> DedupKey(lib, data[i]).Ok?
  {
    MapAllOk(KeyedItem(lib), data);
    assert forall i :: 0 <= i < |data| ==> (KeyedItem(lib)(data[i]).Ok? <==> DedupKey(lib, data[i]).Ok?);
  }

  /** The pairs the dedup loop feeds to `setdefault`. */
  lemma KeyedPairs(lib: Library, data: seq<Item>)
    requires Unique(lib, data).Ok?
    ensures MapAll(KeyedItem(lib), data).Ok?
    ensures forall i :: 0 <= i < |data| ==> DedupKey(lib, data[i]).Ok?
    ensures Keys(MapAll(KeyedItem(lib), data).value) == KeySeq(lib, data)
    ensures Values(MapAll(KeyedItem(lib), data).value) == data
  {
    UniqueOk(lib, data);
    MapAllOk(KeyedItem(lib), data);
    var ps := MapAll(KeyedItem(lib), data).value;
    var ks := KeySeq(lib, data);
    forall i | 0 <= i < |data| ensures ps[i].0 == ks[i] && ps[i].1 == data[i] {
      assert KeyedItem(lib)(data[i]) == Ok(ps[i]);
    }
    assert Keys(ps) == ks;
    assert Values(ps) == data;
  }

  /** Dedup keeps one entry per key, and never more entries than items. */
  lemma UniqueDistinct(lib: Library, data: seq<Item>)
    requires Unique(lib, data).Ok?
    ensures DistinctKeys(Unique(lib, data).value)
    ensures |Unique(lib, data).value| <= |data|
  {
    KeyedPairs(lib, data);
  }

  /** Every key of the input is kept, and only those. */
  lemma UniqueCoversKeys(lib: Library, data: seq<Item>)
    requires Unique(lib, data).Ok?
    ensures forall i :: 0 <= i < |data| ==> DedupKey(lib, data[i]).Ok?
    ensures forall k :: k in KeySeq(lib, data) <==> k in Keys(Unique(lib, data).value)
  {
    KeyedPairs(lib, data);
    FirstPerKeyKeys(MapAll(KeyedItem(lib), data).value);
  }

  /** Each kept item is the first input item with its key. */
  lemma UniqueKeepsFirst(lib: Library, data: seq<Item>)
    requires Unique(lib, data).Ok?
    ensures forall i :: 0 <= i < |data| ==> DedupKey(lib, data[i]).Ok?
    ensures forall i :: 0 <= i < |Unique(lib, data).value| ==>
              Unique(lib, data).value[i].0 in KeySeq(lib, data) &&
              Unique(lib, data).value[i].1 == data[IndexOf(KeySeq(lib, data), Unique(lib, data).value[i].0)]
  {
    KeyedPairs(lib, data);
    var ps := MapAll(KeyedItem(lib), data).value;
    var u := Unique(lib, data).value;
    var ks := KeySeq(lib, data);
    FirstPerKeyPicksFirst(ps);
    forall i | 0 <= i < |u| ensures u[i].0 in ks && u[i].1 == data[IndexOf(ks, u[i].0)] {
      var j := IndexOf(Keys(ps), u[i].0);
      assert u[i] == ps[j];
      assert Values(ps)[j] == ps[j].1;
    }
  }

  /** Kept keys are in the order of their first occurrence. */
  lemma UniqueOrder(lib: Library, data: seq<Item>)
    requires Unique(lib, data).Ok?
    ensures forall i :: 0 <= i < |data| ==> DedupKey(lib, data[i]).Ok?
    ensures forall i :: 0 <= i < |Unique(lib, data).value| ==> Unique(lib, data).value[i].0 in KeySeq(lib, data)
    ensures forall i, j :: 0 <= i < j < |Unique(lib, data).value| ==>
              IndexOf(KeySeq(lib, data), Unique(lib, data).value[i].0) <
              IndexOf(KeySeq(lib, data), Unique(lib, data).value[j].0)
  {
    KeyedPairs(lib, data);
    FirstPerKeyOrder(MapAll(KeyedItem(lib), data).value);
  }

  /** Each kept entry is an input item under its own dedup key. */
  lemma UniqueEntries(lib: Library, data: seq<Item>)
    requires Unique(lib, data).Ok?
    ensures forall i :: 0 <= i < |Unique(lib, data).value| ==>
              Unique(lib, data).value[i].1 in data &&
              DedupKey(lib, Unique(lib, data).value[i].1) == Ok(Unique(lib, data).value[i].0)
  {
    UniqueKeepsFirst(lib, data);
    UniqueOrder(lib, data);
    var ks := KeySeq(lib, data);
    var u := Unique(lib, data).value;
    forall i | 0 <= i < |u|
      ensures u[i].1 in data && DedupKey(lib, u[i].1) == Ok(u[i].0)
    {
      var j := IndexOf(ks, u[i].0);
      assert DedupKey(lib, data[j]) == Ok(ks[j]);
    }
  }

  // ------------------------------------------------------------ build

  /** The labels of the text lines, in order. */
  function Labels(v: Variant): seq<string> {
    if v.Shipped? then
      ["Title: ", "Year: ", "Genres: ", "Tags: ", "Actors: ",
       "Critic Rating: ", "Official Rating: ", "Runtime: ", "Plot: "]
    else
      ["Title: ", "Year: ", "Genres: ", "Tags: ", "Actors: ", "Plot: "]
  }

  /** `", ".join(item.get(field, []))`. */
  function JoinedField(item: Item, field: string): Result<string, Exception> {
    JoinComma(GetOr(item, field, List([])))
  }

  /** `", ".join(item.get("Actors", [])[:5])`. */
  function JoinedActors(item: Item): (r: Result<string, Exception>)
    ensures GetOr(item, "Actors", List([])).List? && AllStr(FirstFive(GetOr(item, "Actors", List([]))).value.items) ==>
              r.Ok?
  {
    var five :- FirstFive(GetOr(item, "Actors", List([])));
    JoinComma(five)
  }

  /** What follows the label on each line of the document text. */
  function LineValues(v: Variant, item: Item, year: string): (r: Result<seq<string>, Exception>)
    ensures r.Ok? <==> JoinedField(item, "Genres").Ok? && JoinedField(item, "Tags").Ok? && JoinedActors(item).Ok?
    ensures r.Ok? ==> |r.value| == |Labels(v)|
  {
    var genres :- JoinedField(item, "Genres");
    var tags :- JoinedField(item, "Tags");
    var actors :- JoinedActors(item);
    var title := PyStr(GetOr(item, "Title", Str("Unknown Title")));
    var plot := PyStr(GetOr(item, "Plot", Str("")));
    if v.Shipped? then
      Ok([title, year, genres, tags, actors,
          PyStr(GetOr(item, "CriticRating", Str("Not Rated"))),
          PyStr(GetOr(item, "OfficialRating", Str("Not Rated"))),
          PyStr(GetOr(item, "RuntimeMinutes", Str("Unknown"))) + " minutes",
          plot])
    else
      Ok([title, year, genres, tags, actors, plot])
  }

  /** Each label followed by its value. */
  function Labelled(labels: seq<string>, values: seq<string>): (r: seq<string>)
    requires |labels| == |values|
    ensures |r| == |labels|
    ensures forall i :: 0 <= i < |r| ==> r[i] == labels[i] + values[i]
  {
    seq(|labels|, i requires 0 <= i < |labels| => labels[i] + values[i])
  }

  /** The metadata dict as the loop body builds it, before `clean_metadata`. */
  function RawMetadata(v: Variant, item: Item, title: Value, y: Option<Year>, genres: string): Metadata {
    var ratings := [("critic_rating", GetField(item, "CriticRating")),
                    ("official_rating", GetField(item, "OfficialRating"))];
    match v
    case Standalone =>
      [("title", title), ("year", Str(YearText(y))), ("genres", GetOr(item, "Genres", List([])))] + ratings
    case Legacy =>
      [("title", title), ("year", Int(YearNumber(YearText(y)))), ("genres", Str(genres))] + ratings
    case Shipped =>
      [("title", title), ("year", Int(YearNumber(YearText(y)))), ("genres", Str(genres))] + ratings
      + [("runtime_minutes", GetField(item, "RuntimeMinutes"))]
  }

  /** One document: its text, its id and its metadata before sanitising. */
  datatype Built = Built(text: string, id: string, raw: Metadata)

  /** `f"{slug(title)}_{year_from}"`; never empty, so the `uuid` fallback after `or` never runs. */
  function DocId(lib: Library, title: string, year: string): (id: string)
    ensures '_' in id && id != ""
    ensures id == Slug.Slug(lib.decompose, title) + ['_'] + year
  {
    var slug := Slug.Slug(lib.decompose, title);
    assert (slug + "_" + year)[|slug|] == '_';
    slug + "_" + year
  }

  /** The body of the build loop for one kept item. */
  function Build(v: Variant, lib: Library, item: Item): (r: Result<Built, Exception>)
    ensures r.Ok? ==> ParsedYear(lib, item).Ok? && LineValues(v, item, YearText(ParsedYear(lib, item).value)).Ok?
    ensures r.Ok? ==> GetOr(item, "Title", Str("Unknown Title")).Str?
  {
    var title := GetOr(item, "Title", Str("Unknown Title"));
    var y :- ParsedYear(lib, item);
    var year := YearText(y);
    var values :- LineValues(v, item, year);
    var genres := JoinedField(item, "Genres").value;
    if !title.Str? then Err(TypeError)
    else
      Ok(Built(JoinWith("\n", Labelled(Labels(v), values)), DocId(lib, title.s, year),
               RawMetadata(v, item, title, y, genres)))
  }

  function BuildItem(v: Variant, lib: Library): Item -> Result<Built, Exception> {
    item => Build(v, lib, item)
  }

  // ------------------------------------------------------------ load

  /** `documents, ids, metadatas`. */
  datatype Loaded = Loaded(documents: seq<string>, ids: seq<string>, metadatas: seq<Metadata>)

  /** The metadata that reaches the store. */
  function Stored(v: Variant, raw: Metadata): Metadata {
    if v.Standalone? then raw else Clean(raw)
  }

  /** The three lists the build loop appends to, one entry per built document. */
  function Columns(v: Variant, bs: seq<Built>): (r: Loaded)
    ensures |r.documents| == |bs| && |r.ids| == |bs| && |r.metadatas| == |bs|
  {
    if bs == [] then Loaded([], [], [])
    else
      var c := Columns(v, bs[..|bs| - 1]);
      var b := bs[|bs| - 1];
      Loaded(c.documents + [b.text], c.ids + [b.id], c.metadatas + [Stored(v, b.raw)])
  }

  /** The items that reach the dedup loop. */
  function Input(v: Variant, items: seq<Item>): seq<Item> {
    if v.Standalone? then items else FilterComplete(items)
  }

  /** `load_movie_json` on an already parsed item list. */
  function Load(v: Variant, lib: Library, items: seq<Item>): Result<Loaded, Exception> {
    var unique :- Unique(lib, Input(v, items));
    var bs :- MapAll(BuildItem(v, lib), Values(unique));
    Ok(Columns(v, bs))
  }

  /** Entry `i` of each column comes from the `i`-th built document. */
  lemma {:induction false} ColumnsAt(v: Variant, bs: seq<Built>, i: nat)
    requires i < |bs|
    ensures Columns(v, bs).documents[i] == bs[i].text
    ensures Columns(v, bs).ids[i] == bs[i].id
    ensures Columns(v, bs).metadatas[i] == Stored(v, bs[i].raw)
    decreases |bs|
  {
    if i < |bs| - 1 {
      ColumnsAt(v, bs[..|bs| - 1], i);
    }
  }

  lemma ColumnsAppend(v: Variant, bs: seq<Built>, b: Built)
    ensures Columns(v, bs + [b]) ==
              Loaded(Columns(v, bs).documents + [b.text], Columns(v, bs).ids + [b.id],
                     Columns(v, bs).metadatas + [Stored(v, b.raw)])
  {
    assert (bs + [b])[..|bs|] == bs;
  }

  /** One more pass of the dedup loop: it raises what computing the next key raises, or calls `setdefault`. */
  lemma UniqueStep(lib: Library, data: seq<Item>, i: nat)
    requires i < |data| && Unique(lib, data[..i]).Ok?
    ensures DedupKey(lib, data[i]).Err? ==> Unique(lib, data) == Err(DedupKey(lib, data[i]).error)
    ensures DedupKey(lib, data[i]).Ok? ==>
              Unique(lib, data[..i + 1]) ==
                Ok(SetDefault(Unique(lib, data[..i]).value, DedupKey(lib, data[i]).value, data[i]))
  {
    var keyed := MapAll(KeyedItem(lib), data[..i]).value;
    MapAllNext(KeyedItem(lib), data, i, keyed);
    assert KeyedItem(lib)(data[i]) ==
             match DedupKey(lib, data[i]) case Ok(k) => Ok((k, data[i])) case Err(e) => Err(e);
    if DedupKey(lib, data[i]).Ok? {
      FirstPerKeySnoc(keyed, DedupKey(lib, data[i]).value, data[i]);
    }
  }

  /** The dedup loop: `unique.setdefault(dedup_key, item)` for each item in order. */
  method DedupItems(lib: Library, data: seq<Item>) returns (r: Result<Dict<string, Item>, Exception>)
    ensures r == Unique(lib, data)
  {
    var unique: Dict<string, Item> := [];
    var i := 0;
    assert data[..0] == [];
    while i < |data|
      invariant 0 <= i <= |data|
      invariant Unique(lib, data[..i]) == Ok(unique)
    {
      UniqueStep(lib, data, i);
      var key := DedupKey(lib, data[i]);
      if key.Err? {
        return Err(key.error);
      }
      unique := SetDefault(unique, key.value, data[i]);
      i := i + 1;
    }
    assert data[..i] == data;
    return Ok(unique);
  }

  /** `metadatas.append(clean_metadata(raw_meta))`, or the dict as built in the standalone copy. */
  method StoreMetadata(v: Variant, raw: Metadata) returns (meta: Metadata)
    ensures meta == Stored(v, raw)
  {
    meta := raw;
    if !v.Standalone? {
      meta := CleanMetadata(raw);
    }
  }

  /** The build loop: append one text, id and metadata dict per kept item. */
  method BuildDocuments(v: Variant, lib: Library, values: seq<Item>) returns (r: Result<Loaded, Exception>)
    ensures r == (var bs :- MapAll(BuildItem(v, lib), values); Ok(Columns(v, bs)))
  {
    var documents: seq<string>, ids: seq<string>, metadatas: seq<Metadata> := [], [], [];
    ghost var built: seq<Built> := [];
    var j := 0;
    while j < |values|
      invariant 0 <= j <= |values|
      invariant MapAll(BuildItem(v, lib), values[..j]) == Ok(built)
      invariant documents == Columns(v, built).documents
      invariant ids == Columns(v, built).ids
      invariant metadatas == Columns(v, built).metadatas
    {
      BuildStep(v, lib, values, j, built);
      var b := Build(v, lib, values[j]);
      if b.Err? {
        return Err(b.error);
      }
      var meta := StoreMetadata(v, b.value.raw);
      ColumnsAppend(v, built, b.value);
      documents := documents + [b.value.text];
      ids := ids + [b.value.id];
      metadatas := metadatas + [meta];
      built := built + [b.value];
      j := j + 1;
    }
    assert values[..j] == values;
    return Ok(Loaded(documents, ids, metadatas));
  }

  /** One more pass of the build loop: it raises what building the next item raises, or appends the built document. */
  lemma BuildStep(v: Variant, lib: Library, values: seq<Item>, j: nat, built: seq<Built>)
    requires j < |values| && MapAll(BuildItem(v, lib), values[..j]) == Ok(built)
    ensures Build(v, lib, values[j]).Err? ==> MapAll(BuildItem(v, lib), values) == Err(Build(v, lib, values[j]).error)
    ensures Build(v, lib, values[j]).Ok? ==>
              MapAll(BuildItem(v, lib), values[..j + 1]) == Ok(built + [Build(v, lib, values[j]).value])
  {
    MapAllNext(BuildItem(v, lib), values, j, built);
    assert BuildItem(v, lib)(values[j]) == Build(v, lib, values[j]);
  }

  /**
   * `load_movie_json` on the parsed item list: filter (except in the
   * standalone copy), dedup, build. An exception in either loop ends the load.
   */
  method LoadMovieJson(v: Variant, lib: Library, items: seq<Item>) returns (r: Result<Loaded, Exception>)
    ensures r == Load(v, lib, items)
  {
    var data := Input(v, items);
    var unique := DedupItems(lib, data);
    if unique.Err? {
      return Err(unique.error);
    }
    r := BuildDocuments(v, lib, Values(unique.value));
  }

  // ------------------------------------------------------------ properties of a load

  /** The three lists are parallel: entry `i` of each comes from the `i`-th kept item. */
  lemma LoadShape(v: Variant, lib: Library, items: seq<Item>)
    requires Load(v, lib, items).Ok?
    ensures Unique(lib, Input(v, items)).Ok?
    ensures var u := Unique(lib, Input(v, items)).value;
            var out := Load(v, lib, items).value;
            && |out.documents| == |u| && |out.ids| == |u| && |out.metadatas| == |u|
            && forall i :: 0 <= i < |u| ==>
                 && Build(v, lib, u[i].1).Ok?
                 && out.documents[i] == Build(v, lib, u[i].1).value.text
                 && out.ids[i] == Build(v, lib, u[i].1).value.id
                 && out.metadatas[i] == Stored(v, Build(v, lib, u[i].1).value.raw)
  {
    var u := Unique(lib, Input(v, items)).value;
    MapAllOk(BuildItem(v, lib), Values(u));
    var bs := MapAll(BuildItem(v, lib), Values(u)).value;
    assert Load(v, lib, items) == Ok(Columns(v, bs));
    BuiltPerItem(v, lib, u, bs);
    forall i | 0 <= i < |u|
      ensures var out := Columns(v, bs);
              out.documents[i] == bs[i].text && out.ids[i] == bs[i].id && out.metadatas[i] == Stored(v, bs[i].raw)
    {
      ColumnsAt(v, bs, i);
    }
  }

  /** The build loop succeeding means each kept item built, into the document at its position. */
  lemma BuiltPerItem(v: Variant, lib: Library, u: Dict<string, Item>, bs: seq<Built>)
    requires MapAll(BuildItem(v, lib), Values(u)) == Ok(bs)
    ensures |bs| == |u|
    ensures forall i :: 0 <= i < |u| ==> Build(v, lib, u[i].1) == Ok(bs[i])
  {
    MapAllOk(BuildItem(v, lib), Values(u));
    forall i | 0 <= i < |u| ensures Build(v, lib, u[i].1) == Ok(bs[i]) {
      assert BuildItem(v, lib)(Values(u)[i]) == Ok(bs[i]);
    }
  }

  /** Every id holds the `_` separator, so none is empty and the `uuid` fallback never runs. */
  lemma LoadIdsNonEmpty(v: Variant, lib: Library, items: seq<Item>)
    requires Load(v, lib, items).Ok?
    ensures forall i :: 0 <= i < |Load(v, lib, items).value.ids| ==>
              '_' in Load(v, lib, items).value.ids[i] && Load(v, lib, items).value.ids[i] != ""
  {
    LoadShape(v, lib, items);
  }

  /** What one successful build consists of. */
  lemma BuildParts(v: Variant, lib: Library, item: Item)
    requires Build(v, lib, item).Ok?
    ensures ParsedYear(lib, item).Ok?
    ensures GetOr(item, "Title", Str("Unknown Title")).Str?
    ensures LineValues(v, item, YearText(ParsedYear(lib, item).value)).Ok?
    ensures JoinedField(item, "Genres").Ok?
    ensures Build(v, lib, item).value ==
              Built(JoinWith("\n", Labelled(Labels(v), LineValues(v, item, YearText(ParsedYear(lib, item).value)).value)),
                    DocId(lib, GetOr(item, "Title", Str("Unknown Title")).s, YearText(ParsedYear(lib, item).value)),
                    RawMetadata(v, item, GetOr(item, "Title", Str("Unknown Title")), ParsedYear(lib, item).value,
                                JoinedField(item, "Genres").value))
  {
  }

  /**
   * Different dedup keys give different ids: `slug` ignores the whitespace
   * `strip` removes, and the year after the last `_` of an id holds no `_`.
   */
  lemma IdDeterminesKey(lib: Library, ta: string, ya: string, tb: string, yb: string)
    requires SpaceStaysBlank(lib.decompose)
    requires AllDigits(ya) && AllDigits(yb)
    ensures Slug.Slug(lib.decompose, Strip(ta)) + ":" + ya != Slug.Slug(lib.decompose, Strip(tb)) + ":" + yb ==>
              DocId(lib, ta, ya) != DocId(lib, tb, yb)
  {
    SlugIgnoresSurroundingSpace(lib.decompose, ta);
    SlugIgnoresSurroundingSpace(lib.decompose, tb);
    assert forall i :: 0 <= i < |ya| ==> ya[i] != '_';
    assert forall i :: 0 <= i < |yb| ==> yb[i] != '_';
    if DocId(lib, ta, ya) == DocId(lib, tb, yb) {
      SplitAtLastSep(Slug.Slug(lib.decompose, ta), ya, Slug.Slug(lib.decompose, tb), yb, '_');
    }
  }

  /** For an item with a title, the id is built from the same title and year as its dedup key. */
  lemma IdAndKey(v: Variant, lib: Library, item: Item)
    requires "Title" in item && Build(v, lib, item).Ok?
    ensures item["Title"].Str? && ParsedYear(lib, item).Ok?
    ensures DedupKey(lib, item) ==
              Ok(Slug.Slug(lib.decompose, Strip(item["Title"].s)) + ":" + YearText(ParsedYear(lib, item).value))
    ensures Build(v, lib, item).value.id == DocId(lib, item["Title"].s, YearText(ParsedYear(lib, item).value))
  {
    BuildParts(v, lib, item);
  }

  /** With the required-field filter, the ids of a load are pairwise distinct. */
  lemma LoadIdsDistinct(v: Variant, lib: Library, items: seq<Item>)
    requires v != Standalone && SpaceStaysBlank(lib.decompose)
    requires Load(v, lib, items).Ok?
    ensures forall i, j :: 0 <= i < j < |Load(v, lib, items).value.ids| ==>
              Load(v, lib, items).value.ids[i] != Load(v, lib, items).value.ids[j]
  {
    var data := Input(v, items);
    LoadShape(v, lib, items);
    UniqueDistinct(lib, data);
    UniqueEntries(lib, data);
    var u := Unique(lib, data).value;
    var ids := Load(v, lib, items).value.ids;
    assert "Title" in RequiredFields;
    forall i, j | 0 <= i < j < |ids| ensures ids[i] != ids[j] {
      var a, b := u[i].1, u[j].1;
      assert HasValue(a, "Title") && HasValue(b, "Title");
      IdAndKey(v, lib, a);
      IdAndKey(v, lib, b);
      IdDeterminesKey(lib, a["Title"].s, YearText(ParsedYear(lib, a).value), b["Title"].s, YearText(ParsedYear(lib, b).value));
    }
  }

  lemma StripUnknownTitle()
    ensures Strip("Unknown Title") == "Unknown Title"
  {
    var t := "Unknown Title";
    assert t[0] == 'U' && t[|t| - 1] == 'e';
    assert LStrip(t) == t;
    assert RStrip(t) == t;
  }

  /** An item with no fields at all. */
  const Untitled: Item := map[]

  /** An item whose only field is the title the build loop falls back to. */
  const UnknownTitled: Item := map["Title" := Str("Unknown Title")]

  /** The untitled, undated item is keyed `":"`. */
  lemma UntitledKey(lib: Library)
    ensures DedupKey(lib, Untitled) == Ok(":")
  {
    assert KeyTitle(Untitled) == Ok("") by {
      assert GetOr(Untitled, "Title", Str("")) == Str("");
      assert Strip("") == "";
    }
    assert ParsedYear(lib, Untitled) == Ok(None) by {
      assert GetField(Untitled, "PremiereDate") == Null;
    }
    assert Slug.Slug(lib.decompose, "") == "" by {
      SlugOfEmpty(lib.decompose);
    }
    assert DedupKey(lib, Untitled).Ok?;
    assert DedupKey(lib, Untitled).value == "" + ":" + "";
    assert "" + ":" + "" == ":";
  }

  /** `slug("Unknown Title") == "unknown_title"`. */
  lemma UnknownTitleSlug(lib: Library)
    requires FixesAscii(lib.decompose)
    ensures Slug.Slug(lib.decompose, "Unknown Title") == "unknown_title"
    ensures DocId(lib, "Unknown Title", "") == "unknown_title_"
  {
    SlugOfUnknownTitle(lib.decompose);
  }

  /** An item without a title is keyed by the empty slug and its year. */
  lemma UntitledItemKey(lib: Library, item: Item)
    requires "Title" !in item && ParsedYear(lib, item).Ok?
    ensures DedupKey(lib, item) == Ok(":" + YearText(ParsedYear(lib, item).value))
  {
    assert KeyTitle(item) == Ok("") by {
      assert GetOr(item, "Title", Str("")) == Str("");
      assert Strip("") == "";
    }
    SlugOfEmpty(lib.decompose);
    assert "" + ":" + YearText(ParsedYear(lib, item).value) == ":" + YearText(ParsedYear(lib, item).value);
  }

  /** In the standalone script an item without a title builds exactly when its lines do, under the name `"Unknown Title"`. */
  lemma UntitledItemBuild(lib: Library, item: Item)
    requires "Title" !in item && ParsedYear(lib, item).Ok?
    ensures var year := YearText(ParsedYear(lib, item).value);
            && (Build(Standalone, lib, item).Ok? <==> LineValues(Standalone, item, year).Ok?)
            && (Build(Standalone, lib, item).Ok? ==> Build(Standalone, lib, item).value.id == DocId(lib, "Unknown Title", year))
  {
    assert GetOr(item, "Title", Str("Unknown Title")) == Str("Unknown Title");
  }

  /** The id of a document named `"Unknown Title"`. */
  lemma UnknownTitleId(lib: Library, year: string)
    requires FixesAscii(lib.decompose)
    ensures DocId(lib, "Unknown Title", year) == "unknown_title" + "_" + year
  {
    SlugOfUnknownTitle(lib.decompose);
  }

  /**
   * An item without a title in the standalone script is keyed by the empty
   * slug and its year, but its text and id use `"Unknown Title"`: it builds
   * exactly when its lines do, and its id is `unknown_title_<year>`.
   */
  lemma UntitledItem(lib: Library, item: Item)
    requires "Title" !in item
    requires DedupKey(lib, item).Ok?
    ensures var year := YearText(ParsedYear(lib, item).value);
            && DedupKey(lib, item).value == ":" + year
            && (Build(Standalone, lib, item).Ok? <==> LineValues(Standalone, item, year).Ok?)
            && (Build(Standalone, lib, item).Ok? ==> Build(Standalone, lib, item).value.id == DocId(lib, "Unknown Title", year))
            && (FixesAscii(lib.decompose) && Build(Standalone, lib, item).Ok? ==>
                  Build(Standalone, lib, item).value.id == "unknown_title" + "_" + year)
  {
    UntitledItemKey(lib, item);
    UntitledItemBuild(lib, item);
    if FixesAscii(lib.decompose) {
      UnknownTitleId(lib, YearText(ParsedYear(lib, item).value));
    }
  }

  /** The item titled "Unknown Title", undated, is keyed `slug("Unknown Title") + ":"`. */
  lemma UnknownTitledKey(lib: Library)
    ensures DedupKey(lib, UnknownTitled) == Ok(Slug.Slug(lib.decompose, "Unknown Title") + ":")
  {
    assert KeyTitle(UnknownTitled) == Ok("Unknown Title") by {
      assert GetOr(UnknownTitled, "Title", Str("")) == Str("Unknown Title");
      StripUnknownTitle();
    }
    assert ParsedYear(lib, UnknownTitled) == Ok(None) by {
      assert |"PremiereDate"| != |"Title"|;
      assert GetField(UnknownTitled, "PremiereDate") == Null;
    }
    var k := Slug.Slug(lib.decompose, "Unknown Title") + ":";
    assert DedupKey(lib, UnknownTitled).value == k + "";
    assert k + "" == k;
  }

  /** Two items under different keys are both kept, in order. */
  lemma UniqueOfTwo(lib: Library, a: Item, b: Item, ka: string, kb: string)
    requires DedupKey(lib, a) == Ok(ka) && DedupKey(lib, b) == Ok(kb) && ka != kb
    ensures Unique(lib, [a, b]) == Ok([(ka, a), (kb, b)])
  {
    assert KeyedItem(lib)(a) == Ok((ka, a));
    assert KeyedItem(lib)(b) == Ok((kb, b));
    MapAllOfTwo(KeyedItem(lib), a, b);
    FirstPerKeyOfTwo((ka, a), (kb, b));
  }

  /** Dedup keeps both items. */
  lemma CollisionUnique(lib: Library)
    requires FixesAscii(lib.decompose)
    ensures Unique(lib, [Untitled, UnknownTitled]).Ok?
    ensures Values(Unique(lib, [Untitled, UnknownTitled]).value) == [Untitled, UnknownTitled]
  {
    UntitledKey(lib);
    UnknownTitledKey(lib);
    UnknownTitleSlug(lib);
    var k := Slug.Slug(lib.decompose, "Unknown Title") + ":";
    assert k != ":" by {
      assert |k| == |"unknown_title"| + 1;
    }
    UniqueOfTwo(lib, Untitled, UnknownTitled, ":", k);
    ValuesOfTwo((":", Untitled), (k, UnknownTitled));
  }

  /** An undated item whose only field is possibly a title builds, under the `"Unknown Title"` default. */
  lemma CollisionBuild(lib: Library, item: Item)
    requires item == Untitled || item == UnknownTitled
    ensures Build(Standalone, lib, item).Ok?
    ensures Build(Standalone, lib, item).value.id == DocId(lib, "Unknown Title", "")
  {
    assert GetOr(item, "Title", Str("Unknown Title")) == Str("Unknown Title");
    assert ParsedYear(lib, item) == Ok(None);
    assert GetOr(item, "Genres", List([])) == List([]);
    assert GetOr(item, "Tags", List([])) == List([]);
    assert GetOr(item, "Actors", List([])) == List([]);
    assert LineValues(Standalone, item, "").Ok?;
  }

  /**
   * The standalone copy has no filter and keys a missing title by `""` but
   * names its document after `"Unknown Title"`: an item without a title and
   * one titled "Unknown Title", both undated, survive dedup under different
   * keys and receive the same id.
   */
  lemma StandaloneIdCollision(lib: Library)
    requires FixesAscii(lib.decompose)
    ensures Load(Standalone, lib, [Untitled, UnknownTitled]).Ok?
    ensures var ids := Load(Standalone, lib, [Untitled, UnknownTitled]).value.ids;
            |ids| == 2 && ids[0] == ids[1] == "unknown_title_"
  {
    UnknownTitleSlug(lib);
    var a, b := Untitled, UnknownTitled;
    assert Input(Standalone, [a, b]) == [a, b];
    CollisionUnique(lib);
    CollisionBuild(lib, a);
    CollisionBuild(lib, b);
    var ba, bb := Build(Standalone, lib, a).value, Build(Standalone, lib, b).value;
    LoadOfTwo(Standalone, lib, a, b, ba, bb);
    ColumnsAt(Standalone, [ba, bb], 0);
    ColumnsAt(Standalone, [ba, bb], 1);
  }

  /** A load whose dedup succeeds and whose kept items all build stores one column entry per built document. */
  lemma LoadOfBuilt(v: Variant, lib: Library, items: seq<Item>, bs: seq<Built>)
    requires Unique(lib, Input(v, items)).Ok?
    requires MapAll(BuildItem(v, lib), Values(Unique(lib, Input(v, items)).value)) == Ok(bs)
    ensures Load(v, lib, items) == Ok(Columns(v, bs))
  {
  }

  /** Two items that both survive dedup, in order, and both build load as two documents. */
  lemma LoadOfTwo(v: Variant, lib: Library, a: Item, b: Item, ba: Built, bb: Built)
    requires Unique(lib, Input(v, [a, b])).Ok? && Values(Unique(lib, Input(v, [a, b])).value) == [a, b]
    requires Build(v, lib, a) == Ok(ba) && Build(v, lib, b) == Ok(bb)
    ensures Load(v, lib, [a, b]) == Ok(Columns(v, [ba, bb]))
  {
    var f := BuildItem(v, lib);
    assert f(a) == Ok(ba) && f(b) == Ok(bb);
    MapAllOfTwo(f, a, b);
    LoadOfBuilt(v, lib, [a, b], [ba, bb]);
  }

  lemma LabelsOneLine(v: Variant)
    ensures forall i :: 0 <= i < |Labels(v)| ==> '\n' !in Labels(v)[i]
  {
  }

  /**
   * The document text is its labelled lines joined by newlines, one line per
   * label; when no value holds a newline, splitting the text on newlines gives
   * back exactly those lines.
   */
  lemma TextLines(v: Variant, lib: Library, item: Item)
    requires Build(v, lib, item).Ok?
    ensures LineValues(v, item, YearText(ParsedYear(lib, item).value)).Ok?
    ensures var vals := LineValues(v, item, YearText(ParsedYear(lib, item).value)).value;
            var lines := Labelled(Labels(v), vals);
            && Build(v, lib, item).value.text == JoinWith("\n", lines)
            && ((forall i :: 0 <= i < |vals| ==> '\n' !in vals[i]) ==>
                  Split(Build(v, lib, item).value.text, '\n') == lines)
  {
    BuildParts(v, lib, item);
    LinesSplit(v, LineValues(v, item, YearText(ParsedYear(lib, item).value)).value);
  }

  /** The labelled lines of one-line values split back apart once joined. */
  lemma LinesSplit(v: Variant, vals: seq<string>)
    requires |vals| == |Labels(v)|
    ensures (forall i :: 0 <= i < |vals| ==> '\n' !in vals[i]) ==>
              Split(JoinWith("\n", Labelled(Labels(v), vals)), '\n') == Labelled(Labels(v), vals)
  {
    if forall i :: 0 <= i < |vals| ==> '\n' !in vals[i] {
      LabelsOneLine(v);
      LabelledSplit(Labels(v), vals);
    }
  }

  /** Lines made of one-line labels and values split back apart once joined. */
  lemma LabelledSplit(labels: seq<string>, vals: seq<string>)
    requires |labels| == |vals| && |labels| > 0
    requires forall i :: 0 <= i < |labels| ==> '\n' !in labels[i]
    requires forall i :: 0 <= i < |vals| ==> '\n' !in vals[i]
    ensures Split(JoinWith("\n", Labelled(labels, vals)), '\n') == Labelled(labels, vals)
  {
    var lines := Labelled(labels, vals);
    forall i | 0 <= i < |lines| ensures '\n' !in lines[i] {
      assert lines[i] == labels[i] + vals[i];
    }
    SplitJoin(lines, '\n');
  }

  /**
   * What the lines say: the title (`"Unknown Title"` when absent), the year
   * text, at most the first five actors, the plot; in the shipped copy, an
   * absent rating reads "Not Rated", a `None` rating "None", an absent
   * runtime "Unknown".
   */
  lemma LineContents(v: Variant, item: Item, year: string)
    requires LineValues(v, item, year).Ok?
    ensures var lines := Labelled(Labels(v), LineValues(v, item, year).value);
            && lines[0] == "Title: " + PyStr(GetOr(item, "Title", Str("Unknown Title")))
            && lines[1] == "Year: " + year
            && (GetOr(item, "Actors", List([])).List? ==>
                  var xs := GetOr(item, "Actors", List([])).items;
                  lines[4] == "Actors: " + JoinComma(List(xs[..if |xs| < 5 then |xs| else 5])).value)
            && lines[|lines| - 1] == "Plot: " + PyStr(GetOr(item, "Plot", Str("")))
  {
  }

  /**
   * The rating and runtime lines of the shipped copy: an absent rating reads
   * "Not Rated", a `None` rating "None", an absent runtime "Unknown".
   */
  lemma ShippedRatingLines(item: Item, year: string)
    requires LineValues(Shipped, item, year).Ok?
    ensures var lines := Labelled(Labels(Shipped), LineValues(Shipped, item, year).value);
            && ("CriticRating" !in item ==> lines[5] == "Critic Rating: Not Rated")
            && ("CriticRating" in item && item["CriticRating"] == Null ==> lines[5] == "Critic Rating: None")
            && ("OfficialRating" !in item ==> lines[6] == "Official Rating: Not Rated")
            && ("RuntimeMinutes" !in item ==> lines[7] == "Runtime: Unknown minutes")
  {
    ShippedValues(item, year);
    RatingTexts(item);
    ShippedRatingLabels(LineValues(Shipped, item, year).value);
  }

  /** The labels of the rating and runtime lines of the shipped copy. */
  lemma ShippedRatingLabels(vals: seq<string>)
    requires |vals| == |Labels(Shipped)|
    ensures var lines := Labelled(Labels(Shipped), vals);
            && (vals[5] == "Not Rated" ==> lines[5] == "Critic Rating: Not Rated")
            && (vals[5] == "None" ==> lines[5] == "Critic Rating: None")
            && (vals[6] == "Not Rated" ==> lines[6] == "Official Rating: Not Rated")
            && (vals[7] == "Unknown minutes" ==> lines[7] == "Runtime: Unknown minutes")
  {
  }

  /** What `str(item.get(field, default))` gives for an absent or `None` rating and an absent runtime. */
  lemma RatingTexts(item: Item)
    ensures "CriticRating" !in item ==> PyStr(GetOr(item, "CriticRating", Str("Not Rated"))) == "Not Rated"
    ensures "CriticRating" in item && item["CriticRating"] == Null ==>
              PyStr(GetOr(item, "CriticRating", Str("Not Rated"))) == "None"
    ensures "OfficialRating" !in item ==> PyStr(GetOr(item, "OfficialRating", Str("Not Rated"))) == "Not Rated"
    ensures "RuntimeMinutes" !in item ==> PyStr(GetOr(item, "RuntimeMinutes", Str("Unknown"))) == "Unknown"
  {
  }

  /** The values of the rating and runtime lines of the shipped copy. */
  lemma ShippedValues(item: Item, year: string)
    requires LineValues(Shipped, item, year).Ok?
    ensures var vals := LineValues(Shipped, item, year).value;
            && vals[5] == PyStr(GetOr(item, "CriticRating", Str("Not Rated")))
            && vals[6] == PyStr(GetOr(item, "OfficialRating", Str("Not Rated")))
            && vals[7] == PyStr(GetOr(item, "RuntimeMinutes", Str("Unknown"))) + " minutes"
            && ("RuntimeMinutes" !in item ==> vals[7] == "Unknown minutes")
  {
    RatingTexts(item);
  }

  /**
   * Sanitised metadata (shipped and legacy copies): `title`, `year` and
   * `genres`, then each rating (and, shipped only, the runtime) only when it
   * is not `None`; every value is a scalar.
   */
  lemma StoredMetadataKeys(v: Variant, item: Item, title: string, y: Option<Year>, genres: string)
    requires v != Standalone
    ensures var meta := Stored(v, RawMetadata(v, item, Str(title), y, genres));
            && Keys(meta) == ["title", "year", "genres"]
                 + (if GetField(item, "CriticRating") != Null then ["critic_rating"] else [])
                 + (if GetField(item, "OfficialRating") != Null then ["official_rating"] else [])
                 + (if v.Shipped? && GetField(item, "RuntimeMinutes") != Null then ["runtime_minutes"] else [])
            && forall i :: 0 <= i < |meta| ==> IsScalar(meta[i].1)
  {
    var raw := RawMetadata(v, item, Str(title), y, genres);
    var head: Metadata := [("title", Str(title)), ("year", Int(YearNumber(YearText(y)))), ("genres", Str(genres))];
    var critic: Metadata := [("critic_rating", GetField(item, "CriticRating"))];
    var official: Metadata := [("official_rating", GetField(item, "OfficialRating"))];
    var runtime: Metadata := if v.Shipped? then [("runtime_minutes", GetField(item, "RuntimeMinutes"))] else [];
    assert raw == head + critic + official + runtime;
    NonNullKeysConcat(head + critic + official, runtime);
    NonNullKeysConcat(head + critic, official);
    NonNullKeysConcat(head, critic);
    NonNullKeysOfHead(title, YearNumber(YearText(y)), genres);
    NonNullKeysOne("critic_rating", GetField(item, "CriticRating"));
    NonNullKeysOne("official_rating", GetField(item, "OfficialRating"));
    if v.Shipped? {
      NonNullKeysOne("runtime_minutes", GetField(item, "RuntimeMinutes"));
    }
    RawMetadataDistinct(v, item, Str(title), y, genres);
    CleanKeys(raw);
    CleanIsScalar(raw);
  }

  /** The title, year and genres entries are never `None`. */
  lemma NonNullKeysOfHead(title: string, year: int, genres: string)
    ensures NonNullKeys([("title", Str(title)), ("year", Int(year)), ("genres", Str(genres))]) == ["title", "year", "genres"]
  {
    var h1: Metadata := [("title", Str(title))];
    var h2: Metadata := [("year", Int(year))];
    var h3: Metadata := [("genres", Str(genres))];
    assert [("title", Str(title)), ("year", Int(year)), ("genres", Str(genres))] == h1 + h2 + h3;
    NonNullKeysConcat(h1 + h2, h3);
    NonNullKeysConcat(h1, h2);
    NonNullKeysOne("title", Str(title));
    NonNullKeysOne("year", Int(year));
    NonNullKeysOne("genres", Str(genres));
  }

  /** The keys of the metadata dict as built are pairwise different. */
  lemma RawMetadataDistinct(v: Variant, item: Item, title: Value, y: Option<Year>, genres: string)
    ensures DistinctKeys(RawMetadata(v, item, title, y, genres))
  {
  }

  /** The sanitised `year` is the parsed year, or 0 when none was parsed; `genres` is the joined text. */
  lemma StoredMetadataValues(v: Variant, item: Item, title: string, y: Option<Year>, genres: string)
    requires v != Standalone
    ensures var meta := Stored(v, RawMetadata(v, item, Str(title), y, genres));
            && Get(meta, "year") == Some(Int(match y case None => 0 case Some(n) => n))
            && Get(meta, "genres") == Some(Str(genres))
  {
    var raw := RawMetadata(v, item, Str(title), y, genres);
    assert raw[1] == ("year", Int(YearNumber(YearText(y)))) && raw[2] == ("genres", Str(genres));
    RawMetadataDistinct(v, item, Str(title), y, genres);
    GetAt(raw, 1);
    GetAt(raw, 2);
    CleanGet(raw, "year");
    CleanGet(raw, "genres");
    YearNumberOfText(y);
  }

  /**
   * Metadata in the standalone copy: stored as built, with the year as text,
   * the genres as the raw value and `None` ratings kept.
   */
  lemma StandaloneMetadata(item: Item, title: Value, y: Option<Year>, genres: string)
    ensures var meta := Stored(Standalone, RawMetadata(Standalone, item, title, y, genres));
            && Keys(meta) == ["title", "year", "genres", "critic_rating", "official_rating"]
            && Get(meta, "year") == Some(Str(YearText(y)))
            && Get(meta, "genres") == Some(GetOr(item, "Genres", List([])))
            && Get(meta, "critic_rating") == Some(GetField(item, "CriticRating"))
            && Get(meta, "official_rating") == Some(GetField(item, "OfficialRating"))
  {
    var meta := RawMetadata(Standalone, item, title, y, genres);
    assert meta == [("title", title), ("year", Str(YearText(y))), ("genres", GetOr(item, "Genres", List([]))),
                    ("critic_rating", GetField(item, "CriticRating")),
                    ("official_rating", GetField(item, "OfficialRating"))];
    RawMetadataDistinct(Standalone, item, title, y, genres);
    GetAt(meta, 1);
    GetAt(meta, 2);
    GetAt(meta, 3);
    GetAt(meta, 4);
  }
}
