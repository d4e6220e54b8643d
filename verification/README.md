# jellyseek core in Dafny

A model of the two parts of jellyseek that hold real logic:

- **Ingestion.** Three copies of `load_movie_json` turn a list of raw catalog items into the parallel lists of document texts, ids and metadata that the vector store receives:
  - the shipped one in `src/jellyseek/rag/db_generator.py`;
  - the earlier one in `src/rag_gen/db_generator.py`;
  - the standalone one in `src/rag_gen/rag.py`.

  The pipeline around them is modelled too:
  - `slug` and `clean_metadata`;
  - the `generate_database` rebuild (prompt, delete, create, load, add), shipped and earlier;
  - the context and prompt of the standalone `rag_pipeline`.
- **The chat assistant.** This covers:
  - the command registry of `src/jellyseek/rag/commands.py`, with the guards of `/update`;
  - the opening and querying of the collection in `src/jellyseek/rag/database.py`;
  - the query turn, the empty-collection start-up and the chat loop of `src/jellyseek/rag/movie_chat.py`.

Modules, one file each:

| file | module | what it holds |
|---|---|---|
| `wrappers.dfy` | `Wrappers` | `Option`, `Result`, and `MapAll` (a Python `for` loop that a raised exception ends) |
| `text.dfy` | `Text` | `strip`, `rstrip(ch)`, `lower`, `str(int)`/`int(str)`, `join`, `split` |
| `dict.dfy` | `Dict` | insertion-ordered dicts as sequences of pairs: `get`, `d[k] = v`, `setdefault` |
| `json.dfy` | `Json` | a raw item as a map from field name to a JSON value; `str(v)`, `", ".join(v)`, `v[:5]` |
| `slug.dfy` | `Slug` | `slug`: NFKD/ASCII fold, `lower`, `re.sub("[^a-z0-9]+", "_")`, `strip("_")` |
| `metadata.dfy` | `Metadata` | `clean_metadata` |
| `dedup.dfy` | `Dedup` | `setdefault` over a sequence of pairs: the first pair per key, in first-seen order |
| `ingest.dfy` | `Ingest` | filter, dedup and build loops of the three `load_movie_json` copies |
| `store.dfy` | `Store` | the `movies_rag` collection as a `Client` object with a change log |
| `generator.dfy` | `Generator` | the `generate_database` runs, as written and corrected; the earlier get-or-create version |
| `commands.dfy` | `Commands` | `CommandHandler`, `cmd_quit`, `cmd_help`, `cmd_update`, `create_command_handler` |
| `database.dfy` | `Database` | `initialize_database`, `query_database` |
| `chat.dfy` | `Chat` | `handle_query`, `handle_command`, `handle_empty_database`, `chat_loop` |
| `rag.dfy` | `Rag` | `query_chromadb`, the context and the prompt of `rag_pipeline` |

External parts become parameters:

- **Unicode NFKD decomposition.** `Slug.Decomposition` maps one character to its full compatibility decomposition. The fold is the concatenation of the per-character decompositions with non-ASCII characters dropped. That is exact for the ASCII result, because canonical reordering only moves combining marks, and those are dropped anyway. Two facts about Unicode are stated as predicates and required where they are used:
  - NFKD leaves ASCII alone (`FixesAscii`);
  - no whitespace character decomposes to an ASCII letter or digit (`SpaceStaysBlank`).
- **`datetime.fromisoformat(s).year`.** This is `Library.parseYear`, which returns `None` where Python raises `ValueError`.
- **Nearest-neighbour search.** `Database.Search` answers a query with one batch per query text.
- **The two language-model calls.** These are `Chat.Llm`, plus the `generate` function given to `Rag.RagPipeline`.
- **Operator input.** This is a sequence of lines; running out of lines is `input()` raising `EOFError`.
- **The snapshot file.** It is `None` when the file does not exist, and otherwise the item list it holds.
- **What `fetch_items()` returned, and whether `save_items` succeeded.** These arrive in `Commands.UpdateEnv`.

Every change to the collection is recorded in the `Client`'s `log`, as `Deleted`, `Created` or `Added(batch)`. Methods state the new state as the replay of the logged changes over the old state. That lets lemmas about whole runs talk about the order of deletes, creates and adds.

Three behaviours of the code are easy to misread, and the model follows what the code does:

- **Document ids.** `ids.append(f"{slug(title)}_{year_from}" or uuid.uuid4().hex)` appears at `src/jellyseek/rag/db_generator.py:86`, `src/rag_gen/db_generator.py:76` and `src/rag_gen/rag.py:95`. The f-string always holds `_`, so the `uuid` alternative never runs, even when the year is empty (`Ingest.DocId`, `Ingest.LoadIdsNonEmpty`).
- **Ill-typed fields.** `item.get("Title", "").strip()` (`db_generator.py:50`) raises on a non-string title, and `", ".join(...)` (`:76`) raises on a genre list that is not a list of strings. The only handler inside the loops catches the `ValueError` of the date parse (`:55`), so one such item ends the whole load (`Wrappers.MapAll`, `Ingest.UniqueStep`, `Ingest.BuildStep`).
- **The snapshot check.** The existence check for `jellyfin_items.json`, with its message "Please run the jellyfin_export script first" (`db_generator.py:170-172`), runs only after the delete (`:148`) and the create (`:163`). See "## Findings".

## Model

| member | source | states |
|---|---|---|
| Wrappers.MapAllOk | src/jellyseek/rag/db_generator.py:49-58 | a loop over the items completes exactly when no iteration raises, and then yields one result per item, in order |
| Wrappers.MapAllFirstError | src/jellyseek/rag/db_generator.py:49-58 | a loop that raises raises the exception of the first iteration that raises, and every iteration before it completed |
| Wrappers.MapAllStep | src/jellyseek/rag/db_generator.py:61-97 | a loop over the first `j + 1` items is the loop over the first `j`, followed by one more iteration that either raises or appends |
| Wrappers.MapAllNext | src/jellyseek/rag/db_generator.py:49-58 | one more iteration either ends the whole loop with its exception or appends its result |
| Wrappers.MapAllErrorSticks | src/jellyseek/rag/db_generator.py:49-58 | once an iteration has raised, the later items change nothing: the loop raises that exception |
| Wrappers.MapAllOfTwo | src/rag_gen/rag.py:60-69 | a loop over two items that both complete yields their two results in order |
| Text.StripSplit | src/jellyseek/rag/db_generator.py:50 | `s` is `s.strip()` with whitespace before and after, and `s.strip()` neither starts nor ends with whitespace |
| Text.LStripSplit | src/jellyseek/rag/db_generator.py:50 | `s.lstrip()` is what follows a run of whitespace in `s`, and does not start with whitespace |
| Text.RStripSplit | src/jellyseek/rag/db_generator.py:50 | `s.rstrip()` is what precedes a run of whitespace in `s`, and does not end with whitespace |
| Text.RStripChar | src/jellyseek/rag/db_generator.py:54 | `date_str.rstrip("Z")` is a prefix of the date that does not end in `Z`, and everything cut off is `Z` |
| Text.Lower | src/jellyseek/rag/db_generator.py:103 | `s.lower()` has the length of `s` and lowers each character on its own |
| Text.LowerAppend | src/jellyseek/rag/db_generator.py:103 | lowering a concatenation lowers each part |
| Text.NatToDecimal | src/jellyseek/rag/db_generator.py:54 | `str(year)` is a non-empty string of decimal digits |
| Text.DigitValue | src/jellyseek/rag/db_generator.py:89 | `int(c)` of a digit character is below 10, and `str` of it gives the character back |
| Text.ParseDecimalOfNatToDecimal | src/jellyseek/rag/db_generator.py:89 | `int(str(n)) == n` |
| Text.Split | src/jellyseek/rag/commands.py:30-33 | `s.split(sep)` never returns an empty list |
| Text.SplitNoSep | src/jellyseek/rag/commands.py:30-33 | a string without the separator splits to itself alone |
| Text.SplitAfterFirst | src/jellyseek/rag/commands.py:30-33 | a first part without the separator splits off as the first element |
| Text.SplitJoin | src/jellyseek/rag/commands.py:30-33 | splitting `sep.join(parts)` on `sep` gives back `parts` when no part holds `sep` |
| Text.SplitAtLastSep | src/rag_gen/rag.py:163 | two equal strings that end in a separator followed by separator-free tails have equal heads and equal tails |
| Dict.Keys | src/jellyseek/rag/db_generator.py:58 | `list(d.keys())` lists the key of each pair in order |
| Dict.Values | src/jellyseek/rag/db_generator.py:62 | `list(d.values())` lists the value of each pair in order |
| Dict.ValuesOfTwo | src/jellyseek/rag/db_generator.py:62 | the values of a two-entry dict are its two values, in order |
| Dict.Get | src/jellyseek/rag/commands.py:23 | `d.get(k)` is `None` exactly when `k` is not a key |
| Dict.GetAt | src/jellyseek/rag/commands.py:23 | in a dict, looking up the key at position `i` gives the value at position `i` |
| Dict.Put | src/jellyseek/rag/commands.py:19 | after `d[k] = v` the keys are unchanged when `k` was present; otherwise `k` is added last |
| Dict.GetPut | src/jellyseek/rag/commands.py:19 | after `d[k] = v`, `k` maps to `v` and every other key maps to what it mapped to before |
| Dict.PutAt | src/jellyseek/rag/commands.py:19 | assigning a present key replaces its pair where it stands and changes nothing else |
| Dict.PutDistinct | src/jellyseek/rag/commands.py:19 | assignment keeps every key unique |
| Dict.PutAppends | src/jellyseek/rag/commands.py:19 | assigning a new key appends the pair |
| Dict.PutPairs | src/jellyseek/rag/commands.py:19 | every pair after the assignment is the new pair or a pair from before |
| Dict.GetAppend | src/jellyseek/rag/db_generator.py:58 | looking a key up after appending a pair finds the earlier pair when there is one, else the appended one when the key matches |
| Dict.LastKeyFresh | src/jellyseek/rag/db_generator.py:58 | in a dict, the last key does not occur before it |
| Json.JoinComma | src/jellyseek/rag/db_generator.py:76 | `", ".join(v)` succeeds exactly on a list of strings or a string; anything else raises `TypeError` |
| Json.FirstFive | src/jellyseek/rag/db_generator.py:78 | `v[:5]` keeps at most the first five entries of a list or characters of a string; it raises on anything else |
| Slug.DropNonAsciiKeeps | src/jellyseek/rag/db_generator.py:102 | `encode("ascii", "ignore")` keeps only ASCII characters, and only characters of its input |
| Slug.SkipRun | src/jellyseek/rag/db_generator.py:103 | skipping a run outside `[a-z0-9]` leaves text that is empty or starts in `[a-z0-9]` |
| Slug.SkipRunSkipsBlank | src/jellyseek/rag/db_generator.py:103 | everything skipped lies outside `[a-z0-9]` |
| Slug.CollapseRuns | src/jellyseek/rag/db_generator.py:103 | `re.sub(r"[^a-z0-9]+", "_", t)` is empty exactly when `t` is; it starts with `t`'s first character when that is in `[a-z0-9]`, and otherwise with `_` |
| Slug.CollapseRunsShape | src/jellyseek/rag/db_generator.py:103 | the substitution yields only `[a-z0-9_]`, and never `__` |
| Slug.DropLeadingSep | src/jellyseek/rag/db_generator.py:103 | `lstrip("_")` is a suffix that does not start with `_` |
| Slug.DropTrailingSep | src/jellyseek/rag/db_generator.py:103 | `rstrip("_")` is a prefix that does not end with `_`, and only `_` is cut |
| Slug.StripSepIsSlug | src/jellyseek/rag/db_generator.py:103 | `strip("_")` of `[a-z0-9_]*` without `__` is a slug |
| Slug.SlugOfAsciiIsSlug | src/jellyseek/rag/db_generator.py:103 | lower, substitute and strip give `[a-z0-9_]*`, with no `_` at either end and never `__` |
| Slug.SlugIsSlug | src/jellyseek/rag/db_generator.py:100-103 | whatever the title, `slug` gives `[a-z0-9_]*`, with no `_` at either end and never `__` |
| Slug.AsciiFoldFixesAscii | src/jellyseek/rag/db_generator.py:102 | the fold leaves ASCII text unchanged |
| Slug.CollapseRunsFixesSlug | src/jellyseek/rag/db_generator.py:103 | the substitution leaves `[a-z0-9_]*` without `__` unchanged |
| Slug.CollapseRunsStep | src/jellyseek/rag/db_generator.py:103 | on such text the substitution keeps the first character and carries on |
| Slug.SlugOfAsciiFixesSlug | src/jellyseek/rag/db_generator.py:103 | lower, substitute and strip leave a slug unchanged |
| Slug.SlugOfAsciiLower | src/jellyseek/rag/db_generator.py:103 | lowering first changes nothing |
| Slug.SlugIdempotent | src/jellyseek/rag/db_generator.py:100-103 | `slug(slug(s)) == slug(s)` |
| Slug.SlugIgnoresAsciiCase | src/jellyseek/rag/db_generator.py:100-103 | for an ASCII title, `slug(s.lower()) == slug(s)` |
| Slug.SlugOfAsciiWord | src/jellyseek/rag/db_generator.py:103 | an ASCII word of letters and digits becomes its lower-case form |
| Slug.SlugOfWord | src/jellyseek/rag/db_generator.py:100-103 | a title of ASCII letters and digits slugs to its lower-case form |
| Slug.SlugOfUpperCase | src/jellyseek/rag/db_generator.py:100-103 | `slug("AMELIE") == "amelie"` |
| Slug.LowerAmelie | src/jellyseek/rag/db_generator.py:103 | `"AMELIE".lower() == "Amelie".lower() == "amelie"` |
| Slug.CollapseRunsKeepsWord | src/jellyseek/rag/db_generator.py:103 | a word of `[a-z0-9]` passes through the substitution unchanged, whatever follows it |
| Slug.LowerUnknownTitle | src/rag_gen/rag.py:52 | `"Unknown Title".lower() == "unknown title"` |
| Slug.UnknownTitleWords | src/rag_gen/rag.py:52 | `"unknown"` and `"title"` consist of `[a-z0-9]` only, so the substitution keeps them |
| Slug.CollapseUnknownTitle | src/rag_gen/rag.py:52 | the substitution replaces the single blank of `"unknown title"` by `_` and keeps both words |
| Slug.SlugOfAsciiUnknownTitle | src/rag_gen/rag.py:52 | substituting and stripping `"unknown title"` gives `"unknown_title"` |
| Slug.SlugOfUnknownTitle | src/rag_gen/rag.py:49-52 | `slug("Unknown Title") == "unknown_title"` |
| Slug.SlugOfTrailingPunctuation | src/jellyseek/rag/db_generator.py:100-103 | `slug("amelie!!") == "amelie"` |
| Slug.AccentedFold | src/jellyseek/rag/db_generator.py:102 | with "é" decomposing to "e" and a combining accent, "Amélie" folds to "Amelie" |
| Slug.FoldAround | src/jellyseek/rag/db_generator.py:102 | within ASCII text, the fold changes only the one non-ASCII character, to the ASCII part of its decomposition |
| Slug.FoldOneChar | src/jellyseek/rag/db_generator.py:102 | one character folds to the ASCII part of its decomposition |
| Slug.DropCombiningAccent | src/jellyseek/rag/db_generator.py:102 | the ASCII encoding drops a combining accent |
| Slug.SlugOfAccented | src/jellyseek/rag/db_generator.py:100-103 | `slug("Amélie") == "amelie"` |
| Slug.SlugOfAlnumStart | src/jellyseek/rag/db_generator.py:100-103 | a title that starts with an ASCII letter or digit has a non-empty slug |
| Slug.AsciiFoldHead | src/jellyseek/rag/db_generator.py:102 | an ASCII first character survives the fold |
| Slug.StripSepNonEmpty | src/jellyseek/rag/db_generator.py:103 | text that does not start with `_` is not emptied by `strip("_")` |
| Slug.SlugOfEmpty | src/jellyseek/rag/db_generator.py:100-103 | `slug("") == ""` |
| Slug.AsciiFoldAppend | src/jellyseek/rag/db_generator.py:102 | the fold of a concatenation is the concatenation of the folds |
| Slug.BlankFoldsBlank | src/jellyseek/rag/db_generator.py:102-103 | whitespace folds and lowers to characters outside `[a-z0-9]` |
| Slug.SkipRunPrefix | src/jellyseek/rag/db_generator.py:103 | characters outside `[a-z0-9]` in front are skipped with the run that follows them |
| Slug.SkipRunAppend | src/jellyseek/rag/db_generator.py:103 | characters outside `[a-z0-9]` at the end are skipped only when everything before them is |
| Slug.CollapseRunsBlankPrefix | src/jellyseek/rag/db_generator.py:103 | characters outside `[a-z0-9]` in front do not change the substitution once a leading `_` is stripped |
| Slug.CollapseRunsAppendBlank | src/jellyseek/rag/db_generator.py:103 | characters outside `[a-z0-9]` at the end add at most one trailing `_` |
| Slug.CollapseRunsAppendKept | src/jellyseek/rag/db_generator.py:103 | the previous property carries over a kept first character |
| Slug.CollapseRunsAppendSkipped | src/jellyseek/rag/db_generator.py:103 | the previous property carries over a skipped leading run |
| Slug.CollapseRunsBlankRun | src/jellyseek/rag/db_generator.py:103 | a run outside `[a-z0-9]` becomes a single `_`, however long it is |
| Slug.DropLeadingSepAppend | src/jellyseek/rag/db_generator.py:103 | `lstrip("_")` of a concatenation strips into the second part only when the first is all `_` |
| Slug.StripSepTrailingSep | src/jellyseek/rag/db_generator.py:103 | one more trailing `_` does not change `strip("_")` |
| Slug.SlugOfAsciiBlankEdges | src/jellyseek/rag/db_generator.py:103 | text outside `[a-z0-9]` at either end does not reach the slug |
| Slug.StripCollapseAppendBlank | src/jellyseek/rag/db_generator.py:103 | text outside `[a-z0-9]` at the end does not reach the stripped substitution |
| Slug.SlugIgnoresSurroundingSpace | src/jellyseek/rag/db_generator.py:50-57 | `slug(title.strip()) == slug(title)` |
| Metadata.Sanitize | src/jellyseek/rag/db_generator.py:111-119 | a value is omitted exactly when it is `None`; a `str`/`int`/`float`/`bool` is kept as it is, a list is stored as `str(v)`, and what is stored is always a scalar |
| Metadata.CleanMetadata | src/jellyseek/rag/db_generator.py:105-120 | the loop over `d.items()` fills `out` with the sanitised entries, in order (the function `Clean`) |
| Metadata.NonNullKeys | src/jellyseek/rag/db_generator.py:111-113 | the keys whose values are not `None` are keys of `d` |
| Metadata.NonNullKeysOne | src/jellyseek/rag/db_generator.py:112-113 | one entry keeps its key exactly when its value is not `None` |
| Metadata.NonNullKeysConcat | src/jellyseek/rag/db_generator.py:111-113 | the non-`None` keys of a concatenation are those of each part, in order |
| Metadata.CleanKeys | src/jellyseek/rag/db_generator.py:105-120 | the output keys are the input keys with non-`None` values, in input order |
| Metadata.CleanGet | src/jellyseek/rag/db_generator.py:105-120 | each key maps to its sanitised value; `None`-valued and absent keys map to nothing |
| Metadata.CleanIsScalar | src/jellyseek/rag/db_generator.py:105-120 | the output keys are distinct and every output value is `str`/`int`/`float`/`bool` |
| Metadata.CleanFixesScalarDict | src/jellyseek/rag/db_generator.py:105-120 | a dict of scalar values is returned unchanged |
| Metadata.CleanIdempotent | src/rag_gen/db_generator.py:94-109 | `clean_metadata(clean_metadata(d)) == clean_metadata(d)` |
| Dedup.IndexOf | src/jellyseek/rag/db_generator.py:58 | the first position of a key: it holds the key, and no earlier position does |
| Dedup.IndexOfUnique | src/jellyseek/rag/db_generator.py:58 | a position holding the key with none before it is the first position |
| Dedup.IndexOfAppend | src/jellyseek/rag/db_generator.py:58 | appending never moves the first occurrence of a key already present |
| Dedup.GetIsFirst | src/jellyseek/rag/db_generator.py:58 | `get` on a sequence of pairs finds the first pair with that key |
| Dedup.FirstPerKey | src/jellyseek/rag/db_generator.py:48-58 | the dict `setdefault` builds has distinct keys and no more entries than pairs fed |
| Dedup.FirstPerKeySnoc | src/jellyseek/rag/db_generator.py:58 | one more pair is one more `setdefault` on the dict built so far |
| Dedup.FirstPerKeyOfTwo | src/jellyseek/rag/db_generator.py:58 | two pairs with different keys are both kept, in order |
| Dedup.FirstPerKeyKeys | src/jellyseek/rag/db_generator.py:48-58 | the result has exactly the keys of the input |
| Dedup.FirstPerKeyGet | src/jellyseek/rag/db_generator.py:48-58 | every key maps to the value of its first pair in the input |
| Dedup.FirstPerKeyMember | src/jellyseek/rag/db_generator.py:48-58 | every kept key occurs in the input |
| Dedup.FirstPerKeyOrderAt | src/jellyseek/rag/db_generator.py:48-58 | of two kept entries, the earlier one's key first occurs earlier in the input |
| Dedup.FirstPerKeyOrder | src/jellyseek/rag/db_generator.py:48-58 | kept keys appear in the order of their first occurrence |
| Dedup.FirstPerKeyPicksFirst | src/jellyseek/rag/db_generator.py:48-58 | each kept pair is the first input pair with its key |
| Ingest.FilterComplete | src/jellyseek/rag/db_generator.py:41-45 | an item is kept exactly when it is in the input and every required field is present, not `None` and not `""`; never more items than came in |
| Ingest.EmptyListIsKept | src/rag_gen/db_generator.py:33-37 | a required field holding `[]` does not drop the item |
| Ingest.MissingFieldIsDropped | src/rag_gen/db_generator.py:33-37 | a required field that is absent, `None` or `""` drops the item |
| Ingest.ParsedYear | src/jellyseek/rag/db_generator.py:52-56 | a falsy date gives no year; a string date gives the parsed year of the date with trailing `Z`s removed; a truthy non-string raises `AttributeError` |
| Ingest.YearText | src/jellyseek/rag/db_generator.py:51-56 | `year` is `""` exactly when no year was parsed, and is otherwise decimal digits |
| Ingest.YearNumberOfText | src/jellyseek/rag/db_generator.py:89 | the metadata year is the parsed year, or 0 when none was parsed |
| Ingest.KeyTitle | src/jellyseek/rag/db_generator.py:50 | the key title is `item.get("Title", "").strip()`; a non-string title raises |
| Ingest.DedupKey | src/jellyseek/rag/db_generator.py:50-57 | the key is computed exactly when title and year are, and is `slug(title) + ":" + year` |
| Ingest.KeySeq | src/jellyseek/rag/db_generator.py:49-57 | the dedup key of each item, in order |
| Ingest.UniqueOk | src/jellyseek/rag/db_generator.py:49-58 | the dedup loop completes exactly when every key can be computed |
| Ingest.KeyedPairs | src/jellyseek/rag/db_generator.py:49-58 | the loop feeds `setdefault` each item under its own key, in order |
| Ingest.UniqueDistinct | src/jellyseek/rag/db_generator.py:47-59 | kept keys are distinct, and there are no more entries than items |
| Ingest.UniqueCoversKeys | src/jellyseek/rag/db_generator.py:47-59 | exactly the keys of the input are kept |
| Ingest.UniqueKeepsFirst | src/jellyseek/rag/db_generator.py:47-59 | each kept item is the first input item with its key |
| Ingest.UniqueOrder | src/rag_gen/db_generator.py:39-51 | kept keys are in first-seen order |
| Ingest.UniqueEntries | src/rag_gen/rag.py:58-70 | each kept entry is an input item under its own dedup key |
| Ingest.JoinedActors | src/jellyseek/rag/db_generator.py:78 | joining the first five actors succeeds when they are strings |
| Ingest.LineValues | src/jellyseek/rag/db_generator.py:73-83 | the text lines can be built exactly when genres, tags and actors can be joined; there is one value per label |
| Ingest.Labelled | src/jellyseek/rag/db_generator.py:73-83 | line `i` is label `i` followed by value `i` |
| Ingest.DocId | src/jellyseek/rag/db_generator.py:86 | the id is `slug(title) + "_" + year`, so it holds `_` and is never empty |
| Ingest.Build | src/jellyseek/rag/db_generator.py:62-96 | a built document means the year parsed, the lines were built and the title used is a string |
| Ingest.Columns | src/jellyseek/rag/db_generator.py:61-97 | the three lists are equally long, one entry per built document |
| Ingest.ColumnsAt | src/jellyseek/rag/db_generator.py:85-96 | entry `i` of each list comes from the `i`-th built document |
| Ingest.ColumnsAppend | src/jellyseek/rag/db_generator.py:85-96 | one more document appends one entry to each list |
| Ingest.UniqueStep | src/jellyseek/rag/db_generator.py:49-58 | one pass of the dedup loop raises what computing the key raises, or calls `setdefault` |
| Ingest.DedupItems | src/jellyseek/rag/db_generator.py:47-59 | the dedup loop returns the first item per key in first-seen order, or the first exception (`Unique`) |
| Ingest.StoreMetadata | src/jellyseek/rag/db_generator.py:96 | the stored metadata is `clean_metadata(raw_meta)` in the two generators and the dict as built in `rag.py` |
| Ingest.BuildDocuments | src/jellyseek/rag/db_generator.py:61-97 | the build loop fills the three lists from the built documents, or ends with the first exception |
| Ingest.BuildStep | src/jellyseek/rag/db_generator.py:62-96 | one pass of the build loop raises what building raises, or appends the built document |
| Ingest.LoadMovieJson | src/jellyseek/rag/db_generator.py:36-97 | filter (except in `rag.py`), dedup, build (`Load`) |
| Ingest.LoadShape | src/jellyseek/rag/db_generator.py:61-97 | the three lists are as long as the kept items, and entry `i` of each comes from the `i`-th kept item |
| Ingest.BuiltPerItem | src/jellyseek/rag/db_generator.py:62-96 | a completed build loop built each kept item into the document at its position |
| Ingest.LoadIdsNonEmpty | src/jellyseek/rag/db_generator.py:86 | every id holds `_`, so the `uuid` fallback never runs |
| Ingest.BuildParts | src/jellyseek/rag/db_generator.py:62-96 | a built document's text, id and raw metadata come from the item's title, year, lines and joined genres |
| Ingest.IdDeterminesKey | src/jellyseek/rag/db_generator.py:57-86 | different dedup keys give different ids, because `slug` ignores what `strip` removes and the year holds no `_` |
| Ingest.IdAndKey | src/jellyseek/rag/db_generator.py:50-86 | for an item with a title, the id is built from the same title and year as its key |
| Ingest.LoadIdsDistinct | src/rag_gen/db_generator.py:33-76 | with the required-field filter, the ids of a load are pairwise distinct |
| Ingest.StripUnknownTitle | src/rag_gen/rag.py:74 | `"Unknown Title".strip() == "Unknown Title"` |
| Ingest.UntitledKey | src/rag_gen/rag.py:61-68 | an item with no title and no date is keyed `":"` |
| Ingest.UnknownTitleSlug | src/rag_gen/rag.py:95 | `slug("Unknown Title") == "unknown_title"`, so an undated document named "Unknown Title" gets the id `unknown_title_` |
| Ingest.UnknownTitleId | src/rag_gen/rag.py:74-95 | a document named "Unknown Title" gets the id `unknown_title_<year>` |
| Ingest.UntitledItemKey | src/rag_gen/rag.py:61-68 | any item without a `Title` whose date parses is keyed `":" + year` |
| Ingest.UntitledItemBuild | src/rag_gen/rag.py:74-95 | in `rag.py` such an item builds exactly when its lines do, and its id is built from "Unknown Title" and its year |
| Ingest.UntitledItem | src/rag_gen/rag.py:58-95 | in `rag.py` an item without a `Title` is keyed by the empty slug and its year but named "Unknown Title": its id is `unknown_title_<year>` |
| Ingest.UnknownTitledKey | src/rag_gen/rag.py:61-68 | the undated item titled "Unknown Title" is keyed `slug("Unknown Title") + ":"` |
| Ingest.UniqueOfTwo | src/rag_gen/rag.py:58-70 | two items under different keys are both kept, in order |
| Ingest.CollisionUnique | src/rag_gen/rag.py:58-70 | the untitled item and the one titled "Unknown Title" both survive dedup |
| Ingest.CollisionBuild | src/rag_gen/rag.py:74-95 | both build, and both get the id `slug("Unknown Title") + "_"` |
| Ingest.StandaloneIdCollision | src/rag_gen/rag.py:58-95 | `rag.py` loads those two items as two documents that both get the id `unknown_title_` |
| Ingest.LoadOfBuilt | src/jellyseek/rag/db_generator.py:36-97 | a completed dedup and build loop give one list entry per built document |
| Ingest.LoadOfTwo | src/rag_gen/rag.py:54-106 | two kept items that build load as two documents, in order |
| Ingest.LabelsOneLine | src/jellyseek/rag/db_generator.py:73-83 | no label holds a line break |
| Ingest.TextLines | src/jellyseek/rag/db_generator.py:73-83 | the text is the labelled lines joined by `\n`, one per label (nine in the shipped copy, six in the others); when no value holds a line break, splitting the text gives back exactly those lines |
| Ingest.LinesSplit | src/rag_gen/db_generator.py:66-73 | labelled one-line values split back apart once joined |
| Ingest.LabelledSplit | src/rag_gen/rag.py:85-92 | lines of one-line labels and values split back apart once joined |
| Ingest.LineContents | src/jellyseek/rag/db_generator.py:73-83 | the title line shows the title, or "Unknown Title" when it is absent; the year line shows the year text; the actors line shows at most the first five actors; the last line is the plot |
| Ingest.ShippedRatingLines | src/jellyseek/rag/db_generator.py:79-81 | an absent rating reads "Not Rated", a `None` critic rating reads "None", and an absent runtime reads "Unknown minutes" |
| Ingest.ShippedRatingLabels | src/jellyseek/rag/db_generator.py:79-81 | the rating and runtime lines carry their labels |
| Ingest.RatingTexts | src/jellyseek/rag/db_generator.py:79-81 | `str(item.get(field, default))` gives the default for an absent field and "None" for `None` |
| Ingest.ShippedValues | src/jellyseek/rag/db_generator.py:79-81 | the values on the rating and runtime lines |
| Ingest.StoredMetadataKeys | src/jellyseek/rag/db_generator.py:87-96 | the sanitised keys are `title`, `year`, `genres`, then each rating and (shipped only) the runtime, only when not `None`; every value is a scalar |
| Ingest.NonNullKeysOfHead | src/jellyseek/rag/db_generator.py:88-90 | title, year and genres are never `None` |
| Ingest.RawMetadataDistinct | src/jellyseek/rag/db_generator.py:87-94 | the keys of `raw_meta` are distinct |
| Ingest.StoredMetadataValues | src/rag_gen/db_generator.py:77-85 | the stored `year` is the parsed year, or 0; `genres` is the comma-joined text |
| Ingest.StandaloneMetadata | src/rag_gen/rag.py:96-104 | metadata keeps all five keys, the year as text, the genres as the raw value and `None` ratings |
| Store.ReplayAppend | src/jellyseek/rag/db_generator.py:148-177 | running two sequences of changes is running one after the other |
| Store.ReplayCons | src/jellyseek/rag/db_generator.py:163-177 | running a change and then more is running the change, then the rest |
| Store.ReplayOnlyAdds | src/rag_gen/db_generator.py:125-136 | adds alone never remove a record, and never create or delete the collection |
| Store.Zip | src/jellyseek/rag/db_generator.py:177 | `collection.add` receives one record per position of the three lists |
| Store.Client.constructor | src/jellyseek/rag/database.py:16 | a client opened on a store sees that store, with nothing logged |
| Store.Client.GetCollection | src/jellyseek/rag/database.py:27-33 | `get_collection` succeeds exactly when the collection exists, and raises `ValueError` otherwise |
| Store.Client.DeleteCollection | src/jellyseek/rag/db_generator.py:148 | deleting an existing collection removes it with its records; a missing one raises and nothing changes |
| Store.Client.CreateCollection | src/jellyseek/rag/db_generator.py:163-167 | creating a missing collection gives an empty one; an existing one raises and nothing changes |
| Store.Client.GetOrCreateCollection | src/rag_gen/db_generator.py:125-129 | an existing collection is kept as it is; a missing one is created empty |
| Store.Client.Add | src/jellyseek/rag/db_generator.py:177 | the new records go after the old ones, in order |
| Generator.ChooseNone | src/jellyseek/rag/db_generator.py:137-141 | the prompt loop fails only when no line strips to `1` or `2` |
| Generator.ChooseFirstValid | src/jellyseek/rag/db_generator.py:137-141 | otherwise it reads exactly up to the first line that strips to `1` or `2`, and answers with it |
| Generator.PromptChoice | src/jellyseek/rag/db_generator.py:137-141 | the `while True` prompt loop returns what `Choose` specifies |
| Generator.ReadSnapshot | src/jellyseek/rag/db_generator.py:170-174 | a missing file raises, a load that raises raises, and a load yields three equally long lists |
| Generator.FillEmpty | src/jellyseek/rag/db_generator.py:163-177 | adding one batch to an empty collection leaves exactly that batch |
| Generator.ClearForRebuild | src/jellyseek/rag/db_generator.py:128-152 | choice 2 keeps, running out of input aborts, and forced or choice 1 deletes; a missing collection is left missing |
| Generator.ClearThen | src/jellyseek/rag/db_generator.py:147-167 | a replacement deletes and then creates; a fresh run only creates |
| Generator.LoadAndAdd | src/jellyseek/rag/db_generator.py:170-178 | read and load the snapshot, then add the documents only when that succeeds |
| Generator.CreateAndLoad | src/jellyseek/rag/db_generator.py:163-178 | create, then read, load and add |
| Generator.GenerateDatabaseAsWritten | src/jellyseek/rag/db_generator.py:122-178 | the run as written: decide, delete, create, and only then read the snapshot (`AsWritten`) |
| Generator.KeepLeavesCollection | src/jellyseek/rag/db_generator.py:143-145 | choosing 2 leaves the existing collection untouched |
| Generator.RebuildOrder | src/jellyseek/rag/db_generator.py:147-177 | forced or choice 1: delete, create, then add the load only when it succeeded; no collection: create without deleting |
| Generator.ForcedRunEffect | src/jellyseek/rag/db_generator.py:128-178 | a forced run always ends with a present collection: it holds exactly the load when that succeeds, and is empty when the snapshot is missing or its load raises, whatever it held before |
| Generator.MissingSnapshotEmptiesCollection | src/jellyseek/rag/db_generator.py:147-172 | a forced run with no snapshot file raises `FileNotFoundError` after emptying the collection |
| Generator.CreateAndAdd | src/jellyseek/rag/db_generator.py:163-177 | create, then add a load already in hand |
| Generator.ReplaceWith | src/jellyseek/rag/db_generator.py:128-177 | decide, delete, create and add, with the load in hand, as the original run does |
| Generator.GenerateDatabase | src/jellyseek/rag/db_generator.py:122-178 | the corrected run: read and load the snapshot first, then decide, delete, create and add (`Checked`) |
| Generator.CheckedFailureChangesNothing | src/jellyseek/rag/db_generator.py:170-172 | a corrected run that raises leaves the store exactly as it was |
| Generator.CheckedAgreesOnLoad | src/jellyseek/rag/db_generator.py:122-178 | when the snapshot loads, the corrected run does exactly what the original run does |
| Generator.RebuiltHoldsLoad | src/jellyseek/rag/db_generator.py:163-178 | a successful rebuild leaves a present collection holding exactly the loaded documents, and reports their number |
| Generator.GenerateDatabaseLegacy | src/rag_gen/db_generator.py:111-137 | get or create, load, add (`GetOrCreateAndAdd`) |
| Generator.LegacyNeverDeletes | src/rag_gen/db_generator.py:124-136 | the earlier run never deletes; the collection ends present, with the old records in front of the new ones |
| Commands.GuardedItems | src/jellyseek/rag/commands.py:45-51 | the guards pass exactly when the fetch is a dict whose `Items` is present and non-empty |
| Commands.CmdUpdate | src/jellyseek/rag/commands.py:39-60 | returns `True` exactly when the guards pass, the save completes and the forced rebuild loads; the store changes only by `generate_database(force_update=True)` as written |
| Commands.UpdateEffect | src/jellyseek/rag/commands.py:39-60 | a successful update leaves a present collection holding exactly the fetched catalog; one the guards stop changes nothing; one that gets past the guards and the save but whose load raises leaves an empty collection |
| Commands.CmdUpdateChecked | src/jellyseek/rag/commands.py:39-60 | `cmd_update` calling the corrected rebuild: same result, and the store changes only by that rebuild |
| Commands.CheckedUpdateEffect | src/jellyseek/rag/commands.py:53-60 | with the corrected rebuild, a successful update changes the store as the original does, and a failed one changes nothing |
| Commands.UpdateGuards | src/jellyseek/rag/commands.py:45-51 | a falsy fetch, a non-dict, a dict without `Items` or an empty `Items` returns `False` and changes nothing |
| Commands.Dispatch | src/jellyseek/rag/commands.py:21-26 | `handle(name)` is `None` exactly when `name` is not registered |
| Commands.HelpLines | src/jellyseek/rag/commands.py:28-33 | one `name: description` line per command, in registration order |
| Commands.HelpTextLines | src/jellyseek/rag/commands.py:28-33 | splitting the help text at line breaks gives back the help lines |
| Commands.RegisterEffect | src/jellyseek/rag/commands.py:17-19 | a new name goes last; a registered name is replaced where it stands |
| Commands.RegisterKeepsOthers | src/jellyseek/rag/commands.py:17-19 | registering leaves every other name's entry, and its dispatch, as it was |
| Commands.CommandHandler.constructor | src/jellyseek/rag/commands.py:14-15 | a new handler starts with no commands |
| Commands.CommandHandler.Register | src/jellyseek/rag/commands.py:17-19 | `register` sets `commands[name]` to the new command |
| Commands.CommandHandler.Handle | src/jellyseek/rag/commands.py:21-26 | `handle` answers `Dispatch` and leaves the registry unchanged; the store changes only under `/update` |
| Commands.CommandHandler.GetHelp | src/jellyseek/rag/commands.py:28-33 | the help text splits into one line per command, in order; with no commands it is empty |
| Commands.CreateCommandHandler | src/jellyseek/rag/commands.py:68-77 | a fresh handler holding the default registry |
| Commands.DefaultCommandsOrder | src/jellyseek/rag/commands.py:73-75 | the default registry is the result of registering `/quit`, `/update` and `/help`, in that order |
| Commands.DefaultDispatch | src/jellyseek/rag/commands.py:35-75 | `/quit` answers `True`, `/help` answers `False`, `/update` answers its outcome, and anything else answers `None` |
| Commands.DefaultGet | src/jellyseek/rag/commands.py:73-75 | looking a name up in the default registry |
| Database.FlattenAppend | src/jellyseek/rag/database.py:50-51 | flattening two runs of batches concatenates their flattenings |
| Database.FlattenLength | src/jellyseek/rag/database.py:50-51 | the output is as long as all batches together |
| Database.FlattenIndex | src/jellyseek/rag/database.py:50-51 | entry `j` of batch `i` lands after all earlier batches, in order |
| Database.SameShapeAligned | src/jellyseek/rag/database.py:50-51 | equal-shaped batches flatten to equally long outputs, each batch at the same offset |
| Database.FlattenAllEmpty | src/jellyseek/rag/database.py:50-52 | all-empty batches give an empty list |
| Database.QueryDatabase | src/jellyseek/rag/database.py:44-52 | one query text, 10 results by default; each output is as long as its batches together |
| Database.QueryAligned | src/jellyseek/rag/database.py:44-52 | with equal-shaped batches, documents and metadatas line up position by position |
| Database.OpenedIsReplay | src/jellyseek/rag/database.py:27-40 | opening the collection is replaying what opening does |
| Database.InitializeDatabase | src/jellyseek/rag/database.py:14-42 | an existing collection is reused unchanged; a missing one is created empty; either way it ends present |
| Chat.HandleQuery | src/jellyseek/rag/movie_chat.py:48-58 | retrieval uses the stripped rewrite; an empty retrieval answers "no movies" without generating; otherwise the original question and the documents joined by a blank line go to the model |
| Chat.RetrievalUsesRewrite | src/jellyseek/rag/movie_chat.py:50-51 | questions with the same rewrite retrieve the same context |
| Chat.ContextOrder | src/jellyseek/rag/movie_chat.py:57 | one document is the whole context; more are joined in retrieval order |
| Chat.HandleCommand | src/jellyseek/rag/movie_chat.py:37-46 | the loop ends only on `/quit` |
| Chat.OnlyQuitEnds | src/jellyseek/rag/movie_chat.py:37-46 | with the default commands, exactly `/quit` ends the loop; `/update`, `/help` and unknown commands never do |
| Chat.ConfirmsExactly | src/jellyseek/rag/movie_chat.py:25 | only `y` or `Y`, with any surrounding whitespace, confirms |
| Chat.HandleEmptyDatabase | src/jellyseek/rag/movie_chat.py:22-35 | the caller proceeds exactly when the operator confirms and `/update` answers `True`; the store changes only by `/update`, and only after confirmation |
| Chat.StripAll | src/jellyseek/rag/movie_chat.py:75 | each input line, stripped |
| Chat.Step | src/jellyseek/rag/movie_chat.py:77-82 | only `/quit` ends the loop, and a line not starting with `/` changes nothing |
| Chat.QueriesAnswerTheirQuestion | src/jellyseek/rag/movie_chat.py:48-58 | the query pipeline answers the question it is given |
| Chat.ConverseRouting | src/jellyseek/rag/movie_chat.py:74-82 | event `k` answers stripped line `k`; exactly the lines starting with `/` go to the command handler |
| Chat.ConverseNeverDeclines | src/jellyseek/rag/movie_chat.py:74-82 | the loop ends only on a quitting command or at the end of the input |
| Chat.DefaultQuitsOnQuit | src/jellyseek/rag/movie_chat.py:37-46 | the default registry ends the loop on `/quit` and on nothing else |
| Chat.ConverseExit | src/jellyseek/rag/movie_chat.py:74-82 | the loop ends at the first `/quit` line and runs to the end of the input when there is none |
| Chat.HandleLine | src/jellyseek/rag/movie_chat.py:77-82 | one pass of the loop body does what `Step` specifies |
| Chat.Advance | src/jellyseek/rag/movie_chat.py:74-82 | the loop's invariant survives a pass that does not end it |
| Chat.Finish | src/jellyseek/rag/movie_chat.py:78-79 | a pass that ends the loop completes the session |
| Chat.Done | src/jellyseek/rag/movie_chat.py:74-75 | with no line left, the session is what has been gathered |
| Chat.RunConversation | src/jellyseek/rag/movie_chat.py:74-82 | the `while True` loop produces the events, ending and store changes of `Converse` |
| Chat.Proceed | src/jellyseek/rag/movie_chat.py:66-82 | an empty collection goes through the start-up prompt; otherwise the loop runs directly (`FromStart`) |
| Chat.ChatLoop | src/jellyseek/rag/movie_chat.py:60-82 | `chat_loop` opens the collection, registers the commands, then runs as `ChatSession` specifies |
| Chat.OpenThenProceed | src/jellyseek/rag/movie_chat.py:63-69 | a session is opening the collection followed by the rest of `chat_loop` |
| Chat.DefaultFailedUpdateLeavesEmpty | src/jellyseek/rag/commands.py:39-60 | the application's `/update`, failing on an empty collection, leaves it empty and open: a guard stops it, or its rebuild recreated it empty |
| Chat.DeclinedLeavesEmpty | src/jellyseek/rag/movie_chat.py:22-69 | for any registry whose failed `/update` leaves an empty collection empty, a session that gives up at start-up prints no turns and leaves an empty collection behind |
| Chat.AppDeclinedLeavesEmpty | src/jellyseek/rag/movie_chat.py:22-69 | the application's own session that gives up at start-up, because the operator declined or `/update` failed, prints no turns and leaves an empty collection behind |
| Rag.RagPipeline | src/rag_gen/rag.py:148-168 | one top-1 query with the question itself, then one model call with the prompt built from its context |
| Rag.ContextCases | src/rag_gen/rag.py:160 | the fallback text is used only when there is no batch at all; an empty first batch gives `""`; one document is the whole context; later batches are ignored |
| Rag.PromptParts | src/rag_gen/rag.py:163 | the prompt is the context line, a blank line, the question line and `\nAnswer:` |
| Rag.PromptInjective | src/rag_gen/rag.py:163 | for a question on one line, the prompt determines both the context and the question |
| Rag.SamePromptSameQuestion | src/rag_gen/rag.py:159-163 | two one-line questions that reach the model with the same prompt are the same question |

## Left out

- Reading and writing files, printing, and the `__main__` blocks.
- The embedding function classes, `OllamaEmbeddings`, `OllamaLLM`, and `src/jellyseek/rag/llm.py`. Only the `.strip()` of the rewrite is modelled, in `Chat.SearchQuery`.
- The vector store's internals: nearest-neighbour ranking, embeddings, and what `add` does with duplicate ids. A query is an uninterpreted `Search`, and `add` appends.
- Unicode NFKD decomposition and the ISO date parser. Both are parameters (`Library`), constrained only by `FixesAscii` and `SpaceStaysBlank` where a lemma needs them.
- Text.Lower: lowers ASCII letters only. Non-ASCII upper-case letters are left as they are, so lemmas about `slug` that depend on lowering take ASCII input or an ASCII fold.
- Json.PyStr: `str()` of a list quotes its strings with `'...'` and does not model `repr`'s escaping, nor its switch to double quotes.
- Floats are carried as the text `repr` prints, so no floating-point arithmetic is modelled.
- The snapshot that `save_items` writes is `{"Items": [...]}`, but `load_movie_json` iterates over the top level of the file. The model hands `load_movie_json` the item list itself, so it does not capture this mismatch.
- The `uuid` fallback for ids. It is unreachable (`Ingest.LoadIdsNonEmpty`), so no randomness is modelled.
- The module-level side effects of `src/rag_gen/rag.py`: creating the client and collection, loading the data and the demo query at import. The stale `collection` handle that `query_chromadb` holds is not modelled either.
- `src/rag/movie_chat.py` and `src/rag_gen/movie_chat.py`, the earlier interactive loops. Their context fallback is the one in `Rag.Context`.
- The media-server fetch (`fetch_items`) and the configuration modules. What `fetch_items` returned and whether `save_items` succeeded are inputs (`Commands.UpdateEnv`).
- Chat.RunConversation, Chat.Proceed, Chat.ChatLoop, Chat.HandleEmptyDatabase: the loop's `collection` object from `initialize_database` (`movie_chat.py:63`) is modelled as whichever collection is named `movies_rag` at the time. `cmd_update` ignores the handle it is passed (`commands.py:39`). `generate_database` deletes and recreates the collection through its own client (`db_generator.py:125`, `:148`, `:163`). The model lets later queries through the old handle (`movie_chat.py:51`) read the rebuilt records; what the vector store really does with a handle to a deleted collection is not modelled.
- Commands.CommandHandler: handlers are the three actions the application registers (`Quit`, `Update`, `Help`), not arbitrary callables. Their keyword arguments are not modelled.
- Ingest.JoinedActors: states only that joining the first five actors succeeds when they are strings, not the other cases in which it succeeds or raises. `Json.JoinComma` and `Json.FirstFive` state those cases.
- Ingest.Build: states only what a successful build implies. `Ingest.BuildParts` states what the built document holds.
- Ingest.LoadIdsDistinct: holds for the shipped and earlier copies only. `Ingest.StandaloneIdCollision` shows two items with the same id in `rag.py`.

## Findings

| source | as written | input that shows it | evidently intended | confidence | as-written member | corrected member |
|---|---|---|---|---|---|---|
| src/jellyseek/rag/db_generator.py:147-172 | the existing collection is deleted and an empty one created before the code checks that `jellyfin_items.json` exists | an existing collection with records, `force_update=True` (or choice `1`), and no snapshot file: the run raises `FileNotFoundError` and leaves an empty collection behind | the existence check and its "Please run the jellyfin_export script first" message (`:171-172`) stop a run that has nothing to load; placed before the delete at `:148`, they leave the existing collection as it was | not executed | Generator.GenerateDatabaseAsWritten, Generator.MissingSnapshotEmptiesCollection, Commands.UpdateEffect | Generator.GenerateDatabase, Generator.CheckedFailureChangesNothing, Commands.CheckedUpdateEffect |
