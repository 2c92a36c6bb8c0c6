# dict_trans in Dafny

A model of the translation engine of the Go package `dict` (dict_trans). The
engine walks a pointer to a record, or to a slice of records. For every field
whose struct tags ask for a translation, it computes a display label and
writes it into the sibling string field named by the field's `dictField` tag.
A label can come from five places:

- an in-memory dictionary (`dict` tag);
- a registered custom translator (`translate`);
- a database look-up (`db`, in a compact `table:key:value` form or an explicit
  `table=…,key=…,value=…` form);
- a single-table or two-table dictionary look-up (`dictTable`, `dictTableTwo`);
- an enum registry (`enum`).

The three look-up kinds share the same caching policy.

How the model is laid out:

- A record is a `Values.Value`. The struct's fields carry their name, tags,
  settability and value, which stands in for Go reflection.
- The manager's state lives in classes whose methods update fields in place:
  - `Dict.DictManager`: dictionaries, translators, unwrappers and the
    per-type plan cache;
  - `Enum.EnumTranslator`;
  - `CachedLookup.Manager`: one object each for the db, dictTable and
    dictTableTwo managers;
  - `MemoryCache.MemoryCacheStore`;
  - the optimizer's classes.
- Every method of `DictManager` that walks a value is proved against a pure
  function of the `Engine` module. The function takes a snapshot (`Engine.Env`)
  of all the state the walk reads or updates. The lemmas state the walk's
  properties on those functions:
  - which tag wins;
  - which fields get a plan;
  - how the plan is cached;
  - where the label is written;
  - what is queried and cached;
  - first failure stops the walk;
  - the shape of the value is preserved (only string leaves change);
  - the chunked parallel batch agrees with the sequential walk when nothing
    fails.
- Side modules, each with its own properties:
  - `DbParser` parses `db` tags;
  - `TableConfig` builds SQL text with its placeholder/argument agreement;
  - `Partition` splits the worker-pool chunks;
  - `Unwrapper` picks the first unwrapper that succeeds;
  - `Optimizer` holds the batch query optimizer, preload manager, strategy
    manager and performance monitor.

Reading the model:

- A Go `error` is `Option<Errors.Error>`, or the failure side of
  `Wrappers.Result`.
- Go's `reflect.Type` identity is the record's type name.
- A translator, a database back-end and an unwrapper are Dafny functions
  (`Plan.CustomFn`, the `backend` of a `CachedLookup.State`,
  `Unwrapper.UnWrapFn`). They are pure, so the look-ups a walk makes are
  recorded in a ghost `calls` list.
- The clock (`time.Now`) is a `now` parameter. Callbacks are identified by a
  number, and their invocations are returned as a list of deliveries.

## Model

| member | source | states |
|---|---|---|
| Strings.TrimSpace | db_parser.go:21-23 | the result starts and ends with no white space and is no longer than the input |
| Strings.TrimSpaceFrame | db_parser.go:29 | what TrimSpace removes is white space on either side of the result |
| Strings.SplitJoin | db_parser.go:19 | splitting the separator-joined separator-free parts gives the parts back |
| Strings.IntToStringInjective | enum.go:40-43 | distinct integers get distinct `%d` texts |
| Strings.NatToStringDecimal | enum.go:41 | the `%d` text of a natural number is all digits and denotes that number |
| DbParser.ParseTag | db_parser.go:10-45 | an empty tag gives no translator; every translator produced has non-empty table, key and value |
| DbParser.ParseDbTag | db_parser.go:10-45 | the parsing loop over the comma-separated parts yields exactly ParseTag |
| DbParser.FoldExplicitLastWins | db_parser.go:27-37 | in the explicit form each setting is the text after its prefix in the last part carrying it, empty if none |
| DbParser.CompactNeedsThreeParts | db_parser.go:18-24 | a compact tag that does not split into exactly three parts gives no translator |
| DbParser.ExplicitThree | db_parser.go:27-37 | an explicit tag is read part by part, left to right |
| DbParser.CompactParses | db_parser.go:18-24 | `t:k:v` with clean parts parses to table t, key k, value v |
| DbParser.ExplicitParses | db_parser.go:25-44 | `table=t,key=k,value=v` parses to table t, key k, value v |
| DbParser.CompactAgreesWithExplicit | db_parser.go:17-38 | the compact and explicit spellings of the same coordinates parse alike |
| DbParser.ExplicitKeepsInnerSpace | db_parser.go:29-31 | white space after `=` is kept in the explicit form, unlike around compact parts |
| CachedLookup.Fetch | db_translator.go:63-93 | a cache hit (only when enabled) is served without a query; with no back-end, the "not registered" error; otherwise one query; only a non-empty success is cached, and only when enabled |
| CachedLookup.QueriedOnce | db_translator.go:66-91 | with caching on, a repeated look-up of a cached non-empty result asks the back-end no more |
| CachedLookup.MissesAskAgain | db_translator.go:87-91 | with caching off, or for an empty result, the back-end is asked on every look-up |
| CachedLookup.ErrorsAreNotCached | db_translator.go:81-84 | a back-end failure is returned as is and leaves the cache unchanged |
| CachedLookup.ReenableServesOldEntries | db_translator.go:46-49 | disabling and re-enabling keeps the entries, which are served again without a query |
| CachedLookup.Manager.constructor | db_translator.go:36-39 | a new manager has an empty cache, caching on, no back-end |
| CachedLookup.Manager.Register | db_translator.go:42-44 | the back-end is replaced, or removed when nil is registered, and nothing else changes |
| CachedLookup.NilBackendFailsAgain | db_translator.go:77-79 | once nil is registered, every miss fails with "not registered" again, with no query and no change |
| CachedLookup.Manager.Enable | db_translator.go:47-49 | only the enabled flag changes |
| CachedLookup.Manager.Clear | db_translator.go:52-56 | only the cache is emptied |
| CachedLookup.Manager.Lookup | db_translator.go:60-94 | the result and the new state are Fetch of the old state |
| Backends.DbTranslate | db_translator.go:59-95 | an enabled hit is the cached label with no query; a miss with no back-end is "database translator not registered"; otherwise exactly one query of (table, key, value, v), whose answer is returned and cached only when caching is on and it is a non-empty success |
| Backends.TableTranslate | dict_table.go:58-97 | an enabled hit is the cached label with no query; a miss with no back-end is the manager's "not registered" error; otherwise one query of the dictionary type with the `%v` text that forms the cache key, whose answer is returned and cached only when caching is on and it is a non-empty success |
| Backends.DbKeysCollide | db_translator.go:64 | coordinates `a:b,c,d` and `a,b:c,d` share a cache entry, so the second is served the first's result |
| Backends.IntAndDecimalShareEntry | dict_table.go:63-66 | an integer and its decimal string share a dictTable cache entry |
| Enum.EnumKey | enum.go:35-56 | strings are their own key; signed and unsigned integers key by their decimal text; other kinds are the "unsupported enum value type" error |
| Enum.TranslateWith | enum.go:28-60 | an unknown enum name fails with "not found"; an unsupported kind fails; otherwise the table's entry for the key, or "" if absent |
| Enum.DistinctIntsDistinctKeys | enum.go:40-43 | distinct integers never share an enum key |
| Enum.IntegersUseDecimalText | enum.go:38-43 | an integer value translates as its decimal string does |
| Enum.EnumTranslator.constructor | enum.go:13-15 | the registry starts empty |
| Enum.EnumTranslator.RegisterEnum | enum.go:18-20 | the table replaces any earlier one of that name |
| Enum.EnumTranslator.GetEnum | enum.go:23-25 | the registered table, present exactly when the name is registered |
| Enum.EnumTranslator.Translate | enum.go:28-60 | the translation against the current registry |
| Enum.RegisterThenTranslate | enum.go:18-59 | after registering a table, a string key translates to its entry, or "" |
| Unwrapper.FirstUnwrap | unwrapper.go:28-42 | no payload exactly when no unwrapper succeeds with a non-nil result |
| Unwrapper.FirstUnwrapPicksFirst | unwrapper.go:35-39 | the payload is that of the first unwrapper that succeeds |
| Unwrapper.AppendedUnwrapperIsLast | unwrapper.go:23-25 | a newly registered unwrapper is consulted only when all earlier ones fail |
| Plan.Winner | dict.go:189-223 | the first non-empty tag in priority order translate, db, dictTableTwo, dictTable, enum, dict; none exactly when all are empty |
| Plan.Choose | dict.go:176-223 | the field configuration keeps the field index and the `dictField` target |
| Plan.NilTranslatorFallsBackToDict | dict.go:190-197 | a translate tag naming a translator registered as nil keeps the field, unbound, with the whole translate tag as its legacy dict tag |
| Plan.OnlyWinnerConsulted | dict.go:189-223 | tags of lower priority than the winner do not affect the configuration |
| Plan.IncludedIff | dict.go:225-227 | a field gets a plan exactly when some tag wins, a translate tag names a registered translator, and a db tag parses |
| Plan.BindingOfWinner | dict.go:190-223 | the winning tag fixes the translator kind and the tag text it receives; a translate winner binds the registered translator, or nothing when that translator is nil |
| Plan.UnregisteredTranslatorShadows | dict.go:190-197 | a translate tag naming an unregistered translator leaves the field unplanned, whatever the other tags |
| Plan.UnparseableDbShadows | dict.go:198-205 | an unparseable db tag leaves the field unplanned, whatever the lower tags |
| Plan.TargetIrrelevantToInclusion | dict.go:184-187 | the `dictField` target plays no part in whether a field is planned |
| Plan.Candidates | dict.go:172-223 | one configuration per field, in field order |
| Plan.Keep | dict.go:225-227 | the plan keeps included configurations only |
| Plan.FindPlan | dict.go:93-96 | the configuration found for an index has that index; none exactly when no entry has it |
| Plan.KeepIndices | dict.go:172-227 | kept indices are field indices, strictly increasing |
| Plan.FindKept | dict.go:93-132 | looking up index i in the plan finds field i's configuration exactly when field i is planned |
| Plan.FindBuiltPlan | dict.go:93-227 | the look-up in a built plan is the field's own configuration, if planned |
| Plan.PlanOrdered | dict.go:172-227 | a built plan holds included configurations of existing fields, in increasing field order |
| Engine.GetPlan | dict.go:150-232 | the plan is cached under the type; nothing else in the state changes |
| Engine.PlannedTypeIgnoresTranslators | dict.go:152-156 | a cached type's plan ignores translators registered later |
| Engine.PlanBuiltOnce | dict.go:152-230 | a second request returns the cached plan and changes nothing; the first builds it from the current translators |
| Engine.Apply | dict.go:320 | calling a translator changes at most the three look-up managers |
| Engine.EnumTablesReadAtCallTime | enum.go:30 | an enum binding reads the registry at the time of the call |
| Engine.TargetFrom | dict.go:334-344 | the first exported string field matching the target by exact or case-insensitive name |
| Engine.WriteTarget | dict.go:334-344 | only the first writable match is written, and only its text; no match, no change |
| Engine.Legacy | dict.go:254-302 | the legacy path only changes string leaves |
| Engine.LegacyWrites | dict.go:254-302 | a non-empty string with a non-empty entry in the named dictionary and a dictField tag writes the entry to the target; otherwise nothing changes |
| Engine.LegacyNameIsFirstPart | dict.go:256-257 | the dictionary name is the tag text before its first comma |
| Engine.ViaTranslator | dict.go:305-347 | a translator failure is returned with the fields unchanged |
| Engine.TranslatorWrites | dict.go:319-344 | a failure is returned; an empty label or missing target writes nothing; otherwise the label goes to the target |
| Engine.TagStep | dict.go:132-143 | the tag step only changes string leaves and keeps the registries |
| Engine.Descend | dict.go:108-129 | nested records, records behind non-nil pointers and slices are walked without changing their shape |
| Engine.WalkStruct | dict.go:86-147 | the walk only changes string leaves and caches plans |
| Engine.WalkStructFillsNested | dict.go:99-143 | after a record walk without failure, every exported nested record, pointer or slice holds a successful walk of its original value (one call fills every nesting level); unsettable fields are unchanged |
| Engine.WalkFields | dict.go:99-146 | the field loop only changes string leaves |
| Engine.WalkFieldsAbort | dict.go:109-140 | a failing field ends the loop with its failure, and every other field, later ones included, keeps its value |
| Engine.WalkFieldsKeepsFixed | dict.go:99-143 | an unsettable field, or a non-string field the loop has passed, is never changed afterwards |
| Engine.WalkFieldsFillsNested | dict.go:108-129 | after a loop without failure, each exported non-string field holds a successful walk of its original value |
| Engine.FieldStep | dict.go:100-143 | an unsettable field is skipped with nothing changed; other fields change only if they are settable strings (the tag's target), and on failure not at all |
| Engine.FieldStepNestedFirst | dict.go:108-140 | the nested walk runs first; a nested failure ends the step, otherwise the tag sees the walked value |
| Engine.WalkElems | dict.go:235-251 | the slice walk only changes string leaves |
| Engine.ElemStep | dict.go:237-248 | nil pointers, non-record elements and nested slices are skipped with nothing changed; only element i can change |
| Engine.WalkElemsSplit | dict.go:236-250 | walking [a, c) is walking [a, b) then, unless it failed, [b, c) |
| Engine.Translation | dict.go:60-83 | Translate keeps the registries |
| Engine.EntryChecks | dict.go:66-80 | a non-pointer fails with ErrNotPointer; a nil pointer or pointer to neither record nor slice fails with ErrNotStruct, and nothing changes |
| Engine.UnwrappedPayloadTranslated | dict.go:62-64 | when an unwrapper yields a payload, the payload is translated instead |
| Engine.TranslationKeepsShape | dict.go:60-83 | the translated value has the shape of what was translated |
| Engine.WalkChunks | batch.go:57-88 | each chunk walk only changes string leaves |
| Engine.ParallelTranslation | batch.go:42-117 | the pooled walk keeps the slice's length and shape |
| Engine.ChunksOfSlice | batch.go:55-67 | the chunks lie in the slice and follow one another to its end |
| Engine.WalkChunksSequential | batch.go:57-88 | walking the chunks fails somewhere exactly when the sequential walk does; when none fails they agree |
| Engine.ParallelMatchesSequential | batch.go:42-117 | the parallel batch reports no error exactly when the sequential walk does not, and then has the same result |
| Engine.BatchTranslationOutcome | batch.go:16-39 | ErrNotPointer and ErrNotSlice first; an empty slice succeeds unchanged; otherwise the outcome of the sequential walk when no element fails |
| Engine.EmptySliceReachesZeroWorkers | optimizer.go:308-312 | the guard as written lets an empty slice into the pool, where the worker count is 0 |
| Engine.ParallelGuardCorrected | optimizer.go:308-314 | the corrected guard only admits slices with at least one worker, and agrees with the written guard for non-empty slices or a positive threshold |
| Engine.EmptyBatchSucceeds | batch.go:27-30 | an empty slice yields no error on both batch entries |
| Partition.WorkerCount | batch.go:46-49 | at most ten workers, never more than elements, at least one for a non-empty slice |
| Partition.ChunkSize | batch.go:55 | the ceiling share is at least one |
| Partition.ChunkSizeCovers | batch.go:46-55 | the worker count times the chunk size covers the slice |
| Partition.Partition | batch.go:57-67 | the chunk loop yields exactly Chunks |
| Partition.ChunksFromShape | batch.go:57-67 | chunk k starts at k times the chunk size and ends at the next multiple, capped at the length |
| Partition.ChunksBounds | batch.go:57-67 | between one and worker-count chunks, from 0 to the length |
| Partition.ChunksContiguous | batch.go:57-67 | chunks are non-empty, at most a chunk size long, within the slice, each starting where the previous ends |
| Dict.DictManager.constructor | dict.go:18-23 | all registries and the plan cache start empty |
| Dict.DictManager.RegisterDict | dict.go:40-42 | the dictionary replaces any earlier one of that name; nothing else changes |
| Dict.DictManager.GetDict | dict.go:45-47 | the registered dictionary, present exactly when the name is registered |
| Dict.DictManager.RegisterTranslator | dict.go:55-57 | the translator, which may be nil, replaces any earlier one of that name; nothing else changes |
| Dict.DictManager.RegisterUnWrapper | unwrapper.go:23-25 | appended after the earlier unwrappers |
| Dict.DictManager.TryUnwrap | unwrapper.go:28-42 | the loop yields FirstUnwrap of the registered unwrappers |
| Dict.DictManager.GetOrCreateConfig | dict.go:150-232 | the plan and new state are GetPlan of the old state |
| Dict.DictManager.SetTarget | dict.go:287-299 | the target loop yields WriteTarget |
| Dict.DictManager.TranslateField | dict.go:254-302 | the legacy path yields Legacy |
| Dict.DictManager.Call | dict.go:320 | the translator call and the new state are Apply of the old state |
| Dict.DictManager.TranslateFieldWithTranslator | dict.go:305-347 | the fields, error and new state are ViaTranslator of the old state |
| Dict.DictManager.TranslateTag | dict.go:132-143 | the tag dispatch is TagStep |
| Dict.DictManager.TranslateNested | dict.go:108-129 | the nested walk is Descend |
| Dict.DictManager.TranslateFieldAt | dict.go:100-143 | one field-loop iteration is FieldStep |
| Dict.DictManager.TranslateStruct | dict.go:86-147 | the record walk is WalkStruct |
| Dict.DictManager.TranslateElem | dict.go:237-248 | one slice-loop iteration is ElemStep |
| Dict.DictManager.TranslateSlice | dict.go:235-251 | the slice loop is WalkElems |
| Dict.DictManager.Translate | dict.go:60-83 | the result, error and new state are Translation of the old state |
| Dict.DictManager.TranslateChunk | batch.go:73-87 | one worker walks its own chunk, stops at that chunk's first failure, and leaves the later chunks to the rest of the pool |
| Dict.DictManager.BatchTranslateParallel | batch.go:42-117 | the new state and slice are ParallelTranslation's; no chunk failure means nil, and a reported error is one of the chunk failures |
| Dict.DictManager.BatchTranslate | batch.go:16-39 | the outcome is BatchTranslation's, with the error it reports |
| Dict.DictManager.TranslateBatch | optimizer.go:289-317 | the outcome is OptimizedBatch's: nil options mean parallel, and the pool is used from the threshold on for non-empty slices |
| TableConfig.DefaultTableConfig | table_config.go:44-58 | columns dict_type, dict_key, dict_value and status 1/0 |
| TableConfig.DefaultDictTypeTableConfig | table_config.go:61-75 | columns dict_type_code, no key, dict_type_name and status 1/0 |
| TableConfig.DefaultDictDataTableConfig | table_config.go:78-92 | columns dict_type_code, dict_key, dict_value and status 1/0 |
| TableConfig.AddCondition | table_config.go:105-112 | appending one condition adds " AND " only after an earlier one, and its argument last |
| TableConfig.BuildQuery | table_config.go:95-115 | the SQL and arguments are the statement of the SELECT head with the type and status conditions |
| TableConfig.BuildQueryWithKey | table_config.go:118-147 | the statement with the type, key and status conditions |
| TableConfig.BuildTypeCheckQuery | table_config.go:150-170 | the COUNT(1) statement with the type and status conditions |
| TableConfig.PlaceholdersMatchArgs | table_config.go:95-170 | for column names without `?`, there are as many placeholders as arguments |
| TableConfig.ArgsInOrder | table_config.go:118-147 | the arguments are the type, the key and the enabled value, each present exactly when its column is configured |
| TableConfig.NoConditionsEndInWhere | table_config.go:95-96 | with no conditions the SQL ends in a dangling "WHERE " |
| TableConfig.DisabledValueUnused | table_config.go:106-112 | the disabled status value never affects the statement |
| TableConfig.TwoConditions | table_config.go:107-109 | two conditions are joined by a single " AND " |
| TableConfig.ThreeConditions | table_config.go:130-141 | three conditions are joined by " AND " between each pair |
| TableConfig.DefaultQuery | table_config.go:95-115 | the default configuration's text, arguments dictType and "1" |
| TableConfig.DefaultQueryWithKey | table_config.go:118-147 | the default configuration's keyed text, arguments dictType, dictKey and "1" |
| TableConfig.CustomQueryWithKey | table_config.go:118-147 | a custom column layout yields its own column names in order |
| TableConfig.NoStatusQueryWithKey | table_config.go:138-144 | without a status column no status condition or argument appears |
| MemoryCache.NewItem | cache_memory.go:60-69 | a positive ttl expires ttl seconds after now; otherwise never |
| MemoryCache.LiveUntilExpiry | cache_memory.go:38 | an item is live until, and including, its expiry instant |
| MemoryCache.MemoryCacheStore.constructor | cache_memory.go:21-26 | an empty cache with the given capacity |
| MemoryCache.MemoryCacheStore.Get | cache_memory.go:28-45 | a hit exactly for a present, unexpired key, with its value; otherwise "" |
| MemoryCache.MemoryCacheStore.Set | cache_memory.go:47-72 | the key maps to the new item; a full non-empty cache first loses one arbitrary entry |
| MemoryCache.MemoryCacheStore.Delete | cache_memory.go:74-79 | only the key is removed |
| MemoryCache.MemoryCacheStore.Clear | cache_memory.go:81-86 | the cache is emptied |
| Optimizer.Keys | optimizer.go:54-57 | one key per pending query, in order |
| Optimizer.Deliver | optimizer.go:61-76 | every callback once, in order: the error to all on failure, else each key's result or "" |
| Optimizer.BatchQueryOptimizer.constructor | optimizer.go:21-25 | no pending queries |
| Optimizer.BatchQueryOptimizer.AddQuery | optimizer.go:28-40 | the query is appended to its queue; other queues are untouched |
| Optimizer.BatchQueryOptimizer.ExecuteBatch | optimizer.go:43-77 | the queue is removed; empty asks nothing; otherwise one batch query for all keys in order, then the deliveries |
| Optimizer.PreloadManager.constructor | optimizer.go:86-90 | nothing preloaded |
| Optimizer.PreloadManager.Preload | optimizer.go:93-104 | a loader failure is returned and changes nothing; success stores the data under the type, after which Get of that type returns each loaded entry and "not found" for any other key |
| Optimizer.PreloadManager.Get | optimizer.go:107-117 | found exactly when type and key are preloaded, with the value; otherwise "" |
| Optimizer.PreloadManager.Clear | optimizer.go:120-124 | nothing preloaded afterwards |
| Optimizer.Lookup | optimizer.go:107-117 | found exactly when type and key are preloaded, with the value; otherwise "" |
| Optimizer.PreloadThenGet | optimizer.go:102-114 | after preloading a table, Lookup (the look-up behind Get) returns each of its entries and "not found" for other keys, and other types look up as before |
| Optimizer.RecordOne | optimizer.go:214-224 | the first record of an operation gives a valid metric and every later one keeps it valid (min ≤ max, errors ≤ count, count·min ≤ total ≤ count·max); count and total grow by one record |
| Optimizer.ExtendKeepsValid | optimizer.go:214-224 | extending min and max to a new duration and adding it to the total keeps the metric valid |
| Optimizer.TruncDiv | optimizer.go:250 | Go's truncating division agrees with Dafny's for non-negative operands and rounds a negative total toward zero |
| Optimizer.AverageWithinBounds | optimizer.go:246-251 | the average of a recorded metric lies between its min and max times |
| Optimizer.PerformanceMonitor.constructor | optimizer.go:194-198 | no metrics |
| Optimizer.PerformanceMonitor.Record | optimizer.go:201-225 | the operation's metric is created from the first duration or updated by RecordOne; all metrics stay consistent |
| Optimizer.PerformanceMonitor.GetMetrics | optimizer.go:228-243 | the copy holds every metric unchanged |
| Optimizer.StrategyManager.constructor | optimizer.go:142-146 | no strategies, no default |
| Optimizer.StrategyManager.RegisterStrategy | optimizer.go:149-151 | stored under its name, so GetStrategy of that name returns it; the default is untouched |
| Optimizer.StrategyManager.SetDefaultStrategy | optimizer.go:154-156 | only the default changes |
| Optimizer.StrategyManager.GetStrategy | optimizer.go:159-164 | the named strategy if registered, else the default |
| Optimizer.Select | optimizer.go:159-164 | the strategy of that name if registered, else the default |
| Optimizer.RegisteredStrategyFound | optimizer.go:149-162 | after registering, Select (the look-up behind GetStrategy) finds the strategy by its name and resolves every other name as before |

## Left out

- Aliasing and in-place effects through pointers are not modelled. The walk
  returns the updated value instead of writing through `reflect.Value`. A
  payload returned by an unwrapper is translated as a value of its own; how it
  shares memory with the wrapper is not captured.
- Concurrency is not modelled: the mutexes, the goroutines of the worker pool,
  and the asynchronous `Delete` in the memory cache's `Get`. The worker pool
  runs its chunks one after another on a shared state. Its `select` race is
  modelled only as "some chunk's error is reported".
- Dict.DictManager.BatchTranslateParallel: returns the first chunk failure in
  chunk order. Its contract only promises one of the failures, because in the
  source a race decides which one.
- The SQL-backed constructors `CreateDictTableTranslatorFromDB` and
  `CreateDictTableTwoTranslatorFromDB` (dict_table.go, dict_table_two.go) are
  not modelled: they run SQL through `database/sql`. The SQL text they rely on
  is modelled in `TableConfig`.
- `strings.EqualFold` is modelled with ASCII case folding only. `unicode.IsSpace`
  is modelled via its code-point list, without Unicode tables.
- The `%v` text of composite or other kinds (`Values.Render`) and the `%T` text
  (`Enum.TypeText`) are simplified renderings. Integers and strings render
  exactly.
- Values.Render: a non-nil pointer is rendered by its pointee (`&` and the
  pointee's text), not by its address as Go's `%v` prints it. For a pointer
  key field (a `*int64`, say), the `db` and `dictTable`/`dictTableTwo` cache
  keys and the `dictKey` text sent to the back-end therefore differ from Go.
  In Go, two pointers to equal values get separate cache entries, and a
  pointer whose pointee changes keeps hitting its old entry. In the model,
  pointers to equal values share an entry, and the back-end receives `&5`
  rather than an address. Addresses are not modelled.
- Fields of interface type (`interface{}`, `any`) are not modelled: `Value`
  has no variant for them. In Go such a field is skipped by the legacy path
  (dict.go:266), never chosen as a target (dict.go:294), not descended into
  (dict.go:108-129), yet handed to a translator as its dynamic value
  (dict.go:316), so an `enum` on it translates a held `2` or `"2"`. Neither
  `Str` nor `Other` captures all four behaviours.
- Engine.GetPlan: reflect.Type identity is the record's type name, and the
  model does not require that records sharing a name share their field
  descriptors, which Go's type identity guarantees. Walks of two different
  field lists under one name would share a plan in the model.
- Integers are unbounded: int64 overflow of metric totals and the widths of the
  integer kinds are not modelled. Go's truncating `/` is written out
  (`Optimizer.TruncDiv`).
- A Dafny map cannot be nil, so registering a nil table is not modelled. In
  the source, a nil `dict` dictionary behaves as an absent one, which gives
  the same outcome as an empty one: no translation. A nil enum table makes the
  enum translator fail with "not found" (enum.go:31-33); the model's registry
  cannot hold one.
- Callbacks, translators, back-ends and unwrappers are pure functions. A
  callback is an identifier, and its invocation is a returned delivery.
- `Set`, `Delete` and `Clear` of the memory cache always return nil in the
  source, so the model's versions return nothing.
- config.go (`GetConfig`, `ParallelThreshold`) is not part of this model. The
  threshold is a parameter of `TranslateBatch`, and its default of 100 is
  `Partition.DefaultParallelThreshold`.
- framework.go, translator.go and `TranslateWithOptions` (middlewares) are not
  part of this model.
- Strategies are modelled by their name only. `TranslateStrategy.Translate` and
  the `TranslateContext` it takes are left out, because the default strategy's
  one implementation does nothing. For the same reason,
  `DefaultTranslateStrategy` is a constant.
- The metrics `GetMetrics` copies are values, so the copy created there is not
  observable as distinct pointers.
- The field-index map `translateStruct` builds from the plan (dict.go:93-96) is
  the search `Plan.FindPlan`. `Plan.FindBuiltPlan` proves it finds what the
  map holds.

## Findings

| source | as written | input that shows it | evidently intended | confidence | as-written member | corrected member |
|---|---|---|---|---|---|---|
| optimizer.go:308-312 with batch.go:46-55 | `TranslateBatch` enters the worker pool whenever `length >= ParallelThreshold`. With a threshold of 0 or less, an empty slice gets there: `workerCount` becomes 0 and `chunkSize := (length + workerCount - 1) / workerCount` divides by zero | `TranslateBatch(&[]T{}, nil)` with `Performance.ParallelThreshold = 0` | an empty slice takes the sequential path and returns nil, as `BatchTranslate` does (batch.go:27-30) | medium, not executed | Engine.EmptySliceReachesZeroWorkers | Engine.ParallelGuardCorrected |
