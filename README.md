# QUANLYVATTU inventory core, in Dafny

QUANLYVATTU is a paper-warehouse client. It keeps a local replica of the stock
sheet (rolls and packets of paper, keyed by `sku`). It refreshes the replica with
deltas fetched since the newest `lastUpdated`, and filters, sorts and exports it in
a background worker. Edits are applied to the replica at once. They are also
queued as commands in a durable queue that a sync status machine later sends to
the server as one batch. Around that core sit the screens' helpers:

- Vietnamese number and date-time formats and input masks.
- Table selection, virtual scrolling and column resizing.
- Reference-list maintenance and the edit form's option lists.
- The persisted UI store.
- The warehouse calendar (weekly stock rotation, monthly stock take, quarterly total check).
- The inactivity logout.
- A paper-cutting calculator. It matches stock rolls to an order, groups them by size,
  evaluates every cutting orientation, picks rolls greedily and ranks the options.

This project models that core and proves properties of the model. There is one
module per source file, and each is written in the source's own form:

- Pure helpers are datatypes, functions and lemmas.
- Hooks and contexts that hold state are classes whose methods update their fields.
- Loops of the source are loops with invariants, proved against a specification function.

| file | module | source |
|---|---|---|
| js.dfy | Js | JavaScript values: `Option`, numbers with NaN, dynamic cells, and the host-library operations as a `Lib` record |
| text.dfy | Text | `split`, `join`, `trim`, `includes`, character replacement, `padStart`, `parseInt` |
| seqs.dfy | Seqs | `filter`, `map`, `reduce`, `new Set(...)` and the stable `sort` |
| calendar.dfy | Calendar | the proleptic Gregorian calendar behind `Date` |
| inventory_types.dfy | InventoryTypes | types/inventory.ts |
| inventory_worker.dfy | InventoryWorker | workers/inventory.worker.ts (transform, merge, date parsing) |
| worker_query.dfy | WorkerQuery | workers/inventory.worker.ts (the worker body: filter, sort, total, CSV) |
| inventory_query.dfy | InventoryQuery | hooks/useInventoryQuery.ts |
| sync_service.dfy | Sync | services/sync.ts |
| command_queue.dfy | CommandQueue | contexts/CommandQueueContext.tsx |
| inventory_actions.dfy | InventoryActions | hooks/useInventoryActions.ts |
| inventory_filter.dfy | InventoryFilter | hooks/useInventoryFilter.ts |
| formatting.dfy | Formatting | utils/formatting.ts |
| table_selection.dfy | TableSelection | hooks/useTableSelection.ts |
| virtual_scroll.dfy | VirtualScroll | hooks/useVirtualScroll.ts |
| column_resize.dfy | ColumnResize | hooks/useColumnResize.ts |
| reference_management.dfy | ReferenceManagement | hooks/useReferenceManagement.ts, utils/referenceConfig.ts |
| form_fields.dfy | FormFields | hooks/useInventoryFormFields.ts |
| ui_store.dfy | UiStore | stores/uiStore.ts |
| business_logic.dfy | BusinessLogic | hooks/useBusinessLogic.ts |
| session_timeout.dfy | SessionTimeout | hooks/useSessionTimeout.ts |
| paper_calculation.dfy | PaperCalculation | utils/paperCalculationLogic.ts |
| result_card.dfy | ResultCard | components/Modules/PaperCalculation/ResultCard.tsx (`rollRows`) |
| paper_calculator.dfy | PaperCalculator | hooks/usePaperCalculator.ts (gsm search, matching, stock sizes, gsm options, grouping) |
| calculate_handler.dfy | CalculateHandler | hooks/usePaperCalculator.ts (`handleCalculate`) |
| paper_calculation_manager.dfy | PaperCalculationManager | components/Modules/PaperCalculation/PaperCalculationManager.tsx (masks, manufacturers, bulk pending save) |

Weights and dimensions are exact reals. Time is an explicit millisecond clock or
calendar date, passed in. The server, the browser store, timers, broadcasts and
the worker's messages are explicit parameters or events.

## Model

| member | source | states |
|---|---|---|
| InventoryWorker.TextOrEmpty | workers/inventory.worker.ts:81 | a falsy cell reads as '', any other cell as its own text |
| InventoryWorker.Cell | workers/inventory.worker.ts:76-95 | `row[i]` reads the i-th cell of an array row and the i-th character of a string row; past the end, and on a number or boolean row, it reads `undefined` |
| InventoryWorker.TransformData | workers/inventory.worker.ts:73-100 | records, one per row, exactly when the input is a non-empty array whose first row is an array and no row is `null` or `undefined`; a TypeError exactly when such an array has a nullish row; any other input comes back unchanged |
| InventoryWorker.TransformRow | workers/inventory.worker.ts:76-97 | the i-th record takes every property from its fixed `COL` position of the i-th row; `gsm` and `pendingOut` are '' for a falsy cell; the 17 fields other than the three dates are stated here |
| InventoryWorker.TransformRowDates | workers/inventory.worker.ts:42-95 | the import, production and last-update columns: '' for a falsy cell, the cell's text when it is no date, the DD/MM/YYYY (plus HH:MM:SS for the last update) text of the date otherwise |
| InventoryWorker.TransformEmptyOrNull | workers/inventory.worker.ts:99 | `[]` and `null` are returned as they were |
| InventoryWorker.Put | workers/inventory.worker.ts:110 | `Map.set`: the key then maps to the record, every other key keeps its entry, a new key goes last and an existing key keeps its place |
| InventoryWorker.Values | workers/inventory.worker.ts:125 | the listed values are the map's entries in key order, each carrying its own key as sku |
| InventoryWorker.PutAll | workers/inventory.worker.ts:106-123 | filling the map from a list keeps it a well-formed insertion-ordered map |
| InventoryWorker.MergeInventory | workers/inventory.worker.ts:102-126 | the two loops and `Array.from` compute the merge whose properties the lemmas below state |
| InventoryWorker.LastWith | workers/inventory.worker.ts:115-123 | the last record of a list with a given sku; none exactly when no record carries it |
| InventoryWorker.Find | workers/__tests__/inventory.worker.test.ts:49-71 | `find` by sku: a record of the list with that sku, none exactly when no record carries it |
| InventoryWorker.Skus | workers/inventory.worker.ts:109-110 | the skus of a list, position by position |
| InventoryWorker.NewSkusMembers | workers/inventory.worker.ts:109-110 | the skus a pass adds are distinct, non-empty, not already keys, and each belongs to some record of the list |
| InventoryWorker.PutAllKeys | workers/inventory.worker.ts:103-123 | a pass appends its new skus to the key order in first-appearance order |
| InventoryWorker.PutAllLookup | workers/inventory.worker.ts:115-123 | after a pass a sku of the list holds its last record there; every other key holds what it held before |
| InventoryWorker.PutAllNoEmpty | workers/inventory.worker.ts:109 | a record with an empty sku is never stored |
| InventoryWorker.FindValues | workers/inventory.worker.ts:125 | looking a sku up in the listed values finds what the map holds for it |
| InventoryWorker.FindFirst | workers/__tests__/inventory.worker.test.ts:49-71 | `find` returns the record at the first index holding the sku |
| InventoryWorker.MergeFind | workers/inventory.worker.ts:102-126 | one record per non-empty sku: the delta's last record for a sku the delta holds, else the snapshot's last; an empty sku is dropped |
| InventoryWorker.MergeOrder | workers/inventory.worker.ts:103-125 | merged skus are distinct: the snapshot's in first-appearance order (kept even when updated), then the delta's new ones in theirs |
| InventoryWorker.MergeSkus | workers/inventory.worker.ts:102-126 | a sku is in the merge iff it is non-empty and carried by some record of the snapshot or the delta |
| InventoryWorker.MergeUpdateExample | workers/__tests__/inventory.worker.test.ts:49-60 | updating A in [A, B] keeps two records, A with the new quantity and B as it was |
| InventoryWorker.MergeInsertExample | workers/__tests__/inventory.worker.test.ts:63-71 | inserting C into [A] gives two records, C among them |
| InventoryWorker.ParseDateRejects | workers/inventory.worker.ts:128-132 | a value that is not a non-empty string, or whose date part has not exactly three '/' fields, gives -1 |
| InventoryWorker.ParseDateMidnight | workers/inventory.worker.ts:136-142 | text without a time part reads as midnight of its date |
| InventoryWorker.DatePartOnly | workers/inventory.worker.ts:130-131 | text without a space is its own date part |
| InventoryWorker.ParseDateOfFields | workers/inventory.worker.ts:130-143 | a date and a time of three non-empty fields each are read field by field into the local time value |
| InventoryWorker.ParseFormattedDateTime | workers/inventory.worker.ts:128-144 | text written by `formatDateTime` reads back as the time value of the same local date-time |
| InventoryWorker.ParseDateNoSlash | workers/__tests__/inventory.worker.test.ts:86-88 | text without '/' (such as 'invalid') reads -1 |
| WorkerQuery.SearchTermsShape | workers/inventory.worker.ts:303-305 | every search term is non-empty, trimmed and free of ';' |
| WorkerQuery.ColumnMatchIsMatch | workers/inventory.worker.ts:309-318 | a record whose chosen property is present and contains every term also matches under column 'all' (an absent `transactionType` reads "undefined" in its own column but is no value of `Object.values`) |
| WorkerQuery.FilteredMembers | workers/inventory.worker.ts:290-319 | the filter result is an order-preserving subsequence of the data and keeps a record iff it passes every present width/length bound and every search term |
| WorkerQuery.NoFilterKeepsAll | workers/inventory.worker.ts:291-300 | with no search text and no ranges, the data passes unchanged |
| WorkerQuery.SortItems | workers/inventory.worker.ts:322-354 | the sort step is a permutation of the filtered records |
| WorkerQuery.UnsortedKeepsOrder | workers/inventory.worker.ts:322-325 | without odd lots and without a sort key the filtered order is kept |
| WorkerQuery.OddLotsByWeight | workers/inventory.worker.ts:323-324 | with odd lots the result is lightest first, whatever the sort configuration |
| WorkerQuery.DatesByTime | workers/inventory.worker.ts:329-335 | the three date keys sort by parsed time value in the chosen direction (when every value parses) |
| WorkerQuery.ScaledSign | workers/inventory.worker.ts:334 | multiplying a difference by the direction factor orders by the scaled values |
| WorkerQuery.ScaledOrderRespects | workers/inventory.worker.ts:334 | the date comparator agrees with the rank given by the scaled time values |
| WorkerQuery.NullsLast | workers/inventory.worker.ts:340-342 | under any other key, null and undefined values come after all others in both directions |
| WorkerQuery.NullOrderRespects | workers/inventory.worker.ts:337-352 | the value comparator agrees with the null-last rank |
| WorkerQuery.NumbersByValue | workers/inventory.worker.ts:344-348 | when every value under the key is a non-blank number, the sort is numeric in the chosen direction |
| WorkerQuery.NumberOrderRespects | workers/inventory.worker.ts:337-352 | the value comparator agrees with the scaled numeric rank on such values |
| WorkerQuery.NumericOrder | workers/inventory.worker.ts:344-348 | two present, numeric, non-blank values are ordered by their scaled numbers |
| WorkerQuery.NumericCompare | workers/inventory.worker.ts:344-348 | two present, numeric, non-blank values compare by the sign of their scaled difference |
| WorkerQuery.QueryMembers | workers/inventory.worker.ts:290-356 | the query result holds exactly the records that pass the filter, each as often as the filter keeps it |
| WorkerQuery.Query | workers/inventory.worker.ts:280-356 | the result is a rearrangement of the filtered records: each record as often as the filter keeps it, none for no data |
| WorkerQuery.TotalOfQuery | workers/inventory.worker.ts:358 | the total is sum(weight)/1000 of what the filter keeps, independent of the sort, and non-negative when no weight is negative |
| WorkerQuery.SkipBreaks | workers/inventory.worker.ts:203 | skipping a run of line breaks leaves a suffix that does not start with one |
| WorkerQuery.CollapseBreaks | workers/inventory.worker.ts:203 | after collapsing, no CR or LF remains |
| WorkerQuery.CollapseNoBreaks | workers/inventory.worker.ts:203 | text without line breaks is left alone |
| WorkerQuery.CollapseChars | workers/inventory.worker.ts:203 | collapsing introduces no character other than the space |
| WorkerQuery.SkipRun | workers/inventory.worker.ts:203 | a run of line breaks is skipped up to the first character after it |
| WorkerQuery.CollapseRunHead | workers/inventory.worker.ts:203 | a leading run of line breaks becomes one space |
| WorkerQuery.CollapseRun | workers/inventory.worker.ts:203 | a run of CR/LF between two break-free texts becomes exactly one space |
| WorkerQuery.CellTextClean | workers/inventory.worker.ts:192-206 | no exported cell holds ';', CR or LF |
| WorkerQuery.CellTextPlain | workers/inventory.worker.ts:201-206 | a clean text value in a plain column is exported as is; null and undefined become '' |
| WorkerQuery.RowSplits | workers/inventory.worker.ts:190-207 | each record line has no line break and splits at ';' back into its cells |
| WorkerQuery.GenerateCsv | workers/inventory.worker.ts:186-210 | the export begins with the byte-order mark and then the header line and a line break |
| WorkerQuery.CsvLines | workers/inventory.worker.ts:186-211 | the export is the BOM, then lines that are the header line and one line per record, in order |
| WorkerQuery.QueryWorker.constructor | workers/inventory.worker.ts:161-162 | the worker starts with an empty cache and an empty last result |
| WorkerQuery.QueryWorker.SetData | workers/inventory.worker.ts:252-258 | a snapshot, when given, becomes both the cache and the last result; otherwise nothing changes |
| WorkerQuery.QueryWorker.FilterSort | workers/inventory.worker.ts:277-362 | the result is the query over the given snapshot or the cache, the total is its weight/1000, it becomes the last result and the cache is kept |
| WorkerQuery.QueryWorker.ExportCsv | workers/inventory.worker.ts:260-275 | the CSV is the last result rendered by `generateCSV` |
| InventoryQuery.MaxTimeBounds | hooks/useInventoryQuery.ts:13-19 | the watermark is at least 0 and at least every parseable `lastUpdated`, and is 0 or one of those time values; unparseable values are skipped |
| InventoryQuery.Watermark | hooks/useInventoryQuery.ts:13-19 | the `forEach` loop computes the maximum-time watermark |
| InventoryQuery.FetchInventory | services/inventory.ts:21-36 | an error field rejects; missing or empty rows mean nothing newer (`null`); otherwise one record per fetched row |
| InventoryTypes.Json | workers/inventory.worker.ts:168-170 | `JSON.parse(JSON.stringify(v))` of a property value turns NaN into `null` and keeps every other value |
| InventoryTypes.FieldValues | workers/inventory.worker.ts:310-314 | `Object.values` of a held record: 19 values, plus `transactionType` when it is present; never `undefined`, never NaN |
| InventoryTypes.Field | workers/inventory.worker.ts:316 | `item[key]` of a held record is never NaN |
| InventoryTypes.FieldByName | workers/inventory.worker.ts:310-316 | a listed name reads one of `Object.values` unless it reads `undefined`, which only an absent `transactionType` does; any other name reads `undefined` |
| InventoryTypes.NaNMeasureReadsNull | services/worker.ts:32-36 | each measure computed as NaN is read back as `null` after the JSON round trip, and a NaN width puts `null` among `Object.values` |
| InventoryQuery.FetchInventoryData | hooks/useInventoryQuery.ts:10-34 | the fetch returns the cache itself when nothing is newer, the delta as is for an empty cache, and the merge otherwise |
| InventoryQuery.RefetchKeepsSkus | hooks/useInventoryQuery.ts:23-33 | a refetch never loses a non-empty sku of the replica |
| InventoryQuery.RefreshReports | hooks/useInventoryQuery.ts:46-57 | nothing newer is reported as already up to date (same replica); a server error is reported as a connection error |
| InventoryQuery.FirstLoadTakesRows | hooks/useInventoryQuery.ts:29 | with an empty replica the fetched records are taken as they are, one per row |
| Sync.SyncService.GetQueue | services/sync.ts:9-11 | the stored command list, or `[]` when nothing is stored |
| Sync.SyncService.AddToQueue | services/sync.ts:16-21 | stores and returns the old queue with the command appended, earlier commands untouched; nothing is sent |
| Sync.SyncService.ClearQueue | services/sync.ts:26-28 | stores `[]`; nothing is sent |
| Sync.SyncService.ProcessQueue | services/sync.ts:34-70 | an empty queue returns count 0 with no request and no broadcast; otherwise exactly one batch request of the whole queue; a rejection throws and keeps the store; success clears it, broadcasts SYNC_COMPLETE with the count and returns it |
| Sync.AddTwiceThenProcess | services/sync.ts:16-64 | two queued commands go out together, in order, in one batch, and an accepted batch leaves nothing queued |
| Sync.RejectedBatchKeepsQueue | services/sync.ts:52-54 | a rejected batch throws "Batch sync failed" and keeps every command queued |
| CommandQueue.EventOf | services/sync.ts:60-61 | the service's completion broadcast reaches the listener as SYNC_COMPLETE without per-command results |
| CommandQueue.ClassificationPartitions | contexts/CommandQueueContext.tsx:68-70 | conflicts and errors partition the failed results: every failure is exactly one of them and together they count the failures |
| CommandQueue.NoConflicts | contexts/CommandQueueContext.tsx:69 | no conflicts iff no failed result mentions 'conflict' or 'mismatch' |
| CommandQueue.NoErrors | contexts/CommandQueueContext.tsx:70 | no errors iff every failed result is a conflict |
| CommandQueue.Report | contexts/CommandQueueContext.tsx:66-82 | without results: success with the broadcast count; otherwise success, or a conflict warning with the number of conflicts, or an error report with the number of errors, the last two only when that number is positive |
| CommandQueue.ReportCases | contexts/CommandQueueContext.tsx:68-82 | conflicts take precedence, errors are reported only without conflicts, success exactly when no result failed |
| CommandQueue.ErrorText | contexts/CommandQueueContext.tsx:89 | a background error without text is reported as "Unknown" |
| CommandQueue.CommandQueueState.constructor | contexts/CommandQueueContext.tsx:29-31 | empty queue, IDLE, no last sync time |
| CommandQueue.CommandQueueState.LoadQueue | contexts/CommandQueueContext.tsx:36-49 | a non-empty saved queue becomes the queue and PENDING; an empty one changes nothing |
| CommandQueue.CommandQueueState.AddCommand | contexts/CommandQueueContext.tsx:107-121 | PENDING whatever the previous status and appended in memory; persisted, or on a store failure a notice and the store unchanged |
| CommandQueue.CommandQueueState.ProcessQueueBatch | contexts/CommandQueueContext.tsx:124-147 | a no-op while SYNCING or with an empty queue; otherwise SYNCING and the stored queue is sent; a thrown batch sets ERROR and keeps the queue |
| CommandQueue.CommandQueueState.ProcessQueueBatchSettled | contexts/CommandQueueContext.tsx:124-147 | the corrected batch step: a batch that sent nothing returns to PENDING instead of staying SYNCING |
| CommandQueue.CommandQueueState.OnMessage | contexts/CommandQueueContext.tsx:57-91 | SYNC_COMPLETE empties the queue, records the sync time, sets SUCCESS and reports; SYNC_ERROR sets ERROR and keeps the queue |
| CommandQueue.CommandQueueState.OnStatusTimer | contexts/CommandQueueContext.tsx:84-86 | the timer after a completed sync returns the status to IDLE and changes nothing else |
| CommandQueue.CommandQueueState.Tick | contexts/CommandQueueContext.tsx:150-160 | a batch starts only when commands wait, no batch runs and the client is online |
| CommandQueue.AcceptedRun | contexts/CommandQueueContext.tsx:57-157 | add, accepted batch, broadcast and timer leave an empty, idle queue with the sync time and one success notice |
| CommandQueue.UnsavedCommandStallsSync | contexts/CommandQueueContext.tsx:107-147 | a command whose store write failed is never sent and the status stays SYNCING, so later ticks start nothing |
| CommandQueue.UnsavedCommandSettles | contexts/CommandQueueContext.tsx:107-147 | with the corrected batch step the same run returns to PENDING |
| InventoryActions.NameOr | hooks/useInventoryActions.ts:87 | the user's name when there is a non-empty one, else the fallback |
| InventoryActions.NewItemStamps | hooks/useInventoryActions.ts:27-52 | a new record has empty sku and note, zero numbers, both dates the date part of now and `lastUpdated` the whole date-time |
| InventoryActions.StampedPendingOut | hooks/useInventoryActions.ts:87-93 | a blank note saves as '' with no suffix; otherwise as the trimmed note followed by the suffix |
| InventoryActions.StampedNoteHead | hooks/useInventoryActions.ts:87-93 | a stamped note begins with the trimmed note, followed by " - <user or 'Unknown'> DD/MM/YYYY HH:MM:SS" |
| InventoryActions.BulkCache | hooks/useInventoryActions.ts:100-112 | a missing cache becomes `[]`; otherwise same length, selected records get only the new `pendingOut`, all others unchanged |
| InventoryActions.BulkCommands | hooks/useInventoryActions.ts:117-133 | every bulk command is an UPDATE whose payload is a cached record of a selected sku with the new note |
| InventoryActions.BulkCommandsFollowSelection | hooks/useInventoryActions.ts:119-133 | the command skus are the selected skus present in the cache, in selection order; absent skus give no command |
| InventoryActions.BulkCommandSelected | hooks/useInventoryActions.ts:119-121 | every bulk command's sku was selected |
| InventoryActions.BulkPayloadKeepsRecord | hooks/useInventoryActions.ts:123-130 | each payload is a record of the cache before the save with only `pendingOut` replaced, so `importer` and `lastUpdated` are kept |
| InventoryActions.SavedItem | hooks/useInventoryActions.ts:146-153 | the edited record with the stamped note; a new record takes the user (or 'Unknown') and now, an edit keeps importer and last update |
| InventoryActions.SingleCache | hooks/useInventoryActions.ts:156-160 | a missing cache becomes `[saved]`; creating prepends; editing replaces the records with the same sku and keeps the others |
| InventoryActions.SingleSaveIsFound | hooks/useInventoryActions.ts:156-160 | after a single save, looking its sku up in the cache finds the saved record |
| InventoryActions.InventoryActionsState.constructor | hooks/useInventoryActions.ts:19-20 | no record being edited, not creating |
| InventoryActions.InventoryActionsState.RowDoubleClick | hooks/useInventoryActions.ts:22-25 | edits the given record, not creating; nothing else changes |
| InventoryActions.InventoryActionsState.AddNew | hooks/useInventoryActions.ts:27-52 | opens the blank new record in creation mode; nothing else changes |
| InventoryActions.InventoryActionsState.CloseModal | hooks/useInventoryActions.ts:54-57 | closes the form and leaves creation mode |
| InventoryActions.InventoryActionsState.PrepareBulkUpdate | hooks/useInventoryActions.ts:60-69 | nothing for an empty selection; otherwise the form opens on the record of the first selected sku when it exists |
| InventoryActions.InventoryActionsState.QueueAll | hooks/useInventoryActions.ts:136-138 | the commands are handed to the queue one by one, in order |
| InventoryActions.InventoryActionsState.SaveBulk | hooks/useInventoryActions.ts:95-140 | the bulk cache rewrite, the bulk commands read from the rewritten cache appended in order, and one bulk notice |
| InventoryActions.InventoryActionsState.SaveSingle | hooks/useInventoryActions.ts:142-171 | the single cache update, one IMPORT command when creating and UPDATE otherwise, and its notice |
| InventoryActions.InventoryActionsState.SaveItem | hooks/useInventoryActions.ts:75-181 | stamps the note, takes the bulk branch for a non-empty sku list and the single branch otherwise, then closes the form |
| InventoryFilter.TextOr | hooks/useInventoryFilter.ts:27-28 | `given || fallback` for text |
| InventoryFilter.Apply | hooks/useInventoryFilter.ts:148-150 | after an update, the field it names holds the update's value |
| InventoryFilter.FlagOr | hooks/useInventoryFilter.ts:29-31 | `given || false` for a toggle |
| InventoryFilter.InitialFilters | hooks/useInventoryFilter.ts:26-33 | without an initial state: empty term, column 'all', toggles off, empty bounds; otherwise the given values with those defaults for falsy ones |
| InventoryFilter.UpdateChangesOnlyItsField | hooks/useInventoryFilter.ts:148-150 | an update sets its field and nothing else: writing the old value back restores the state |
| InventoryFilter.SetBound | hooks/useInventoryFilter.ts:154-157 | the named bound takes the value and the other three bounds are unchanged |
| InventoryFilter.NextSort | hooks/useInventoryFilter.ts:139-145 | the key becomes the clicked key; the direction is 'desc' iff the same key was 'asc' |
| InventoryFilter.SortCycles | hooks/useInventoryFilter.ts:139-145 | clicking the same header flips the direction each time (period two); a new header starts ascending |
| InventoryFilter.ExportColumns | hooks/useInventoryFilter.ts:169-173 | one reduced column per column, in order, with its header, accessor and numeric flag |
| InventoryFilter.InventoryFilterState.Descriptor | hooks/useInventoryFilter.ts:124-133 | the query carries the debounced term with the live column, ranges, odd-lot flag and sort |
| InventoryFilter.InventoryFilterState.constructor | hooks/useInventoryFilter.ts:20-135 | initial filters and sort `{null, 'asc'}`; the mount effects post a non-empty inventory with a query, then a query |
| InventoryFilter.InventoryFilterState.OnInventory | hooks/useInventoryFilter.ts:103-120 | a non-empty inventory is posted, followed by the current query; an empty one posts nothing |
| InventoryFilter.InventoryFilterState.OnDebounceTimer | hooks/useInventoryFilter.ts:96-135 | the live term becomes the queried term; the query is re-posted exactly when the term changed, and nothing is posted when it already was the queried term |
| InventoryFilter.RetypedTermPostsNothing | hooks/useInventoryFilter.ts:96-135 | typing a character and deleting it before the debounce fires: the timer posts nothing |
| InventoryFilter.InventoryFilterState.HandleSort | hooks/useInventoryFilter.ts:137-146 | ignored while odd lots are shown; otherwise the next sort is set and the query re-posted |
| InventoryFilter.InventoryFilterState.UpdateFilter | hooks/useInventoryFilter.ts:148-150 | only the given field changes, and the query is re-posted |
| InventoryFilter.InventoryFilterState.UpdateRangeFilter | hooks/useInventoryFilter.ts:152-158 | a non-empty non-numeric value is ignored; otherwise only the named bound changes |
| InventoryFilter.InventoryFilterState.ClearRangeFilters | hooks/useInventoryFilter.ts:160-165 | all four bounds become '' and the other fields stay |
| InventoryFilter.InventoryFilterState.ExportAndDownloadCsv | hooks/useInventoryFilter.ts:167-180 | posts the reduced columns and the file name; the view state is unchanged |
| InventoryFilter.InventoryFilterState.OnFilterResult | hooks/useInventoryFilter.ts:51-69 | shows the reply's rows (none when they cannot be decoded) and its total weight |
| InventoryFilter.TypingIsDebounced | hooks/useInventoryFilter.ts:96-135 | typing a term queries with the old term until the debounce fires, and with the new term afterwards |
| Formatting.DigitRun | utils/formatting.ts:53 | the maximal run of digits starting at a position (the `\d` run the lookahead inspects) |
| Formatting.Grouped | utils/formatting.ts:53 | the reference grouping of a digit string in threes from the right; empty iff its digits are empty |
| Formatting.GroupedChars | utils/formatting.ts:53 | a grouping holds only digits and '.', and begins and ends with a digit |
| Formatting.DotBeforeDigits | utils/formatting.ts:53 | in a digit string the pattern `\B(?=(\d{3})+(?!\d))` matches exactly at the inner positions followed by a multiple of three digits |
| Formatting.GroupThousandsDigits | utils/formatting.ts:53 | on digit strings the regular-expression replacement equals the reference grouping |
| Formatting.UngroupGrouped | utils/formatting.ts:53 | deleting the '.'s from a grouping gives the digits back |
| Formatting.UngroupFrom | utils/formatting.ts:53 | the replacement only inserts '.'s: deleting every '.' before and after agrees |
| Formatting.LastGroup | utils/formatting.ts:53 | the last '.'-group of a grouping of more than three digits has exactly three digits |
| Formatting.FormatKeepsIntegerDigits | utils/formatting.ts:41-56 | deleting the inserted '.'s from `formatNumberToVN`'s integer part restores the original integer digits |
| Formatting.GroupFromChars | utils/formatting.ts:53 | the replacement inserts nothing but '.' |
| Formatting.FormatNumberToVN | utils/formatting.ts:41-46 | undefined, null and '' give ''; text that already holds a ',' is returned unchanged |
| Formatting.ParseVNToNumber | utils/formatting.ts:59-71 | a number passes through, a falsy value gives 0 |
| Formatting.FormatInteger | utils/formatting.ts:41-56 | a digit string formats to its grouping, whose cleanup is the digits again |
| Formatting.FormatDecimal | utils/formatting.ts:41-56 | `d.e` formats to grouping(d) + ',' + e, whose cleanup is `d.e` again |
| Formatting.CleanDecimal | utils/formatting.ts:63-67 | the cleanup of grouping(d) + ',' + e is `d.e` |
| Formatting.ParseFormatRoundTrip | utils/formatting.ts:41-71 | for digits or digits.digits, the cleanup undoes `formatNumberToVN`, so parsing the formatted text gives the number of the original |
| Formatting.NumberTextChars | utils/formatting.ts:113-127 | canonical number text holds only digits, '.' and ',', with exactly one ',' when a decimal part is present and none otherwise |
| Formatting.KeepFirstCommaShape | utils/formatting.ts:107-111 | after step 3 a string of digits and ',' has one or two digit pieces |
| Formatting.ProcessNumberInput | utils/formatting.ts:75-128 | every output is canonical text: the integer digits it keeps grouped in threes with '.', then, when a decimal part is kept, one ',' and its digits |
| Formatting.GroupedEnd | utils/formatting.ts:80 | a grouping never ends with '.' |
| Formatting.ResolveDotsGrouped | utils/formatting.ts:84-96 | step 1 reads a grouping of digits as thousands separators |
| Formatting.ProcessAfterInteger | utils/formatting.ts:104-127 | once step 1 has left digits only, the output is their grouping |
| Formatting.ProcessAfterDecimal | utils/formatting.ts:104-127 | once step 1 has left digits, ',' and digits, the output regroups the first and keeps the decimals |
| Formatting.ProcessNumberInputFixesInteger | utils/formatting.ts:75-128 | a grouping is left unchanged |
| Formatting.ProcessNumberInputFixesDecimal | utils/formatting.ts:75-128 | a grouping followed by ',' and digits is left unchanged |
| Formatting.ProcessNumberInputFixes | utils/formatting.ts:75-128 | canonical text is a fixed point |
| Formatting.ProcessNumberInputIdempotent | utils/formatting.ts:75-128 | applying the input mask twice equals applying it once |
| Formatting.TrailingDotIsComma | utils/formatting.ts:80-82 | without a ',', a trailing '.' becomes the decimal ',' after the dot-free digits |
| Formatting.LastDotAt | utils/formatting.ts:89 | the last '.' of `front.back` (back dot-free) is the one between them |
| Formatting.ShortLastGroupIsDecimal | utils/formatting.ts:84-92 | without a ',', a last '.'-group of one or two digits is the decimal part |
| Formatting.ShortLastGroupResolved | utils/formatting.ts:88-92 | step 1 turns `front.back` with a short last group into dot-free front + ',' + back |
| Formatting.LongLastGroupIsThousands | utils/formatting.ts:93-96 | without a ',', dots before a last group of three or more digits are dropped and the digits regrouped |
| Formatting.MinusOne | utils/formatting.ts:27 | `parseInt(...) - 1` keeps NaN and subtracts one otherwise |
| Formatting.ParseVNDateTimeToTimestamp | utils/formatting.ts:15-19 | empty text, and text with no space after trimming (no time part), parse to 0 |
| Formatting.DateTextFields | utils/formatting.ts:5-7 | the date text splits at '/' into the padded day, padded month+1 and the year |
| Formatting.TimeTextFields | utils/formatting.ts:8-10 | the time text splits at ':' into padded hour, minute and second |
| Formatting.FormatDateTime | utils/formatting.ts:4-12 | for a year from 0 on, the text splits at its one space into the date text and the time text |
| Formatting.FormatDateTimeParts | utils/formatting.ts:4-12 | `formatDateTime` text is trimmed already and splits at its one space into date and time |
| Formatting.ParseVNOfFields | utils/formatting.ts:15-34 | a trimmed text of a date and a time with three fields each is read field by field |
| Formatting.ParseFormattedFields | utils/formatting.ts:18-32 | the formatted text is read back as the padded fields it was made of |
| Formatting.FormatParseRoundTrip | utils/formatting.ts:4-38 | parsing `formatDateTime`'s output gives the time value of the same date-time (years from 100 on) |
| TableSelection.Without | hooks/useTableSelection.ts:17 | `Set.delete`: exactly the element removed, order and distinctness kept, nothing changes for an absent element |
| TableSelection.Toggle | hooks/useTableSelection.ts:13-23 | the id's membership flips and every other id keeps its membership; distinctness is kept |
| TableSelection.ToggleTwice | hooks/useTableSelection.ts:13-23 | toggling the same id twice restores the set (and, for an id not selected, the exact order) |
| TableSelection.TableSelectionState.constructor | hooks/useTableSelection.ts:10 | the selection starts empty |
| TableSelection.TableSelectionState.SelectId | hooks/useTableSelection.ts:13-23 | exactly `id` changes membership; all other ids are unchanged |
| TableSelection.TableSelectionState.SelectAll | hooks/useTableSelection.ts:26-33 | `true` selects exactly the keys of the current rows, each once, in the order of their first row, so the first row's key comes first (the key a bulk edit opens on); `false` selects nothing |
| Seqs.DistinctHead | hooks/useTableSelection.ts:28-29 | `new Set(keys)` keeps the first key first |
| TableSelection.TableSelectionState.ClearSelection | hooks/useTableSelection.ts:36-38 | the selection becomes empty |
| VirtualScroll.WindowBounds | hooks/useVirtualScroll.ts:21-28 | 0 <= startIndex, endIndex <= totalRows, and both paddings are non-negative |
| VirtualScroll.WindowHeights | hooks/useVirtualScroll.ts:27-28 | when start <= end, paddingTop + rendered rows + paddingBottom = totalRows * rowHeight |
| VirtualScroll.VisibleRowsRendered | hooks/useVirtualScroll.ts:21-25 | every existing row intersecting [scrollTop, scrollTop + clientHeight) has an index in [startIndex, endIndex) |
| VirtualScroll.NextRange | hooks/useVirtualScroll.ts:31-34 | the new indices are the computed ones, and the state object is either the old one or the new one |
| VirtualScroll.VirtualScrollState.constructor | hooks/useVirtualScroll.ts:7-12 | the first range is the estimate {0, 20, 0, 0} |
| VirtualScroll.VirtualScrollState.CalculateRange | hooks/useVirtualScroll.ts:14-35 | nothing without a container; otherwise the window of the viewport, the old object kept when neither index moved |
| VirtualScroll.VirtualScrollState.CalculateRangeSettled | hooks/useVirtualScroll.ts:14-35 | the corrected update: the range is always the window of the viewport, spacers included |
| VirtualScroll.VirtualScrollState.OnScroll | hooks/useVirtualScroll.ts:37-42 | after the animation frame the indices are the window of the scrolled viewport, and the old range object (spacers included) is kept when neither index moved |
| VirtualScroll.VirtualScrollState.OnScrollSettled | hooks/useVirtualScroll.ts:31-42 | the corrected scroll: the range is the whole window of the scrolled viewport |
| VirtualScroll.VirtualScrollState.SetTotalRows | hooks/useVirtualScroll.ts:44-55 | an unchanged count changes nothing; a new count runs the as-written update on the current viewport, then, under 50 rows with a range not starting at 0, scrolls to the top and runs it again; the indices are then those of the viewport |
| VirtualScroll.VirtualScrollState.SetTotalRowsSettled | hooks/useVirtualScroll.ts:31-55 | the corrected row-count change: the same reset, and the range is the whole window for the new count |
| VirtualScroll.GrownTableKeepsSpacer | hooks/useVirtualScroll.ts:31-34 | growing from 100 to 200 rows at the top keeps a 3400 px bottom spacer where 7400 px is due |
| VirtualScroll.GrownTableResizesSpacer | hooks/useVirtualScroll.ts:27-33 | with the corrected update the spacer is 7400 px |
| VirtualScroll.TopScrollKeepsEstimate | hooks/useVirtualScroll.ts:31-42 | 100 rows of 40 px, a 600 px view at the top: a scroll event keeps the estimate's 0 px bottom spacer where 3200 px is due |
| VirtualScroll.TopScrollSettles | hooks/useVirtualScroll.ts:27-42 | with the corrected update the same scroll gives the 3200 px spacer |
| ColumnResize.StartWidth | hooks/useColumnResize.ts:33 | the column's width when it is known and non-zero, else 100 |
| ColumnResize.DraggedWidth | hooks/useColumnResize.ts:13 | always at least 50; equal to start width + (clientX - startX) whenever that is at least 50 |
| ColumnResize.DragBackRestores | hooks/useColumnResize.ts:13 | moving back to the starting x restores a start width of at least 50 |
| ColumnResize.DraggedWidthMonotone | hooks/useColumnResize.ts:13 | a cursor further right never gives a narrower column |
| ColumnResize.ColumnResizeState.constructor | hooks/useColumnResize.ts:4-5 | the widths start as given and no drag is active |
| ColumnResize.ColumnResizeState.MouseDown | hooks/useColumnResize.ts:29-38 | records the drag with the column's start width and attaches the listeners; widths unchanged |
| ColumnResize.ColumnResizeState.MouseMove | hooks/useColumnResize.ts:8-15 | ignored without a drag; otherwise only the dragged column changes, to the clamped width |
| ColumnResize.ColumnResizeState.MouseUp | hooks/useColumnResize.ts:18-26 | ends the drag and detaches the listeners; widths unchanged |
| ColumnResize.NarrowDragStopsAtMinimum | hooks/useColumnResize.ts:8-26 | a drag from 300 to 120 on a 120-wide column stops at 50, and moves after mouse-up change nothing |
| ReferenceManagement.CurrentData | hooks/useReferenceManagement.ts:28 | no metadata gives `[]`; loaded metadata gives the category's list, or none when it has no list for the category |
| ReferenceManagement.FilteredData | hooks/useReferenceManagement.ts:31-40 | no data gives `[]`; otherwise a row is kept iff the lower-cased term occurs in the lower-cased column 0, 1 or 2 (missing cells read '') |
| ReferenceManagement.FilteredDataKeepsOrder | hooks/useReferenceManagement.ts:34-39 | the search result is an order-preserving subsequence of the rows |
| ReferenceManagement.EmptyTermKeepsAll | hooks/useReferenceManagement.ts:33-38 | an empty term keeps every row |
| ReferenceManagement.InputValue | hooks/useReferenceManagement.ts:59-73 | verbatim for the supplier category; upper-cased otherwise; for a strict code field the upper-cased text with every non-ASCII character removed, so only ASCII characters remain |
| Text.KeepChars | hooks/useReferenceManagement.ts:68 | the `replace(/[^…]/g, "")` deletion keeps only characters of the class, and is never longer than its input |
| Text.KeepCharsCounts | hooks/useReferenceManagement.ts:68 | every character of the class is kept as often as it occurs, and no other character is kept |
| Text.KeepCharsSubseq | hooks/useReferenceManagement.ts:68 | what is kept is a subsequence of the input, in its order |
| Text.KeepCharsIsFilter | hooks/useReferenceManagement.ts:68 | the deletion equals the generic order-preserving filter on the class |
| ReferenceManagement.StrictInputStable | hooks/useReferenceManagement.ts:63-68 | an upper-case ASCII code is kept as it is |
| ReferenceManagement.CheckColumn | hooks/useReferenceManagement.ts:79-92 | an empty value is never a duplicate; otherwise an error naming the value and field iff some row, other than the edited one, has equal trimmed lower-cased text in that column |
| ReferenceManagement.LabelOf | hooks/useReferenceManagement.ts:98 | a configured field's label, or the fallback |
| ReferenceManagement.ValidateDuplicateReportsFirstClash | hooks/useReferenceManagement.ts:75-113 | an error is reported iff some configured field clashes, and it is the first clash in the order value, code, extra |
| ReferenceManagement.EditedRowIsNoDuplicate | hooks/useReferenceManagement.ts:85 | while editing, the row whose first cell is the editing id is excluded from the check |
| ReferenceManagement.SameValueIsDuplicate | hooks/useReferenceManagement.ts:81-88 | without editing, a row's own first cell re-entered with other spacing or case is a duplicate |
| ReferenceManagement.EveryCategoryHasValue | utils/referenceConfig.ts:23-52 | every category has a value field |
| ReferenceManagement.ReferenceManagementState.constructor | hooks/useReferenceManagement.ts:10-22 | category 'loaiNhap', empty search and form, not editing, not submitting |
| ReferenceManagement.ReferenceManagementState.SelectCategory | hooks/useReferenceManagement.ts:10 | only the category changes; the form is kept |
| ReferenceManagement.ReferenceManagementState.ResetForm | hooks/useReferenceManagement.ts:42-48 | clears all fields and leaves edit mode |
| ReferenceManagement.ReferenceManagementState.Edit | hooks/useReferenceManagement.ts:50-56 | loads row[0..2] into the form, sets the editing id to row[0] and enters edit mode |
| ReferenceManagement.ReferenceManagementState.InputChange | hooks/useReferenceManagement.ts:59-73 | only the given field changes, to the category's input value |
| ReferenceManagement.ReferenceManagementState.Submit | hooks/useReferenceManagement.ts:115-154 | no service call for a blank new value when not editing (warning) or for a duplicate (error); otherwise one add or update call, and on success the form is reset and the metadata invalidated |
| ReferenceManagement.Request | hooks/useReferenceManagement.ts:132-145 | an update iff editing, carrying the category and the three fields (an update also names the original value) |
| ReferenceManagement.EditThenSubmitCallsService | hooks/useReferenceManagement.ts:50-145 | editing a row and submitting it unchanged calls the service with an update of that row |
| FormFields.Transform | hooks/useInventoryFormFields.ts:11-18 | no data gives `[]`; otherwise one option per row in order, value = label = row[0], code row[1] or '' when codes are asked for, '' otherwise |
| FormFields.TransformSupplier | hooks/useInventoryFormFields.ts:22-29 | no data gives `[]`; otherwise one option per row in order, value = label = row[1], code = row[0] |
| FormFields.SupplierIsSwappedTransform | hooks/useInventoryFormFields.ts:11-29 | for rows with both cells, `transformNCC` is `transform` with codes on rows whose first two cells are swapped |
| FormFields.ListOf | hooks/useInventoryFormFields.ts:32-36 | `metaData?.[category]` is present iff the metadata is loaded and has that list |
| FormFields.Options | hooks/useInventoryFormFields.ts:31-37 | absent metadata gives empty lists; purposes, packets and paper types with codes, suppliers by name, manufacturers without codes |
| FormFields.ManufacturersHaveNoCode | hooks/useInventoryFormFields.ts:36 | manufacturer options never carry a code |
| UiStore.DefaultViewIsInitialFilters | stores/uiStore.ts:49-56 | the default view state equals the filter hook's starting state |
| UiStore.Pick | stores/uiStore.ts:78 | a supplied field wins over the current one |
| UiStore.MergeViewLaws | stores/uiStore.ts:76-79 | an empty patch changes nothing, a full patch replaces the view, merging twice is merging once, two merges are one merge of the combined patch |
| UiStore.MergePaperLaws | stores/uiStore.ts:92-95 | the empty-patch and repeat laws for the paper calculator's inputs |
| UiStore.UiStoreState.constructor | stores/uiStore.ts:49-91 | both views start at the default view and the calculator at its defaults ('2', '0.25', FREE, combine on) |
| UiStore.UiStoreState.SetInventoryView | stores/uiStore.ts:76-79 | the inventory view takes the supplied fields; the other two slices are unchanged |
| UiStore.UiStoreState.ResetInventoryView | stores/uiStore.ts:80 | the inventory view returns to the default exactly; the other slices are unchanged |
| UiStore.UiStoreState.SetMaterialView | stores/uiStore.ts:84-87 | the material view takes the supplied fields; the other two slices are unchanged |
| UiStore.UiStoreState.ResetMaterialView | stores/uiStore.ts:88 | the material view returns to the default exactly; the other slices are unchanged |
| UiStore.UiStoreState.SetPaperCalculation | stores/uiStore.ts:92-95 | the calculator inputs take the supplied fields; the views are unchanged |
| UiStore.UiStoreState.ResetPaperCalculation | stores/uiStore.ts:96 | the calculator inputs return to the default exactly; the views are unchanged |
| UiStore.SearchThenReset | stores/uiStore.ts:74-88 | a search typed on the inventory screen and then reset leaves both views at the default |
| BusinessLogic.DayMonth | hooks/useBusinessLogic.ts:24-28 | the display is five characters: two digits, '/', two digits |
| BusinessLogic.DayMonthReadsBack | hooks/useBusinessLogic.ts:24-28 | the display reads back as the day and the 1-based month |
| BusinessLogic.LastFriday | hooks/useBusinessLogic.ts:4-11 | a valid date in month m, where m = 12 means January of the next year |
| BusinessLogic.LastFridayIsLast | hooks/useBusinessLogic.ts:4-11 | the result is a Friday and no later day of its month is a Friday |
| BusinessLogic.BackToFriday | hooks/useBusinessLogic.ts:8-9 | going back (weekday - 5 + 7) % 7 days reaches a Friday and passes none before it |
| BusinessLogic.SameMonthDistance | hooks/useBusinessLogic.ts:9 | days of one month are as far apart as their day numbers |
| BusinessLogic.FridayGap | hooks/useBusinessLogic.ts:19 | (5 - weekday + 7) % 7 lies in [0, 6] and is 0 exactly on a Friday |
| BusinessLogic.NextFridayGap | hooks/__tests__/useBusinessLogic.test.ts:28-37 | the intended gap to the next Friday lies in [1, 7] |
| BusinessLogic.StockRotation | hooks/useBusinessLogic.ts:15-31 | as written: `daysLeft` in [0, 6] |
| BusinessLogic.StockRotationOnFriday | hooks/useBusinessLogic.ts:19-22 | as written, on a Friday the rotation is today with 0 days left |
| BusinessLogic.StockRotationFebruary12 | hooks/__tests__/useBusinessLogic.test.ts:15-25 | Monday 12/02/2024 gives 4 days, landing on 16 February |
| BusinessLogic.StockRotationNextFriday | hooks/__tests__/useBusinessLogic.test.ts:28-37 | corrected: `daysLeft` in [1, 7] |
| BusinessLogic.StockRotationReachesFriday | hooks/useBusinessLogic.ts:18-22 | the corrected rotation falls on a Friday |
| BusinessLogic.StockRotationSkipsNoFriday | hooks/useBusinessLogic.ts:18-22 | no day strictly between today and the corrected rotation is a Friday |
| BusinessLogic.StockRotationAgreesBeforeFriday | hooks/useBusinessLogic.ts:19-30 | away from Fridays the corrected rotation equals the code's |
| BusinessLogic.WeekdayAfter | hooks/useBusinessLogic.ts:21-22 | the weekday k days on is that of the day number k further |
| BusinessLogic.ForwardToFriday | hooks/useBusinessLogic.ts:19 | from weekday w the next Friday is NextFridayGap(w) days on and no earlier day is one |
| BusinessLogic.LandsOnFriday | hooks/useBusinessLogic.ts:18-22 | the date NextFridayGap days after today is a Friday, and a date fewer days on is not |
| BusinessLogic.FridayFebruary16 | hooks/__tests__/useBusinessLogic.test.ts:28-37 | on Friday 16/02/2024 the code gives 0 days where the test expects 7 and 23 February |
| BusinessLogic.EarlierMonthFirst | hooks/useBusinessLogic.ts:42 | a day of one month comes before every day of a later month |
| BusinessLogic.StockTakeDay | hooks/useBusinessLogic.ts:34-45 | a Friday not before today: this month's last Friday unless today is strictly after it, then next month's |
| BusinessLogic.StockCheck | hooks/useBusinessLogic.ts:47-48 | `daysLeft`, the whole-day distance between midnights, is non-negative |
| BusinessLogic.StockCheckFebruary12 | hooks/__tests__/useBusinessLogic.test.ts:42-51 | 12/02/2024 targets 23 February, 11 days on |
| BusinessLogic.StockCheckFebruary24 | hooks/__tests__/useBusinessLogic.test.ts:54-65 | 24/02/2024 has passed February's, so it targets 29 March, 34 days on |
| BusinessLogic.February2024 | hooks/useBusinessLogic.ts:4-11 | the last Friday of February 2024 is the 23rd |
| BusinessLogic.March2024 | hooks/useBusinessLogic.ts:4-11 | the last Friday of March 2024 is the 29th |
| BusinessLogic.QuarterEnd | hooks/useBusinessLogic.ts:65 | floor(m/3)*3+2 is in {2, 5, 8, 11} and is the last month of m's quarter |
| BusinessLogic.TotalCheckDay | hooks/useBusinessLogic.ts:60-80 | the target is a valid date in a quarter-end month |
| BusinessLogic.TotalCheck | hooks/useBusinessLogic.ts:59-91 | the days left to the quarterly check are never negative |
| BusinessLogic.TotalCheckNotPast | hooks/useBusinessLogic.ts:69-80 | the counted Friday is not before today: this quarter's, or the next quarter's once it has passed |
| BusinessLogic.TotalCheckIsNextQuarterEnd | hooks/useBusinessLogic.ts:64-80 | a Friday not before today, in this quarter's last month unless its last Friday has passed, then in the next quarter's (December wraps to March of the next year) |
| BusinessLogic.Deadlines | hooks/useBusinessLogic.ts:13-99 | as written: rotation days in [0, 6], 0 exactly on a Friday; stock-take and total-check days non-negative, the stock take never later than the total check |
| BusinessLogic.DeadlinesNextFriday | hooks/__tests__/useBusinessLogic.test.ts:28-37 | corrected: rotation days in [1, 7], 7 exactly on a Friday; the other two cards as in Deadlines |
| BusinessLogic.StockTakeNotAfterTotal | hooks/useBusinessLogic.ts:34-80 | the monthly stock take never comes after the quarterly check |
| BusinessLogic.FirstMonthEndFriday | hooks/useBusinessLogic.ts:38-45 | the stock take is no later than any month-end Friday from today on |
| BusinessLogic.NextMonthFriday | hooks/useBusinessLogic.ts:6 | `new Date(y, m + 1, 0)` normalises: month m+1 of y, named by its own year and month, has the same last Friday |
| SessionTimeout.CheckActivity | hooks/useSessionTimeout.ts:17-29 | logs out iff at least 10 minutes have passed; otherwise reschedules after max(100, remaining) ms |
| SessionTimeout.OnTimeChecksLogOut | hooks/useSessionTimeout.ts:17-28 | checks that fire when due log an idle user out by the second check, no later than 100 ms after the deadline |
| SessionTimeout.SessionTimeoutState.constructor | hooks/useSessionTimeout.ts:8-53 | with no user nothing is scheduled; otherwise activity counts from now and a 10-minute timer starts |
| SessionTimeout.SessionTimeoutState.Rerun | hooks/useSessionTimeout.ts:8-60 | the cleanup clears the timer and listeners; no user leaves no timer; a user gets a fresh 10-minute timer |
| SessionTimeout.SessionTimeoutState.Activity | hooks/useSessionTimeout.ts:38-46 | every event records the activity; the timer restarts only when more than 120 s have passed since the last restart |
| SessionTimeout.SessionTimeoutState.Fire | hooks/useSessionTimeout.ts:17-29 | logs out exactly when 10 minutes have passed since the latest activity, otherwise is pending again; never logs out sooner |
| SessionTimeout.IdleUserLoggedOut | hooks/useSessionTimeout.ts:14-53 | an idle user signed in at 0 is logged out by the check at ten minutes |
| SessionTimeout.ActiveUserGetsMoreTime | hooks/useSessionTimeout.ts:17-46 | activity at one minute (too soon to restart) makes the ten-minute check reschedule to eleven, which logs out |
| PaperCalculation.Cuts | utils/paperCalculationLogic.ts:43-45 | when the strip fits across the stock, at least one strip is cut, so the `cuts === 0` exit is never taken |
| PaperCalculation.CutsFit | utils/paperCalculationLogic.ts:41-45 | cuts = floor(stock/cut): cuts strips fit across the stock and one more does not |
| PaperCalculation.FloorFits | utils/paperCalculationLogic.ts:44 | floor(stock/cut) strips fit within the stock and one more does not |
| PaperCalculation.TrimWaste | utils/paperCalculationLogic.ts:48-49 | 0 <= trimWaste < cut |
| PaperCalculation.RowsCover | utils/paperCalculationLogic.ts:53 | rowsNeeded = ceil(qty/cuts): enough rows for the quantity, and one fewer is not |
| PaperCalculation.CeilCovers | utils/paperCalculationLogic.ts:53 | ceil(q/n) rows of n cover q |
| PaperCalculation.CeilTight | utils/paperCalculationLogic.ts:53 | one row fewer does not cover q |
| PaperCalculation.SortByWeight | utils/paperCalculationLogic.ts:66 | the same rolls (a permutation), lightest first |
| PaperCalculation.Mandatory | utils/paperCalculationLogic.ts:69-72 | the first min(2, #odd) rolls under 300 kg of the sorted list |
| PaperCalculation.FillStops | utils/paperCalculationLogic.ts:86-94 | filling appends a prefix of the pool, stops before the pool ends only once the weight reaches usedKg - 0.5, and takes no roll after that point |
| PaperCalculation.MandatoryLightest | utils/paperCalculationLogic.ts:66-72 | the mandatory rolls are the lightest odd rolls: no other odd roll weighs less than any of them |
| PaperCalculation.PrefixLightest | utils/paperCalculationLogic.ts:66-72 | in a list sorted by weight, a roll in a prefix weighs no more than any roll outside it |
| PaperCalculation.SelectionUnique | utils/paperCalculationLogic.ts:79-94 | with distinct skus in the group, no roll is picked twice |
| PaperCalculation.PoolApart | utils/paperCalculationLogic.ts:79-82 | no roll of the pool shares a sku with a mandatory roll |
| PaperCalculation.FillSelection | utils/paperCalculationLogic.ts:75-94 | the loop computes the filled selection and `currentWeight` is the sum of its weights |
| PaperCalculation.StatusOf | utils/paperCalculationLogic.ts:126-129 | WARNING iff shortage; else OPTIMAL iff trim% < 2 and leftover < 50; else ACCEPTABLE iff trim% > 10 or leftover > 200; else GOOD |
| PaperCalculation.ShortageScoresLower | utils/paperCalculationLogic.ts:108-123 | all else equal, a shortage scores below no shortage |
| PaperCalculation.SelectRolls | utils/paperCalculationLogic.ts:65-94 | sort, mandatory rolls, then filling: the selection and its total weight |
| PaperCalculation.ScoreScenario | utils/paperCalculationLogic.ts:108-123 | score = 2000 - 10000[shortage] - 2 leftover - 50 trim% + 50 rolls + 500[0 <= leftover < 50] |
| PaperCalculation.RateStatus | utils/paperCalculationLogic.ts:126-129 | the status steps compute the ordered classification |
| PaperCalculation.Rate | utils/paperCalculationLogic.ts:100-153 | the result describes the selection sorted by weight, rollsNeeded its length, leftover = weight - usedKg, with its score and status |
| PaperCalculation.CalculateScenario | utils/paperCalculationLogic.ts:26-154 | nothing appended when the stock is narrower than the cut, or on a shortage without combining; otherwise exactly one describing result appended, earlier entries untouched |
| PaperCalculation.FittingScenario | utils/paperCalculationLogic.ts:44-154 | once the strip fits: no result exactly on a shortage without combining, else one result describing the cuts, trim, length, weight used and the rolls selected for it |
| ResultCard.After | components/Modules/PaperCalculation/ResultCard.tsx:40 | max(0, remaining - used) is non-negative and equals remaining - used when used <= remaining |
| ResultCard.Row | components/Modules/PaperCalculation/ResultCard.tsx:30-46 | used is 0 once demand <= 0.01, else min(demand, weight); leftover stock = weight - used >= 0; partial iff leftover > 0.1 and used > 0.1 |
| ResultCard.Rows | components/Modules/PaperCalculation/ResultCard.tsx:27-37 | exactly one row per selected roll, in order |
| ResultCard.DemandConserved | components/Modules/PaperCalculation/ResultCard.tsx:28-43 | the demand never grows nor goes negative, and used amounts plus what is left equal usedWeight, so the rows never take more than it |
| ResultCard.LeftBound | components/Modules/PaperCalculation/ResultCard.tsx:35-40 | the demand left is at most 0.01, or the shortfall of the rolls' total weight |
| ResultCard.LeftUnchanged | components/Modules/PaperCalculation/ResultCard.tsx:35 | once the demand is at most 0.01 nothing more is taken |
| ResultCard.RowsCoverDemand | components/Modules/PaperCalculation/ResultCard.tsx:28-43 | rolls weighing at least the demand take all of it but for at most 0.01 |
| ResultCard.RowsStep | components/Modules/PaperCalculation/ResultCard.tsx:30-40 | the walk from roll i is that roll's row followed by the walk from the next |
| ResultCard.RollRows | components/Modules/PaperCalculation/ResultCard.tsx:27-47 | the memo's walk computes the rows of the selected rolls against usedWeight |
| ResultCard.RowOf | components/Modules/PaperCalculation/ResultCard.tsx:30-45 | one step of the walk builds the roll's row for the demand left and leaves max(0, demand - used) to the next roll |
| PaperCalculator.Lower | hooks/usePaperCalculator.ts:67 | lower-casing keeps the empty search text empty |
| PaperCalculator.FirstPiece | hooks/usePaperCalculator.ts:59-60 | the first piece of the split is a prefix of the text, holds no '/', '_' or ' ', and ends at one of them or at the end |
| PaperCalculator.GsmKey | hooks/usePaperCalculator.ts:53-63 | an entry without a '/' is used whole |
| PaperCalculator.KeyAfterPiece | hooks/usePaperCalculator.ts:54-63 | after the first '/', the key is the whole entry, or a non-empty separator-free piece that follows the '/' past white space only and ends at a separator, at trailing white space or at the end |
| PaperCalculator.GsmKeyAfterSlash | hooks/usePaperCalculator.ts:54-56 | with a '/' in the entry the key is taken after its first '/' |
| PaperCalculator.PieceOfTrim | hooks/usePaperCalculator.ts:57-61 | the first piece of the trimmed tail occurs in the tail with only white space before it |
| PaperCalculator.PieceOfSlice | hooks/usePaperCalculator.ts:57-61 | the part of the trimmed tail before its first separator, with only white space around the trimmed text, occurs in the tail as a piece |
| PaperCalculator.GsmSearch | hooks/usePaperCalculator.ts:65-68 | a blank key gives an empty search string |
| PaperCalculator.Normalize | hooks/usePaperCalculator.ts:76 | a missing or empty field normalises to '' |
| PaperCalculator.MatchingItems | hooks/usePaperCalculator.ts:73-105 | empty without a type or search text; otherwise exactly the inventory items, not pending out, whose type, gsm and (if chosen) manufacturer contain the targets, with weight > 0 and a positive width or length |
| PaperCalculator.MatchingRollsUsable | hooks/usePaperCalculator.ts:80-103 | every matching item has no pending issue, a weight and a size |
| PaperCalculator.MatchingKeepsOrder | hooks/usePaperCalculator.ts:80 | the matching items are a subsequence of the inventory |
| PaperCalculator.StockSizesAscending | hooks/usePaperCalculator.ts:108-113 | the found stock sizes strictly ascend and are exactly the positive lengths of the matching items |
| PaperCalculator.GsmOptionsContents | hooks/usePaperCalculator.ts:116-145 | the gsm options are distinct, empty without a type, non-blank and trimmed, and g is one iff some item of the chosen type and manufacturer has gsm g |
| PaperCalculator.GsmOptionsNumeric | hooks/usePaperCalculator.ts:139-143 | when every option reads as a number, the options ascend by that number |
| PaperCalculator.NumericFirstRespectsRank | hooks/usePaperCalculator.ts:139-143 | on values that all read as numbers, the comparator orders by the number |
| PaperCalculator.AvailableGsms | hooks/usePaperCalculator.ts:116-145 | the loop over the inventory and the sort compute the gsm options |
| PaperCalculator.ItemOffersGsm | hooks/usePaperCalculator.ts:123-135 | an item adds a gsm value iff its lower-cased type contains the chosen type, its lower-cased manufacturer contains the chosen one when one is chosen, and its trimmed gsm is not empty |
| PaperCalculator.GroupForAbsent | hooks/usePaperCalculator.ts:207-216 | a size not met yet has the fresh empty group |
| PaperCalculator.GroupForPresent | hooks/usePaperCalculator.ts:218-220 | a size met has a group of at least one roll |
| PaperCalculator.GroupForStep | hooks/usePaperCalculator.ts:201-221 | one more item joins the group of its size (totals, items, count) and leaves the other groups alone |
| PaperCalculator.AddToGroups | hooks/usePaperCalculator.ts:207-220 | after a step the keys are the old keys plus the item's size |
| PaperCalculator.GroupedOrderStep | hooks/usePaperCalculator.ts:201-216 | the insertion order of keys after i+1 items lists the distinct sizes of those items in first-seen order |
| PaperCalculator.GroupedKeysStep | hooks/usePaperCalculator.ts:207-216 | after a step the map is keyed by exactly the sizes in the key order |
| PaperCalculator.GroupedValuesStep | hooks/usePaperCalculator.ts:201-221 | after a step each entry is the group of its size among the first i+1 items |
| PaperCalculator.KeyGroupStep | hooks/usePaperCalculator.ts:218-220 | the entry the item joins becomes the group of its size among the first i+1 items |
| PaperCalculator.AddItem | hooks/usePaperCalculator.ts:201-221 | one loop step updates the map and the key order |
| PaperCalculator.GroupInventory | hooks/usePaperCalculator.ts:192-225 | the loop and `Object.values` give the groups of the matching items |
| PaperCalculator.GroupsPartition | hooks/usePaperCalculator.ts:201-225 | no two groups share a size, and every matching roll lies in the group of its size |
| PaperCalculator.GroupTotals | hooks/usePaperCalculator.ts:218-220 | every group is non-empty, counts its rolls and weighs their total |
| PaperCalculator.GroupMembers | hooks/usePaperCalculator.ts:201-221 | a group holds exactly the rolls of the matching items of its size |
| CalculateHandler.OrientationsMembers | hooks/usePaperCalculator.ts:234-251 | for one side, the calls made are exactly the orientations the grain direction allows |
| CalculateHandler.DimensionCallsMembers | hooks/usePaperCalculator.ts:234-252 | over the sides of a group, the calls are exactly those on one of its sides in an allowed orientation |
| CalculateHandler.CallsCover | hooks/usePaperCalculator.ts:227-253 | a call is made iff its group is one of the groups, it measures a positive width or length of that group, and the grain allows its orientation (FREE both, LONG unrotated, SHORT rotated) |
| CalculateHandler.ExtendsChain | hooks/usePaperCalculator.ts:224-253 | options added by two runs of calls are the options of the calls one after the other |
| CalculateHandler.EvaluateCall | hooks/usePaperCalculator.ts:237-241 | one scenario adds exactly the call's option when the strip fits and the rolls suffice or combining is allowed, and nothing otherwise |
| CalculateHandler.EvaluateDimension | hooks/usePaperCalculator.ts:234-252 | the options of one side are those of its allowed orientations, A before B |
| CalculateHandler.EvaluateSides | hooks/usePaperCalculator.ts:230-252 | the options of one size group are those of its positive sides in order, width before length |
| CalculateHandler.EvaluateGroups | hooks/usePaperCalculator.ts:224-253 | the options found are, in call order, one per kept call of every group, side and orientation, each the option that call builds |
| CalculateHandler.FindOptions | hooks/usePaperCalculator.ts:223-253 | the options found over the size groups of the matching stock are, in call order, one per kept call, each the option that call builds |
| CalculateHandler.TopRanked | hooks/usePaperCalculator.ts:263-273 | the first min(5, n) ranked options are kept, all among those found, no covering option after a short one, and the first covers the demand when any does |
| CalculateHandler.ShortFirst | hooks/usePaperCalculator.ts:263-265 | the ranking is a permutation of the options with every covering option before every short one |
| CalculateHandler.TopOfRanked | hooks/usePaperCalculator.ts:273 | the first five of such a ranking hold only options, and a covering one first when any option covers |
| CalculateHandler.OrderWeightsLaws | hooks/usePaperCalculator.ts:166-180 | net weight positive for a valid order; trim weight never negative, zero without a margin, and exactly gross - net with a non-negative margin; no waste at 0% |
| CalculateHandler.OrderWeights | hooks/usePaperCalculator.ts:166-180 | the trim weight is never negative (`Math.max(0, …)`) and no waste is added at 0 percent |
| CalculateHandler.CalculatorScreen.constructor | hooks/usePaperCalculator.ts:46-49 | no results, zero weights, not busy |
| CalculateHandler.CalculatorScreen.HandleCalculate | hooks/usePaperCalculator.ts:148-158 | a required field empty: a warning only; otherwise busy and the calculation scheduled; results and weights untouched |
| CalculateHandler.CalculatorScreen.RunCalculation | hooks/usePaperCalculator.ts:158-282 | the oldest scheduled calculation runs on the form and inventory it was scheduled with, settles the screen and leaves it not busy |
| CalculateHandler.CalculatorScreen.Settle | hooks/usePaperCalculator.ts:160-281 | invalid figures: an error only; otherwise the weights are set, then no stock is an error, no option clears the results with a warning, else the top five of every option found are shown with their count |
| CalculateHandler.CalculatorScreen.ShowOptions | hooks/usePaperCalculator.ts:255-274 | the options found are kept; none: results cleared and a no-option notice; some: the top five of the ranking shown and a notice of how many were found; weights, extra trim and waste, and the pending queue unchanged, no longer busy |
| CalculateHandler.ParseForm | hooks/usePaperCalculator.ts:160-164 | the figures are the parsed form fields and the parsed gsm key |
| CalculateHandler.ShareFigures | hooks/usePaperCalculator.ts:166-168 | the sheet sides with the trim margin in cm added, and the form's shared settings |
| CalculateHandler.Weigh | hooks/usePaperCalculator.ts:176-180 | the loop-free weight steps compute the order's net, gross, trim and waste weights |
| PaperCalculationManager.IntegerMaskLaws | components/Modules/PaperCalculation/PaperCalculationManager.tsx:62-67 | the mask is the typed digits grouped in threes from the right with '.', holds only digits and '.', gives the digits back in order once the '.'s are deleted, and is '' exactly when no digit was typed |
| PaperCalculationManager.FirstCommaOnly | components/Modules/PaperCalculation/PaperCalculationManager.tsx:73-76 | the result has at most one ',', has one iff the input does, is the input when it has none, and adds no character |
| PaperCalculationManager.CommaSplice | components/Modules/PaperCalculation/PaperCalculationManager.tsx:75 | the text before the first ',', that ',', and the rest with every ',' removed hold exactly one ',' and only characters of the input |
| PaperCalculationManager.JoinSplitDeletes | components/Modules/PaperCalculation/PaperCalculationManager.tsx:75 | joining with '' the pieces that splitting at a character cuts deletes every such character |
| PaperCalculationManager.KeepFirstCommaIsFirstCommaOnly | components/Modules/PaperCalculation/PaperCalculationManager.tsx:73-76 | the split-and-join step keeps the first ',' and deletes the later ones |
| PaperCalculationManager.DecimalMaskLaws | components/Modules/PaperCalculation/PaperCalculationManager.tsx:69-78 | the mask holds only digits and ',', at most one ',', has a ',' iff the cleaned input (with '.' read as ',') does, and is that input with every ',' after the first deleted |
| PaperCalculationManager.CompareCodeUnitsOrder | components/Modules/PaperCalculation/PaperCalculationManager.tsx:179 | the default sort order is 0 only on equal strings and antisymmetric |
| PaperCalculationManager.CompareTransitive | components/Modules/PaperCalculation/PaperCalculationManager.tsx:179 | the default sort order is transitive |
| PaperCalculationManager.SortedStrictly | components/Modules/PaperCalculation/PaperCalculationManager.tsx:179 | a sorted list of distinct names strictly ascends |
| PaperCalculationManager.SortDistinctAscends | components/Modules/PaperCalculation/PaperCalculationManager.tsx:179 | sorting distinct names in the default code-unit order makes them strictly ascend |
| PaperCalculationManager.ChoicesAscend | components/Modules/PaperCalculation/PaperCalculationManager.tsx:179-185 | mapping strictly ascending names to choices after the 'Tất cả' choice keeps the values strictly ascending |
| PaperCalculationManager.ChoiceNames | components/Modules/PaperCalculation/PaperCalculationManager.tsx:179-185 | a name has a choice after the 'Tất cả' choice iff it is one of the names mapped |
| PaperCalculationManager.ManufacturerChoicesOrder | components/Modules/PaperCalculation/PaperCalculationManager.tsx:178-185 | the 'Tất cả' choice comes first; every other choice shows its value, and the values strictly ascend in code-unit order |
| PaperCalculationManager.ManufacturerChoicesMembers | components/Modules/PaperCalculation/PaperCalculationManager.tsx:160-176 | a manufacturer is offered iff it is non-empty and named by an item whose type contains the selection (any item with no selection) |
| PaperCalculationManager.AvailableManufacturers | components/Modules/PaperCalculation/PaperCalculationManager.tsx:160-186 | the loop, sort and mapping compute the manufacturer choices |
| PaperCalculationManager.PendingDialog.constructor | components/Modules/PaperCalculation/PaperCalculationManager.tsx:207-214 | no rolls targeted, dialog closed, no template |
| PaperCalculationManager.PendingDialog.SaveBulkPending | components/Modules/PaperCalculation/PaperCalculationManager.tsx:207-214 | with rolls targeted, the note is saved on exactly those rolls (cache, queued commands, notice) and the dialog is cleared; with none, nothing changes |

## Left out

- Host library behaviour is a parameter, not a definition. This covers Unicode case mapping, Vietnamese accent folding (`removeVietnameseTones`), `localeCompare`, `Intl.NumberFormat`, `Number(...)`, `parseFloat` and `String(number)`. They are the fields of `Js.Lib`, so the model states its properties for every choice of them.
- InventoryQuery.MaxTime: the refresh watermark's `new Date(item.lastUpdated).getTime()` (hooks/useInventoryQuery.ts:16) is the parameter `timeOf`. The records hold "DD/MM/YYYY HH:MM:SS" text, which ECMAScript does not require `Date` to parse; engines that read it month first would misplace the watermark or drop the record as NaN. The model proves the watermark's bounds for every `timeOf`, not for any particular engine's reading.
- Strings are sequences of Unicode scalar values, not of the host's UTF-16 code units. Lengths, indices and `split` agree with the host on text without characters beyond U+FFFF.
- PaperCalculationManager.CompareCodeUnits: orders characters by scalar value. The host's `<` compares UTF-16 code units, so the two disagree when a character beyond U+FFFF (a surrogate pair, 0xD800-0xDBFF first) meets one in U+E000-U+FFFF.
- Floating point is not modelled. Weights, dimensions and percentages are exact reals, numbers carry NaN explicitly, and infinities do not occur.
- Time zones and daylight saving are not modelled. Timestamps are local time with a zero offset, and calendar years before 0 are outside the model.
- The network, the browser's IndexedDB store, the service worker's Background Sync registration and the metadata service are not modelled as such. Each is an oracle parameter, or the `Sync.SyncService` object with its store as a field.
- Timers, intervals, `requestAnimationFrame`, BroadcastChannel messages and React effects are explicit events or method calls. Interleavings of `await`s are not modelled: each handler runs to completion.
- Message plumbing is not modelled: the worker's `postMessage` protocol, Transferable buffers, and the Blob, URL and anchor used to download the CSV. The worker's state and the descriptor posted to it are modelled. The JSON round trip the records make is modelled where they are read: `InventoryTypes.Field` and `InventoryTypes.FieldValues` give NaN measures as `null` and drop an absent `transactionType`.
- InventoryQuery.FetchInventory: the server's rows are taken to be arrays. A `null` or non-array row in `data.data` is modelled by `InventoryWorker.TransformData` (a TypeError, or the input back unchanged) but is not passed on by this function. The TypeError's engine-worded message is not modelled.
- Toast wording and `console` logging are not modelled. Toasts are notice values recording which message would be shown, with its count where the message has one.
- `try`/`catch` paths that nothing in the model can throw are not modelled. The paper calculator's catch-all is one. The `!inventory` guards of hooks/usePaperCalculator.ts are another: the inventory there is always an array, so they never fire.
- `Array.prototype.sort` is a stable insertion sort in the model. With a comparator that is not a total preorder, the engine's order is implementation-defined, so only the facts that hold for any stable sort respecting the comparator's rank are claimed. This applies to `WorkerQuery.SortItems`, `CalculateHandler.TopRanked` and `PaperCalculator.GsmOptionsNumeric`.
- PaperCalculation.CalculateScenario: requires a positive cut dimension and a positive stock dimension. The handler only calls it on positive stock sides, and a trim margin negative enough to make a cut side zero or negative, with its division by zero, is not modelled.
- CalculateHandler.CalculatorScreen.RunCalculation: requires that the trim margin leaves both sides of a valid sheet positive, for the same reason.
- PaperCalculator.GsmOptionsNumeric: the ascending order is stated only when every option reads as a number. Mixed lists follow `localeCompare`, which is a parameter.
- PaperCalculator.GroupInventory: the `${w}_${l}` record keys are modelled as a pair of reals. The keys always hold a '_', so `Object.values` returns them in insertion order, and that is the order modelled.
- ResultCard.RollRows: only the `rollRows` demand walk is modelled. The rest of the card's rendering is not; its button hands the selected rolls to `handleOpenPendingModal`, which is not modelled either.
- PaperCalculationManager: only the input masks, `availableManufacturers` and `handleSaveBulkPending` are modelled. Keyboard navigation (`handleKeyDown`), `handleResetInputs`, `handleOpenPendingModal` and the JSX are not.
- Persistence of the UI store (the `persist` middleware and its storage) is not modelled. The setters' shallow merges and the resets are.

## Findings

| source | as written | input that shows it | evidently intended | confidence | as-written member | corrected member |
|---|---|---|---|---|---|---|
| contexts/CommandQueueContext.tsx:124-147 | `processQueueBatch` sets SYNCING and relies on a broadcast from `processQueue` to leave it. `processQueue` broadcasts nothing when the store's queue is empty, for example when `addToQueue` failed to persist the command. | `addCommand` whose store write fails, then the interval tick: status stays SYNCING with the command in the in-memory queue, and every later tick skips it | the status returns to PENDING (or IDLE) when the batch sent nothing, so the queue is retried | not executed | CommandQueue.UnsavedCommandStallsSync | CommandQueue.UnsavedCommandSettles |
| hooks/useVirtualScroll.ts:31-34 | the range updater keeps the previous range whenever the start and end indices are unchanged, even though `paddingBottom` depends on `totalRows` | 40 px rows, a 400 px viewport at the top, and the table growing from 100 to 200 rows: the bottom spacer stays 3400 px instead of 7400 px | the spacers follow the row count whenever it changes | not executed | VirtualScroll.GrownTableKeepsSpacer | VirtualScroll.GrownTableResizesSpacer |
| hooks/useVirtualScroll.ts:31-42 | the same updater keeps the first render's estimate `{0, 20, 0, 0}` after a scroll whose window is rows 0 to 20 | 100 rows of 40 px, a 600 px viewport at the top, and a scroll event (a horizontal scroll fires one): the bottom spacer stays 0 px instead of 3200 px | the spacers are those of the computed window | not executed | VirtualScroll.TopScrollKeepsEstimate | VirtualScroll.TopScrollSettles |
| hooks/useBusinessLogic.ts:19 | `(5 - day + 7) % 7` gives 0 days on a Friday, so the rotation shown is today | Friday 16/02/2024: 0 days and "16/02", where the test at hooks/__tests__/useBusinessLogic.test.ts:28-37 expects 7 days (23/02) | on a Friday the next rotation is a week away | not executed | BusinessLogic.StockRotation | BusinessLogic.StockRotationNextFriday |
