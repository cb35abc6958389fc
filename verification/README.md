# A verified model of the loss-monitoring server

The server ingests meter readings of electrical transformers and consuming units, balances them every month
(PRODIST Module 7), raises alerts, bills its tenants and serves dashboards over the result. This project
models the parts of it where a fast, concurrent or repeated form has to agree with a simple meaning, and
proves that it does, or says exactly when it does.

| files | what they model |
|---|---|
| `SummaryCache`, `CacheRuns`, `CacheGuarantees` | the per-tenant memo cache: its critical sections as a class, every interleaving of callers, nested loads, writers, purges and invalidations as a step system, and what callers may rely on |
| `CacheLater`, `CacheProgress`, `CacheTransactions` | what callers that come later are going to see, that loads can always be finished, and exactly when a write committed inside a transaction is seen |
| `SummaryFilter` | the in-memory listing of the network against the SQL query it replaces, with three-valued logic, LIKE, NULLS LAST and OFFSET |
| `RateLimit` | the token-bucket limiter and its background cleanup |
| `Imports`, `ImportLife`, `ImportLaws` | parsing, resolving, in-place deduplication, storing, retrying and deleting of reading imports, with manual readings and failures in between |
| `Headers`, `Schema`, `StandardSchemas`, `Texts` | header normalisation, delimiter detection, matching columns to fields, templates, the four kinds of file, and the order of texts |
| `Numbers`, `NumberTexts` | reading Brazilian and international numbers, which texts are numbers at all, and the exporter that prints them |
| `Risk` | the regression trend and the risk score |
| `Webhooks`, `WebhookRuns` | payment webhooks under duplicates, failures and the retry job |
| `Alerts` | one balance per transformer and period, at most one alert per recipient and level |
| `Recalc` | the parallel recalculation and the parallel batch |
| `Finance` | monthly and per-substation financial sums before and after rounding |
| `Owners` | role changes and removals, the separation of tenants, and the last owner of a tenant |

Conventions. `float64` is `real`; times are integers (nanoseconds in the cache, microseconds elsewhere) or
reals (the limiter). A SQL statement or transaction is one atomic step. Random UUIDs are parameters required
to be new. Failing database calls are parameters too, so the error branches are part of every statement.
Classes hold the fields the source mutates; each of their methods is proved against a function of the old
state, and the laws are proved about those functions over whole runs.

Where the code and what it says about itself differ, the model follows the code:

- `retryAfter` promises the seconds until a token is available, but its integer division rounds the wait down
  for most rates (`RateLimit.RetryAfterSuffices`).
- The risk score reads its history as oldest first and is given it newest first, so a worsening transformer is
  reported as improving and the other way round (`Risk.NewestFirstInverts`), and the score moves by up to 25
  points the wrong way (`Risk.NewestFirstShifts`).
- The score is documented as 0 to 100 and goes below zero for strongly negative losses
  (`Risk.ScoreNonnegativeIff`, `Risk.NegativeScoreExists`).
- `RetryFailedWebhooks` is meant to reprocess failed events and never finds one, because a failure is recorded
  together with the processing time (`WebhookRuns.RetryJobDoesNothing`).
- An exported number without decimals between 1.000 and 999.999 imports a thousand times too small
  (`Numbers.AmbiguousReads`).
- The ranking of recoverable transformers takes a limit of zero at face value where the totals beside it use 10%
  (`Finance.RankingMatchesTotals`).
- Writers that invalidate the cache inside their transaction, before the commit, as the registry import does
  through UpsertByCode, are missed by later readers exactly when the commit finds an entry of the tenant in use
  that has read, or is about to be handed, the rows before it
  (`CacheTransactions.WriteIsSeenUnlessLoadedBetween`, with a run in
  `CacheGuarantees.InTransactionWritesMayBeMissed`); invalidating after the commit, as the batch creation of
  transformers does, repairs it (`CacheTransactions.InvalidationRepairs`).
- A retry removes the readings of the previous attempt in one transaction and stores the new ones in another, so
  one that stops in between loses them until a later one goes through (`ImportLaws.RetryLosesIff`,
  `ImportLaws.RetryAgainRestores`).
- No constraint keeps two tenants from holding one payment subscription; then deleting it does not end its
  effects (`WebhookRuns.NothingAfterDeletion`).
- The cached list is meant to have the ordering of the SQL path; ordered by update it has it exactly when the rows
  never updated fit in by their creation (`SummaryFilter.CachedListAnswersTheQuery`).
- An overdue payment is handled by halves exactly when only the tenant's update fails, and stays so exactly when
  that failure is recorded (`WebhookRuns.HalfHandledIff`, `WebhookRuns.HalfStateIsPermanentIff`).

## Model

| member | source | states |
|---|---|---|
| SummaryCache.MemoCache.Enter | internal/repository/summary_cache.go:58-84 | the first critical section of memo: serve a finished entry of the current generation before its expiry, join an unfinished one, otherwise map a new entry and purge |
| SummaryCache.MemoCache.PurgeLocked | internal/repository/summary_cache.go:101-113 | whatever the iteration order, exactly the finished entries past their expiry leave the map |
| SummaryCache.MemoCache.Publish | internal/repository/summary_cache.go:88-90 | the finished load fills in its own entry and nothing else |
| SummaryCache.MemoCache.EvictFailed | internal/repository/summary_cache.go:91-97 | a failed load removes its entry only while the map still holds that very entry |
| SummaryCache.MemoCache.Invalidate | internal/repository/summary_cache.go:117-127 | a tenant's generation grows by one; without a tenant the loop ends in the closed form proved by BumpEveryEntry |
| SummaryCache.MemoCache.BumpEveryEntry | internal/repository/summary_cache.go:120-124 | in every iteration order each tenant is bumped once per entry it has in the map, other tenants not at all |
| SummaryCache.BumpedAllAt | internal/repository/summary_cache.go:120-124 | global invalidation adds to a tenant's generation the number of its mapped entries |
| CacheRuns.InvalidationOutdates | internal/repository/summary_cache.go:115-127 | an invalidation lowers no generation and outdates every mapped entry it is meant for |
| CacheRuns.StartsAlone | internal/repository/summary_cache.go:61-82 | a new load starts only when every unfinished load of its key is of an older generation |
| CacheRuns.StepKeepsInv | internal/repository/summary_cache.go:58-127 | every step of every caller, nested load, writer, purge and invalidation keeps the invariant relating the map, the generations, detached loads, nested calls and acknowledged writes |
| CacheGuarantees.Reachable | internal/repository/summary_cache.go:58-127 | the invariant holds in every reachable state of every interleaving |
| CacheGuarantees.ReadYourWrites | internal/repository/summary_cache.go:58-127 | any value returned was made from rows, read by its load and by everything nested in it, that held every autocommit write of the tenant whose repository call had returned before the call took the lock |
| CacheGuarantees.AtMostOneLoad | internal/repository/summary_cache.go:61-82 | two unfinished loads of one tenant and name never share a generation |
| CacheGuarantees.WaitersShareTheLoad | internal/repository/summary_cache.go:70-79 | a caller that joined a load returns exactly the value and error that load finished with |
| CacheGuarantees.RemovalsAreFinished | internal/repository/summary_cache.go:91-113 | an entry leaves the map only finished, by expiry or by its own failed load; what replaces an entry is newer, and an unfinished one is replaced only when outdated |
| CacheGuarantees.NestedStaleness | internal/usecase/dashboard_usecase.go:405-412 | a value served at once was finished less than the TTL ago, and every memoised value it was built from less than twice the TTL plus its own load time ago |
| CacheGuarantees.AnswersAreRecent | internal/repository/summary_cache.go:63-79 | whoever returns gets what was finished less than the TTL before its lock or later, and a failure only reaches calls that came before it |
| CacheGuarantees.ServedLoadsAreComplete | internal/repository/summary_cache.go:88-90 | once an entry is finished all calls nested in its load have returned |
| CacheGuarantees.InTransactionWritesMayBeMissed | internal/repository/transformer_reading_repository.go:219-238 | a run in which a load between an in-transaction invalidation and its commit is served to a caller that arrives after the commit |
| CacheLater.StepKeepsSettled | internal/repository/summary_cache.go:58-127 | once nothing of a tenant that was read, or is about to be handed on, before a version can be served or waited for, no step of anybody brings an older value back to a later call, nested or not |
| CacheLater.NothingStaleAllSee | internal/repository/summary_cache.go:58-127 | from a state in which no entry in use holds, or is about to be handed, anything older than a committed version, every later call in every continuation sees that version |
| CacheLater.NothingServableAllSee | internal/repository/summary_cache.go:58-127 | in particular from a state in which nothing of the tenant can be served or waited for |
| CacheProgress.Complete | internal/repository/summary_cache.go:86-98 | with nesting in layers, some continuation finishes a given load, its nested calls first |
| CacheProgress.ServableIsHandedOut | internal/repository/summary_cache.go:63-79 | an entry in use that has read an older version is returned to a call that comes now, in some continuation |
| CacheProgress.StaleIsHandedOut | internal/repository/summary_cache.go:63-90 | so is one whose load is about to be handed an older version by a nested call |
| CacheTransactions.CommitIsSeenIff | internal/repository/transformer_reading_repository.go:219-246 | a write committed inside a transaction is seen by every later call in every continuation if and only if at the commit no entry of the tenant in use (current and unfinished, or finished well and not expired) has read anything or is about to be handed anything |
| CacheTransactions.StaleIsRead | internal/repository/summary_cache.go:86-90 | before the commit an entry in use holds something older than it exactly when it has read at all or is about to be handed rows, and a finished one always does |
| CacheTransactions.WriteIsSeenUnlessLoadedBetween | internal/repository/transformer_repository.go:436-472 | the same for a writer that invalidates first: its write is always seen if and only if no load of the tenant started since that invalidation is in use at the commit and has read, or is about to be handed, anything by then |
| CacheTransactions.WriteIsSeenWithoutLoads | internal/repository/transformer_repository.go:436-472 | without a load of the tenant between the invalidation and the commit the write is always seen, however calls nest |
| CacheTransactions.InvalidationRepairs | internal/usecase/registry_import_usecase.go:320-328 | an invalidation of the tenant or of all after the commit makes every later call see the write |
| CacheTransactions.FailedLoadDoesNoHarm | internal/repository/summary_cache.go:91-97 | a run in which a load in between has read and failed, and the write is still always seen |
| CacheTransactions.UnreadLoadDoesNoHarm | internal/repository/summary_cache.go:86-88 | a run in which a load is in progress at the commit and sends its query afterwards; the write is always seen |
| SummaryFilter.FilterSummaries | internal/repository/summary_cache.go:146-204 | the loop, the optional sort and the slice return the page and the total of the matches, in the order the request asks for, and the shared cached list is not written |
| SummaryFilter.CachedListAnswersTheQuery | internal/repository/transformer_repository.go:303-434 | for every filter without wildcards the matches and the total from the cached list are those of WHERE and COUNT on the same rows; they are in the order of ORDER BY if and only if the update times of the qualifying rows agree, and then the page is that of LIMIT and OFFSET |
| SummaryFilter.UpdatedTableAnswersTheQuery | internal/repository/transformer_repository.go:303-434 | on a table whose rows have all been updated the matches, their order and every page are the query's |
| SummaryFilter.SelectedAllOrdered | internal/repository/transformer_repository.go:346-354 | the rows of the query are in the order of the list if and only if every row never updated was created before the others were updated (codes breaking ties) and rows never updated are not older the smaller their code |
| SummaryFilter.KeepsWhatQualifies | internal/repository/transformer_repository.go:318-344 | the in-memory loop keeps a row exactly when the three-valued WHERE clause is true of it |
| SummaryFilter.LikeIsContains | internal/repository/transformer_repository.go:322-325 | for a term without wildcards the pattern the query builds matches exactly the texts that contain it |
| SummaryFilter.WildcardsTellThemApart | internal/repository/summary_cache.go:164-168 | LIKE and substring search agree on every text if and only if the term has none of the characters %, _ and backslash |
| SummaryFilter.PagesTile | internal/repository/summary_cache.go:198-203 | consecutive pages, each asked for on its own, concatenate to a prefix of the matches and in the end to all of them, each once |
| SummaryFilter.OneOrderedList | internal/repository/summary_cache.go:171-197 | a list is determined by its elements and the order asked for, since codes break every tie |
| SummaryFilter.SortedOrdered | internal/repository/summary_cache.go:171-197 | sorting the matches by the source's comparison yields the order |
| SummaryFilter.FoundAsRequested | internal/repository/summary_cache.go:171-197 | on the columns and the text of the request: by `loss_pct` the larger loss first and missing ones last, by `power_kva` the larger power, by `updated_at` the later update, equal or both missing by code, and by code for any other text; for the matches and for every page |
| SummaryFilter.AnswersAsRequested | internal/repository/transformer_repository.go:346-354 | rows are an answer to the query if and only if they are the qualifying ones in that order, update times missing last |
| SummaryFilter.MissingUpdateChangesTheOrder | internal/repository/transformer_repository.go:352-353 | a table that does not meet the condition: a row without an update time is last in the database and first in memory |
| RateLimit.RateLimiter.Allow | internal/delivery/middleware/rate_limit.go:55-79 | the answer and the new buckets: a new fingerprint starts with burst minus one, otherwise refill, cap, spend one if there is one |
| RateLimit.RateLimiter.Cleanup | internal/delivery/middleware/rate_limit.go:111-119 | in every iteration order exactly the buckets idle for more than 30 minutes are dropped |
| RateLimit.TokensStayInRange | internal/delivery/middleware/rate_limit.go:56-79 | over every run, cleanups included, each bucket holds between 0 and burst tokens |
| RateLimit.GrantedInWindow | internal/delivery/middleware/rate_limit.go:56-79 | from any state in range, the calls granted to a fingerprint in a window cost at most what it had plus what it earned |
| RateLimit.TokenBucketBound | internal/delivery/middleware/rate_limit.go:56-79 | in every run, cleanups included, and every window a fingerprint is granted at most burst + rpm/60 per second of the window, if and only if the burst is at least one and a bucket refills within the 30 idle minutes |
| RateLimit.TokenBucketBoundWithoutCleanup | internal/delivery/middleware/rate_limit.go:56-79 | without cleanup the bound needs no relation between rate and burst |
| RateLimit.OthersDoNotInterfere | internal/delivery/middleware/rate_limit.go:56-79 | removing all calls of other fingerprints from a run changes none of a fingerprint's answers |
| RateLimit.CleanupUnobservable | internal/delivery/middleware/rate_limit.go:105-124 | a limiter that drops idle buckets at arbitrary times answers every run like one that never does, if and only if a bucket refills within the idle time |
| RateLimit.StandardLimits | internal/delivery/middleware/rate_limit.go:179-188 | all five limiters of the server keep the bound and hide their cleanup |
| RateLimit.RetryAfterSuffices | internal/delivery/middleware/rate_limit.go:81-87 | waiting the advertised seconds always suffices if and only if the rate is positive and divides 60 or is at least 60 |
| RateLimit.RetryAfterIsLeast | internal/delivery/middleware/rate_limit.go:81-87 | after fewer whole seconds than advertised an empty bucket still refuses |
| RateLimit.RetryAfterWithinASecond | internal/delivery/middleware/rate_limit.go:81-87 | one second more than advertised always suffices, and a limiter that never refills advertises a minute |
| Imports.ParseTable | internal/ingestion/csv_parser.go:98-114 | the loop splits the lines into readings and errors, in order, skipping blank ones |
| Imports.RowAcceptedIff | internal/ingestion/csv_parser.go:117-182 | exactly the acceptable lines become readings, with their own meter, instant, energy and demand, and the power factor as a fraction even when written in percent; any other line is one error, at its first bad cell |
| Imports.EveryLineIsAccountedFor | internal/ingestion/csv_parser.go:83-182 | every line that is not blank becomes exactly one reading or one error, and readings hold nonnegative energy and demand, a power factor in (0, 1] and no date more than 48 hours ahead |
| Imports.SameReadingLater | internal/ingestion/csv_parser.go:98-142 | a file without future dates reads the same at any later time |
| Imports.ReadingLater | internal/ingestion/csv_parser.go:98-142 | read later, a file keeps its resolved rows, and what it gains lies more than 48 hours after the first reading |
| Imports.Resolve | internal/usecase/import_usecase.go:150-183 | the loop resolves each reading by upper-cased code, then by lower-cased id, and turns the others into errors |
| Imports.ResolvedOrNot | internal/usecase/import_usecase.go:150-217 | resolved rows and unknown references together are the parsed readings, and every resolved meter is registered |
| Imports.LoadRefs | internal/repository/transformer_repository.go:479-496 | the loop over the tenant's listed meters fills the registry, each under its upper-cased code and lower-cased id, later entries replacing earlier ones |
| Imports.ResolvedByName | internal/usecase/import_usecase.go:150-217 | on the characters of the reference, line by line: the row carries the last listed meter whose code it spells in any mixture of ASCII case between blanks (an id without letters counts as a code), else the last whose id it spells; the line is an error exactly when there is none |
| Imports.NamesSomebody | internal/usecase/import_usecase.go:203-217 | a reference names a meter if and only if it spells the code or the id of one |
| Imports.Period | internal/usecase/import_usecase.go:191-199 | the start and end are the least and greatest instant of the rows |
| Imports.Compact | internal/usecase/import_usecase.go:244-256 | compacting the slice in place keeps exactly the first occurrences of unseen keys, in order, and counts the rest |
| Imports.KeepFirstKeys | internal/usecase/import_usecase.go:244-256 | what is kept has each new key once, is disjoint from the seen keys and misses none |
| Imports.KeepFirstEarly | internal/usecase/import_usecase.go:244-256 | dropping duplicates and dropping rows after an instant commute |
| Imports.WindowCoversEveryCandidate | internal/usecase/import_usecase.go:224-242 | looking up existing keys only for the file's meters and period drops the same rows as looking at the whole table |
| ImportLife.ImportStore.Dedupe | internal/usecase/import_usecase.go:219-257 | the windowed query and the in-place compaction leave the rows whose key is nowhere in the table, first occurrences only |
| ImportLife.ImportStore.Analyze | internal/usecase/import_usecase.go:140-201 | rows, error count and total of a file, all rows of the tenant |
| ImportLife.ImportStore.Insert | internal/usecase/import_usecase.go:433-469 | the kept rows are appended to the table of their kind, tagged with the import |
| ImportLife.ImportStore.Finish | internal/usecase/import_usecase.go:509-534 | the record gets the status and the four counters |
| ImportLife.ImportStore.Process | internal/usecase/import_usecase.go:351-431 | one attempt, with every failure: rejected file, registry, lookup, save, and crashes before and after saving |
| ImportLife.ImportStore.ImportReadings | internal/usecase/import_usecase.go:327-349 | an empty file is refused, otherwise a record is made and processed |
| ImportLife.ImportStore.DeleteByImport | internal/repository/transformer_reading_repository.go:240-246 | exactly the tenant's readings of that import go, the rest keep their order, and their number is returned |
| ImportLife.ImportStore.Retry | internal/usecase/import_usecase.go:576-614 | not found, conflict and missing file are refused; otherwise both tables are cleared of the import and the stored file is processed again |
| ImportLife.ImportStore.Delete | internal/usecase/import_usecase.go:622-650 | both tables are cleared of the import, the record is removed with its file |
| ImportLife.ImportStore.AddReading | internal/usecase/network_usecase.go:147-250 | a manual reading is stored unless its meter is unknown, its date or values are invalid or the instant is taken; for a consuming unit only the energy is kept |
| ImportLaws.StepKeepsInv | internal/usecase/import_usecase.go:324-650 | each upload, retry, deletion and manual reading, failing or not, keeps keys unique and readings accounted for |
| ImportLaws.ReadingsStayUnique | internal/usecase/network_usecase.go:186-250 | no sequential run stores one instant of a meter twice, in either table |
| ImportLaws.TotalsAddUp | internal/usecase/import_usecase.go:370-417 | whenever an attempt reports a result, total = stored + errors + duplicates = lines that are not blank, and it is a failure exactly when nothing was of use |
| ImportLaws.BrokenAttempts | internal/usecase/import_usecase.go:374-396 | an attempt that fails to look up or save leaves the tables alone and a failed record of what was read, nothing stored; one that crashes leaves the record alone, and after saving the tables of a full attempt |
| ImportLaws.ManualStoredIff | internal/usecase/network_usecase.go:147-250 | exactly when a manual reading is stored, not found, invalid or in conflict, and the one reading that is appended |
| ImportLaws.DeleteUndoesImport | internal/usecase/import_usecase.go:622-650 | importing, however far it got, then deleting restores both tables exactly and reports the readings removed |
| ImportLaws.DeletedForGood | internal/usecase/import_usecase.go:576-650 | in every run after a deletion none of the import's readings come back, and retrying or deleting it again finds nothing |
| ImportLaws.KeysAfterRetry | internal/usecase/import_usecase.go:576-614 | after a retry, whatever fails, the keys are those of the other rows and of the file's resolved rows, or those of the other rows only if it stops before storing |
| ImportLaws.RetryLosesIff | internal/usecase/import_usecase.go:576-614 | for every failure, exactly when a retry takes instants out of the table, and that it never takes readings that are not the import's |
| ImportLaws.RetryAgainRestores | internal/usecase/import_usecase.go:576-614 | a retry that goes through ends, tables, record and answer, as if no other had failed before it |
| ImportLaws.RetryChangesNothing | internal/usecase/import_usecase.go:576-614 | a retry with unchanged registry leaves the stored readings the same if and only if every reading of the file, as read by now, is still in the table |
| ImportLaws.RetryAfterAnyRun | internal/usecase/import_usecase.go:576-614 | the same after an import of any readable file followed by any run of other people's actions, at any later time |
| ImportLaws.RetryTwice | internal/usecase/import_usecase.go:576-614 | retrying again at once changes neither tables, record nor answer |
| Headers.NormalizeHeader | internal/ingestion/tabular.go:193-214 | the loop computes the normal form |
| Headers.NormalIsCanonical | internal/ingestion/tabular.go:191-214 | normal forms are exactly words of letters and digits joined by single underscores, and normalising twice changes nothing |
| Headers.CaseDoesNotMatter | internal/ingestion/tabular.go:193-214 | headers that differ only in the case of ASCII letters normalise alike |
| Headers.AccentsDoNotMatter | internal/ingestion/tabular.go:193-214 | replacing an accented letter of Portuguese by its bare letter, anywhere in a header, changes nothing |
| Headers.DetectDelimiter | internal/ingestion/tabular.go:131-153 | the result is the most frequent delimiter outside quotes, the earliest candidate in a tie, a semicolon if none occurs |
| Headers.OutsideCountsPlaces | internal/ingestion/tabular.go:131-153 | what is counted are the places of the character after an even number of double quotes |
| Schema.ClaimColumn | internal/ingestion/schema.go:174-179 | the first free column of that name, if any |
| Schema.ResolveExplicit | internal/ingestion/schema.go:152-165 | the user's choices applied one by one in the given iteration order |
| Schema.ResolveField | internal/ingestion/schema.go:167-187 | a field not chosen takes the first free column of its name, else of its aliases in turn |
| Schema.EarliestAliasWins | internal/ingestion/schema.go:171-186 | the column found belongs to the earliest candidate that has a free column, and is its first |
| Schema.ResolveMapping | internal/ingestion/schema.go:139-201 | the mapping and its report, missing fields sorted, for a given iteration order of the explicit map |
| Schema.FieldsAreFoundByName | internal/ingestion/schema.go:139-201 | a field mapped without an explicit choice sits in a column called by its name or one of its aliases, the first one that was free when its turn came, no earlier name of it having any; a field is left without a column only if every column called by its name or an alias belongs to another field |
| Schema.ChoicesAreKept | internal/ingestion/schema.go:152-165 | an explicit choice gives the field a column of the chosen header, or all of those were taken by other choices |
| Schema.OneFieldPerColumn | internal/ingestion/schema.go:142-187 | no column is given to two fields, and the used columns are exactly the mapped ones |
| Schema.MissingExactly | internal/ingestion/schema.go:189-199 | the fields reported missing are exactly the required ones without a column, in alphabetical order |
| Schema.UnmappedExactly | internal/ingestion/schema.go:194-198 | the headers reported unused are exactly the nonblank ones of free columns, each once, in file order |
| Schema.OrderMattersOnlyInAClash | internal/ingestion/schema.go:152-165 | the mapping is independent of the map's iteration order if and only if no header of the file is chosen for two fields |
| Schema.Template | internal/ingestion/schema.go:212-228 | the text of a template: byte order mark, field names joined by semicolons, example rows, each line ended |
| Schema.TemplateReadsBack | internal/ingestion/schema.go:212-228 | whatever the examples, the first line of the template is found and split at the delimiter it was written with, and resolving it maps field i to column i with nothing missing or left over |
| Schema.ExamplesReadBack | internal/ingestion/schema.go:212-228 | the example rows of a template, split into lines and at semicolons, are the rows it was written from, if no cell holds a semicolon or a line end |
| Texts.SortedSorts | internal/ingestion/schema.go:199 | sorting rearranges texts into ascending order |
| StandardSchemas.StandardSchemasAreReady | internal/ingestion/schema.go:44-131 | the field names of all four kinds of file are canonical and distinct |
| StandardSchemas.StandardTemplatesReadBack | internal/usecase/import_usecase.go:691-715 | every template of the server resolves to its own schema |
| Numbers.WriteGroups | internal/usecase/export_usecase.go:178-185 | the digit loop writes groups of three counted from the right |
| Numbers.FormatBR | internal/usecase/export_usecase.go:169-193 | the text is sign, grouped integer part and decimals in Brazilian notation |
| Numbers.DigitsDenote | internal/usecase/export_usecase.go:171-177 | the digits printed for a number read as that number |
| Numbers.ReadsBack | internal/ingestion/tabular.go:216-249 | ParseNumber reads every printed value back, in every documented notation, sign and number of groups, if and only if the text is not a single group without decimals, which reads as a thousandth |
| Numbers.AmbiguousReads | internal/ingestion/tabular.go:235-243 | one visible group separator and no decimals reads a thousand times too small |
| Numbers.CanonicalIsPlain | internal/ingestion/tabular.go:225-243 | the separator rules rewrite an unambiguous notation into the plain decimal text of its value |
| NumberTexts.ParseNumberMeans | internal/ingestion/tabular.go:216-249 | of every text, exactly which are accepted (after spaces and group separators are taken away: an optional sign, digits, at most one decimal mark, at least one digit) and the number read, in terms of the digits on either side of the mark |
| NumberTexts.OtherTextsAreRefused | internal/ingestion/tabular.go:222-247 | a text of nothing but spaces, or with any character besides digits, signs, separators and spaces, is an error |
| NumberTexts.LeadingPlus | internal/ingestion/tabular.go:244-247 | a leading plus changes neither whether an unsigned text is accepted nor what it reads as |
| Numbers.ExportThenImport | internal/usecase/export_usecase.go:169-193 | an exported value imports as itself if and only if it has decimals, is below 1000 or is at least a million |
| Risk.TrendSlope | internal/calc/risk.go:88-99 | the running sums end in the regression slope |
| Risk.DenominatorPositive | internal/calc/risk.go:99 | the denominator is positive for every series of at least two balances |
| Risk.SlopeBetweenSteps | internal/calc/risk.go:88-99 | the slope lies between the smallest and the largest consecutive difference in slice order |
| Risk.ReversedSlope | internal/calc/risk.go:88-99 | reversing a series negates its slope |
| Risk.SteepHistories | internal/calc/risk.go:87-108 | histories that are steep throughout are classified by their direction, flat ones as stable |
| Risk.NewestFirstInverts | internal/repository/balance_repository.go:65 | handed over newest first, worsening is reported as improving and improving as worsening |
| Risk.NewestFirstShifts | internal/repository/balance_repository.go:65 | the inverted order moves the score before the cap by ten points per point of slope, 25 at most, down for a worsening history and up for an improving one |
| Risk.CalculateRiskScore | internal/calc/risk.go:56-196 | factors, rounded score, level and trend as functions of the inputs |
| Risk.SumContributions | internal/calc/risk.go:168-171 | the loop adds up the contributions |
| Risk.ScoreWithinScale | internal/calc/risk.go:167-172 | with nonnegative losses the reported score stays within 0 to 100, and it never exceeds 100 |
| Risk.ScoreNonnegativeIff | internal/calc/risk.go:167-184 | the reported score is at least zero if and only if the limit is not positive or the loss is not more negative than the other factors and the rounding make up for |
| Risk.NegativeScoreExists | internal/calc/risk.go:167-184 | a balance that is reported below zero, and one whose sum is negative while what is reported is not |
| Risk.MoreLossNeverScoresLower | internal/calc/risk.go:64-82 | a higher current loss lowers neither the score nor what is reported |
| Risk.MoreNonTechnicalNeverScoresLower | internal/calc/risk.go:128-145 | with nonnegative losses, more non-technical loss lowers neither the score nor what is reported |
| Risk.MoreUnitsNeverScoreLower | internal/calc/risk.go:117-126 | more consumer units never lower the reported score, and each of the first hundred adds 0.15 to the score before the cap |
| Risk.LossCountsUpToTwiceTheLimit | internal/calc/risk.go:64-82 | the current loss moves the score before the cap by 20 points per limit up to twice the limit, and not beyond, nor with a limit that is not positive |
| Risk.CalculatedCounts | internal/calc/risk.go:147-165 | a balance that has been calculated scores ten points more before the cap |
| Risk.CompositionCounts | internal/calc/risk.go:128-145 | known technical and non-technical losses move the score before the cap by ten times the non-technical share less five, against unknown ones |
| Risk.DefaultsScore | internal/calc/risk.go:62-172 | a balance without loss, history, units, known composition or calculation scores 17.5 |
| Risk.ReportedIsNear | internal/calc/risk.go:172-186 | the reported score has two decimals and is within 0.005 of the score, halves going away from zero |
| Risk.LevelsBegin | internal/calc/risk.go:174-182 | the levels begin at scores of 40, 60 and 80, these included |
| Webhooks.BillingService.ProcessEvent | internal/usecase/billing_usecase.go:452-567 | what each kind of event does to the tenant of its subscription, with every failing call |
| Webhooks.BillingService.SaveTenant | internal/usecase/billing_usecase.go:484-486 | the tenant is saved, or the update fails and nothing changes |
| Webhooks.BillingService.FindSubscriber | internal/repository/tenant_repository.go:325-338 | the first tenant holding the subscription, if any |
| Webhooks.BillingService.HandleWebhook | internal/usecase/billing_usecase.go:422-450 | a processed event is acknowledged without effect; otherwise it is recorded, handled and marked, the errors of the marks being ignored; the error returned is that of the check, the record or the handler |
| Webhooks.BillingService.RetryFailedWebhooks | internal/usecase/billing_usecase.go:764-799 | the job handles and marks each listed event, stops at the first mark that fails, and returns how many were handled without an error before |
| WebhookRuns.RetryJobDoesNothing | internal/repository/webhook_repository.go:68-78 | in every reachable state the list of events to retry is empty and the job changes nothing |
| WebhookRuns.RetryIsRedelivery | internal/usecase/billing_usecase.go:764-799 | with waiting events to retry the job would do what delivering them again does, up to and including the first whose mark fails, and count those before it that were handled without an error |
| WebhookRuns.RunsAreAttempts | internal/usecase/billing_usecase.go:422-450 | an event's handler runs once per attempt up to the first whose mark is written, and never after |
| WebhookRuns.HandlersRunOnce | internal/usecase/billing_usecase.go:422-450 | a handler runs at most once if and only if no lost mark of a first attempt is followed by a redelivery |
| WebhookRuns.OnlyFirstDeliveriesCount | internal/usecase/billing_usecase.go:422-567 | when marks are written, the whole state after any run equals that after the first deliveries alone, with other changes interleaved |
| WebhookRuns.FirstsAreDistinct | internal/usecase/billing_usecase.go:424-432 | the first deliveries contain no event twice |
| WebhookRuns.FirstDelivery | internal/usecase/billing_usecase.go:422-567 | what the first delivery of each kind of event writes to the tenant, with each status of the provider, when no call fails; which error is recorded when one does, and that then the tenants stay |
| WebhookRuns.OthersAreLeftAlone | internal/usecase/billing_usecase.go:466-567 | an event changes no tenant but that of its subscription |
| WebhookRuns.EventsAgree | internal/usecase/billing_usecase.go:466-567 | a payment after an overdue one makes the tenant active, status notices agree with the matching events, and a payment alone reactivates exactly the suspended and pending |
| WebhookRuns.NothingAfterDeletion | internal/usecase/billing_usecase.go:517-536 | after a subscription is deleted no event that arrives for it has an effect, if and only if no two tenants held it |
| WebhookRuns.OverdueMayStopHalfway | internal/usecase/billing_usecase.go:506-514 | an instance: the tenant cannot be saved and the failure is recorded; the dunning record stays without the standing |
| WebhookRuns.HalfHandledIff | internal/usecase/billing_usecase.go:492-515 | of the dunning record and the pending standing of an overdue event exactly one is written if and only if everything before the update of the tenant succeeds and that fails |
| WebhookRuns.HalfStateIsPermanentIff | internal/usecase/billing_usecase.go:422-450 | no run of redeliveries and retry jobs changes the half state if and only if the failure was recorded |
| WebhookRuns.RedeliveryAfterLostMark | internal/usecase/billing_usecase.go:439-449 | when the mark was lost a redelivery writes a second dunning record, and the standing unless the update fails again |
| Alerts.AlertStore.UpsertForPeriod | internal/repository/balance_repository.go:556-586 | the row of the span is rewritten under its old id, which the caller gets, or inserted |
| Alerts.AlertStore.CreateDelivery | internal/repository/alert_repository.go:249-269 | recorded unless the same balance, address, channel and level already is |
| Alerts.AlertStore.BalanceCalculated | internal/usecase/alert_usecase.go:299-357 | the loop over the recipients, with the fallback list and failing inserts |
| Alerts.AlertStore.FallbackRecipients | internal/usecase/alert_usecase.go:368-383 | the active owners and administrators, by e-mail |
| Alerts.AlertStore.CalculateBalance | internal/usecase/balance_usecase.go:147-157 | a recalculation stores the balance, then raises alerts under the stored id |
| Alerts.AlertStore.MarkDelivery | internal/repository/alert_repository.go:271-283 | the result and one more attempt on that record only |
| Alerts.OneRowOneAlert | internal/repository/balance_repository.go:556-586 | over any run a transformer and period keep one row and the id it first got |
| Alerts.OneAlertPerLevel | internal/usecase/alert_usecase.go:302-357 | two alerts about one transformer and period to one address and channel differ in level, and then the channel is e-mail |
| Alerts.RecordedIffAsked | internal/usecase/alert_usecase.go:320-345 | after the loop exactly those alerts are on record that were before or that an eligible recipient asks for |
| Alerts.RecordedByStatus | internal/usecase/alert_usecase.go:299-345 | after a recalculation exactly those alerts are new on record that carry the level of the balance's status, for the recipients it concerns: nobody when normal, those by e-mail that want warnings when in warning, everybody when critical |
| Alerts.AddresseesAre | internal/usecase/alert_usecase.go:316-318 | the recipients are those configured, or without any the active owners and administrators, by e-mail and for warnings |
| Alerts.AddedAlerts | internal/usecase/alert_usecase.go:320-345 | earlier records stay, and every new one is an unsent record for a recipient of the list |
| Recalc.StepKeepsInv | internal/usecase/balance_usecase.go:270-311 | each step of the loop and of the workers keeps the tally of what has been recorded |
| Recalc.AtMostEightWorkers | internal/usecase/balance_usecase.go:272-284 | in every interleaving at most eight workers hold a slot |
| Recalc.ParallelIsSequential | internal/usecase/balance_usecase.go:270-311 | every interleaving ends in the counters and errors of the one-worker loop, the errors in order of completion |
| Recalc.CountersAddUp | internal/usecase/balance_usecase.go:292-308 | total = calculated + skipped + failed, calculated = normal + warning + critical, and the errors are exactly the failed transformers |
| Recalc.NeverStuck | internal/usecase/balance_usecase.go:275-311 | a reachable state without an enabled step is final, and every step brings the end nearer |
| Recalc.CollectBatch | internal/calc/prodist_m7.go:71-100 | for every completion order result i is that of input i |
| Finance.MonthFinance.constructor | internal/usecase/dashboard_usecase.go:630 | a new accumulator is zero |
| Finance.MonthFinance.Add | internal/usecase/dashboard_usecase.go:541-555 | one row's amounts are added, with a missing limit taken as 10% |
| Finance.MonthFinance.Finish | internal/usecase/dashboard_usecase.go:557-562 | the percentage is taken before the amounts are rounded to cents, and is within 0.005 of 100 times loss over injected energy |
| Finance.Account | internal/usecase/dashboard_usecase.go:626-634 | the row goes to the accumulator of its month, made when it is the first |
| Finance.Accumulate | internal/usecase/dashboard_usecase.go:624-639 | after the loop each month's accumulator, an object of its own, holds the sums of its rows, the total those of all and the year to date those of the year |
| Finance.GroupsSumToTotal | internal/usecase/dashboard_usecase.go:624-639 | before rounding the months sum to the twelve-month total in every field |
| Finance.MonthsSumToTheYear | internal/usecase/dashboard_usecase.go:636-638 | before rounding the months of a year sum to the year to date |
| Finance.EnergiesAreTheRows | internal/usecase/dashboard_usecase.go:541-555 | the energies are the sums of the rows in MWh, and the excess covers at least what was lost above the limits |
| Finance.ExcessIsAboveTheLimit | internal/usecase/dashboard_usecase.go:541-555 | a row's excess is exactly what was lost above the limit's share of the injected energy, a tenth of it without a positive limit, and zero below |
| Finance.PctIsNear | internal/usecase/dashboard_usecase.go:557-562 | a percentage is shown in hundredths, within 0.005 of the exact quotient, and as zero when nothing was injected |
| Finance.RoundsHalvesAway | internal/usecase/super_admin_usecase.go:472 | amounts are rounded to the nearest hundredth, halves away from zero |
| Finance.OneSubstation | internal/usecase/dashboard_usecase.go:684-692 | rows are in one group when they name one substation; those without a name are together, with any substation of the name shown for them |
| Finance.SubstationsSumToTheMonth | internal/usecase/dashboard_usecase.go:676-693 | before rounding the substations of a month sum to that month |
| Finance.ShownGroupsMatchTheTotal | internal/usecase/dashboard_usecase.go:641-646 | n rounded groups differ from the rounded total by at most 0.005·(n+1) in each amount, and transformer counts match exactly |
| Finance.AmountsArePriced | internal/usecase/dashboard_usecase.go:546-554 | every amount in reais is the amount in MWh times the tariff, and the excess is never negative |
| Finance.RankingMatchesTotals | internal/usecase/dashboard_usecase.go:694-695 | the ranking and the totals take the same excess for a row if and only if its limit is positive, nothing was injected, or the loss is within what the ranking takes for the limit |
| Owners.Accounts.EnsureAnotherOwner | internal/usecase/account_usecase.go:193-204 | whether the tenant has another active owner, in every iteration order, or the failed query |
| Owners.Accounts.UpdateUser | internal/usecase/account_usecase.go:139-191 | the user is changed as a whole or not at all, with the error of the first rule broken or call failed |
| Owners.Accounts.RemoveUser | internal/usecase/account_usecase.go:206-234 | the target is removed and made inactive unless a rule forbids it or a call fails |
| Owners.RunKeepsAnOwner | internal/usecase/account_usecase.go:139-234 | a tenant with an active owner keeps one over every run of updates and removals by any actors |
| Owners.WithinOneTenant | internal/usecase/account_usecase.go:139-234 | a request that is carried out has a known actor and a known target of one tenant, the target no SUPER_ADMIN; a removal is of somebody else, not above the actor |
| Owners.StrangersAreNotFound | internal/usecase/account_usecase.go:148-150 | a target that is unknown, of another tenant or a SUPER_ADMIN is not found, for updates and removals |
| Owners.TenantsAreApart | internal/usecase/account_usecase.go:139-234 | over every run without a request by the tenant's own users each of its users stays as they were |
| Owners.UpdateCarriedOutIff | internal/usecase/account_usecase.go:139-191 | exactly which updates are carried out, and the user they leave |
| Owners.RemovalCarriedOutIff | internal/usecase/account_usecase.go:206-234 | exactly which removals are carried out, and the user they leave |
| Owners.RolesAreGrantedFromAbove | internal/domain/permissions.go:115-125 | nobody grants a role above their own, changes their own, or demotes an owner from below |
| Owners.AssignmentFollowsRank | internal/domain/permissions.go:110-125 | a role may be granted if and only if it is a tenant role not above the actor, who is at least an administrator |
| Owners.RanksAscend | internal/domain/permissions.go:110-113 | the roles in ascending order of privilege, from viewer to platform administrator |

## Left out

- HTTP handlers, routing, authentication tokens, the payment, e-mail, WhatsApp and ANEEL clients, PDF and Excel files: nothing to reason about here, or external services.
- Races between concurrent check-then-insert requests (imports, manual readings, webhooks, alerts): each check and insert is one step; the cache and the recalculation are the concurrent parts that are modelled.
- Rounding of float64: sums, tokens, slopes and scores are exact reals.
- Wrap-around of the cache's 64-bit generation counters: they are natural numbers.
- Cancellation of a waiting caller's context and panics inside a load of the cache.
- CacheGuarantees.ReadYourWrites: covers writers that commit before they invalidate, under the written tenant's identity or none; a writer under the identity of another tenant invalidates nothing of the one it writes to, so for that tenant it is a commit without a covering invalidation, as in `CacheTransactions`.
- CacheTransactions.CommitIsSeenIff: a query of a load sees what is committed when it starts, and a load that succeeds has read something; that an older value is in fact returned needs nested calls to go from higher to lower ranks, as in the server, where dashboards are built over the summaries and the summaries over the database; the other direction needs nothing of the kind.
- CacheGuarantees.NestedStaleness: bounds values that come through the memo; a load's own queries are bounded by ReadYourWrites only.
- SummaryFilter.CachedListAnswersTheQuery: substations are compared as texts in canonical form, codes sort alike in both places, and case is folded one character at a time; a search with wildcards is compared text by text in WildcardsTellThemApart; a filter by group goes to the database in the source as well.
- SummaryFilter.FilterSummaries: `sort.SliceStable` is a stable insertion sort, a function.
- RateLimit.TokenBucketBound: the request's fingerprint is a given string; hashing of address, agent and tenant is not modelled.
- Imports.ParseTable: the cells of a line come already read as dates and numbers; date layouts and time zones are not modelled, numbers are in `Numbers`.
- Imports.Resolve: letters outside ASCII keep their case, and the sorting of the error list by line is not modelled; the order in which the database lists the meters is a given sequence.
- Imports.RowAcceptedIff: the columns of an error are named alike for both kinds of meter, and its text is abbreviated.
- ImportLife.ImportStore.Process: the log, the stored preview and the recalculation that follows an import are not modelled; the update of the record is taken to succeed.
- Headers.NormalizeHeader: accents are removed from the letters of Portuguese; other scripts count as separators, and Unicode decomposition is not modelled.
- Schema.TemplateReadsBack: quoting in the CSV reader and the bytes of the byte order mark are not modelled; field names must be canonical and distinct, as those of all four kinds are.
- ImportLife.ImportStore.AddReading: whether the meter exists is a given answer, and the recalculation of the month that may follow is not modelled.
- Numbers.FormatBR: takes the scaled integer that `%.*f` would print; rounding a float to that many decimals is not modelled.
- Numbers.ReadsBack: numbers are as long as they like; `strconv.ParseFloat` refuses those beyond the range of a float64.
- NumberTexts.OtherTextsAreRefused: exponents and hexadecimal floats, which `strconv.ParseFloat` also reads, are errors here.
- Risk.CalculateRiskScore: the overload percentage, a division by the limit even when that is zero, and the descriptive texts are left out.
- Webhooks.BillingService.HandleWebhook: an event is an id, a kind, a subscription and a status; reading them from the provider's JSON is not modelled, nor are events without an id.
- Alerts.AlertStore.BalanceCalculated: the configured recipients are a given list (when they cannot be loaded nothing is recorded); the queue between recording and sending is not modelled; marking a record is a step of its own at any time. No code deletes alerts, so there is no such step.
- Recalc.ParallelIsSequential: what a transformer's calculation comes to is given, so the database work of the workers is not interleaved.
- Recalc.CollectBatch: the calculation itself is a given function of the input.
- Finance.Accumulate: the annual projection, the top ten and the cost share of critical transformers are left out; they are built from the same sums.
- Owners.Accounts.UpdateUser: a role is one of the six known ones, and the name comes trimmed; other fields of a user are not modelled.
- Proration credits, training, onboarding, tenant metrics, plan tables and the permission lists: easy members or no intended contract to state.
