# sigma-scraper core, modelled in Dafny

This project models the sequential logic of a Go batch scraper. The scraper
reads products (an id and a page link) from a spreadsheet. It scrapes each
product's image URLs with a bounded number of retries. It then collects the
successes and the deduplicated failures in a ledger, and writes the ledger
to two JSON sinks.

Modules, one per source file or concern:

- `Common` (common.dfy): `Option`, `Result` (a value or an error message), `Min`.
- `Models` (models.dfy): `Product`, `ProductResult`, `FailedUrl` from internal/models/models.go.
- `Text` (text.dfy): Go's `strings.TrimSpace` and an ASCII `strings.ToLower`.
- `Storage` (storage.dfy): the ledger `Manager`, a class with the two lists
  `failedUrls` and `allResults`. Its methods are proved against the pure
  `RecordFailure` specification, and the lemmas beside it prove what that
  specification means.
- `Scraper` (scraper.dfy): the `ScrapeProduct` retry loop, proved equal to the
  declarative `RetrySpec`. Also the worker's one-scrape-per-product loop.
- `Utils` (utils.dfy): the row-processing part of `LoadProductsFromExcel`,
  `FilterFailedURLs` and `ChunkProducts`.
- `Pipeline` (pipeline.dfy): `processResults`, the producer loop, and `main`
  run stage after stage, with whole-run properties.

External effects are parameters:

- The browser fetch is an oracle: attempt `k` of product `i` returns `fetch(i, k)`.
- Cancellation is a cut-off index per loop. A stage first sees the cancelled
  context at that index, and at every later step, since the context never
  resets.
- Each JSON write's outcome (`Written`, `MarshalFailed`, `WriteFailed`) is an input.

Two behaviours of the source are worth stating plainly, because a reader
might expect otherwise:

- `Attempts` counts failed *results* per (id, placeholder url), not fetch
  retries. `processResults` calls `SaveFailedURL` once per failed result
  (cmd/scraper/main.go:128), so an id that always fails ends with one
  attempt per product carrying it. See `Pipeline.AllFailRun`.
- A scrape that sees the cancellation reports `"parent context canceled"`
  (internal/scraper/scraper.go:67).

## Model

| member | source | states |
|---|---|---|
| `Storage.Manager.constructor` | internal/storage/storage.go:22-28 | a new manager has empty failure and result lists and satisfies the ledger invariant |
| `Storage.Manager.SaveResult` | internal/storage/storage.go:31-36 | appends exactly the given result at the end of `allResults`; `failedUrls` is unchanged |
| `Storage.Manager.SaveFailedUrl` | internal/storage/storage.go:39-66 | the search-then-update-or-append loop leaves `failedUrls == RecordFailure(old failedUrls, id, url, errMsg)`, leaves `allResults` alone and keeps the invariant |
| `Storage.FindFailure` | internal/storage/storage.go:44-54 | the linear search returns the first index at or after `from` whose (ID, URL) is the key, or none when no record there has it |
| `Storage.RecordFailure` | internal/storage/storage.go:39-66 | the list grows by one exactly when the key was absent; records with other keys keep their place and value; no duplicate keys and attempts >= 1 are preserved |
| `Storage.RecordFailureUpdatesExisting` | internal/storage/storage.go:45-53 | for a present (id, url): same length, that record has the new error and attempts + 1, same key, every other record unchanged |
| `Storage.RecordFailureAppendsNew` | internal/storage/storage.go:56-65 | for an absent (id, url): exactly one record (id, url, errMsg, 1) is appended |
| `Storage.SameIdOtherUrlIsSeparate` | internal/storage/storage.go:46 | the key is the pair: the same id with another url appends a second record and leaves the first untouched |
| `Storage.RecordFailureCounts` | internal/storage/storage.go:45-65 | recording a failure adds one to its own key's attempt count and zero to every other key's |
| `Storage.RecordFailureAddsOneAttempt` | internal/storage/storage.go:45-65 | every SaveFailedURL adds exactly one to the total of all attempts |
| `Storage.SaveError` | internal/storage/storage.go:93-104 | saveToJSON errs exactly when marshalling or writing fails; a marshal error reads "failed to marshal data: " and a write error "failed to write file: ", each followed by the cause |
| `Storage.Save` | internal/storage/storage.go:93-104 | a sink holds exactly the data when the write succeeds, and nothing known otherwise |
| `Storage.Manager.GenerateFinalOutput` | internal/storage/storage.go:69-90 | changes neither list; returns an error iff the final-output write fails (the failed-URLs write failing is only logged); each written sink holds exactly its list |
| `Storage.StoreOneOfEach` | test/scraper_test.go:52-118 | after one SaveResult and one SaveFailedURL, the final sink holds exactly that result and the failures sink exactly one record with that id and url |
| `Scraper.FirstFetched` | internal/scraper/scraper.go:63-90 | returns the first attempt in the window whose fetch succeeds, every earlier one having failed, or none when all fail |
| `Scraper.RetrySpec` | internal/scraper/scraper.go:54-98 | result has the product id; at most MaxRetries fetches, none at or after the cancellation; sleeps = fetches - 1; success iff the last fetch made succeeded (images = its list, all earlier failed); a failure has empty images and reports the cancellation, the last fetch's error, or "failed after maximum retries" when MaxRetries <= 0 |
| `Scraper.ScrapeProduct` | internal/scraper/scraper.go:54-98 | the counted loop with early returns computes exactly `RetrySpec` (result, fetch count, sleep count) |
| `Scraper.FailOnceThenSucceed` | internal/scraper/scraper.go:63-90 | fail once then succeed with two attempts allowed: success with the second fetch's images, two fetches, one sleep |
| `Scraper.AlwaysSucceedingFetchesOnce` | internal/scraper/scraper.go:80-86 | a succeeding first fetch ends the loop: one fetch, no sleep, its images |
| `Scraper.AlwaysFailingUsesWholeBudget` | internal/scraper/scraper.go:63-97 | without cancellation an always-failing fetch is tried exactly MaxRetries times and the last error is reported |
| `Scraper.WorkerResults` | internal/scraper/scraper.go:26-51 | one result per received product up to the worker's cut-off, in order, each carrying its product's id |
| `Scraper.Worker` | internal/scraper/scraper.go:26-51 | the receive/scrape/publish loop publishes exactly `WorkerResults` for the products before the cut-off |
| `Text.TrimLeftSpec` | internal/utils/utils.go:69-70 | TrimLeft keeps a suffix, drops only white space, and what remains does not start with white space |
| `Text.TrimRightSpec` | internal/utils/utils.go:69-70 | TrimRight keeps a prefix, drops only white space, and what remains does not end with white space |
| `Text.TrimSpaceSpec` | internal/utils/utils.go:69-73 | a trimmed string neither starts nor ends with white space, and is empty exactly when the cell is blank |
| `Text.TrimSpaceIdempotent` | internal/utils/utils.go:69-70 | trimming twice equals trimming once |
| `Text.TrimSpaceLower` | internal/utils/utils.go:45 | trimming white space and lower-casing commute, for every string |
| `Utils.ColumnOfNormalizes` | internal/utils/utils.go:44-52 | a header names the same column after trimming or lower-casing it: the match is on the trimmed, lower-cased text |
| `Utils.LastColumn` | internal/utils/utils.go:44-52 | the column index is the rightmost header naming that column, and -1 exactly when no header names it |
| `Utils.FindColumns` | internal/utils/utils.go:42-52 | the header loop's reassignments leave each column index at `LastColumn` |
| `Utils.RowProduct` | internal/utils/utils.go:65-80 | a kept row lies within both column indices and yields its trimmed (id, link) |
| `Utils.RowProductSkips` | internal/utils/utils.go:65-75 | a row is skipped exactly when it is too short for either column or its id or link cell is blank; kept fields are non-empty |
| `Utils.KeptAppend` | internal/utils/utils.go:61-81 | row order is kept: collecting two blocks of rows gives the concatenation of their products |
| `Utils.KeptMembers` | internal/utils/utils.go:61-81 | a product is loaded exactly when some data row yields it |
| `Utils.KeptSomeRow` | internal/utils/utils.go:61-85 | the row loop collects no product exactly when no data row is kept, which is when "no valid products" is returned |
| `Utils.KeptProductsTrimmed` | internal/utils/utils.go:69-80 | every loaded product has a non-empty id and link without surrounding white space |
| `Utils.CollectProducts` | internal/utils/utils.go:59-81 | the row loop's appends produce exactly the kept rows' products in row order |
| `Utils.Load` | internal/utils/utils.go:35-87 | the load succeeds iff there are >= 2 rows, both columns are found and some data row is kept; a successful load is never empty |
| `Utils.LoadProductsFromRows` | internal/utils/utils.go:35-87 | the row-processing part of LoadProductsFromExcel computes exactly `Load`, including its three error messages |
| `Utils.FilterByIdsCounts` | internal/utils/utils.go:91-106 | the filter keeps every copy of each product whose id is selected and no copy of any other product |
| `Utils.FilterByIdsAppend` | internal/utils/utils.go:99-104 | the filter keeps order: filtering a concatenation concatenates the filtered parts |
| `Utils.FilterFailedUrls` | internal/utils/utils.go:91-106 | the map-then-append loops return `FilterByIds` of the failed ids: each product with a failed id, with all its copies, in order |
| `Utils.ChunkCount` | internal/utils/utils.go:115 | `(n + size - 1) / size` is the number of size-length blocks needed to cover n items |
| `Utils.ChunkProducts` | internal/utils/utils.go:110-126 | size <= 0 gives the single chunk `[products]` (even when empty); otherwise the chunks concatenate back to the input, all but the last have exactly `size` items, none is empty or longer than `size`, and there are ceil(n/size) of them |
| `Pipeline.RoutingIsExclusive` | cmd/scraper/main.go:121-129 | every result goes to exactly one collection: successes plus failures equal the stream length |
| `Pipeline.RecordFailuresAttempts` | cmd/scraper/main.go:121-129 | routing adds exactly one attempt to the ledger per failed result |
| `Pipeline.RecordFailuresWellFormed` | cmd/scraper/main.go:128 | routing failures keeps no duplicate keys and attempts >= 1 |
| `Pipeline.FailuresCoalesce` | cmd/scraper/main.go:128 | with the constant placeholder url, an id's record gains one attempt per failed result with that id |
| `Pipeline.OnlyPlaceholderUrls` | cmd/scraper/main.go:128 | from an empty ledger every failure record carries the placeholder url, so the (ID, URL) key acts as an ID-only key |
| `Pipeline.NoFailuresNoRecords` | cmd/scraper/main.go:121-129 | a stream without failures creates no failure record |
| `Pipeline.ProcessResults` | cmd/scraper/main.go:108-132 | results up to the cancellation or the end of the stream are handled in arrival order: successes appended unchanged, failures recorded with the result's id, the placeholder url and the result's error; none after the cut-off |
| `Pipeline.Produce` | cmd/scraper/main.go:56-70 | exactly the products before the cancellation are offered, in input order; the deferred close runs once on either exit |
| `Pipeline.Recorded` | cmd/scraper/main.go:56-93 | the recorded stream is no longer than the input, stops at the earliest stage cut-off, and result i carries product i's id |
| `Pipeline.Run` | cmd/scraper/main.go:18-106 | a load error ends the run before anything starts; otherwise the final output is generated once after all stages, its error is reported without ending the run, and the written sinks hold exactly the recorded successes and the routed failures; the failures written hold no two records with the same (id, url) key |
| `Pipeline.WorkerAllSucceed` | internal/scraper/scraper.go:26-51 | with always-succeeding fetches and no cancellation, every worker result is a success |
| `Pipeline.WorkerAllFail` | internal/scraper/scraper.go:26-51 | with always-failing fetches and no cancellation, no result succeeds and each id fails once per product carrying it |
| `Pipeline.AllSucceedRun` | cmd/scraper/main.go:18-106 | an uncancelled run whose fetches all succeed records every product as a success and no failure |
| `Pipeline.AllFailRun` | cmd/scraper/main.go:18-106 | an uncancelled run whose fetches all fail records no success, and each id's attempts equal its number of products |
| `Pipeline.CanceledBeforeDispatch` | cmd/scraper/main.go:61-66 | a cancellation seen before the first product is offered leaves both outputs empty |

## Left out

- Goroutines, channels, `sync.WaitGroup`, the `select` races, signal handling
  and the `RWMutex`. The stages run one after another with one worker, so
  results reach the ledger in input order. The source gives completion
  order, which the model does not capture. Under cancellation the single
  worker also fixes *which* results are recorded: `Pipeline.Recorded` is
  always a prefix of the products. With several workers, a later product's
  result can be recorded while an earlier one still in flight is dropped,
  and the model cannot express that.
- A worker that sees the cancellation while publishing has already scraped
  the product. The model stops it before the scrape instead, because the
  dropped result is the same either way.
- `scrapeWithFreshContext` (browser allocation, navigation, in-page script,
  log filter). It is the fetch oracle, whose outcome includes that
  function's own check of the parent context.
- `Cleanup`, all logging, and the configuration loader internal/config/config.go.
  The model takes the config values as parameters.
- Opening the workbook, finding the first sheet and `GetRows`. The model
  starts from the row matrix.
- JSON marshalling and file writes. Each write is reduced to an outcome.
  After a failed write, the sink's contents are not modelled.
- Timestamps (`time.Now()`) and the retry delay's duration. Sleeps are only counted.
- `Text.ToLower` lower-cases ASCII letters only. Go's Unicode case mapping
  also maps e.g. the Kelvin sign to `k`, so a header such as "SKU"
  matches in Go but not in the model.
- `Storage.RecordFailure` increments `Attempts` as an unbounded integer.
  Go's 64-bit `int` would wrap only after 2^63 failures of one key.
- Utils.ChunkProducts: the source computes the capacity
  `(len(products)+chunkSize-1)/chunkSize` in 64-bit `int`
  (internal/utils/utils.go:115). For a huge `chunkSize` (e.g.
  `math.MaxInt64` with two products) the sum wraps to a negative number and
  `make` panics. The model uses unbounded integers and returns the single
  chunk `[products]` there instead.
- Go slices share their backing array (for example the chunks of
  `ChunkProducts`). The model uses sequence values, so aliasing is not captured.
- The unused `ResumeData` record.
