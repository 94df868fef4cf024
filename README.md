# Job scraper: ingestion and read query

This project models two parts of a job-listing aggregator.

The first is the scraper (`apps/scraper/src/index.ts`). It pulls postings from Microsoft, Google and Amazon and turns each one into a row of the `job` table. A row is inserted only when a `findFirst` lookup on that employer's key finds nothing. Existing rows are never updated. One run of `main` wipes the table and then runs the three employers in a fixed order.

The second is the `/jobs` handler of the read API (`apps/http-backend/src/index.ts`). It applies optional exact-match filters and returns pages of ten rows.

Modules:

- `JobStore` (`store.dfy`) models the job table behind the Prisma client.
  - The table is a class `Table` whose field `rows: seq<Job>` is updated in place.
  - It has `FindFirst` (a row matching every field of a where-object, or null), `Create` (append) and `DeleteMany` (clear).
  - The spec function `FirstMatch` describes the lookup.
- `ScraperTypes` (`scraper_types.dfy`) holds the upstream record shapes `MicrosoftJob`, `GoogleJob` and `AmazonJob` from `apps/scraper/src/types.ts`.
- `Scraper` (`scraper.dfy`) holds three things:
  - per-employer normalisation: the lookup key, and the row handed to `create`;
  - the insert-if-absent spec over a batch (`InsertIfAbsent`, `IngestBatch`);
  - the imperative scrape methods and one cycle of `main` (`RunCycle`).
  - Lemmas cover uniqueness per source key, insert-only growth, failure isolation, the added count, re-ingestion, the location quirks of Google and Amazon, and source independence.
- `HttpBackend` (`http_backend.dfy`) models the `/jobs` handler as a pure function from the table and the query to a response, with lemmas about filtering and paging.

Calls into code that is not modelled become parameters:

- A failing fetch is a batch parameter that is `None` instead of a sequence of postings.
- A store call that throws for job `k` of a batch is `k in failed`.
- A failing `deleteMany` is `wipeFails`.
- A failing `findMany` is `queryFails`.

## Model

| member | source | states |
|---|---|---|
| JobStore.FirstMatch | apps/scraper/src/index.ts:18-24 | `findFirst` returns null exactly when no row matches every field of the where-object; otherwise it returns a matching row of the table; which one is a modelling choice (the earliest), since only null versus non-null matters to the scraper |
| JobStore.Table.FindFirst | apps/scraper/src/index.ts:18-24 | the scanning lookup returns exactly `FirstMatch` of the current rows and changes nothing |
| JobStore.Table.Create | apps/scraper/src/index.ts:27-36 | `create` appends the row and returns it; no existing row changes |
| JobStore.Table.DeleteMany | apps/scraper/src/index.ts:156 | `deleteMany({})` leaves the table empty |
| Scraper.MicrosoftKey | apps/scraper/src/index.ts:18-24 | the Microsoft where-object has company "Microsoft", no location constraint and a posting date, and it finds the row of exactly those postings with the same title and posting date (see also `MicrosoftAttemptKeyed`, `MicrosoftInsertsWhenAbsent`) |
| Scraper.MicrosoftRow | apps/scraper/src/index.ts:28-35 | the row carries company "Microsoft", the posting's title, date, primary location and description, and a URL from which the careers prefix strips back to the job id (see also `MicrosoftCreatedRows`) |
| Scraper.GoogleLookupLocation | apps/scraper/src/index.ts:70-73 | the lookup location is the first location's display text, or "Unknown" when the list is missing or empty |
| Scraper.GoogleKey | apps/scraper/src/index.ts:66-75 | the Google where-object has company "Google", the title and the lookup location, and no date constraint (see also `GoogleKeyIgnoresPostedOn`) |
| Scraper.GoogleRow | apps/scraper/src/index.ts:78-87 | a row is built exactly when the location list is present; it has company "Google", the title, date and apply URL, a never-empty description (the intro when there is one), and a location exactly when the list is non-empty (see also `GoogleFindsOwnRowIff`, `GoogleCreatedRows`) |
| Scraper.AmazonKey | apps/scraper/src/index.ts:118-125 | the Amazon where-object has company "Amazon", the title, the posting date and a location that is never empty: the raw one when non-empty (see also `AmazonFindsOwnRowIff`) |
| Scraper.AmazonRow | apps/scraper/src/index.ts:128-136 | the row carries company "Amazon", the title, date and raw location, a never-empty description (the posting's when there is one), and a URL from which the site prefix strips back to the job path (see also `AmazonCreatedRows`) |
| Scraper.Created | apps/scraper/src/index.ts:46 | the non-null results are never more than the results (their membership is stated by `CreatedAreNonNull`, their multiplicity by `CreatedKeepsMultiplicity`, their count by `CreatedCountsNonNull`) |
| Scraper.CreatedAreNonNull | apps/scraper/src/index.ts:46 | a row is among the created rows exactly when it is a non-null result |
| Scraper.CreatedKeepsMultiplicity | apps/scraper/src/index.ts:46 | `filter` keeps each row exactly as often as it occurs as a non-null result |
| Scraper.CreatedCountsNonNull | apps/scraper/src/index.ts:46-47 | the logged "added" count, the length of the filtered list, is the number of results minus the nulls |
| Scraper.InsertIfAbsent | apps/scraper/src/index.ts:17-42 | a job creates its row exactly when no store call fails, the row can be built, and no row matches the lookup key; otherwise the table is unchanged and the result is null |
| Scraper.IngestBatch | apps/scraper/src/index.ts:15-46 | after a batch the table is the old table followed by exactly the non-null results in order: existing rows are never modified |
| Scraper.BatchStepAt | apps/scraper/src/index.ts:39-42 | each job runs against the table its predecessors left; a job whose store calls fail yields null while the rest of the batch is still processed |
| Scraper.InsertKeepsKeysUnique | apps/scraper/src/index.ts:26-38 | insert-if-absent of a keyed row keeps every source key answered by at most one row |
| Scraper.BatchKeepsKeysUnique | apps/scraper/src/index.ts:15-44 | a batch processed job after job keeps every source key answered by at most one row |
| Scraper.MicrosoftAttemptKeyed | apps/scraper/src/index.ts:18-35 | the only source key that finds a Microsoft row is the (Microsoft, title, postedOn) key it was looked up with |
| Scraper.GoogleAttemptKeyed | apps/scraper/src/index.ts:66-87 | the only source key that finds a Google row is the (Google, title, location) key it was looked up with |
| Scraper.AmazonAttemptKeyed | apps/scraper/src/index.ts:118-136 | the only source key that finds an Amazon row is the (Amazon, title, location, postedOn) key it was looked up with |
| Scraper.ReingestAddsNothing | apps/scraper/src/index.ts:26-38 | when every row is found by its own lookup key, re-running a batch after a failure-free run leaves the table unchanged |
| Scraper.MicrosoftInsertsWhenAbsent | apps/scraper/src/index.ts:18-38 | a Microsoft posting is inserted exactly when no store call fails and no row has company "Microsoft" with the same title and postedOn; otherwise the table is unchanged |
| Scraper.MicrosoftKeyIncludesPostedOn | apps/scraper/src/index.ts:18-24 | two Microsoft postings with the same title and different dates are both inserted |
| Scraper.GoogleKeyIgnoresPostedOn | apps/scraper/src/index.ts:66-77 | the Google key omits postedOn: a second posting with the same title and locations is not inserted, whatever its date, description or URL |
| Scraper.GoogleFindsOwnRowIff | apps/scraper/src/index.ts:70-83 | a Google row is found again by its own lookup exactly when the posting's location list is present and non-empty; with the list missing, no row is built |
| Scraper.GoogleEmptyLocationsNeverFound | apps/scraper/src/index.ts:70-83 | with an empty location list the lookup uses "Unknown" but the stored row has no location, so no Google lookup finds it |
| Scraper.GoogleEmptyLocationsDuplicate | apps/scraper/src/index.ts:66-90 | a posting with an empty location list is inserted again by a second pass |
| Scraper.AmazonFindsOwnRowIff | apps/scraper/src/index.ts:118-132 | an Amazon row is found again by its own lookup exactly when its location is non-empty |
| Scraper.AmazonEmptyLocationNeverFound | apps/scraper/src/index.ts:118-132 | with an empty location the lookup uses "Unknown" but the row stores "", so no Amazon lookup finds it |
| Scraper.AmazonEmptyLocationDuplicate | apps/scraper/src/index.ts:118-139 | a posting with an empty location is inserted again by a second pass |
| Scraper.MicrosoftReingestAddsNothing | apps/scraper/src/index.ts:18-38 | re-running a Microsoft batch after a failure-free run inserts nothing |
| Scraper.GoogleReingestAddsNothing | apps/scraper/src/index.ts:66-90 | re-running a Google batch in which no posting has an empty location list inserts nothing |
| Scraper.AmazonReingestAddsNothing | apps/scraper/src/index.ts:118-139 | re-running an Amazon batch in which every location is non-empty inserts nothing |
| Scraper.MicrosoftCreatedRows | apps/scraper/src/index.ts:28-35 | every inserted Microsoft row has company "Microsoft", the posting's primary location and description as-is, and URL `https://careers.microsoft.com/us/en/job/` + jobId |
| Scraper.GoogleCreatedRows | apps/scraper/src/index.ts:79-87 | every inserted Google row comes from a posting with a location list, has company "Google", the first location or none when the list is empty, the intro or "No description available" when the intro is empty (never an empty description), and the apply URL |
| Scraper.AmazonCreatedRows | apps/scraper/src/index.ts:128-136 | every inserted Amazon row has company "Amazon", the raw location, the description or "No description available" when it is empty, and URL `https://www.amazon.jobs` + job_path |
| Scraper.IngestOne | apps/scraper/src/index.ts:16-43 | the per-job callback changes the table and yields its result exactly as `InsertIfAbsent` specifies: null when a store call throws or a row is found, else the created row appended |
| Scraper.IngestAll | apps/scraper/src/index.ts:15-44 | the per-job loop leaves the table and the results list exactly as `IngestBatch` specifies |
| Scraper.Scrape | apps/scraper/src/index.ts:46-50 | a failed fetch leaves the table unchanged; the logged added count is the number of non-null results and equals the growth of the table |
| Scraper.ScrapeMicrosoftJobs | apps/scraper/src/index.ts:5-51 | the Microsoft scrape updates the table as the Microsoft batch spec says and reports the number of inserted rows |
| Scraper.ScrapeGoogleJobs | apps/scraper/src/index.ts:53-103 | the Google scrape updates the table as the Google batch spec says and reports the number of inserted rows |
| Scraper.ScrapeAmazonJobs | apps/scraper/src/index.ts:105-152 | the Amazon scrape updates the table as the Amazon batch spec says and reports the number of inserted rows |
| Scraper.RunCycle | apps/scraper/src/index.ts:154-168 | a cycle wipes the table, then runs Microsoft, Google and Amazon in order; a failing wipe skips all three; the cycle never fails, so the next run is always scheduled |
| Scraper.CycleRowsAllNew | apps/scraper/src/index.ts:156-160 | after a cycle that wiped the table, every row was inserted in this cycle: Microsoft's rows, then Google's, then Amazon's |
| Scraper.CycleKeysUnique | apps/scraper/src/index.ts:156-160 | after a cycle, every lookup key of every source is answered by at most one row |
| Scraper.ScrapeAfterOtherCompanies | apps/scraper/src/index.ts:158-160 | a source running after rows of other companies creates exactly what it would create on an empty table, and only rows of its own company |
| Scraper.CycleSourcesIndependent | apps/scraper/src/index.ts:158-160 | within a cycle, Google's and Amazon's inserts do not depend on the sources that ran before them |
| HttpBackend.CurrentPage | apps/http-backend/src/index.ts:11-13 | the page is at least 1; it is 1 when `page` is absent, zero or not a number, and the given number otherwise |
| HttpBackend.Satisfies | apps/http-backend/src/index.ts:17-21 | with every filter empty every row qualifies; a row without a location never meets a location filter (see also `EmptyFiltersSelectAll`, `Filtered`) |
| HttpBackend.Filtered | apps/http-backend/src/index.ts:16-21 | a row is selected exactly when it meets every non-empty filter, and never more rows than the table holds |
| HttpBackend.FilteredKeepsMultiplicity | apps/http-backend/src/index.ts:16-21 | each selected row occurs as often as in the table, every other row not at all |
| HttpBackend.Offset | apps/http-backend/src/index.ts:22 | the skip is a multiple of ten: the number of full pages before the current one, times ten |
| HttpBackend.PageOf | apps/http-backend/src/index.ts:22-23 | a page holds at most 10 rows: the filtered rows from offset `10*(page-1)` on |
| HttpBackend.ListJobs | apps/http-backend/src/index.ts:10-31 | a failing query yields 500 with "Internal Server Error" and no rows; otherwise 200 with the current page of the filtered rows, at most 10 rows, each meeting every provided filter |
| HttpBackend.EmptyFiltersSelectAll | apps/http-backend/src/index.ts:18-20 | empty or absent filters place no constraint: every row is selected, in table order |
| HttpBackend.ConsecutivePagesAdjacent | apps/http-backend/src/index.ts:22-23 | pages p and p+1 are adjacent, disjoint slices of the same filtered sequence |
| HttpBackend.FirstPagesArePrefix | apps/http-backend/src/index.ts:22-23 | reading pages 1 to n in turn yields a prefix of the filtered rows, with no gaps or repetitions |
| HttpBackend.RowOnItsPage | apps/http-backend/src/index.ts:22-23 | each filtered row appears on exactly one page, at its offset within that page |

## Left out

- Network fetches and JSON unpacking (`response.data.operationResult.result.jobs`, `response.data.jobs || []`) are not modelled. Each batch is an input sequence of typed records. `None` stands for a fetch or unpacking that throws.
- Prisma's internals are not modelled. A store call that throws is the oracle `failed`, and the model does not say when that happens. Row ids are not modelled. Neither `findFirst` nor `findMany` gives an `orderBy`, so the order in which the database returns rows is unspecified. The model fixes it as table order (insertion order). The paging lemmas (`ConsecutivePagesAdjacent`, `FirstPagesArePrefix`, `RowOnItsPage`) therefore assume that the order stays the same from one request to the next, which the database does not promise. For `findFirst` only null versus non-null matters to the scraper, so the choice there changes nothing.
- `Promise.all` concurrency within a batch is not modelled. Jobs are processed one after another. With real concurrency, two jobs with the same key can both find nothing and both insert. The uniqueness lemmas assume sequential processing.
- `setTimeout` rescheduling is not modelled. The model covers a single cycle. `RunCycle` always returns, which is why the next run is always scheduled.
- Dates are opaque strings compared for equality. Parsing by `new Date(...)` and Prisma's conversion between strings and dates in lookups and filters are treated as the identity.
- Page parsing is simplified. `page` is taken as absent, a non-negative whole number, or not a number. Negative and fractional pages are not handled by the code and are not modelled.
- Undefined fields are simplified. A missing string field from upstream is modelled as the empty string, the only falsy string, so `||` fallbacks treat both alike. The one exception is Google's `locations`, which the code guards explicitly and the model keeps optional.
- MicrosoftKey, GoogleKey, AmazonKey: in a Prisma where-object an `undefined` value drops that constraint, but the model compares with "". The code looks a posting up with fewer constraints than the model when it is missing one of these fields: Microsoft's `title` or `postingDate` (apps/scraper/src/index.ts:21-22), Google's `title` or `locations[0].display` (69, 72), Amazon's `title` or `posted_date` (121, 123).
- MicrosoftRow, GoogleRow, AmazonRow: `create` stores null for an `undefined` optional field, but the model stores "". An example is Amazon's `location` at apps/scraper/src/index.ts:132. A required field left undefined makes `create` throw, which `failed` covers.
- MicrosoftRow, AmazonRow: a template literal turns an `undefined` field into the text "undefined", but the model reads a missing field as "". A Microsoft posting without `jobId` gets the URL `https://careers.microsoft.com/us/en/job/undefined` (apps/scraper/src/index.ts:34). An Amazon posting without `job_path` gets `https://www.amazon.jobsundefined` (135). The model stores only the bare prefix in both cases.
- Google postings with an empty `locations` list hand `create` an undefined location. The model stores no location (`None`). Whether the database accepts that depends on a schema that is not part of this model; a rejection is covered by `failed`.
- Express setup, the health route, `app.listen` and console logging are not modelled.
