# Job lifecycle of the upload-and-transcode backend, in Dafny

The backend lets a client ask for an upload URL. It registers a job for that upload in a
PostgreSQL `jobs` table and reports the job's status. The job then moves through its life:

- **WAITING_FOR_UPLOAD**: the row's initial status.
- **QUEUED**: an S3 "Object Created" event arrives, a transcode job is submitted, and an
  event lambda writes this status.
- **SUCCEEDED** or **FAILED**: another lambda writes one of these when MediaConvert reports
  the outcome.

This project models that core over an abstract job table and proves what each step does to it.

- `JobModel` (job_model.dfy): a row of `jobs`, its column values and JavaScript
  truthiness, and the five columns `updateJob` may write.
- `JobStore` (job_store.dfy): the table (`Database`, a class whose `rows` the operations
  reassign) and the `Jobs` data-access class with its pool state.
  - The operations are `register`, `getById`, `getStatuses`, `updateJob`, and `close` in
    both its guarded and unguarded forms.
  - It also holds the two fixed overwrites the lambdas run.
  - The three copies of `Jobs` (db.ts, db.js, utils/db.js) run the same statements; only
    `close` differs.
- `UpdateQuery` (update_query.dfy): the whitelisting SET-list builder. It is a loop with a
  running placeholder counter, proved equal to a reference "patch the row" definition.
- `Listing` (listing.dfy): the listing query builder with numbered placeholders and what the
  two statements select. This covers filter, `ORDER BY updated_at DESC, job_id DESC`,
  offset/limit and count, plus the pagination arithmetic.
- `JsText` (js_text.dfy): `split`, `join`, `startsWith`, decimal printing and `parseInt`,
  with their round trips.
- `UploadKey` (upload_key.dfy): `generateKey` and its file-name sanitising.
- `Settings` (settings.dfy): `getDbConfig`, both `getServiceConfig` versions, and the
  presign-expiry parse.
- `S3Event`, `EmcEvent`, `EmsEvent` (s3_event.dfy, emc_event.dfy, ems_event.dfy): the three
  event lambdas, as methods over the table that answer a status code.
  - `LambdaResponse` (lambda_response.dfy) is their reply.
- `ApiService` (api_service.dfy): the route table and the four handlers of the HTTP service.
  - One `Variant` parameter covers service.ts, service.js, the `/api/v1` serveice.js and the
    early draft in app/api-service.
- `Cli` (cli.dfy): `parseCliCommand` and the `RunMode` dispatch of the three entry points.
- `Lifecycle` (lifecycle.dfy): the end-to-end happy path of the repository's Playwright test,
  driven through the model: waiting, queued, failed, then succeeded.

The status writes are unconditional overwrites, as in the code: there is no status guard and
no compare-and-set. So the model proves that a FAILED job can later become SUCCEEDED, as the
end-to-end test expects; it does not prove that statuses only move forward.

Where the code's apparent intent and its behaviour differ, the model follows the behaviour:
- The EMS lambda's misspelled `defualt:` label is a statement label, so any other status
  answers 200, not 401.
- `register` returns `undefined`, not the record, because its INSERT has no RETURNING clause.
- The JavaScript `close` fails on a pool that was never created.

## Model

| member | source | states |
|---|---|---|
| JobModel.SetColumn | service/api-service/src/db.ts:283 | `field = $n` writes exactly that whitelisted column; every other column, `job_id`, `input` and `updated_at` keep their values |
| UpdateQuery.Allowed | service/api-service/src/db.ts:268-286 | the entries kept are whitelisted entries of the update object, no more of them than given, and every whitelisted entry is kept |
| UpdateQuery.AllowedAppend | service/api-service/src/db.ts:280-286 | the entries kept from two runs of entries are those kept from each, in order |
| UpdateQuery.BuildSetList | service/api-service/src/db.ts:275-286 | the k-th kept entry becomes `field = $(k+1)` with the k-th value; as many values as assignments |
| UpdateQuery.PatchedLast | service/api-service/src/db.ts:280-286 | the reference patch of an update object is the patch of its earlier entries followed by its last entry's column, when whitelisted |
| UpdateQuery.ExecSet | service/api-service/src/db.ts:292-296 | what PostgreSQL does with a `SET` list: the assignments applied in order, each column taking its bound value; `job_id`, `input` and `updated_at` are never touched, since none is whitelisted. `ExecBuiltSetList` ties it to the reference patch |
| UpdateQuery.ExecBuiltSetList | service/api-service/src/db.ts:280-299 | running the built SET list with its bound values is the reference patch: each whitelisted column takes the given value, nothing else changes |
| JobStore.FindRow | service/api-service/src/db.ts:177-186 | the row found has the requested id; no row found means no row has it |
| JobStore.PatchRows | service/api-service/src/db.ts:292-303 | `WHERE job_id = $(n+1)`: only the row with that id is patched; the length is kept |
| JobStore.RunUpdate | service/api-service/src/db.ts:292-299 | what PostgreSQL does with the built `UPDATE … WHERE job_id = $n`: the table keeps its length; every row keeps its id and `input`; a row whose id is not the bound value is unchanged. `UpdateJob` uses it together with `ExecBuiltSetList` to reach `PatchRows` |
| JobStore.QueueRows | service/lambda-s3-event/index.js:36-51 | the row with the id gets QUEUED, the key as `input` and the transcoder id, whatever its status; other rows and columns unchanged |
| JobStore.OutcomeRows | service/lambda-emc-event/index.js:14-29 | every row with that `mc_job_id` gets the status, output and error message, whatever its status; other rows and columns unchanged |
| JobStore.OutcomeRowsIdempotent | service/lambda-emc-event/index.js:14-22 | delivering the same notification twice leaves the table as one delivery did |
| JobStore.OutcomeOverridesTerminal | test/local/tests/example.spec.ts:49-62 | a FAILED row that then receives a completion becomes SUCCEEDED |
| JobStore.QueueRowsKeepIds | service/lambda-s3-event/index.js:38-46 | the QUEUED overwrite keeps job ids distinct |
| JobStore.OutcomeRowsKeepIds | service/lambda-emc-event/index.js:15-22 | the outcome overwrite keeps job ids distinct |
| JobStore.Jobs.constructor | service/api-service/src/db.ts:130-134 | a new `Jobs` has no pool until `connect` |
| JobStore.Jobs.Connect | service/api-service/src/db.ts:140 | after `connect` the pool is open |
| JobStore.Jobs.Close | service/api-service/src/db.ts:146-150 | closing without a pool does nothing; an open pool is ended; ending twice fails |
| JobStore.Jobs.CloseUnguarded | service/api-service/src/db.js:108-110 | closing before `connect` fails on the null pool; an open pool is ended |
| JobStore.Jobs.Register | service/api-service/src/db.ts:159-169 | exactly one row, in its initial WAITING_FOR_UPLOAD state, is appended and `undefined` returned; a taken id or a failed connection fails with 'Failed to register job' and inserts nothing |
| JobStore.Jobs.GetById | service/api-service/src/db.ts:177-186 | the row with that id, or null when none has it; a failed connection fails with 'Failed to get job' |
| JobStore.Jobs.GetStatuses | service/api-service/src/db.ts:194-255 | succeeds exactly when the connection works and the offset is not negative; limit and offset default to 50 and 0; the result is the filtered, ordered window and the pagination of the filtered count |
| JobStore.Jobs.UpdateJob | service/api-service/src/db.ts:264-307 | no whitelisted key: 'No valid fields to update' before touching the table; otherwise the row with that id gets the reference patch and is returned, or null |
| Listing.StrLessIrreflexive | service/api-service/src/db.ts:216 | the `job_id` order is irreflexive |
| Listing.StrLessTransitive | service/api-service/src/db.ts:216 | the `job_id` order is transitive |
| Listing.StrLessTotal | service/api-service/src/db.ts:216 | any two different ids are ordered one way or the other |
| Listing.StrLessAsymmetric | service/api-service/src/db.ts:216 | the `job_id` order is asymmetric |
| Listing.BeforeTransitive | service/api-service/src/db.ts:216 | `updated_at DESC, job_id DESC` is transitive |
| Listing.Insert | service/api-service/src/db.ts:216 | inserting into the ordering keeps every row and adds exactly one |
| Listing.SortRows | service/api-service/src/db.ts:216 | the ordered rows are a permutation of the input |
| Listing.InsertOrdered | service/api-service/src/db.ts:216 | inserting a row with a new id into an ordered list keeps it ordered |
| Listing.SortRowsOrdered | service/api-service/src/db.ts:216 | rows with distinct ids come out strictly in listing order |
| Listing.Matching | service/api-service/src/db.ts:209-213 | a row is selected exactly when it is in the table and matches the status filter |
| Listing.Window | service/api-service/src/db.ts:217 | LIMIT/OFFSET: the window holds `min(limit, total - offset)` rows, the ones from position `offset` on |
| Listing.Summaries | service/api-service/src/db.ts:198-201 | one `(job_id, status, updated_at)` summary per row, in order |
| Listing.Page | service/api-service/src/db.ts:209-217 | the listing SELECT as the window of the sorted matching rows, projected. It holds at most `limit` rows and no more than the table; `PageLength`, `PageRows` and `PageOrdered` give its exact size, provenance and order |
| Listing.PageContents | service/api-service/src/db.ts:209-235 | a page holds `min(limit, total - offset)` rows, each a table row matching the filter, strictly in listing order |
| Listing.PageLength | service/api-service/src/db.ts:217-235 | a page holds `min(limit, total - offset)` rows of the filtered total, none past the end |
| Listing.PageRows | service/api-service/src/db.ts:209-235 | every summary on a page is that of a table row matching the filter |
| Listing.PageOrdered | service/api-service/src/db.ts:216-235 | with distinct ids, a page is strictly in `updated_at DESC, job_id DESC` order |
| Listing.WindowRows | service/api-service/src/db.ts:209-217 | every row of the window is a matching row of the table |
| Listing.WindowOrdered | service/api-service/src/db.ts:216-217 | a window of an ordered list is ordered |
| Listing.MatchingDistinct | service/api-service/src/db.ts:209-213 | filtering keeps ids distinct |
| Listing.Paginate | service/api-service/src/db.ts:236-250 | limit and offset are echoed; `hasMore` iff `offset + limit < total`; `totalPages` is the ceiling of `total/limit`; `currentPage` is the page holding `offset`, at least 1 |
| Listing.PagesCeil | service/api-service/src/db.ts:238 | integer ceiling division bounds |
| Listing.NextPageBound | service/api-service/src/db.ts:237-238 | with `totalPages` the ceiling of `total/limit`, the first `c` pages leave rows over exactly when `c < totalPages` |
| Listing.HasMoreIffNotLastPage | service/api-service/src/db.ts:237-239 | paging in steps of `limit`, there is more exactly when the current page is not the last |
| Listing.FullPageBeforeMore | service/api-service/src/db.ts:237 | a page followed by more rows is full |
| Listing.BuildListStatement | service/api-service/src/db.ts:205-227 | with a status: status `$1`, limit `$2`, offset `$3`, values in that order; without one: limit `$1`, offset `$2`; the count binds the status as its own `$1` |
| Listing.RunBuiltStatement | service/api-service/src/db.ts:229-236 | the built statements select exactly the requested page and count the rows under the same filter |
| JsText.Split | service/lambda-s3-event/index.js:37 | `split` always yields at least one piece |
| JsText.SplitPiecesLackSeparator | service/lambda-s3-event/index.js:37 | no piece holds the separator |
| JsText.SplitWithoutSeparator | service/lambda-s3-event/index.js:37 | a string without the separator splits into itself |
| JsText.SplitAtFirst | service/lambda-s3-event/index.js:37 | the piece before the first separator comes first |
| JsText.SplitHead | service/lambda-s3-event/index.js:37 | the first piece of a split is a prefix of the string with no separator in it, ending at the end of the string or at a separator |
| JsText.JoinSplit | service/lambda-emc-event/index.js:43 | joining the pieces of a split gives the string back |
| JsText.SplitJoin | service/lambda-emc-event/index.js:43 | splitting the join of comma-free pieces gives the pieces back |
| JsText.DigitChar | service/api-service/src/aws.ts:18 | a digit's character reads back as that digit |
| JsText.DigitValue | service/api-service/src/utils/db.js:8 | a digit character is worth less than ten |
| JsText.Decimal | service/api-service/src/aws.ts:16-18 | the printed timestamp is a non-empty run of digits |
| JsText.LeadingDigits | service/api-service/src/utils/db.js:8 | the longest digit prefix, and the character after it is not a digit |
| JsText.ParseInt | service/api-service/src/utils/db.js:8 | `parseInt` yields a number exactly when a digit follows the optional sign |
| JsText.DecimalValue | service/api-service/src/utils/db.js:8 | the printed digits are worth the number printed |
| JsText.LeadingDigitsOfDigits | service/api-service/src/utils/db.js:8 | an all-digit string is its own digit prefix |
| JsText.ParseDecimal | service/api-service/src/utils/db.js:8 | `parseInt(String(n)) == n` |
| Settings.GetDbConfig | service/api-service/src/utils/db.js:5-14 | ssl is `{rejectUnauthorized: false}` exactly when the setting is the string 'true'; host, user, password and database are passed through |
| Settings.DbPortParsed | service/api-service/src/utils/db.js:8 | a decimal port string is read as that port |
| Settings.GetServiceConfig | service/api-service/src/service.js:12-17 | the api version is the nested `service.api` |
| Settings.GetFlatServiceConfig | service/api-service/src/serveice.js:6-11 | the api version is the flat `serviceApi` |
| Settings.ServicePortParsed | service/api-service/src/serveice.js:8 | a decimal port string is read as that port, in both versions |
| Settings.GetS3Settings | app/api-service/src/utils/aws.js:18-19 | the bucket name is passed through |
| Settings.PresignExpiryParsed | app/api-service/src/utils/aws.js:19 | a decimal expiry string is read as that many seconds |
| UploadKey.Sanitize | service/api-service/src/aws.ts:17 | length kept; every output character is in `[A-Za-z0-9.-]` or `_`; allowed characters are kept |
| UploadKey.GenerateKey | service/api-service/src/aws.ts:15-18 | `input/<id>/<ms>-<sanitized name>`: it starts with `input/<id>/`, ends with the sanitized name and is as long as its parts. `KeySegments` gives its three-segment shape and `S3Event.UploadKeyRoundTrip` the round trip through the S3 handler |
| UploadKey.SanitizeIdempotent | service/api-service/src/aws.js:12 | sanitising twice is sanitising once |
| UploadKey.SanitizedHasNoSlash | app/api-service/src/utils/aws.js:24 | a sanitised name has no '/' |
| UploadKey.KeySegments | service/api-service/src/aws.ts:17-18 | for an id without '/', the key splits into exactly `input`, the id, and `timestamp-name` |
| UploadKey.KeyHasInputPrefix | service/api-service/src/aws.ts:18 | every key starts with `input/` |
| S3Event.InputKeySegments | service/lambda-s3-event/index.js:37 | a key under `input/` has a second segment |
| S3Event.Accepts | service/lambda-s3-event/index.js:138-140 | the filter: source `aws.s3`, detail type `Object Created` and a key under `input/`. A key it accepts always has the second segment the handler reads |
| S3Event.JobIdOfKey | service/lambda-s3-event/index.js:37 | `key.split('/')[1]`: the text after `input/` up to the next '/', or to the end of the key; it holds no '/' |
| S3Event.UploadKeyRoundTrip | service/lambda-s3-event/index.js:37-44 | the key the API hands out passes the lambda's prefix filter, and the lambda extracts exactly the job id from it |
| S3Event.QueueRowsUnmatched | service/lambda-s3-event/index.js:50 | an id no row has changes nothing |
| S3Event.Handle | service/lambda-s3-event/index.js:136-172 | other events answer 400 and write nothing; a failed submission answers 500 with its message and writes nothing; otherwise the row named by the key's second segment is QUEUED and the answer is 200 `Job queued: <transcoder id>, <key>` |
| EmcEvent.AllDetailsAppend | service/lambda-emc-event/index.js:41-45 | the details of two batches of groups are the details of each, in order |
| EmcEvent.OutputsAppend | service/lambda-emc-event/index.js:41-45 | the outputs of two batches of groups are the outputs of each, in order |
| EmcEvent.DetailOutputsAppend | service/lambda-emc-event/index.js:42-44 | one output string per detail, appended in order |
| EmcEvent.OutputPathsRecoverable | service/lambda-emc-event/index.js:43 | each output string splits back into its detail's path list when no path holds a comma |
| EmcEvent.DetailOutputs | service/lambda-emc-event/index.js:42-44 | one string per output detail; `DetailOutputsAppend` gives the order |
| EmcEvent.Outputs | service/lambda-emc-event/index.js:40-45 | the `output` array holds exactly one string per output detail across all groups. `OutputsAppend` gives the order, `OutputPathsRecoverable` what each string holds, and `CollectOutputs` is the loop that builds it |
| EmcEvent.CollectOutputs | service/lambda-emc-event/index.js:40-45 | the nested loops push one string per output detail across all groups, in order, each its paths joined by ',' |
| EmcEvent.ErrorText | service/lambda-emc-event/index.js:49-50 | `${errorCode}: ${errorMessage}`: the code, then `: `, then the message, each recoverable by position |
| EmcEvent.Handle | service/lambda-emc-event/index.js:32-76 | COMPLETE writes SUCCEEDED, the outputs and ''; ERROR writes FAILED, '' and `code: message`; any other status answers 401 and writes nothing; a database failure answers 500 and writes nothing |
| EmsEvent.ReadDoubled | service/lambda-ems-event/index.js:13-20 | a value with doubled quotes, then a closing quote, reads back as that value |
| EmsEvent.QuoteRoundTrip | service/lambda-ems-event/index.js:13-20 | every value survives well-formed quoting |
| EmsEvent.DoubledWithoutQuote | service/lambda-ems-event/index.js:16-19 | a value without a quote is unchanged by doubling |
| EmsEvent.QuoteAsWrittenWithoutQuote | service/lambda-ems-event/index.js:16-19 | as written, a value without a quote is read back intact |
| EmsEvent.QuoteAsWrittenBreaks | service/lambda-ems-event/index.js:19 | as written, `a'b` closes the literal after `a` and leaves `b'`, a syntax error |
| EmsEvent.QuoteAsWrittenAgrees | service/lambda-ems-event/index.js:16-19 | for a value without a quote, the lambda's literal is the well-formed one |
| EmsEvent.DoubledLonger | service/lambda-ems-event/index.js:16-19 | doubling quotes never shortens a value, and strictly lengthens one that holds a quote |
| EmsEvent.QuoteAgreesOnlyWithoutQuote | service/lambda-ems-event/index.js:16-19 | the lambda's literal equals the well-formed one exactly when the value holds no quote |
| EmsEvent.StatementAsWritten | service/lambda-ems-event/index.js:13-20 | the statement the lambda splices together. Each value without a quote gets its well-formed literal; `StatementAsWrittenFails` shows the case of a quote |
| EmsEvent.BuildStatement | service/lambda-ems-event/index.js:13-20 | the statement with well-formed literals. It equals the lambda's statement exactly when none of the four values holds a quote; `RunBuiltStatement` shows it always runs |
| EmsEvent.RunStatement | service/lambda-ems-event/index.js:13-23 | what the server does with the statement: it runs exactly when each of the four pieces reads as one literal, and then keeps the table's length. `RunBuiltStatement`, `StatementAsWrittenFails` and `RunStatementKeepsIds` state its outcomes |
| EmsEvent.OutcomeStatusQuoteFree | service/lambda-ems-event/index.js:31-36 | the statuses the handler writes, SUCCEEDED and FAILED, hold no quote |
| EmsEvent.RunBuiltStatement | service/lambda-ems-event/index.js:13-23 | the well-formed statement always runs and writes exactly the values it was built from |
| EmsEvent.StatementAsWrittenFails | service/lambda-ems-event/index.js:13-23 | as written, a completion for a transcoder id holding a quote fails instead of marking the rows SUCCEEDED |
| EmsEvent.RunStatementKeepsIds | service/lambda-ems-event/index.js:13-19 | whatever the statement reads, its UPDATE never makes two rows share a `job_id` |
| EmsEvent.RunOutcomeAsWritten | service/lambda-ems-event/index.js:3-24 | the unescaped statement runs exactly when the server can read it, and then writes what it reads; otherwise the query throws and nothing changes; a quote-free transcoder id is written as given |
| EmsEvent.Handle | service/lambda-ems-event/index.js:26-63 | COMPLETE writes SUCCEEDED and ERROR writes FAILED, with empty output and message, through the unescaped statement: 200 when it runs, 500 with nothing written when it does not; a quote-free id updates every row with that transcoder id; any other status falls through to 200 and writes nothing; a database failure answers 500 |
| EmsEvent.QuotedIdAnswers500 | service/lambda-ems-event/index.js:19-23 | a COMPLETE notification for the transcoder id `a'b` answers 500 and leaves the table as it was |
| EmsEvent.RunOutcome | service/lambda-ems-event/index.js:3-24 | with well-formed literals, every row with that transcoder id takes the status, an empty output and an empty error message; ids stay distinct |
| EmsEvent.HandleCorrected | service/lambda-ems-event/index.js:26-63 | with well-formed literals, COMPLETE and ERROR update every row with that transcoder id, whatever characters it holds, and answer 200 |
| ApiService.RouteOf | service/api-service/src/service.ts:79-91 | `/health` is health; a one-segment id under the jobs path is get-by-id; the jobs path is the listing; POST upload-request is the upload; the job routes carry the variant's prefix |
| ApiService.RouteJobById | service/api-service/src/serveice.js:58 | every non-empty, '/'-free id under the jobs path reaches get-by-id |
| ApiService.View | service/api-service/src/service.ts:171-180 | id, status, input and `updated_at` are copied; output, CDN URL, transcoder id and error message show null exactly when falsy; the draft shows only id, status, error message and `updated_at` |
| ApiService.GetJobById | service/api-service/src/service.ts:147-193 | 400 exactly for an id failing validation, with no store read; 500 exactly on a store failure; 404 exactly when no row has the id; 200 with the view of that id's row |
| ApiService.EffectiveLimit | service/api-service/src/service.ts:207 | the effective limit is never 0; a missing or `NaN` limit is 50, a parsed limit is itself unless 0 |
| ApiService.NonNumericLimit | service/api-service/src/service.ts:207 | a limit that does not begin with a digit after its sign, such as `abc`, means 50 |
| ApiService.EffectiveLimitOfDecimal | service/api-service/src/service.js:210 | a decimal limit is that number; "0" and a missing limit mean 50 |
| ApiService.GetJobStatuses | service/api-service/src/service.ts:200-229 | a limit outside 1..1000 answers 400; a store failure 500; otherwise 200 with the first page of every job in listing order, at most `limit` of them, on page 1, with more exactly when the table holds more than `limit` jobs |
| ApiService.FirstPage | service/api-service/src/service.ts:216 | the first unfiltered page holds at most `limit` rows, is page 1, and has more exactly when the table holds more than `limit` rows |
| ApiService.MatchingEverything | service/api-service/src/service.ts:216 | with no status every row is listed and counted |
| ApiService.PostUploadRequest | service/api-service/src/service.ts:236-267 | success registers exactly one new WAITING_FOR_UPLOAD row and answers 201 (service.ts, service.js) or 200 (serveice.js, draft) with the id and URL; a failed presign registers nothing; any failure answers 500 with the table unchanged |
| ApiService.Serve | service/api-service/src/serveice.js:56-68 | only the upload route writes to the table; health answers 200; an unknown path answers 400 'Invalid path' or 404 'Endpoint not found' by variant |
| ApiService.FallbackResponse | service/api-service/src/service.ts:85-90 | the `*path` catch-all answers 400 'Invalid path' in the unprefixed services and 404 'Endpoint not found' in the `/api/v1` ones (serveice.js:88-93) |
| Cli.ParseCliCommand | service/api-service/src/main.ts:23-35 | succeeds exactly when one argument follows the first two and it is 'init' or 'serve', and then returns it unchanged; a wrong count dies with the count |
| Cli.ModeOf | service/api-service/src/main.ts:16-19 | the `RunMode` table: `init` runs the migrations in every program; `serve` runs the HTTP service, except in the draft, where `runApp` only logs. `Run` and `DraftServeFinishes` use it |
| Cli.Run | service/api-service/src/main.ts:38-47 | a rejected command or a failing mode dies; otherwise 'init' runs the migrations and 'serve' the HTTP service, or the draft's `runApp` |
| Cli.DraftServeFinishes | app/api-service/index.js:5-12 | the draft's serve always finishes, doing nothing but log |
| Lifecycle.ShowsRow | test/local/tests/example.spec.ts:27-31 | GET by a valid id shows that id's row |
| Lifecycle.UploadStage | test/local/tests/example.spec.ts:21-31 | the upload appends the row, and it shows WAITING_FOR_UPLOAD |
| Lifecycle.QueueStage | test/local/tests/example.spec.ts:33-46 | the S3 event QUEUEs the row and GET shows the transcoder id |
| Lifecycle.OutcomeStage | test/local/tests/example.spec.ts:48-62 | a notification for the row's transcoder id shows SUCCEEDED or FAILED |
| Lifecycle.HappyPath | test/local/tests/example.spec.ts:19-63 | the four GETs show WAITING_FOR_UPLOAD, QUEUED, FAILED, SUCCEEDED; the other rows are untouched |

## Left out

- I/O and plumbing: `pg` pools and clients, connections and `runMigrations`. Express
  middleware, the request logger, `listen`/`close` and `process.exit` are also left out.
  A database that cannot be reached is the `online` flag of `Database`. `die` is the `Died` outcome.
- Foreign calls become parameters:
  - `uuid.v4`, `uuid.v1` and `uuid.validate`;
  - the S3 presigner (an optional URL per key);
  - `mcCreateJob` (its job id, or the message it threw);
  - `Date.now()`;
  - the time a row is inserted.
- The `updated_at` column is set from a parameter at insertion. The UPDATE statements never
  write it, and the migrations that might add a trigger are not part of this model.
- `job_id` is taken to be the table's primary key, so `register` with a taken id fails. The
  schema is not part of this model.
- Express path matching is exact string comparison. Trailing slashes, case-insensitive
  matching and percent-decoding are not modelled. A HEAD request, which Express answers
  through the GET routes, goes to the fallback here, like every method other than GET and
  POST.
- UploadKey.Sanitize: replaces one Unicode scalar at a time. The JavaScript pattern has no
  `u` flag and replaces each UTF-16 code unit, so a character outside the Basic
  Multilingual Plane becomes two `_` there and one here, and "length kept" counts scalars,
  not code units. The handlers always pass the name `foobar`, so reachable keys agree.
- Listing.StrLess: the `job_id DESC` tie-break is code-point lexicographic order, which is
  the order of lower-case canonical uuids and of the `uuid` type. A `text` column under a
  locale collation could order other ids differently. The schema is not part of this
  model.
- The health body keeps only `status: 'healthy'`. The timestamp, uptime and version come from
  the process.
- JsText.ParseInt: reads only an optional sign and decimal digits. Leading whitespace, `0x`
  prefixes and non-string arguments are not modelled.
- JobStore.Jobs.GetStatuses: requires a limit of at least 1, which every handler guarantees.
  JavaScript's float `Math.ceil`/`Math.floor` at limit 0 (Infinity, NaN) is not modelled.
- UpdateQuery.ExecBuiltSetList: update objects are sequences of entries. A JavaScript object
  cannot repeat a key, so a repeated key, which PostgreSQL would reject, is given last-wins
  meaning.
- EmcEvent.Handle: `errorCode` and `errorMessage` are taken as the text a template literal
  prints for them. A COMPLETE event without `outputGroupDetails` (which throws) is not
  modelled. The output array is stored as one `Strs` value.
- EmsEvent.Handle: each of the four spliced pieces must read as exactly one SQL literal, or
  the statement is a syntax error (500, nothing written). A value whose quotes still leave
  valid SQL, such as the id `x' OR '1'='1` that widens the WHERE to every row, is treated as
  a syntax error here, so injection is not modelled.
- S3Event.Handle and the other lambdas: the JSON body is modelled as its message and error
  fields, and a driver error's message is not modelled.
- Concurrency: `Promise.all` in `getStatuses` and concurrent lambda invocations are
  sequential here.
- Logging, the config and logger modules, and `mcCreateJob`'s encoding settings are left out.

## Findings

| source | as written | input that shows it | evidently intended | confidence | as-written member | corrected member |
|---|---|---|---|---|---|---|
| service/lambda-ems-event/index.js:13-20 | values are spliced between single quotes without escaping | a transcoder job id `a'b`: the literal closes after `a` and `b'` is left over, a syntax error, so the notification answers 500 and the rows are not updated | the rows whose `mc_job_id` is the id take the outcome, whatever characters the id has | not executed; MediaConvert ids contain no quote in practice | EmsEvent.QuotedIdAnswers500 | EmsEvent.HandleCorrected |

