# fx-updater: daily USD/UAH rate sync, modelled in Dafny

fx-updater is a small web service. One call to its `/update` endpoint walks a
range of calendar days. For each day it asks the National Bank of Ukraine's
statistics service for the official USD/UAH rate, retrying a few times when
the service misbehaves. It then upserts the rates into a spreadsheet keyed by
(date, currency) and answers with a summary: how many rows were written, how
many days failed, and the first 20 failures.

This project models that core in Dafny and proves what it promises:

- `date_range.dfy` (module `DateRange`): the inclusive walk over days. A date
  is its day number.
- `auth.dfy` (module `Auth`): the shared-secret check. It handles a
  `Bearer` header in the manner of section 2.1 of RFC 6750 and falls back to
  a `token` query parameter. Python's `str.strip`, `str.startswith` and
  `str.replace(old, new, 1)` are modelled exactly, including Python's set of
  whitespace characters.
- `rate_fetcher.dfy` (module `RateFetcher`): one day's fetch with bounded
  retries. The service is an oracle `upstream(day, attempt)`, and each sleep
  is recorded as a wait value. `Classify` follows the `try` body and its
  `except` clause branch by branch. `Fetch` is the specification of the whole
  retry loop, and the method `FetchRate` is proved equal to it. The waits grow
  linearly (`backoff * k`) although the source comment calls the pause
  exponential; `LinearWaitTotal` and `FetchWaitTotal` state the resulting total.
- `record_store.dfy` (module `RecordStore`): the worksheet. It is a class
  holding its rows (`seq<seq<string>>`) and a log of the write requests sent
  to it. It has the in-place `Update` of columns A..E and the batched
  `Append`. The module also holds the key index that `load_existing_keys`
  builds, with its specification `KeyIndex`.
- `upsert.dfy` (module `Upsert`): `upsert_rows`. It is specified by the sheet
  it produces (`Upserted`) and the requests it sends (`UpsertWrites`).
  Lemmas cover targeted rows, untouched rows, the append batch and
  idempotence.
- `sync.dfy` (module `Sync`): the `/update` handler. This covers auth, the
  range checks, the per-day loop (`CollectRates`), the single upsert and the
  200/207 summary (207 Multi-Status, section 11.1 of RFC 4918).
- `opt.dfy` (module `Opt`): the `Option` type for absent headers and
  parameters.

Two behaviours of the code are easy to miss, and the model follows the code
in both:

- `raise_for_status` raises only for statuses 400..599. A final 1xx or 3xx
  reply with a usable payload therefore counts as a success.
- When `data[0]["rate"]` raises `KeyError` or `TypeError`, the exception is
  not in the `except` tuple. It leaves the retry loop at once, with no further
  attempts and no sleep. The endpoint's `except Exception` records it as that
  day's error.

The key index skips row 1 even when the sheet is empty. A sheet without a
header row therefore loses idempotence: the first appended row becomes row 1
and is appended again on the next run (`HeaderlessSheetGrows`). The deployed
sheet has a header row, written once by the setup script.

## Model

| member | source | states |
|---|---|---|
| DateRange.Span | app.py:19-23 | the walk yields `last - first + 1` days (none when inverted), exactly the days in `[first, last]`, starting at `first`, ending at `last`, in one-day steps |
| DateRange.SpanAscending | app.py:19-23 | the days yielded are strictly ascending |
| DateRange.Days | app.py:19-23 | the cursor loop yields exactly the specified walk |
| Auth.TrimStart | app.py:31 | `lstrip`: a suffix of the input that does not start with whitespace, and everything removed is whitespace |
| Auth.TrimEnd | app.py:31 | `rstrip`: a prefix of the input that does not end with whitespace, and everything removed is whitespace |
| Auth.Strip | app.py:31 | `strip`: a slice of the input with no whitespace at either end, and only whitespace outside the slice |
| Auth.StripPadded | app.py:31 | stripping whitespace padding around a trimmed text gives that text back |
| Auth.Find | app.py:31 | the leftmost occurrence of a pattern, or none when it does not occur |
| Auth.ReplaceFirst | app.py:31 | `replace(p, q, 1)`: with no occurrence of `p` the text is unchanged; otherwise the leftmost occurrence, and only it, is replaced by `q` |
| Auth.ReplacePrefix | app.py:30-31 | on a header starting with "Bearer ", `replace("Bearer ", "", 1)` removes exactly that prefix |
| Auth.RequireAuth | app.py:25-33 | open access when the secret is empty; with a "Bearer " header, accepted iff the stripped rest equals the secret; otherwise accepted iff the `token` parameter is present and equals the secret |
| Auth.NoCredentialsRefused | app.py:25-33 | with a secret configured, a request without header and token is refused |
| Auth.PaddedBearerAccepted | app.py:30-32 | a secret with no whitespace at either end, sent after "Bearer " with any whitespace around it, is accepted |
| Auth.BearerHeaderShadowsQuery | app.py:30-33 | with a secret configured, a "Bearer " header with a wrong token is refused even when the `token` parameter is right |
| Auth.PaddedSecretNeedsQuery | app.py:30-32 | a secret with whitespace at an end can never be presented through the header |
| RateFetcher.Classify | app.py:41-56 | a rate is returned iff the reply is a non-4xx/5xx answer whose first entry's rate parses; 502/503/504, any 4xx/5xx, a timeout, a connection failure and an empty payload are all retried; a missing rate field escapes without retry |
| RateFetcher.Fetch | app.py:39-58 | with at least one attempt allowed, a first attempt that is not retried ends the fetch after one request and no wait, with its rate or its escaping error; a retried first attempt is followed by a wait of `backoff` |
| RateFetcher.Run | app.py:39-58 | defined as the attempt loop from attempt `k` on, given the last error: past the budget it raises the last error (`raise None` when there is none); a settled attempt ends it; a retried one records the wait `backoff * k` and continues |
| RateFetcher.RunRetryStep | app.py:53-56 | a retried attempt appends the wait `backoff * attempt` and hands on to the next attempt with its error as the last one |
| RateFetcher.FetchRate | app.py:35-58 | the attempt loop returns exactly the result, the request count and the waits of the specified fetch |
| RateFetcher.FetchBounded | app.py:39-56 | at most `retries` requests (at least one when `retries >= 1`), every attempt before the last was retried, a wait follows each retried attempt, wait `i` is `backoff * (i + 1)`, a last attempt that is not retried gives the fetch its result (its rate, or its escaping error), and a last attempt that is retried is the last one allowed, whose error the fetch fails with |
| RateFetcher.FetchFirstSuccess | app.py:39-51 | a rate is returned iff some attempt within the budget yields it after only retried attempts, and it is that attempt's rate |
| RateFetcher.FetchExhausted | app.py:39-58 | with at least one attempt allowed, when every allowed attempt is retried, the fetch fails with the last attempt's error after `retries` requests and `retries` waits |
| RateFetcher.FetchWithoutAttempts | app.py:38-58 | with `retries < 1` no request is made and `raise None` itself fails |
| RateFetcher.LinearWaitTotal | app.py:55-56 | `n` linear waits add up to `backoff * n * (n + 1) / 2` |
| RateFetcher.FetchWaitTotal | app.py:39-56 | the waits of any fetch add up to `backoff * n * (n + 1) / 2`, `n` being the number of waits |
| RecordStore.Overlay | app.py:86 | an update writes the row's cells from column A on and keeps any cells past them |
| RecordStore.Worksheet.Update | app.py:86 | only the addressed row changes, to the overlay of the new cells; one update request is logged |
| RecordStore.Worksheet.Append | app.py:91 | the rows are added after the last row in order; one append request is logged |
| RecordStore.KeyIndex | app.py:70-76 | every indexed row number is a data row of the sheet: between 2 and the sheet's length, so never row 1, the header |
| RecordStore.LoadExistingKeys | app.py:70-76 | the scan yields exactly the key index of the sheet |
| RecordStore.IndexUpTo | app.py:73-75 | defined as the scan over the first `n` rows: row 1 is skipped, and each later row with non-empty columns A and B maps its key to its 1-based number, a later row overwriting an earlier one |
| RecordStore.IndexUpToSound | app.py:73-75 | an indexed key maps to a data row (number 2 or more) carrying that key, and no later row carries it |
| RecordStore.IndexUpToComplete | app.py:73-75 | every keyed data row's key is indexed, at that row or a later one |
| RecordStore.KeyIndexCharacterized | app.py:70-76 | a key is indexed iff some data row with non-empty columns A and B carries it, and it maps to the last such row |
| RecordStore.KeyIndexInjective | app.py:73-75 | two keys never map to the same row |
| RecordStore.IndexUpToBounds | app.py:73-75 | every row number indexed over the first `n` rows is between 2 and `n` |
| Upsert.Upserted | app.py:78-91 | an upsert never removes a row and adds at most one row per input row |
| Upsert.UpsertWrites | app.py:78-91 | an upsert sends at most one request per input row plus one, and every request but the last is an update |
| Upsert.OneWritePerRow | app.py:82-88 | there are no more update requests than input rows, and no more appended rows than input rows |
| Upsert.NewRows | app.py:80-88 | defined as the `to_append` list: the input rows whose key is not in the index, in input order |
| Upsert.Updated | app.py:82-86 | defined as the sheet after the `ws.update` calls in input order, each overlaying its row on the indexed row from column A on; the row count never changes |
| Upsert.UpdateWrites | app.py:82-86 | defined as the update requests: one `A{r}:E{r}` update per input row whose key is indexed, in input order |
| Upsert.UpsertRows | app.py:78-91 | the sheet becomes the specified upsert result and exactly the specified requests are sent: one update per indexed row, then one append when the batch is non-empty |
| Upsert.UpdateKnownRows | app.py:80-88 | the loop leaves the sheet updated in input order, sends one update per row whose key is indexed, and returns the other rows in order |
| Upsert.NewRowsNotIndexed | app.py:82-88 | no appended row has a key already in the sheet |
| Upsert.NewRowsCount | app.py:82-88 | an appended row appears as often as in the input if its key is new, and never otherwise |
| Upsert.NewRowsConcat | app.py:80-88 | the append batch keeps input order |
| Upsert.NewRowsEmpty | app.py:88-91 | when every key is indexed the batch is empty, so no append is sent |
| Upsert.UpdatedUntargeted | app.py:84-86 | a sheet row that no input key points at is unchanged |
| Upsert.UpdatedTargeted | app.py:84-86 | the last input row with an indexed key ends up in columns A..E of that key's row |
| Upsert.UpdateWritesAreUpdates | app.py:84-86 | the per-row requests are all updates |
| Upsert.UpsertIndexesAll | app.py:79-91 | on a sheet with a header row, for input rows with non-empty date and currency, after the upsert every input key is in the sheet's index |
| Upsert.UpsertKeepsKey | app.py:79-91 | for input rows with non-empty date and currency, a key the sheet already indexed is still indexed after an upsert |
| Upsert.UpsertIndexesNewRow | app.py:79-91 | on a sheet with a header row, an input row with non-empty date and currency whose key the sheet did not index is appended, so its key is indexed afterwards |
| Upsert.UpsertIdempotent | app.py:79-91 | on a sheet with a header row, for first-run rows with non-empty date and currency, a second upsert with the same keys appends nothing, keeps the row count and sends only updates |
| Upsert.HeaderlessSheetGrows | app.py:73-91 | on an empty sheet, upserting any row appends it as row 1, and upserting it again appends it a second time |
| Sync.DayResult | app.py:123 | a rate the endpoint records for a day is one the service returned for that day at some attempt within the 4 allowed |
| Sync.RateRow | app.py:124 | a row is date, "USD", rate, "NBU", sync time |
| Sync.RowsFor | app.py:121-126 | every collected row is a five-column "USD"/"NBU" row with the one sync time |
| Sync.ErrorsFor | app.py:121-126 | no more errors are recorded than days walked |
| Sync.SucceededDays | app.py:121-124 | the days listed are exactly the walked days whose fetch returned a rate |
| Sync.FailedDays | app.py:121-126 | the days listed are exactly the walked days whose fetch failed |
| Sync.CollectRates | app.py:118-126 | the loop collects exactly the specified rows and errors and makes at most 4 requests per day |
| Sync.Summarize | app.py:131-139 | status 200 iff there are no errors, else 207; `ok` iff the error count is 0; counts of rows and errors; the errors listed are the first min(20, n) |
| Sync.RangeProblem | app.py:108-113 | a range is accepted iff it is not inverted and spans at most 370 days after its first; an inverted range gets the ordering message, checked first, and an over-long one the "Max range is 370 days" message |
| Sync.UpdateRates | app.py:97-139 | 401 without a write or request when auth fails; 400 without a write or request for an inverted or over-long range; otherwise the summary of the collected rows and errors, the sheet upserted once and only when rows exist, at most 4 requests per day |
| Sync.RowsForDays | app.py:121-124 | row `i` is the rate row of the `i`-th successful day, with that day's fetched rate |
| Sync.ErrorsForDays | app.py:121-126 | error `i` names the `i`-th failed day and carries its fetch error |
| Sync.DaysPartitioned | app.py:121-126 | successful and failed days together are exactly the walked days, each once |
| Sync.SucceededAscending | app.py:121-126 | from an ascending walk, the successful and the failed days are each ascending |
| Sync.AppendAscending | app.py:121-124 | adding a day later than all before keeps the list ascending |
| Sync.SyncAccounting | app.py:121-135 | for an accepted range, rows written plus errors counted equal the number of days, and the status is 200 iff every day returned a rate |
| Sync.SyncRowsAscending | app.py:121-124 | the rows are in ascending date order, each for a day inside the range |
| Sync.SyncIdempotent | app.py:121-129 | with non-empty date labels (as `isoformat` always gives), re-running the sync for the same range and replies on a sheet with a header row does not grow the sheet, whatever the new sync time |
| Sync.SyncRowsKeyed | app.py:121-124 | with non-empty date labels, two syncs of one range produce rows with complete keys and the same key row for row, whatever the sync times |
| Sync.OneBadDayScenario | app.py:118-139 | three days, the middle one always timing out: two rows, one error for that day, status 207, `ok` false |

## Left out

- Flask routing, `jsonify`, the `/health` endpoint and the request object are web plumbing. The request is its optional header and parameter values, and the response is a status with a body datatype.
- `parse_date` is library date parsing. Dates arrive as day numbers, and a malformed date (a 500 from Flask) is not modelled. `date.isoformat()` is the parameter `isoDate`, and `dt.date.today()` is the parameter `today`.
- The `updated_at` wall-clock timestamp is a parameter.
- `requests.get`, its timeout and the JSON decoding are network I/O. They are replaced by the `upstream` oracle of per-attempt replies.
- `time.sleep` is real time. Each sleep is a recorded wait, and seconds are `real` rather than floating point.
- `float(...)` and `str(rate)` are floating-point parsing and formatting. A parsable rate is the text that `str` would give.
- `str(e)` is exception formatting. An error entry carries the error value instead of its message.
- `open_rates_worksheet`, gspread, the credentials and the spreadsheet's transport are external. The worksheet is a class holding its rows, and store failures (which the source does not catch) are not modelled.
- `append_rows(..., value_input_option="USER_ENTERED")` lets the spreadsheet reinterpret the cells it is given. The model stores cells verbatim, so keys read back exactly as written.
- The spreadsheet's own table detection for appends is not modelled. Rows are appended after the last row of the value grid.
- test_sheets.py is a one-off script that writes the header row. It is pure I/O.
- Concurrent invocations racing on the read-then-write index are a concurrency concern and are not modelled.
- Python's date range limits (years 1..9999, `OverflowError`) are not modelled, since days are unbounded integers.
