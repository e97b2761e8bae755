# Anime analytics ETL: a verified model of the two pipelines

This project models, in Dafny, the decision-making logic of two ETL scripts of
the anime analytics repository.

**Title ingestion pipeline** (`scripts/etl_pipeline_project1.py`). It reads a
file of MyAnimeList ids. For each id it fetches the full record from the Jikan
API and stores the raw payload. It then parses the payload into a flat record,
validates that record and keeps it. Every id is counted as successful, failed
or skipped.

**Licensing ROI engine** (`scripts/etl_pipeline_project4.py`). It does these
steps:

- it cleans the anime catalog and bins titles into popularity tiers;
- it derives each licensing deal's duration, cost per day and exclusivity flag;
- it parses `YYYY-Qn` quarter labels of the regional data;
- it left-joins the deals with the catalog;
- it computes, per deal, the attributed revenue, ROI percent and payback period;
- it uploads the five processed tables.

How the Python is represented:

- JSON values are a `Json` datatype, and Python's `None` is `JNull`.
- A pandas missing value (NaN or NaT) is `Option.None`.
- Money and rates are exact `real`.
- Dates are day numbers, and each table is a `seq` of row datatypes.
- Python truthiness is spelled out: `Json.Truthy`, and `Roi.ScoreTruthy`, where NaN is truthy.

How the state is modelled:

- Objects the scripts update in place are classes:
  - `JikanClient.Client` holds `requests_made` and `last_request_time`;
  - `EtlPipeline.Pipeline` holds the counters and `records`;
  - `Licensing.LicensingDataTransformer` holds `enriched_licensing` and `licensing_roi`.
- Their loops are `while` loops proved against specification functions:
  - `RetryRun` for the retry decorator;
  - `TallyOf` for `fetch_and_transform`;
  - `RoiRows` for `calculate_licensing_roi`;
  - `CountUploaded` for the S3 upload loop.

Inputs stand in for the environment:

- The clock and each HTTP exchange are given per attempt as an `Exchange`, holding the clock before and after the request and the response.
- The outcome of storing each raw payload is a boolean. `EtlPipeline.Pipeline.ProcessItem` states its counters, records and client without mentioning it, so a failed raw upload changes nothing in the run.
- The outcome of each processed-file upload is a function from S3 key to success.
- Sleeps are returned as lists of durations instead of being performed.

Files:

- `wrappers.dfy`, `json.dfy`, `text.dfy` hold `Option`, the JSON values, and the Python string built-ins the code relies on: `str.strip`, `int()` on a string, `str(n)`, `split`, `join`.
- `retry.dfy`, `jikan_client.dfy`, `anime_transform.dfy`, `anime_validation.dfy`, `etl_pipeline.dfy` hold the ingestion pipeline.
- `catalog.dfy`, `deals.dfy`, `regional.dfy`, `enrich.dfy`, `roi.dfy`, `licensing.dfy` hold the licensing ROI engine.

Where this model departs from a plain reading of the code:

- **A missing score is truthy.** `if deal['score']` is true for NaN. A title with no catalog score therefore gets the 10% or 15% attribution rate. The 5% rate applies only to a score of exactly 0 (`Roi.AttributionRate`, `Roi.MissingScoreGetsScoredRate`).
- **HTTP and request errors are never retried.** `fetch_anime` catches them itself and returns `None`. The retry decorator only ever sees an exception that `fetch_anime` does not catch.
- **An undecodable body is still counted.** `requests_made` and `last_request_time` are updated before `response.json()` runs. A 2xx response whose body is not JSON therefore counts as a request, and `fetch_anime` then returns `None` (the `UndecodableBody` response).
- **Validation can end the whole run.** `validate_anime_record` compares `score` and `episodes` with numbers. A payload that passes the id and title checks raises `TypeError` in two cases, and this ends `fetch_and_transform` (the `Crashed` route). The first is a score that is present and not a number. The second is a score that is absent or in [0, 10] together with an episode count that is present and not a number (`AnimeValidation.ValidateAnimeRecord`).
- **An empty ROI table raises.** When no deal's region has regional rows, `roi_data` is empty. The summary's `roi_df['roi_percent']` then raises `KeyError` before `self.licensing_roi` is set (`Licensing.LicensingDataTransformer.CalculateLicensingRoi`).

## Model

| member | source | states |
|---|---|---|
| Retry.RetryRun | scripts/etl_pipeline_project1.py:104-120 | the decorator's run: at most `max_retries` calls, and one sleep after each call but the last |
| Retry.RetryOnFailure | scripts/etl_pipeline_project1.py:104-120 | the decorator's loop makes the calls, returns the result and sleeps the durations given by its run, each sleep being `delay` |
| Retry.RetryReturnsFirstValue | scripts/etl_pipeline_project1.py:109-111 | at most `max_retries` calls; a returned value is the value of the first call that did not raise, unchanged (None included), and every earlier call raised, one sleep each |
| Retry.RetryGivesUp | scripts/etl_pipeline_project1.py:112-118 | the wrapper returns None exactly when all `max_retries` calls raise, after `max_retries` calls and `max_retries - 1` sleeps |
| JikanClient.RateLimitWait | scripts/etl_pipeline_project1.py:148-151 | the wait is positive exactly when a truthy last request time is set and less than the delay has elapsed, and it is then exactly the rest of the interval; otherwise there is no wait |
| JikanClient.WaitEnforcesInterval | scripts/etl_pipeline_project1.py:148-151 | after the wait, at least `rate_limit_delay` seconds separate the request from the last successful one |
| JikanClient.Classify | scripts/etl_pipeline_project1.py:157-174 | a 2xx response returns its payload; an undecodable body, an HTTP error of any status and a request error return None; only an uncaught exception raises |
| JikanClient.CaughtErrorsAreNotRetried | scripts/etl_pipeline_project1.py:165-174 | a first attempt ending in an HTTP error (404 or any other) or a request error gives one call, no sleep, a None result and no counted request |
| JikanClient.CountedFetchReturnsPayload | scripts/etl_pipeline_project1.py:156-163 | a decorated fetch whose last attempt got a 2xx status returns that attempt's payload, or None when the body does not decode; every earlier attempt raised, within `max_retries` calls |
| JikanClient.Client.constructor | scripts/etl_pipeline_project1.py:129-133 | a new client has made no request and has no last request time |
| JikanClient.Client.FetchAttempt | scripts/etl_pipeline_project1.py:147-174 | one call waits out the rate limit; on a 2xx status, whether or not the body decodes, it adds exactly 1 to `requests_made` and sets `last_request_time` to the finish time; on an HTTP error, a request error or an uncaught exception it leaves both unchanged |
| JikanClient.Client.FetchAnime | scripts/etl_pipeline_project1.py:136-174 | the decorated fetch returns the decorator's result, waits before each attempt as the rate limit says, and changes the counters only when its last attempt got a 2xx status |
| AnimeTransform.EntryNames | scripts/etl_pipeline_project1.py:297-299 | the `name` of every entry, in order, or failure exactly when some entry is not a dict with a string `name` |
| AnimeTransform.JoinedNames | scripts/etl_pipeline_project1.py:297-299 | a missing list gives ""; a list gives its names joined with the pipe character in source order |
| AnimeTransform.ParseAnimeJson | scripts/etl_pipeline_project1.py:265-303 | None for a falsy input, an input without the `data` key, or a `data` without the key `mal_id` or `title`; otherwise `anime_id`, `title`, `episodes`, `score` and the joined lists are taken from `data` |
| AnimeTransform.WellFormedPayloadParses | scripts/etl_pipeline_project1.py:265-303 | any dict payload, whatever its other keys, whose `data` has both keys and well-formed optional parts parses, with the id and title copied whatever they hold |
| AnimeTransform.JoinedNamesRoundTrip | scripts/etl_pipeline_project1.py:297-299 | for a non-empty list of names, none holding the pipe character, splitting the joined field on it gives back the names, in order |
| AnimeValidation.ValidateAnimeRecord | scripts/etl_pipeline_project1.py:317-337 | accepts exactly when id and title are truthy, the id is an int, the score is absent or in [0,10] and the episode count is absent or non-negative; rejects a falsy id or title or a non-int id; raises TypeError exactly for a non-numeric score or episode count that is compared |
| AnimeValidation.AcceptedRecordIsInRange | scripts/etl_pipeline_project1.py:320-337 | an accepted record has a non-zero int id, a score that is absent or in [0,10] and an episode count that is absent or non-negative |
| AnimeValidation.DuplicateCount | scripts/etl_pipeline_project1.py:347 | `duplicated().sum()`: at most the rows, and fewer for a non-empty batch, since a first occurrence is never a duplicate |
| AnimeValidation.DuplicateCountIsRowsMinusDistinct | scripts/etl_pipeline_project1.py:347 | the duplicate count, being the rows whose id occurred earlier, equals the rows minus the distinct ids |
| AnimeValidation.NoDuplicatesIffDistinct | scripts/etl_pipeline_project1.py:347 | no duplicates are reported exactly when all ids differ |
| AnimeValidation.PositiveScoreCount | scripts/etl_pipeline_project1.py:348 | `(score > 0).sum()`: at most the number of rows |
| AnimeValidation.PositiveScoreCountIsRows | scripts/etl_pipeline_project1.py:348 | the count is the number of rows whose score is a number above 0 |
| AnimeValidation.PositiveScoreCountAppend | scripts/etl_pipeline_project1.py:348 | the count of scores above 0 is additive over concatenated batches |
| AnimeValidation.ValidateDataframe | scripts/etl_pipeline_project1.py:340-352 | the report's row count and its 24 columns (`extracted_at` included); duplicates plus distinct ids equal the rows; valid scores are exactly the rows whose score is a number above 0 |
| EtlPipeline.LoadAnimeIds | scripts/etl_pipeline_project1.py:379-390 | a file that cannot be opened gives []; otherwise at most one id per line |
| EtlPipeline.OneBadLineEmptiesList | scripts/etl_pipeline_project1.py:379-390 | a single non-blank line that is not an integer makes `load_anime_ids` return [] for the whole file |
| EtlPipeline.CleanFileYieldsEveryId | scripts/etl_pipeline_project1.py:381-383 | when every line is blank or an integer, blank lines are skipped and there is one id per non-blank line, in order, each being that line's integer |
| EtlPipeline.LoadIdFileRoundTrip | scripts/etl_pipeline_project1.py:381-386 | a file written one id per line loads back as exactly those ids |
| EtlPipeline.ComprehensionFails | scripts/etl_pipeline_project1.py:383 | the comprehension fails exactly when some line is neither blank nor an integer |
| EtlPipeline.RouteOf | scripts/etl_pipeline_project1.py:404-430 | one id's branch: failed exactly when the payload is falsy, and a kept record always passed validation |
| EtlPipeline.RouteCases | scripts/etl_pipeline_project1.py:404-430 | a payload is counted failed exactly when falsy, kept exactly when it parses and passes validation (keeping the parsed record), and ends the run exactly when validation raises |
| EtlPipeline.TallyOf | scripts/etl_pipeline_project1.py:392-436 | the loop's effect on the counters and records; it never handles more items than it is given |
| EtlPipeline.TallyCounts | scripts/etl_pipeline_project1.py:392-436 | successful + failed + skipped equals the items handled, which is all of them unless validation raised; successful equals the number of records, all of them valid |
| EtlPipeline.TallyAppend | scripts/etl_pipeline_project1.py:400-430 | runs compose: a further batch adds its counts and appends its records after the earlier ones, so records keep input order |
| EtlPipeline.CrashIsFinal | scripts/etl_pipeline_project1.py:423 | once validation has raised, the later ids change nothing |
| EtlPipeline.SuccessRatePercent | scripts/etl_pipeline_project1.py:496 | successful × 100 / total, in [0,100] when successful ≤ total; no value for 0 total, where Python divides by zero |
| EtlPipeline.Pipeline.constructor | scripts/etl_pipeline_project1.py:362-377 | every counter 0, no records, a fresh client |
| EtlPipeline.Pipeline.FetchAndTransform | scripts/etl_pipeline_project1.py:392-436 | `total_anime` is the id count; the counters and records grow by the tally of the routed payloads; the client counts one request per fetch that ended with a 2xx status; a completed run adds exactly one count per id |
| EtlPipeline.Pipeline.ProcessItem | scripts/etl_pipeline_project1.py:398-430 | one id: fetch, ignore the raw upload outcome, route the payload, changing exactly one counter or ending the run |
| EtlPipeline.Pipeline.ProcessPayload | scripts/etl_pipeline_project1.py:404-430 | the if-chain: a falsy payload is dropped as failed, an unparseable or invalid one is skipped, a valid one is appended and counted as successful |
| EtlPipeline.Pipeline.CreateCsv | scripts/etl_pipeline_project1.py:438-448 | nothing is produced exactly when there are no records; otherwise the batch report is given |
| Catalog.PopularityTier | scripts/etl_pipeline_project4.py:178-182 | (0,100] Blockbuster, (100,500] High, (500,1000] Medium, (1000,∞) Niche, and no tier for a rank ≤ 0 or a missing one, each an if-and-only-if |
| Catalog.TruncToInt | scripts/etl_pipeline_project4.py:185-186 | `astype(int)` truncates toward zero |
| Catalog.FillZeroInt | scripts/etl_pipeline_project4.py:185-186 | missing becomes 0, present is truncated |
| Catalog.CleanCatalogRow | scripts/etl_pipeline_project4.py:170-186 | id, title, score and popularity are kept (a missing score stays missing), the tier follows the popularity, and a missing year or episode count becomes 0 |
| Catalog.TransformAnimeCatalog | scripts/etl_pipeline_project4.py:165-193 | every row is cleaned, none dropped, in order |
| Catalog.CleanKeepsWholeYear | scripts/etl_pipeline_project4.py:185 | a whole year survives cleaning unchanged |
| Deals.DurationDays | scripts/etl_pipeline_project4.py:206 | missing exactly when either date is; otherwise start + duration = end, with no sign check |
| Deals.CostPerDay | scripts/etl_pipeline_project4.py:212-213 | missing exactly when an operand is missing or 0/0; cost/duration otherwise; 0 for a non-zero cost over 0 days, where infinity is replaced |
| Deals.IsExclusive | scripts/etl_pipeline_project4.py:216 | 0 or 1, and 1 exactly when the type is `Exclusive` |
| Deals.DeriveDeal | scripts/etl_pipeline_project4.py:199-216 | the source columns are kept and the three derived columns are added |
| Deals.TransformLicensingDeals | scripts/etl_pipeline_project4.py:195-223 | every deal is derived, none dropped, in order |
| Deals.CostPerDayTotals | scripts/etl_pipeline_project4.py:212 | cost per day times the duration gives the cost back |
| Deals.NegativeDurationKept | scripts/etl_pipeline_project4.py:206-213 | a deal ending before it starts keeps a negative duration, and then a negative cost per day |
| Regional.ParseQuarter | scripts/etl_pipeline_project4.py:255-263 | a date exactly for a label that splits on `-Q` into two integer parts, the year in 1..9999 and the quarter in 1..4, that date being day 1 of month 3q-2; NaT otherwise |
| Regional.FirstDayOfQuarter | scripts/etl_pipeline_project4.py:259-261 | a timestamp exactly for a year in 1..9999 and a quarter in 1..4, being the first day of month 3q-2 |
| Regional.QuarterLabelParses | scripts/etl_pipeline_project4.py:255-263 | the label `str(Y) + "-Q" + str(q)` with Y ≥ 1 parses to the timestamp of Y and q, or NaT when that raises |
| Regional.QuarterRoundTrip | scripts/etl_pipeline_project4.py:255-261 | `Y-Qq` with Y in 1..9999 and q in 1..4 gives the first day of month 3q-2 of year Y |
| Regional.QuarterOutOfRange | scripts/etl_pipeline_project4.py:259-263 | a quarter number outside 1..4 gives NaT |
| Regional.NoSeparatorIsNaT | scripts/etl_pipeline_project4.py:257-263 | a label with no `-` cannot split into two parts and gives NaT |
| Regional.TransformRegionalPerformance | scripts/etl_pipeline_project4.py:242-276 | every row's quarter is parsed, the other columns are kept, none dropped, in order |
| Enrich.Matches | scripts/etl_pipeline_project4.py:230-234 | at most the catalog's rows, each carrying the deal's id |
| Enrich.MatchesAreCatalogRows | scripts/etl_pipeline_project4.py:230-234 | a row is a match exactly when it is a catalog row carrying the deal's id |
| Enrich.MatchesAppend | scripts/etl_pipeline_project4.py:230-234 | matching works row by row, so the matches of two catalog parts are concatenated in catalog order |
| Enrich.NoMatchesIffAbsent | scripts/etl_pipeline_project4.py:230-234 | a deal has no match exactly when no catalog row carries its id |
| Enrich.DealRows | scripts/etl_pipeline_project4.py:230-234 | every deal gives at least one merged row |
| Enrich.DealRowsShape | scripts/etl_pipeline_project4.py:230-234 | each merged row of a deal carries the deal: one per matching catalog row with its columns, in catalog order, or a single row with missing title, year, score and tier |
| Enrich.LeftJoin | scripts/etl_pipeline_project4.py:230-234 | `merge(..., how='left')`: drops no deal, having at least as many rows as there are deals |
| Enrich.LeftJoinAppend | scripts/etl_pipeline_project4.py:230-234 | the merge works deal by deal: merging two batches is merging each and concatenating, so deal order is kept |
| Enrich.MatchesUnique | scripts/etl_pipeline_project4.py:230-234 | with unique catalog ids a deal matches at most one row |
| Enrich.OnlyMatch | scripts/etl_pipeline_project4.py:230-234 | with unique catalog ids, a catalog row carrying the deal's id is its only match |
| Enrich.LeftJoinRowOfDeal | scripts/etl_pipeline_project4.py:230-234 | with unique catalog ids row i of the merge is the single merged row of deal i |
| Enrich.LeftJoinUnique | scripts/etl_pipeline_project4.py:230-234 | with unique catalog ids the merge has exactly one row per deal, in deal order; a deal whose id is in the catalog gets that catalog row's title, year, score and tier, and an unmatched deal gets them missing |
| Licensing.LicensingDataTransformer.constructor | scripts/etl_pipeline_project4.py:134-141 | no merged table and no ROI table yet |
| Licensing.LicensingDataTransformer.EnrichLicensingWithAnime | scripts/etl_pipeline_project4.py:225-240 | returns the left merge and stores it as `enriched_licensing`, leaving `licensing_roi` alone |
| Roi.RegionRevenue | scripts/etl_pipeline_project4.py:291-296 | nothing exactly when no regional row has the deal's region (a missing region matches nothing); otherwise the revenue of the first matching row |
| Roi.FirstMatchUnique | scripts/etl_pipeline_project4.py:296 | the first matching regional row is unique |
| Roi.AttributionRate | scripts/etl_pipeline_project4.py:303-308 | 0.15 exactly for a truthy score on an exclusive deal, 0.10 for a truthy score otherwise, 0.05 exactly when the score is falsy |
| Roi.MissingScoreGetsScoredRate | scripts/etl_pipeline_project4.py:303-308 | a missing (NaN) score gets at least 0.10, and a score of 0 gets 0.05 |
| Roi.ExclusiveRateDominates | scripts/etl_pipeline_project4.py:303-308 | for the same score an exclusive deal's rate is never lower |
| Roi.AttributedRevenue | scripts/etl_pipeline_project4.py:310 | revenue × rate, missing exactly when the revenue is |
| Roi.RoiPercent | scripts/etl_pipeline_project4.py:313-316 | for a positive cost roi × cost = (attributed − cost) × 100 (missing with the revenue); 0 for a cost ≤ 0 or missing |
| Roi.RoiSignMatchesCoverage | scripts/etl_pipeline_project4.py:313-314 | for a positive cost, ROI ≥ 0 exactly when the attributed revenue covers the cost |
| Roi.PaybackMonths | scripts/etl_pipeline_project4.py:319-336 | for a positive cost a value exactly when attributed/3 > 0, positive and with months × (attributed/3) = cost, and None instead of ∞; 0 for a cost ≤ 0 or missing |
| Roi.RoiRowOf | scripts/etl_pipeline_project4.py:285-339 | no row exactly when the region has no regional data; otherwise the deal's columns with the attributed revenue, ROI and payback computed from the first regional revenue |
| Roi.RoiRows | scripts/etl_pipeline_project4.py:285-339 | at most one ROI row per deal |
| Roi.RoiRowsAppend | scripts/etl_pipeline_project4.py:285-339 | the table is built deal by deal, in deal order |
| Roi.AllRegionsFound | scripts/etl_pipeline_project4.py:285-339 | when every deal's region has regional data, there is exactly one ROI row per deal, in deal order |
| Roi.NoRegionsFound | scripts/etl_pipeline_project4.py:291-294 | when no deal's region has regional data the table is empty |
| Roi.RoiRowsEmpty | scripts/etl_pipeline_project4.py:291-294 | the table is empty exactly when no deal's region has regional data |
| Licensing.LicensingDataTransformer.CalculateLicensingRoi | scripts/etl_pipeline_project4.py:278-352 | the loop builds the ROI table; it raises KeyError exactly when the table is empty; only a table that is not empty is stored as `licensing_roi` |
| Licensing.ProcessedKeys | scripts/etl_pipeline_project4.py:442-453 | the five keys `licensing-strategy/processed/<name>`, in upload order |
| Licensing.CountUploaded | scripts/etl_pipeline_project4.py:455-459 | the number of successful uploads, at most the number of keys |
| Licensing.CountUploadedAll | scripts/etl_pipeline_project4.py:455-459 | every upload succeeds exactly when the success count reaches the number of files |
| Licensing.UploadProcessedFiles | scripts/etl_pipeline_project4.py:438-459 | counts the successful uploads of the five keys, and reports true exactly when every one of them uploads |

## Left out

- S3 clients, `boto3`, the HTTP request itself, logging, `.env` loading, directory creation, CSV reading and writing, and both `main()` functions. These are foreign calls or plumbing. Their outcomes are inputs.
- `load_data_from_local`, `run_transformation` and `generate_report` of the licensing script, and `upload_to_s3` of the ingestion script. They only sequence the modelled steps, load files or log.
- `time.time` and `time.sleep` are parameters. Clock readings come in each `Exchange`, and sleep durations are returned.
- The `extracted_at` timestamp. It is nondeterministic, so `AnimeTransform.AnimeRecord` has no such field. It is still counted among the 24 columns of `AnimeValidation.RecordColumns`.
- Floating point: rounding, NaN other than as a missing value, and infinities are not modelled. Money is exact `real`. In the modelled columns the only infinities are those of cost per day and payback, which the code replaces by 0 and None; the model makes the same replacements.
- Means, medians, minima and maxima in reports and logs; `revenue_per_subscriber` (`scripts/etl_pipeline_project4.py:268`), which holds ±inf for a region with no subscribers and non-zero revenue and is written out unchanged; the `null_counts`, `avg_score` and `avg_episodes` entries of the validation report. This is statistics output with no decision attached.
- `pd.to_numeric` and `pd.to_datetime` coercion of arbitrary strings. Coerced values are `Option` inputs, and dates are day numbers.
- `AnimeValidation.ValidateDataframe`: requires a non-empty batch of accepted records, because `create_csv` only calls it so.
- `Catalog.CleanCatalogRow`: `anime_id.astype(int)` truncates a fractional float id and raises only on a NaN or infinite one. Neither is modelled: ids are ints already.
- `Regional.ParseQuarter`: models the year bounds of `datetime` (1..9999), not pandas' narrower nanosecond timestamp range (years 1677 to 2262).
- Python's `int()` also accepts Unicode decimal digits (Arabic-Indic, Devanagari and the like). The model accepts an optional sign and ASCII digits with single `_` separators between them, surrounded by any whitespace `str.isspace()` admits.
- `JikanClient.Response.UndecodableBody` models `requests` 2.27 and later, where the decode error is a `RequestException` that `fetch_anime` catches. With older `requests` it is a `ValueError` that escapes after the counters moved and is retried; that case is not modelled.
- `scripts/collect_licensing_data.py` (fabricated sample data) and `scripts/test_transformation.py` (a looser copy of the ingestion parser) are not part of this model.
