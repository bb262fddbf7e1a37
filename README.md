# NYC taxi trips ingestion: a Dafny model

This project models the Bruin Python asset `ingestion.trips`, the function
`materialize()` in
`05-data-platforms/my-pipeline/pipeline/assets/ingestion/trips.py`. The
function runs over the months from the run's start date to its end date. For
each month and each configured taxi type (`yellow`, `green` by default) it:

- builds the TLC parquet address and downloads the file;
- tags every row with `taxi_type`;
- renames the native columns to the unified names of its variant;
- backfills the column that only the other variant has: `trip_type` for
  yellow; `airport_fee` for green, taken from a legacy `ehail_fee` column when
  there is one.

It then concatenates all batches in arrival order and stamps every row with
`extracted_at`. When no batch was built it returns an empty frame.

Modules:

- `Calendar` (calendar.dfy): naive datetimes, the `relativedelta(months=1)`
  step with day clamping, and `Visits`, the list of cursor values at which the
  `while cur < end` loop body runs.
- `TripUrls` (trip_urls.dfy): the download address
  `{base}{taxi}_tripdata_{year}-{month:02}.parquet`. A parser for it serves as
  the address's inverse, which shows that distinct (tag, year, month) triples
  give distinct addresses. A run whose tag list has no repeats therefore never
  fetches one file twice. A tag listed twice fetches the same file twice in
  each month and appends the same batch twice, because the tag list is not
  checked for repeats.
- `Frames` (frames.dfy): frames as values (`Table`) and as an object updated
  in place (`class Frame`). It covers column assignment `df[c] = v`,
  `df.rename(columns=...)` and `pd.concat(..., ignore_index=True)`. A
  concatenation's columns are the first-appearance union of the batches'
  columns, and a batch lacking a column contributes nulls to it.
- `Normalization` (normalization.dfy): the rename tables and the per-batch
  steps. These are `Normalized` as a function and `NormalizeBatch`, the same
  steps as a method on a `Frame`.
- `Ingestion` (ingestion.dfy): the two loops as methods (`Materialize`,
  `FetchMonth`, `FetchBatch`), proved equal to the specification function
  `Materialized`. Lemmas state what the result holds.

The download, the clock and the run's variables are parameters:

- `fetch` maps an address to the frame read from it;
- `now` is the `utcnow()` reading;
- `start`, `end` and `taxis` are the parsed run variables.

Where the asset's documentation and its code disagree, the model follows the
code:

- The column descriptions in the asset header (trips.py lines 88-94) call
  `trip_type` null for yellow and `airport_fee` null for green. The code keeps
  a native `trip_type` in yellow files and gives nulls only when the file has
  none. For green files it keeps a native `airport_fee`, otherwise renames
  `ehail_fee` to it, and only without both fills nulls.
- The header lists one column set for the table. The code puts no such set
  on a batch: each batch has whatever columns its file had after renaming,
  and the concatenation unions them.
- With no batch, the code returns `pd.DataFrame()` with no columns at all.

## Model

| member | source | states |
|---|---|---|
| Calendar.NextMonth | 05-data-platforms/my-pipeline/pipeline/assets/ingestion/trips.py:203 | adding one month gives a valid datetime in the next month (December rolls into January of the next year). The time of day is kept, and the day is kept unless the new month is shorter, in which case it is that month's last day |
| Calendar.VisitsAreConsecutiveMonths | 05-data-platforms/my-pipeline/pipeline/assets/ingestion/trips.py:131-134 | the i-th cursor the loop body sees lies exactly i months after the start month |
| Calendar.VisitsStop | 05-data-platforms/my-pipeline/pipeline/assets/ingestion/trips.py:131-132 | the loop body runs at least once exactly when start < end, and the loop stops at the first stepped cursor that is not before end |
| Calendar.VisitsCount | 05-data-platforms/my-pipeline/pipeline/assets/ingestion/trips.py:127-132 | the number of months visited is between (end month − start month) and one more. It is exactly (end month − start month) when end is the first instant of its month, and zero when start ≥ end |
| TripUrls.DecimalRoundTrip | 05-data-platforms/my-pipeline/pipeline/assets/ingestion/trips.py:138 | the year's `str()` digits read back as the year |
| TripUrls.FourDigitYear | 05-data-platforms/my-pipeline/pipeline/assets/ingestion/trips.py:138 | years 1000 to 9999 are written with four digits |
| TripUrls.TwoDigits | 05-data-platforms/my-pipeline/pipeline/assets/ingestion/trips.py:138 | `{month:02}` is two digits that read back as the month, with a leading zero exactly for months below 10 |
| TripUrls.ParseTripUrlRoundTrip | 05-data-platforms/my-pipeline/pipeline/assets/ingestion/trips.py:136-139 | parsing the address built for any tag, year and month gives back that tag, year and month |
| TripUrls.TripUrlInjective | 05-data-platforms/my-pipeline/pipeline/assets/ingestion/trips.py:136-139 | two addresses are equal exactly when tag, year and month are all equal |
| TripUrls.YellowJanuary2025 | 05-data-platforms/my-pipeline/pipeline/assets/ingestion/trips.py:136-139 | the yellow January 2025 address is the literal TLC CloudFront URL |
| Frames.Frame.constructor | 05-data-platforms/my-pipeline/pipeline/assets/ingestion/trips.py:142 | a frame object holding the frame that was read |
| Frames.AssignedColumns | 05-data-platforms/my-pipeline/pipeline/assets/ingestion/trips.py:144 | after `df[name] = v`, every row holds v in `name`. The column keeps its place if it existed and is appended otherwise. Every other column keeps its position and cells |
| Frames.Frame.Assign | 05-data-platforms/my-pipeline/pipeline/assets/ingestion/trips.py:144 | the in-place assignment leaves the frame well formed and equal to the assigned value of its old contents |
| Frames.RenamedKeepsCells | 05-data-platforms/my-pipeline/pipeline/assets/ingestion/trips.py:147-169 | renaming keeps row count, column order and every cell. Each column is found under its new name, at its old position, with its old cells |
| Frames.Frame.Rename | 05-data-platforms/my-pipeline/pipeline/assets/ingestion/trips.py:147-169 | the in-place rename leaves the frame well formed and equal to the renamed value of its old contents |
| Frames.RenamedUntouched | 05-data-platforms/my-pipeline/pipeline/assets/ingestion/trips.py:170 | a name that is neither a key nor a target of the table is a column after the rename exactly when it was one before, at the same position and with the same cells |
| Frames.RenamedAway | 05-data-platforms/my-pipeline/pipeline/assets/ingestion/trips.py:198 | a renamed name that no column is renamed to is gone after the rename |
| Frames.SingleRenameCollisionFree | 05-data-platforms/my-pipeline/pipeline/assets/ingestion/trips.py:196-198 | renaming one column to a name not yet present never creates a duplicate label |
| Frames.ConcatenatedAt | 05-data-platforms/my-pipeline/pipeline/assets/ingestion/trips.py:206 | in `pd.concat`, row r of frame k is row (rows of frames before k) + r. It holds the frame's own cell in the columns the frame has and null in the others |
| Frames.UnionColumnsFrom | 05-data-platforms/my-pipeline/pipeline/assets/ingestion/trips.py:206 | every column label of the concatenation is a label of some input frame (the converse is `UnionColumns`' own contract) |
| Frames.UniformColumns | 05-data-platforms/my-pipeline/pipeline/assets/ingestion/trips.py:206 | frames that all have the same column list concatenate to that column list |
| Frames.Locate | 05-data-platforms/my-pipeline/pipeline/assets/ingestion/trips.py:206 | every row of the concatenation comes from a row of one frame, at that frame's offset |
| Frames.StampedShape | 05-data-platforms/my-pipeline/pipeline/assets/ingestion/trips.py:205-209 | the result is the empty frame exactly when there are no frames. Otherwise it has all rows of all frames and the stamp on every row |
| Frames.StampedAt | 05-data-platforms/my-pipeline/pipeline/assets/ingestion/trips.py:205-207 | stamping leaves every other column of the concatenation in place: a frame's own cell, or null where the frame lacks the column |
| Frames.StampedKeeps | 05-data-platforms/my-pipeline/pipeline/assets/ingestion/trips.py:205-207 | each cell of each frame appears in the stamped concatenation at the frame's row offset |
| Normalization.TaggedCollisionFree | 05-data-platforms/my-pipeline/pipeline/assets/ingestion/trips.py:144-147 | adding `taxi_type` never makes the variant's rename create a duplicate label |
| Normalization.YellowBackfillSpec | 05-data-platforms/my-pipeline/pipeline/assets/ingestion/trips.py:170-171 | the column list is unchanged when `trip_type` existed and gains `trip_type` at the end otherwise. `trip_type` keeps its cells if it existed and is null on every row otherwise. Every other column is untouched |
| Normalization.EhailRenamedColumns | 05-data-platforms/my-pipeline/pipeline/assets/ingestion/trips.py:198 | renaming `ehail_fee` to an absent `airport_fee` collides with nothing, and changes exactly that one label, at its position |
| Normalization.GreenBackfillSpec | 05-data-platforms/my-pipeline/pipeline/assets/ingestion/trips.py:196-200 | an existing `airport_fee` leaves the frame unchanged. Otherwise `ehail_fee` is renamed to `airport_fee`: the column list changes in that one label only, and the column keeps its cells. Without either column, an all-null `airport_fee` is appended. No column other than `ehail_fee` changes |
| Normalization.NormalizedTagsEveryRow | 05-data-platforms/my-pipeline/pipeline/assets/ingestion/trips.py:144 | whatever the tag, every row of the normalised batch carries it in `taxi_type` |
| Normalization.NormalizedUnknownTag | 05-data-platforms/my-pipeline/pipeline/assets/ingestion/trips.py:144-172 | a tag other than yellow and green only adds or overwrites `taxi_type`. Every other column keeps its name, position and cells |
| Normalization.NormalizedYellowColumn | 05-data-platforms/my-pipeline/pipeline/assets/ingestion/trips.py:146-169 | a native yellow column is found under its unified name with its cells unchanged |
| Normalization.NormalizedYellowTripType | 05-data-platforms/my-pipeline/pipeline/assets/ingestion/trips.py:170-171 | a normalised yellow batch has `trip_type`, holding the native cells or nulls |
| Normalization.NormalizedYellow | 05-data-platforms/my-pipeline/pipeline/assets/ingestion/trips.py:146-171 | both yellow facts together, for every native column |
| Normalization.NormalizedYellowColumns | 05-data-platforms/my-pipeline/pipeline/assets/ingestion/trips.py:144-171 | the yellow column list is exactly the tagged columns under their unified names, in order, followed by `trip_type` when the file had none |
| Normalization.NormalizedGreenColumns | 05-data-platforms/my-pipeline/pipeline/assets/ingestion/trips.py:144-200 | the green column list is exactly the tagged columns under their unified names, in order. Then `airport_fee` is kept if the file had it, else it replaces `ehail_fee` at that column's position, else it is appended |
| Normalization.NormalizedGreen | 05-data-platforms/my-pipeline/pipeline/assets/ingestion/trips.py:172-200 | every native green column except the fee columns is found under its unified name with its cells. `airport_fee` holds the native `airport_fee`, else the `ehail_fee` cells, else nulls. `ehail_fee` survives only when both existed, and then keeps its cells |
| Normalization.NormalizeBatch | 05-data-platforms/my-pipeline/pipeline/assets/ingestion/trips.py:144-200 | the in-place tag, rename and backfill leave the frame equal to the normalisation of its old contents |
| Ingestion.FetchBatch | 05-data-platforms/my-pipeline/pipeline/assets/ingestion/trips.py:136-200 | one inner iteration returns the normalised file at the month's address for that tag |
| Ingestion.FetchMonth | 05-data-platforms/my-pipeline/pipeline/assets/ingestion/trips.py:135-202 | the inner loop appends the month's batches to the list, one per tag in tag order |
| Ingestion.Materialize | 05-data-platforms/my-pipeline/pipeline/assets/ingestion/trips.py:130-210 | the two loops and the final concat-or-empty return exactly `Materialized`, the stamped concatenation of the batches of the visited months |
| Ingestion.AppendMonth | 05-data-platforms/my-pipeline/pipeline/assets/ingestion/trips.py:135-203 | one more outer iteration appends that month's batches to the batch list |
| Ingestion.BatchesCount | 05-data-platforms/my-pipeline/pipeline/assets/ingestion/trips.py:132-202 | the run builds one batch per visited month and tag |
| Ingestion.BatchAt | 05-data-platforms/my-pipeline/pipeline/assets/ingestion/trips.py:132-202 | batch i·(number of tags) + j is the j-th tag's file for the i-th visited month |
| Ingestion.DistinctAddresses | 05-data-platforms/my-pipeline/pipeline/assets/ingestion/trips.py:132-140 | with no tag listed twice, two different (visited month, tag) positions fetch different addresses |
| Ingestion.RepeatedTagDuplicates | 05-data-platforms/my-pipeline/pipeline/assets/ingestion/trips.py:125-142 | a tag listed twice yields the same batch at both of its positions in every month |
| Ingestion.DefaultTagsAlternate | 05-data-platforms/my-pipeline/pipeline/assets/ingestion/trips.py:125 | with the default tags, month i yields the yellow batch at 2i and the green batch at 2i + 1 |
| Ingestion.BatchTagged | 05-data-platforms/my-pipeline/pipeline/assets/ingestion/trips.py:144 | batch k carries tag number k mod (number of tags) on every row |
| Ingestion.MaterializedEmpty | 05-data-platforms/my-pipeline/pipeline/assets/ingestion/trips.py:205-209 | the result is the empty frame exactly when start is not before end or the tag list is empty |
| Ingestion.MaterializedRows | 05-data-platforms/my-pipeline/pipeline/assets/ingestion/trips.py:205-207 | otherwise the result has the rows of all batches, and `extracted_at` holds `now` on every row |
| Ingestion.MaterializedRowOrder | 05-data-platforms/my-pipeline/pipeline/assets/ingestion/trips.py:206 | row r of batch k is row (rows of earlier batches) + r of the result, with the batch's value in each of its columns |
| Ingestion.MaterializedMissingNull | 05-data-platforms/my-pipeline/pipeline/assets/ingestion/trips.py:206 | a column that batch k lacks but the result has is null on batch k's rows |
| Ingestion.MaterializedTags | 05-data-platforms/my-pipeline/pipeline/assets/ingestion/trips.py:144 | row r of batch k in the result carries tag k mod (number of tags) in `taxi_type` |

## Left out

- Reading `BRUIN_START_DATE`, `BRUIN_END_DATE` and `BRUIN_VARS` from the environment, JSON parsing and `datetime.fromisoformat` are not modelled. The start, the end and the tag list are parameters; `TaxiTypes` keeps only the default tag list.
- `requests.get`, `raise_for_status` and `pd.read_parquet` are the `fetch` parameter, a function from address to frame. HTTP errors and timeouts, which abort the source, are not modelled.
- `datetime.utcnow()` is the parameter `now`.
- Timezone-aware datetimes are not modelled. Comparing them with naive ones raises in the source.
- The `ValueError` ("year must be in 1..9999") raised at line 203 is not modelled, because years are unbounded here. `relativedelta` builds the next date with `datetime.replace`, which rejects year 10000. So any run that visits December 9999, necessarily its last month, raises after that month's batches are built instead of returning. Here the step simply yields January 10000.
- Column dtypes are not modelled. Cells are untyped values, so pandas' dtype inference and the upcasts that `pd.concat` applies (None becoming NaN in numeric columns, for instance) are not captured; both kinds of missing value are `Null`.
- Duplicate column labels are not modelled. pandas allows a rename that maps two columns to one label. Here the downloaded frame type `Download` admits only frames whose yellow and green renames are collision-free, and `Frames.Frame.Rename` requires that. The constraint is stricter than needed: it also excludes a file whose rename under the other tag would collide (a yellow file holding both `lpep_pickup_datetime` and `pickup_datetime`, say), although its own tag's rename handles it without duplicates.
- The row index is not modelled. `ignore_index=True` renumbers rows, and here rows are identified by position only.
- The source's list of frame references is kept as a list of frame values. Each frame is fresh and is not changed after it is appended, so no aliasing is lost.
