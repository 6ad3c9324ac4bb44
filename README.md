# Employee performance pipeline — Dafny model

This project models the one part of the employee-performance data pipeline that
has logic of its own. The pipeline is an Airflow DAG of three tasks. It fetches
the `employee_performance` table from PostgreSQL into `raw_data.csv`. It cleans
that file into `clean_data.csv`. It then bulk-indexes every cleaned row into
Elasticsearch. The model covers:

- **Cleaning** (`data_cleaning`). Three steps run in a fixed order:
  - `drop_duplicates()` keeps the first occurrence of every full row.
  - Missing cells are then filled column by column. A float64/int64 column gets
    the median of its numbers. Any other column gets the text `"Unknown"`.
  - Finally the header is stripped and lower-cased.

  The frame is a `DataFrame` object that these steps update in place. The
  method `Cleaning.DataCleaning` runs them on a fresh frame in the order of the
  source. It loops over the columns with a loop invariant, and its result is
  proved equal to the specification function `Cleaning.Clean`. The properties
  of the stage are lemmas about `Clean` and about the functions it is built
  from: `Duplicates.Dedup`, `Statistics.Median`, and
  `Header.Strip`/`Header.Lower`.
- **Loading** (`post_to_elasticsearch`). Each cleaned row becomes one action
  `{_index: "employee_data", _source: row.to_dict()}`, in row order. The
  number reported is the number of actions (`Loader.Actions`,
  `Loader.ReportedCount`).
- **Task chain** (`fetch_data >> clean_data >> post_to_elastic`). This is a
  state machine: `Pending → Extracting → Cleaning → Loading → Done`, and the
  first failing task moves the run to `Failed(task)` (`Pipeline.Drive`,
  `Pipeline.Schedule`). `Pipeline.RunPipeline` plugs the cleaning and loading
  models into it. Two inputs stand for the outside world: the outcome of the
  database query and whether the index accepted the batch.

Values are exact: a number is a Dafny `real` and a text is a `string`. A cell
can also be `Missing`, which stands for pandas' NaN/None. Each column's dtype
is an input, either `Numeric` (float64 or int64) or `NonNumeric`.

Four points where a reader might expect something other than what the code
does. The model follows the code in each:

- One might expect the cleaned records to hold no duplicates. They can:
  deduplication runs before the fill, so two rows that differ only in a missing
  cell both survive it and can become equal once filled.
  `Scenarios.RowsMayRepeatAfterFilling` exhibits such a table, and no lemma
  claims that the cleaned table is free of duplicates.
- One might expect a value such as `" Alice"` to come out as `"Alice"`. It does
  not: the code strips the column names, never the values.
  `Scenarios.AliceAndBob` proves a run in which the value stays `" Alice"`.
- The docstrings name the index `milestone3_karen` (data_pipeline.py:125). The
  code writes to `employee_data` (data_pipeline.py:132), and so does the model.
- For a numeric column without any number, pandas computes a NaN median, and
  `fillna(NaN)` leaves every cell missing. The model makes this explicit: the
  fill value is `Missing` and the column is left as it was
  (`Cleaning.CleanLeavesNumberlessColumn`).

## Model

| member | source | states |
|---|---|---|
| Duplicates.DedupSameRows | data_pipeline.py:83 | a row occurs in the deduplicated rows exactly when it occurs in the input: nothing lost, nothing invented |
| Duplicates.DedupDistinct | data_pipeline.py:83 | the deduplicated rows hold no two equal rows |
| Duplicates.DedupOnce | data_pipeline.py:59 | every distinct input row occurs exactly once in the result, and no other row occurs |
| Duplicates.DedupOfDistinct | data_pipeline.py:83 | a table without duplicate rows is left unchanged |
| Duplicates.DedupIdempotent | data_pipeline.py:83 | deduplicating an already deduplicated table changes nothing |
| Duplicates.KeptIndicesFirstOccurrences | data_pipeline.py:83 | the kept positions increase, and a position is kept exactly when its row does not occur earlier (keep='first') |
| Duplicates.DedupKeepsFirstInOrder | data_pipeline.py:83 | the result is the input read at the kept positions in order, so relative order is preserved |
| Duplicates.Dedup | data_pipeline.py:83 | the result is no longer than the input and holds only input rows |
| TableModel.Present | data_pipeline.py:88 | the sample the median is taken over holds exactly the numbers among the column's cells, NaN skipped |
| TableModel.PresentKeepsMultiplicity | data_pipeline.py:88 | with multiplicity: each number occurs in the sample exactly as many times as it occurs in the column, so repeated values weigh on the median |
| TableModel.Column | data_pipeline.py:87-88 | `df[column]`: one cell per row, cell i being row i's cell in that column |
| TableModel.PresentEmptyIffAllMissing | data_pipeline.py:88 | in a numeric column, the sample is empty exactly when every cell is missing |
| Statistics.Sort | data_pipeline.py:88 | the sorted sample is sorted, has the sample's length, and is a permutation of it |
| Statistics.Middle | data_pipeline.py:88 | the middle element of an odd-sized sample and the mean of the two middle elements of an even-sized one; for a sorted sample the value lies between those two elements |
| Statistics.Median | data_pipeline.py:88 | a median exists exactly when the sample is non-empty |
| Statistics.MedianSplitsSample | data_pipeline.py:88 | at least half of the sample is at most the median and at least half is at least the median |
| Statistics.MedianIgnoresOrder | data_pipeline.py:88 | two samples with the same values have the same median, whatever their order |
| Statistics.SortedUnique | data_pipeline.py:88 | two sorted sequences with the same values are equal, so the sort behind the median is determined by the sample |
| Statistics.MedianOfOne | data_pipeline.py:88 | the median of a single value is that value |
| Header.LeadingSpaces | data_pipeline.py:93 | counts the white space at the front: all of it is white space and the next character is not |
| Header.TrailingSpaces | data_pipeline.py:93 | counts the white space at the end: all of it is white space and the character before it is not |
| Header.Strip | data_pipeline.py:93 | `str.strip()`: no longer than the name, empty exactly when the name is all white space, and otherwise neither starting nor ending with white space |
| Header.StripTrimmed | data_pipeline.py:93 | a name that neither starts nor ends with white space is left unchanged |
| Header.StripCutsOnlySpaces | data_pipeline.py:93 | a stripped name is a contiguous piece of the name, everything removed is white space, and it neither starts nor ends with white space |
| Header.StripIdempotent | data_pipeline.py:93 | stripping a stripped name changes nothing |
| Header.Lower | data_pipeline.py:94 | lower-casing keeps the length and maps every character by itself |
| Header.LowerChar | data_pipeline.py:94 | an upper-case letter moves 0x20 code points up to its lower-case form; every other character is unchanged |
| Header.StripAll | data_pipeline.py:93 | the new header has the same number of names, each the stripped old name in the same position |
| Header.LowerAll | data_pipeline.py:94 | the new header has the same number of names, each the lower-cased old name in the same position |
| Header.Normalise | data_pipeline.py:93-94 | a name stripped then lower-cased is no longer than the name and holds no upper-case letter |
| Header.NormaliseResult | data_pipeline.py:93-94 | a normalised name has no upper-case letter and no white space at either end |
| Header.NormaliseIdempotent | data_pipeline.py:93-94 | normalising a normalised name changes nothing |
| Cleaning.FillColumn | data_pipeline.py:88-90 | fillna on one column: the row count and widths stay the same, every missing cell of that column takes the value, and no other cell changes |
| Cleaning.FillValue | data_pipeline.py:87-90 | the fill of a non-numeric column is "Unknown"; that of a numeric column is never a text, is missing exactly when the column holds no number, and otherwise splits the column's numbers in halves (the median) |
| Cleaning.ImputedCell | data_pipeline.py:86-90 | a present cell stays; a missing cell of a non-numeric column becomes "Unknown", one of a numeric column never becomes a text |
| Cleaning.Impute | data_pipeline.py:86-90 | the imputed table has as many rows as before and one cell per column in each row |
| Cleaning.Clean | data_pipeline.py:80-97 | the cleaned table is well formed, keeps the column count and dtypes, and has one row per distinct raw row |
| Cleaning.DataFrame.constructor | data_pipeline.py:80 | read_csv: the frame holds the header, dtypes and rows read |
| Cleaning.DataFrame.DropDuplicates | data_pipeline.py:83 | the frame's rows become the deduplicated old rows; the header and dtypes stay |
| Cleaning.DataFrame.FillNa | data_pipeline.py:88-90 | the frame's rows become the old rows with column j filled; the header and dtypes stay |
| Cleaning.DataFrame.SetColumns | data_pipeline.py:93-94 | the frame's header is replaced; the rows and dtypes stay |
| Cleaning.DataCleaning | data_pipeline.py:80-97 | the in-place run (dedup, fill each column in header order from the frame as it stands, strip and lower the header) yields exactly Clean(raw) |
| Cleaning.CleanShape | data_pipeline.py:80-97 | the cleaned table is well formed, keeps the columns and dtypes, and has one row per distinct raw row |
| Cleaning.CleanHeader | data_pipeline.py:93-94 | cleaned column k is raw column k stripped and then lower-cased |
| Cleaning.CleanChangesOnlyMissingCells | data_pipeline.py:83-90 | cleaned row i is the raw row kept at position i by deduplication, and every cell that was not missing is unchanged |
| Cleaning.CleanFillsNumericWithMedian | data_pipeline.py:86-88 | a missing cell of a numeric column with at least one number becomes the median of that column's numbers in the deduplicated rows |
| Cleaning.CleanLeavesNumberlessColumn | data_pipeline.py:88 | a numeric column without any number is left exactly as it was after deduplication |
| Cleaning.CleanFillsTextWithPlaceholder | data_pipeline.py:89-90 | a missing cell of a non-numeric column becomes "Unknown" |
| Cleaning.CleanMissingOnlyInNumberlessColumns | data_pipeline.py:86-90 | a cleaned cell is missing exactly when its column is numeric and missing in every deduplicated row |
| Cleaning.CleanWellTyped | data_pipeline.py:86-90 | cleaning puts numbers only into numeric columns and texts only into the others |
| Scenarios.AliceAndBob | data_pipeline.py:80-97 | two identical " Alice" rows with a missing score and Bob scored 80 clean to [" Alice", 80] and ["Bob", 80] under the header ["name", "score"] |
| Scenarios.RowsMayRepeatAfterFilling | data_pipeline.py:83-90 | rows ["A", missing] and ["A", 80] both survive deduplication and become equal after the fill |
| Scenarios.MedianAfterDeduplication | data_pipeline.py:83-88 | scores 1, 1, 4 and one missing score: the missing cell becomes 2.5, the median after deduplication, not the raw median 1 |
| Scenarios.NumberlessColumnStaysMissing | data_pipeline.py:86-90 | an all-missing numeric column stays missing in both rows, while the missing cell of the text column beside it (which holds "Sales" in the other row) becomes "Unknown" |
| Loader.RowToDict | data_pipeline.py:133 | the keys of the document are exactly the header's names |
| Loader.RowToDictLookup | data_pipeline.py:133 | under the last column of a given name, the document holds that column's cell |
| Loader.DictToRow | data_pipeline.py:133 | reading a document back under the header gives one cell per column, the cell stored under that column's name |
| Loader.RowRoundTrip | data_pipeline.py:133 | with distinct column names, reading the document back column by column gives the row again |
| Loader.Actions | data_pipeline.py:130-136 | one action per row, each for index "employee_data" with a document keyed by exactly the header's names |
| Loader.ReportedCount | data_pipeline.py:140 | `len(actions)` is the number of rows of the cleaned table |
| Loader.ActionsOnePerRow | data_pipeline.py:130-140 | one action per row, in order, each for index "employee_data", keyed by the header and, when the header's names are distinct, as `read_csv` makes them for the loader, holding the row's cells; the count reported is the number of rows |
| Pipeline.Position | data_pipeline.py:172 | each task has its place in the chain fetch, clean, post |
| Pipeline.Complete | data_pipeline.py:172 | a failing task fails the run at that task; a succeeding one advances the run by one completed task |
| Pipeline.Drive | data_pipeline.py:172 | tasks run until none is running, and the tasks already run stay at the front of the record |
| Pipeline.Schedule | data_pipeline.py:172 | a scheduled run starts with fetch_data and ends done or failed |
| Pipeline.DriveConsistent | data_pipeline.py:172 | driving the chain keeps the tasks run a prefix of the chain, keeps every completed task successful, and ends done or failed |
| Pipeline.ScheduleOutcome | data_pipeline.py:172 | a run is done exactly when all three tasks succeed, having run them in order; otherwise it failed at the first unsuccessful task and ran nothing after it |
| Pipeline.TasksRunOnlyAfterTheirUpstream | data_pipeline.py:172 | clean runs only after fetch succeeded, post only after fetch and clean succeeded, and fetch runs first |
| Pipeline.TaskSucceeds | data_pipeline.py:156-169 | fetch succeeds exactly when the query returned a table, cleaning succeeds only if fetch did, and posting succeeds exactly when the index accepts the batch |
| Pipeline.RunPipeline | data_pipeline.py:130-172 | a count is reported exactly when the run is done, and the run is done exactly when a well-formed table was fetched and the index accepted the batch |
| Pipeline.ReportedCountIsDistinctRows | data_pipeline.py:130-172 | a count is reported exactly when the run is done, and it equals the number of distinct rows fetched |
| Pipeline.BulkRejectionFailsRun | data_pipeline.py:139-172 | an index that rejects the batch fails the run at post after all three tasks ran, and no count is reported |
| Pipeline.SourceFailureStopsChain | data_pipeline.py:41-51 | a failed database fetch fails the run at fetch; neither clean nor post runs and no count is reported |

## Left out

- `fetch_from_postgresql` (data_pipeline.py:41-51) is database I/O. The query's result is an input of `Pipeline.RunPipeline`: a table, or `None` when the connection or the query fails.
- Reading and writing the CSV files (data_pipeline.py:50, 80, 97, 128) is not modelled. The model passes the cleaned `Table` to the loader directly, so it does not capture a CSV round trip. That round trip re-infers dtypes and renames repeated column names ("a", "a.1").
- Pandas dtype inference is not modelled: each column's kind is an input. In particular, `read_csv` reads a column that is missing throughout as float64, so such a column counts as `Numeric`.
- Numbers are exact reals. The model does not follow float64 rounding of values or of the median.
- Header.IsSpace: follows Python's `str.isspace` table; Header.LowerChar: lower-cases only Basic Latin and Latin-1 capitals. Python's full Unicode `str.lower()` is not modelled, including mappings to several characters such as 'İ'.
- The Elasticsearch client and the `bulk` call (data_pipeline.py:127, 139) are a network library. The model builds the list of actions handed to `bulk`, and one input says whether the index accepted the whole batch.
- Airflow configuration (data_pipeline.py:143-169) is orchestration metadata and is not modelled: the owner, start date, the schedule `30 6 * * *` and `catchup=False`. Retries and overlapping runs are also the scheduler's concern. Only the ordering at line 172 is modelled.
- Pipeline.RunPipeline: the cleaning and loading tasks fail in the model only on a malformed table or a rejected batch. A CSV file that cannot be read or written (data_pipeline.py:80, 97, 128) is not an input, so the run is done exactly when a well-formed table was fetched and the batch was accepted. `Pipeline.ScheduleOutcome` covers any pattern of task failures.
- The `print` calls (data_pipeline.py:51, 98, 140) are logging.
- The model assumes `fillna(inplace=True)` on `df[column]` fills the frame's column in place. Pandas copy-on-write behaviour, under which this call may act on a copy, is not modelled.
- Cleaning.DataFrame.DropDuplicates: pandas returns a new frame that the code assigns back to `df`. The model updates the one frame in place, and no other reference to the old frame exists.
