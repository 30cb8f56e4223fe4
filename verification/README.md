# Equipment dataset aggregation and retention, in Dafny

This project models the core of a small equipment-data web backend. A user
uploads a CSV of chemical-processing equipment: name, type, flowrate,
pressure and temperature. The backend then does three things, and defines a
fourth:

- it summarises the rows at upload time: the row count, the average, minimum
  and maximum of each numeric column, and a per-type histogram;
- it is meant to store the dataset and prune the table to the five latest
  datasets (as written, the store call fails; see "## Left out");
- on request, it recomputes a summary of a stored dataset (`get_summary`);
- it defines a per-user retention that keeps only a user's N newest datasets
  (`cleanup_old_datasets`), but no code path calls it.

The detail serializer exposes the summary. The list serializer would expose a
row count in place of the rows, but the view set does not use it.

Modules, one per source file or shared concern:

- `Wrappers` (wrappers.dfy): `Option` and `Result`.
- `Rows` (rows.dfy): a parsed row with optional cells, the three numeric
  parameters, and the filtering list comprehension that extracts a column.
- `Stats` (stats.dfy): sum, minimum, maximum and mean of a column.
- `Tally` (histogram.dfy): the count-per-key dictionary and the sum of its
  counts.
- `Models` (models.dfy): `get_summary`, and the dataset table as a class
  `DatasetStore` with `Insert`, `Delete` and `CleanupOldDatasets`.
- `Views` (views.py → views.dfy): the upload summary, the `type_counts`
  loop, the upload handler `Create` and the listing query.
- `Serializers` (serializers.dfy): `record_count`, the list item and the
  detail view.

Numbers are Dafny `real`s, so float rounding is not modelled. The table is a
sequence of entries, newest first. Its invariant (`DatasetStore.Valid`) is
that ids and upload times strictly decrease along it. That is Django's
ordering `-uploaded_at`, with upload time a counter that grows on every
insert.

Three points about the program's behaviour:

- The upload handler prunes the whole table to five datasets, not five per
  account (views.py:73-75). The per-user rule exists only in
  `cleanup_old_datasets`, which the handler does not call.
- The listing is the five latest datasets of the whole table (views.py:26-27).
- Empty input gets two different policies. At upload time, a column with no
  value gets 0 for average, minimum and maximum. The intended numeric
  `get_summary`, which the model follows, gives the same column NaN, modelled
  as `None`. The program as written does not return NaN there: it runs pandas
  over the stored strings (see `Models.GetSummary` under "## Left out").

## Model

| member | source | states |
|---|---|---|
| `Rows.FilterMap` | backend/equipment_api/views.py:42-44 | the comprehension keeps exactly the values of the rows whose cell is non-blank, and never yields more values than rows |
| `Rows.TypeKeys` | backend/equipment_api/views.py:60-61 | every row contributes exactly one key, its Type, or "Unknown" when it has none |
| `Stats.MinOf` | backend/equipment_api/views.py:51-55 | the minimum is a value of the column and no value is smaller |
| `Stats.MaxOf` | backend/equipment_api/views.py:52-56 | the maximum is a value of the column and no value is larger |
| `Stats.MeanWithin` | backend/equipment_api/views.py:48-50 | sum over count lies within any bounds of the values |
| `Stats.StatsOf` | backend/equipment_api/models.py:32-48 | min and max occur in the column, every value lies between them, and the average, sum over count, lies between them |
| `Stats.SumPermutation` | backend/equipment_api/views.py:48-50 | the sum of a column does not depend on the order of the rows |
| `Stats.StatsPermutation` | backend/equipment_api/models.py:33-47 | average, min and max do not depend on the order of the values |
| `Tally.HistogramCounts` | backend/equipment_api/views.py:59-62 | counting keys left to right gives a dictionary with a key exactly for each key that occurs, mapped to its number of occurrences (at least 1) |
| `Tally.HistogramTotal` | backend/equipment_api/views.py:59-63 | the counts add up to the number of keys counted |
| `Tally.HistogramPermutation` | backend/equipment_api/models.py:30 | the counts do not depend on the order of the keys |
| `Models.ColumnStatistics` | backend/equipment_api/models.py:33-35 | a parameter's statistics are absent (NaN) exactly when the column has no value |
| `Models.GetSummary` | backend/equipment_api/models.py:19-53 | the summary is empty exactly when the data is absent or has no rows; otherwise `total_count` is the number of rows |
| `Models.NoValues` | backend/equipment_api/models.py:33-35 | a column has no values exactly when every row leaves that cell blank |
| `Models.StatsDescribeColumn` | backend/equipment_api/models.py:32-48 | statistics of a column with values have min and max attained by some row, every row's value between them, min ≤ average ≤ max, and average = sum / count |
| `Models.SummaryStatistics` | backend/equipment_api/models.py:32-48 | for non-empty data, a parameter's statistics are NaN exactly when no row has a value, and otherwise describe the column as above |
| `Models.SummaryTypeCounts` | backend/equipment_api/models.py:29-30 | `equipment_types` has a key exactly for each Type some row carries, each count is that Type's number of rows (≥ 1), the counts add up to the number of typed rows, and to `total_count` when every row has a Type |
| `Models.GetSummaryOrderIndependent` | backend/equipment_api/models.py:19-53 | reordering the rows leaves the whole summary unchanged |
| `Models.OfOwnerMembers` | backend/equipment_api/models.py:58 | the user filter keeps exactly the entries of that user |
| `Models.WithoutIdsMembers` | backend/equipment_api/models.py:61-62 | after deleting a set of ids, exactly the entries with other ids remain |
| `Models.WithoutIdsNewestFirst` | backend/equipment_api/models.py:14 | deleting datasets keeps the rest in newest-first order |
| `Models.KeepNewestOfOwner` | backend/equipment_api/models.py:56-62 | after retention, the user's datasets are exactly their `keep_count` newest, in order |
| `Models.KeepNewestOfOthers` | backend/equipment_api/models.py:58 | retention for one user leaves every other user's datasets as they were |
| `Models.KeepNewestOfNoop` | backend/equipment_api/models.py:59 | retention changes nothing when the user has at most `keep_count` datasets |
| `Models.CleanupIsRetention` | backend/equipment_api/models.py:58-62 | deleting the user's datasets past position `keep_count` of the newest-first list leaves the table that retention describes |
| `Models.PruneIsTake` | backend/equipment_api/views.py:73-75 | deleting every dataset past position N of the newest-first table leaves exactly its first N |
| `Models.DatasetStore.Insert` | backend/equipment_api/views.py:65-71 | the new dataset gets the next id and the latest upload time and becomes the newest entry; the ordering invariant is kept |
| `Models.DatasetStore.Delete` | backend/equipment_api/views.py:75 | deleting a dataset removes exactly the entry with that id and keeps the ordering invariant |
| `Models.DatasetStore.CleanupOldDatasets` | backend/equipment_api/models.py:55-62 | the delete loop leaves the table that retention describes: the user keeps their `keep_count` newest, others are untouched, and nothing changes at or below the limit |
| `Views.UploadStatistics` | backend/equipment_api/views.py:42-57 | `total_equipment` counts every row, blank cells included; a column with no value gets 0 for average, min and max, and otherwise its statistics describe the column |
| `Views.UploadTypeCounts` | backend/equipment_api/views.py:59-63 | the upload type counts have a key exactly for each row's Type or "Unknown"; each count is that key's number of rows (≥ 1) and the counts add up to the row count |
| `Views.CountTypes` | backend/equipment_api/views.py:59-62 | the increment loop computes the histogram of the rows' type keys, whose counts add up to the row count |
| `Views.UploadAgreesWithSummary` | backend/equipment_api/views.py:46-63 | on the same non-empty rows, the upload summary and `get_summary` have the same count and the same statistics for columns with values; a column without values gets zeros at upload and NaN on demand; the type counts agree when every row has a Type |
| `Views.UploadSummaryOrderIndependent` | backend/equipment_api/views.py:42-63 | reordering the rows leaves the upload summary unchanged |
| `Views.Create` | backend/equipment_api/views.py:29-81 | a missing file, a parse failure or zero rows give 'No file provided', the parse error or 'Empty CSV file', and the table is unchanged; otherwise the result carries the upload summary and the new dataset, and the table becomes the five newest of the new dataset followed by the old table |
| `Views.Queryset` | backend/equipment_api/views.py:26-27 | the listing holds at most five datasets, the newest-first prefix of the table; every dataset left out is older than every one listed |
| `Serializers.RecordCount` | backend/equipment_api/serializers.py:41-42 | the record count is the number of rows when data is present and 0 when it is absent |
| `Serializers.ToListItem` | backend/equipment_api/serializers.py:37-39 | the list item carries id, user, filename, upload time and record count |
| `Serializers.ListItemHidesRows` | backend/equipment_api/serializers.py:37-39 | two datasets with the same metadata and row count give identical list-serializer items, whatever their rows |
| `Serializers.ToDetail` | backend/equipment_api/serializers.py:28-29 | the detail view's `summary` field is exactly the model's `get_summary()` result |
| `Serializers.RecordCountMatchesSummary` | backend/equipment_api/serializers.py:41-42 | the list serializer's record count is 0 exactly when the detail summary is empty, and otherwise equals its `total_count` |

`get_summary` is a Dafny function of the stored rows, so it cannot change
them (backend/equipment_api/models.py:19-53).

Definitions whose contracts are stated by the lemmas above:

- `Views.UploadSummaryOf` (backend/equipment_api/views.py:46-63): by `Views.UploadStatistics` and `Views.UploadTypeCounts`.
- `Views.StatsOrZero` (backend/equipment_api/views.py:48-56): by `Views.UploadStatistics`.
- `Tally.Histogram` (backend/equipment_api/views.py:59-62): by `Tally.HistogramCounts`, `Tally.HistogramTotal` and `Tally.HistogramPermutation`.
- `Rows.PresentTypes` (backend/equipment_api/models.py:30): by `Models.SummaryTypeCounts`.
- `Models.OfOwner` (backend/equipment_api/models.py:58): by `Models.OfOwnerMembers`.

## Left out

- CSV decoding and parsing (`decode`, `csv.DictReader`, `float()`) are library calls. An upload carries the outcome of that parsing: rows with optional cells, or an error message. A numeric cell (Flowrate, Pressure, Temperature) becomes `None` when it is blank, its column is absent or the row is cut short. The Type cell becomes `None` only when the row has no Type column or is cut short; a blank Type cell is `Some("")`, which is counted under the key `""` both at upload and in `get_summary`.
- `Rows.TypeKeys`: a row cut short by the CSV reader has Type `None`, and the source counts it under Python's `None` key. The model counts it under "Unknown", because histogram keys are strings.
- `Models.GetSummary`: the model gives the evidently intended numeric statistics over the parsed cells, skipping blank ones. The program as written does not compute them. The stored rows hold the CSV reader's strings (backend/equipment_api/views.py:37,68), so the pandas frame has string columns: `mean()` concatenates the strings and cannot turn the result into a number, `min()`/`max()` compare the strings lexicographically (`'10.0' < '9.5'`), and a blank `''` cell is not a missing value to pandas. pandas also raises `KeyError` when a column is absent from every row; the model treats such a column as all blank.
- Standard deviation (`std`, the pandas sample standard deviation) is floating-point library numerics and is not modelled.
- Float rounding: averages, minima and maxima are exact over `real`.
- `Stats.StatsOf`: cells are finite reals. `float()` also accepts `nan`, `inf` and overflowing literals such as `1e400`; with such cells Python's `sum`, `min` and `max` give infinities or NaN, and `min`/`max` then depend on the order of the values. So min ≤ average ≤ max, `Views.UploadSummaryOrderIndependent` and `Models.GetSummaryOrderIndependent` are not promised for the program on those inputs.
- `Models.DatasetStore.CleanupOldDatasets`: `keepCount` is a `nat`. With a negative `keep_count` the program's count test always passes and slicing the queryset with a negative start raises an exception (backend/equipment_api/models.py:59-60); that error path is not modelled.
- `Views.Create`: the ORM call passes `name`, `file` and `summary`, which the `Dataset` model does not declare (backend/equipment_api/models.py:6-11). As written, Django's model constructor raises `TypeError` on them, the generic `except` answers 400 with that message, and every well-formed non-empty upload is rejected: nothing is stored or pruned. The model gives the evidently intended storing and pruning instead. It stores the upload's name as `filename` and returns the upload summary alongside the new dataset. It does not store the summary. The response body of the detail serializer is not modelled beyond `Serializers.ToDetail`.
- `Views.Create`: `user` is a non-null foreign key (backend/equipment_api/models.py:8), so an anonymous upload, which the view allows, cannot be saved even with the keywords fixed; the model stores it with no owner. Exceptions raised by the database are not modelled; only parse failures reach the generic error branch. The unreachable duplicate handler after the first `except` is not modelled.
- `DatasetListSerializer` is defined but unused: the view set lists datasets with `DatasetSerializer` (backend/equipment_api/views.py:9,23), so the real listing exposes each dataset's rows and summary and no record count. The `Serializers` list-item members state what the list serializer would expose.
- `cleanup_old_datasets` is defined but no code path calls it; `Models.DatasetStore.CleanupOldDatasets` models it as defined.
- The `records` field of the detail serializer (`EquipmentRecord` rows) is not modelled: the upload path never creates those records. The nested user serializer is represented by the owner's id.
- The `summary` and `pdf` actions of the view set, the authentication views, URL routing, admin, settings and both front ends are framework or UI code.
- Database persistence and timestamps: ids and upload times are counters that grow with each insert. Concurrency between requests is not modelled.
