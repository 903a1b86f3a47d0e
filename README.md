# divvy-tracking scripts, modelled in Dafny

This project models the four Python scripts of divvy-tracking that move Divvy
bike-share trip data from the public bucket into PostgreSQL, and proves their
properties:

- `scripts/download_divvy_data.py` mirrors the bucket into `divvy_data`. It
  picks the monthly archives from the bucket listing, sorts them, skips those
  whose CSV is already present, and downloads and unpacks the rest.
- `scripts/downloader.py` is the `DivvyDownloader` class. It names a month's
  archive, downloads and extracts one month or a whole year, cleans up
  temporary zips and lists the CSVs.
- `scripts/import_with_community_areas.py` imports the CSVs chunk by chunk:
  - cleans and renames the header;
  - upserts every station it has not yet seen, with a community area from a
    fixed box table;
  - inserts the trips with each ride id kept once, committing per chunk;
  - aggregates the trips into per-station daily counters.
- `scripts/embellishStationData.py` is `ChicagoAreaMapper`. It builds the
  community-area table from the city's boundary features, gives each station
  without an area the first area that contains it, and reports a total per area.

Module by module:

| module | Dafny file | script | models |
|---|---|---|---|
| `Wrappers` | wrappers.dfy | (all) | `Option` |
| `Text` | text.dfy | (all) | These Python built-ins: `str(n)`, `f"{n:0Wd}"`, `int()` on ASCII digits, `endswith`, `startswith`, `replace`, `os.path.basename`, string order and `sort` |
| `Downloader` | downloader.dfy | downloader.py | `DivvyDownloader`, over a filesystem given as a set of paths |
| `BucketSync` | bucket_sync.dfy | download_divvy_data.py | The key filter, the sort, and the per-key skip/download/extract loop with its counters, with the temporary zip handled as written or corrected |
| `Cells` | cells.dfy | import_with_community_areas.py | What pandas hands back for a field, Python's truthiness and `str()` of it, and the header clean-up and renaming |
| `AreaLookup` | area_lookup.dfy | import_with_community_areas.py | `get_community_area_from_coords` |
| `Tables` | tables.dfy | import_with_community_areas.py | The rows of the importer's database; `trips_raw` inserts with `ON CONFLICT DO NOTHING` |
| `Aggregation` | aggregation.dfy | import_with_community_areas.py | The two `INSERT ... SELECT ... GROUP BY ... ON CONFLICT DO UPDATE` statements |
| `TripImport` | tripimport.dfy | import_with_community_areas.py | The connection: committed and open-transaction tables, and the serial station pk. It also holds `process_station` and the import loop |
| `StationEnrichment` | station_enrichment.dfy | embellishStationData.py | `ChicagoAreaMapper` |

How the model is built:

- **Loops the scripts run are Dafny methods with loop invariants.** Each
  method's `ensures` ties its result to a recursive specification function,
  and the properties are proved as lemmas about that function.
- **Objects whose fields change are classes.** The database connection is
  `TripImport.Database` and the area mapper is
  `StationEnrichment.ChicagoAreaMapper`.
- **The outside world is a parameter.** This covers the network, the zip
  reader, the CSV reader, the clock, the timestamp parser and the geometry
  test.

The import's behaviour, as the model states it:

- **Chunks are committed one by one.** A file that raises is rolled back to
  its last committed chunk.
- **The set `stations_processed` is not rolled back.** A station first seen
  in a failed chunk is marked as processed, but its row is rolled back, so it
  is not upserted again in that run. `TripImport.FileStepKeeps` and the
  `Grows` invariant state this.
- **The aggregation adds to the existing counters.** Running it twice over
  the same trips doubles what it adds (`Aggregation.AggregateTwiceDoubles`).
- **The station pk sequence is not transactional.** A rollback does not hand
  back the pks it gave out, so pks stay distinct across rollbacks.

## Model

| member | source | states |
|---|---|---|
| `Text.ZeroPad` | scripts/downloader.py:31 | `{n:0Wd}`: zero-padded digits that read back as the number; a minus sign counts towards the width |
| `Text.Basename` | scripts/download_divvy_data.py:75 | The basename holds no '/' and is a suffix of the path, preceded by '/' when shorter |
| `Text.Sort` | scripts/download_divvy_data.py:66 | `list.sort()` on strings: the result is ordered by Python's string order and is a permutation of the input |
| `Text.SortedPermutationUnique` | scripts/import_with_community_areas.py:136 | Two sorted permutations of the same list are equal, so the order of the files is determined by the names alone |
| `Downloader.GetFilenameLayout` | scripts/downloader.py:29-31 | For a four-digit year and two-digit month: 25 characters, six digits that read back as year and month, then `-divvy-tripdata.zip` |
| `Downloader.CsvNameOfFilename` | scripts/downloader.py:83 | Replacing `.zip` by `.csv` in a month's file name changes only the suffix |
| `Downloader.FirstCsv` | scripts/downloader.py:97-107 | None exactly when no entry ends in `.csv`; otherwise the first entry that does |
| `Downloader.CsvFilesIn` | scripts/downloader.py:97 | Exactly the entries ending in `.csv`, and no more of them than there are entries |
| `Downloader.NoCsvFiles` | scripts/downloader.py:99-101 | The CSV list is empty exactly when no entry ends in `.csv` |
| `Downloader.DivvyDownloader.DownloadFile` | scripts/downloader.py:33-72 | A present zip without `force` returns True and changes nothing. Otherwise the result is whether the transfer succeeds. True exactly when the zip is present afterwards. No other file changes |
| `Downloader.DivvyDownloader.ExtractFile` | scripts/downloader.py:74-122 | Returns False without the zip, and True without extracting when the CSV exists and force is off. Otherwise True exactly when the archive opens and has a `.csv` entry. A failure changes nothing. A success leaves the CSV in place, with the first CSV entry moved out of the temporary directory |
| `Downloader.DivvyDownloader.DownloadMonth` | scripts/downloader.py:131-139 | True exactly when the download and the extraction both succeed. A failed download is returned as is, without extracting |
| `Downloader.DivvyDownloader.DownloadYear` | scripts/downloader.py:141-163 | Months 1 to 12 run in order, each on the filesystem the previous one left. The success and failure lists are the labels of the succeeding and failing months, ascending, and together hold 12 |
| `Downloader.MonthsWhere` | scripts/downloader.py:148-154 | The months whose result is the wanted one, strictly ascending, and no others |
| `Downloader.MonthsPartition` | scripts/downloader.py:151-154 | Every month is in exactly one of the two lists |
| `Downloader.DivvyDownloader.CleanupTempFiles` | scripts/downloader.py:124-129 | Exactly the `*.zip` files directly in the temporary directory are removed |
| `Downloader.DivvyDownloader.GetAvailableFiles` | scripts/downloader.py:178-180 | Sorted, a permutation of the directory's `.csv` names, and nothing else |
| `BucketSync.FindMatch` | scripts/download_divvy_data.py:47 | `re.search`: the leftmost position where six digits and `-divvy-tripdata.zip` follow |
| `BucketSync.KeyDate` | scripts/download_divvy_data.py:45-51 | A key has a date exactly when it ends in `.zip` and contains the pattern. The date is read from the leftmost match |
| `BucketSync.IsKept` | scripts/download_divvy_data.py:54-57 | Kept exactly when the key has a date from January 2020 up to and including the current month |
| `BucketSync.KeptKeys` | scripts/download_divvy_data.py:41-57 | Exactly the kept keys of the listing |
| `BucketSync.SelectZipFiles` | scripts/download_divvy_data.py:41-57 | The selection loop yields the kept keys in listing order |
| `BucketSync.FilenameRoundTrip` | scripts/download_divvy_data.py:47-57 | A name made by `get_filename(y, m)` parses back to (y, m), and is kept exactly when (y, m) lies in the window |
| `BucketSync.MonthNotRangeChecked` | scripts/download_divvy_data.py:51-56 | The month digits are not range-checked: month 13 of 2021 is kept |
| `BucketSync.DataPath` | scripts/download_divvy_data.py:75 | Every joined path lies in `divvy_data` |
| `BucketSync.ExtractEntries` | scripts/download_divvy_data.py:122-133 | Extracting and renaming the CSV entries leaves the expected file in place of every extracted one |
| `BucketSync.RenamedEntriesGone` | scripts/download_divvy_data.py:128-133 | No entry whose name differs from the expected one remains under its own name |
| `BucketSync.SyncStep` | scripts/download_divvy_data.py:72-149 | The corrected step (`## Findings` row 3). A key whose CSV exists only bumps the skip count. Any other key is downloaded exactly when its transfer completes, adds its CSV entries to the extracted count, and leaves no temporary file. What it adds to the filesystem lies in `divvy_data` |
| `BucketSync.StepsDifferInCleanupOnly` | scripts/download_divvy_data.py:117-149 | The loop as written and the corrected loop differ only in removing the temporary file |
| `BucketSync.TempFileLeftBehind` | scripts/download_divvy_data.py:117-119 | As written, an archive without CSV entries, or a broken transfer, leaves its temporary file behind |
| `BucketSync.RunAccounting` | scripts/download_divvy_data.py:68-138 | For the run as written and the corrected run alike, each counter adds up the per-key reports. Skipped plus attempted equals the number of keys. Downloaded is at most the attempted |
| `BucketSync.RunLeavesOnlyData` | scripts/download_divvy_data.py:145-149 | Corrected (`## Findings` row 3): whatever a whole corrected run adds to the filesystem lies in `divvy_data` |
| `BucketSync.RunLeavesTempAsWritten` | scripts/download_divvy_data.py:117-119 | As written, a run whose last key is attempted and either breaks off or finds no CSV entry ends with that key's temporary file in place |
| `BucketSync.ProcessKey` | scripts/download_divvy_data.py:72-149 | One key, with the temporary file handled as written or corrected, as `Step` |
| `BucketSync.SyncKeys` | scripts/download_divvy_data.py:68-149 | The key loop from zero counters, as `RunSync` with the same handling |
| `BucketSync.DownloadDivvyData` | scripts/download_divvy_data.py:10-158 | Takes the temporary-file handling as a parameter: as written, or corrected (`## Findings` row 3). The keys are the sorted kept keys. The final filesystem and counters are those of `RunSync` over them in that order, with that handling |
| `Cells.TextValue` | scripts/import_with_community_areas.py:203 | A missing field becomes NULL and a string is stored as itself |
| `Cells.IntTextHasNoLetters` | scripts/import_with_community_areas.py:154 | The text of a numeric bike id holds only digits and a sign |
| `Cells.CleanColumn` | scripts/import_with_community_areas.py:149 | The name keeps its length and has no spaces and no capitals left. Each space becomes '_' |
| `Cells.CleanColumnIdempotent` | scripts/import_with_community_areas.py:149 | Cleaning a clean header changes nothing |
| `Cells.CleanColumns` | scripts/import_with_community_areas.py:149 | Every column is cleaned in place |
| `Cells.RenameEach` | scripts/import_with_community_areas.py:166 | `rename(columns={old: new})` renames every column called `old` and nothing else |
| `Cells.ApplyRenamesPointwise` | scripts/import_with_community_areas.py:164-166 | Applying independent renames in turn renames each column by its own lookup |
| `Cells.RenameColumns` | scripts/import_with_community_areas.py:152-166 | Positions are kept. Each legacy name becomes its current name; every other name is untouched |
| `Cells.NormalizeHeader` | scripts/import_with_community_areas.py:149-166 | Each column is cleaned, then renamed by the mapping |
| `AreaLookup.FirstBox` | scripts/import_with_community_areas.py:28-30 | None exactly when no box contains the point; otherwise the area of the first containing box |
| `AreaLookup.LookupArea` | scripts/import_with_community_areas.py:20-36 | Nothing without both coordinates. Otherwise the first listed box containing the point. Failing that, Rogers Park inside the fallback box, and nothing outside it |
| `AreaLookup.LoopWinsSharedEdges` | scripts/import_with_community_areas.py:14-30 | On the edges Loop shares with Near North Side (41.85) and with Douglas (41.8), Loop wins |
| `AreaLookup.FallbackExamples` | scripts/import_with_community_areas.py:33-36 | A point near the city but in no box gets Rogers Park; one west of -87.8 gets nothing |
| `AreaLookup.CoordOf` | scripts/import_with_community_areas.py:25-29 | An absent or missing (NaN) field gives no coordinate |
| `Tables.InsertAll` | scripts/import_with_community_areas.py:209-215 | Stored trips are kept. The ride ids become the old ones plus the batch's, and unique ride ids stay unique |
| `Tables.InsertedRowsFromBatch` | scripts/import_with_community_areas.py:209-215 | Every row the insert adds is a batch row whose ride id was not stored, and it is the first batch row with that ride id |
| `Tables.FirstRowsInserted` | scripts/import_with_community_areas.py:209-215 | Every batch row that is the first with its ride id, and whose ride id was not stored, is added |
| `Tables.StoredRideNotDuplicated` | scripts/import_with_community_areas.py:212 | No inserted row repeats a ride id that was already stored |
| `Aggregation.GroupKey` | scripts/import_with_community_areas.py:93-96 | A trip has a group exactly when its timestamp and station id are present and the station is in the table. The group's station is that station's pk |
| `Aggregation.Tallies` | scripts/import_with_community_areas.py:84-96 | A group exists exactly when some trip falls into it. Its counts are the numbers of classic/docked and of electric trips in it |
| `Aggregation.ApplyTallies` | scripts/import_with_community_areas.py:97-100 | The upsert creates a row for every group and adds the counts to the pass's columns. The other columns are kept |
| `Aggregation.TwoPassesAt` | scripts/import_with_community_areas.py:97-119 | At one key, both upserts add the departure counts and the arrival counts to the four counters |
| `Aggregation.AggregateAddsCounts` | scripts/import_with_community_areas.py:84-120 | Every group's departure and arrival counters grow by its acoustic and electric departures and arrivals |
| `Aggregation.AggregateCreatesRows` | scripts/import_with_community_areas.py:84-120 | A row exists afterwards exactly when it existed before or some trip falls into its group in either pass |
| `Aggregation.AggregateTwiceDoubles` | scripts/import_with_community_areas.py:97-119 | Aggregating the same trips twice adds twice the counts |
| `Aggregation.ExcludedTripsIgnored` | scripts/import_with_community_areas.py:94-95 | A trip without timestamp or station id, or with an unknown station, changes no count |
| `Aggregation.LegacyBikeIdsNotCounted` | scripts/import_with_community_areas.py:91-92 | A numeric bike id renamed into `rideable_type` is counted in neither kind |
| `TripImport.UpsertStation` | scripts/import_with_community_areas.py:38-76 | Declines (changes nothing, returns None) on an empty id or a falsy name. A known id keeps its pk and has its row rewritten. A new id gets the next pk. No other row, table or committed state changes. The table grows by at most one row, and pk uniqueness is kept |
| `TripImport.Database.constructor` | scripts/import_with_community_areas.py:126-132 | A new connection has no open work on top of the committed tables |
| `TripImport.Database.Commit` | scripts/import_with_community_areas.py:216 | The open transaction's tables become the committed ones |
| `TripImport.Database.Rollback` | scripts/import_with_community_areas.py:223 | The open transaction's tables are discarded; the pk sequence is not reset |
| `TripImport.Database.ProcessStation` | scripts/import_with_community_areas.py:38-76 | The SELECT, then the UPDATE or the INSERT ... RETURNING id, with the effect and the pk of `UpsertStation` |
| `TripImport.InsertBatch` | scripts/import_with_community_areas.py:209-215 | Inserting the batch row by row, skipping a ride id already stored, yields exactly `InsertAll` of the stored trips and the batch |
| `TripImport.Database.InsertTrips` | scripts/import_with_community_areas.py:209-215 | `executemany` of the insert changes only the open transaction's trips, as `InsertAll` |
| `TripImport.Database.UpsertPass` | scripts/import_with_community_areas.py:84-101 | An upsert of a pass's groups changes only the open transaction's day counters, as `ApplyTallies` |
| `TripImport.Database.AggregateDaily` | scripts/import_with_community_areas.py:78-120 | The two passes change only the open transaction's day counters, as `AggregateDays` over its trips and stations |
| `TripImport.VisitStation` | scripts/import_with_community_areas.py:171-179 | Takes the guard as a parameter: the one as written, or the corrected one of `## Findings` row 1. When that guard admits the id, process_station runs on str(id) and the id is marked as seen, whether or not process_station accepted it. Otherwise nothing changes |
| `TripImport.VisitStationAt` | scripts/import_with_community_areas.py:171-190 | One end of a row updates the connection and the seen set as `VisitStation`, under the guard passed in |
| `TripImport.VisitChunkRows` | scripts/import_with_community_areas.py:169-190 | The stations pass over a chunk updates the connection and the seen set as `VisitRows` |
| `TripImport.RowTrip` | scripts/import_with_community_areas.py:199-200 | A row yields a trip exactly when its ride id is present, with that ride id |
| `TripImport.TripsOf` | scripts/import_with_community_areas.py:199-203 | The tuples are exactly the trips of the rows with a ride id, and are at most as many as the rows |
| `TripImport.ImportChunk` | scripts/import_with_community_areas.py:147-219 | One chunk as `ChunkStep`. The header is cleaned and the stations visited. A chunk without a `ride_id` column fails. Otherwise the trips are inserted and committed, when there are any |
| `TripImport.ReadChunk` | scripts/import_with_community_areas.py:147-224 | A chunk that cannot be read fails; a parsed one is imported |
| `TripImport.ImportFile` | scripts/import_with_community_areas.py:141-224 | One file as `FileStep`: its chunks in order up to the first failure, then a rollback on failure |
| `TripImport.ImportAll` | scripts/import_with_community_areas.py:135-224 | The file loop over the sorted CSV files, under the guard passed in, as `ImportFiles` |
| `TripImport.CsvPaths` | scripts/import_with_community_areas.py:135 | `glob('divvy_data/*.csv')`: exactly the non-hidden `.csv` names, under `divvy_data/` |
| `TripImport.CsvFiles` | scripts/import_with_community_areas.py:135-136 | The globbed paths, sorted |
| `TripImport.ImportCsvs` | scripts/import_with_community_areas.py:124-233 | The corrected import as `RunImport`: every file in sorted order with the corrected guard, then the aggregation and its commit |
| `TripImport.ImportCsvsAsWritten` | scripts/import_with_community_areas.py:124-233 | The import as written, as `RunImportAsWritten`: the guard that admits a missing id, then the aggregation and a close without a commit |
| `TripImport.VisitStationKeeps` | scripts/import_with_community_areas.py:171-190 | One visit keeps the connection invariant and hands over only an id not seen before |
| `TripImport.VisitRowsKeeps` | scripts/import_with_community_areas.py:169-190 | The stations pass keeps the invariant. It only adds to the seen set and the call list |
| `TripImport.InsertAndCommitKeeps` | scripts/import_with_community_areas.py:215-218 | Insert and commit keep ride ids unique and only extend the committed trips |
| `TripImport.VisitRowsKeepsTrips` | scripts/import_with_community_areas.py:169-190 | The stations pass changes neither the committed tables nor the open transaction's trips |
| `TripImport.ChunkTripsFromRows` | scripts/import_with_community_areas.py:169-216 | Every trip a chunk commits is the trip of one of its CSV rows, and its ride id was not stored before |
| `TripImport.ChunkStepKeeps` | scripts/import_with_community_areas.py:147-219 | A chunk keeps the invariant and leaves the day counters alone. It only extends the trips, the seen set, the calls and the row count |
| `TripImport.ReadChunksKeeps` | scripts/import_with_community_areas.py:147-219 | The chunks of a file do the same |
| `TripImport.FileStepKeeps` | scripts/import_with_community_areas.py:221-224 | A failed file leaves the open transaction equal to the committed tables but keeps the ids it marked as seen |
| `TripImport.ImportFilesKeeps` | scripts/import_with_community_areas.py:141-224 | The file loop keeps the invariant and the growth relation |
| `TripImport.RunImportSound` | scripts/import_with_community_areas.py:124-233 | A run from a fresh connection keeps ride ids unique and station pks distinct. It hands each station id over at most once and never a missing one. It only extends the committed trips, and commits the aggregation of all of them on top of the old counters |
| `TripImport.MissingIdPassesAsWritten` | scripts/import_with_community_areas.py:171-179 | As written, a missing (NaN) station id passes the guard, and a station "nan" is stored |
| `TripImport.MissingIdVisitedAsWritten` | scripts/import_with_community_areas.py:169-190 | As written, the stations pass hands a missing id to `process_station` and marks it as seen. With a truthy name, a station "nan" is written |
| `TripImport.MissingIdSkipped` | scripts/import_with_community_areas.py:171-190 | With the corrected guard, a row without an id, or with a missing one, changes nothing |
| `TripImport.AggregationDiscardedAsWritten` | scripts/import_with_community_areas.py:229-233 | As written, closing without a commit discards the aggregation and all uncommitted work |
| `TripImport.RunAsWrittenKeepsOldDays` | scripts/import_with_community_areas.py:229-233 | As written, a whole run leaves the committed day counters as they were |
| `TripImport.FinishCommitsAggregation` | scripts/import_with_community_areas.py:229-233 | With the commit, the aggregation over the open transaction's trips and stations is committed |
| `StationEnrichment.IntOf` | scripts/embellishStationData.py:72 | `int()`: an integer as itself, a digit string as its value, None and the empty string raise |
| `StationEnrichment.NumberProp` | scripts/embellishStationData.py:72 | `area_num_1`, else `area_numbe`, else 0 |
| `StationEnrichment.NameProp` | scripts/embellishStationData.py:73 | `community`, else "Unknown" |
| `StationEnrichment.EntryOf` | scripts/embellishStationData.py:72-82 | A feature gives an entry exactly when its number converts, with that number, its name and its geometry |
| `StationEnrichment.Register` | scripts/embellishStationData.py:78-82 | The entry is stored under its number, replacing an earlier one. The key order is only extended, and the table stays well formed |
| `StationEnrichment.ParseAll` | scripts/embellishStationData.py:68-82 | Parsing keeps the table well formed |
| `StationEnrichment.ParseFailsOnBadNumber` | scripts/embellishStationData.py:68-72 | Parsing fails exactly when some feature's number does not convert |
| `StationEnrichment.FailureStops` | scripts/embellishStationData.py:68-82 | After a failure the remaining features change nothing |
| `StationEnrichment.ParsedNumbers` | scripts/embellishStationData.py:68-82 | After a successful parse, a number is in the table exactly when it was there before or some feature carries it |
| `StationEnrichment.LastFeatureWins` | scripts/embellishStationData.py:78-82 | Each number holds the entry of the last feature that carries it |
| `StationEnrichment.FindCommunityArea` | scripts/embellishStationData.py:86-94 | The first area, in table order, whose boundary contains (longitude, latitude); None exactly when no area does |
| `StationEnrichment.Candidates` | scripts/embellishStationData.py:96-111 | Exactly the stations without an area, in id order |
| `StationEnrichment.Assignment` | scripts/embellishStationData.py:136-151 | A station gets an area exactly when it has both coordinates and the lookup finds a nonzero area number. That area is in the table |
| `StationEnrichment.AssignAreas` | scripts/embellishStationData.py:125-154 | Every row becomes its assigned row, positions kept |
| `StationEnrichment.CountUpdated` | scripts/embellishStationData.py:133-151 | The update count is at most the number of candidates |
| `StationEnrichment.OnlyMissingAreasFilled` | scripts/embellishStationData.py:136-147 | Only rows without an area change. Each gets a nonzero area of the table whose boundary contains the station. Ids are kept |
| `StationEnrichment.SecondRunChangesNothing` | scripts/embellishStationData.py:100-131 | A second pass over the result changes nothing and updates no station |
| `StationEnrichment.AddOne` | scripts/embellishStationData.py:171-174 | Counting one more station in an area adds one to that area's count and to the total |
| `StationEnrichment.GroupCounts` | scripts/embellishStationData.py:170-176 | The summary query: each area's count is its number of stations, and the counts add up to the stations with an area |
| `StationEnrichment.ChicagoAreaMapper.constructor` | scripts/embellishStationData.py:20-24 | A new mapper has an empty area table and the stations in id order |
| `StationEnrichment.ChicagoAreaMapper.ParseCommunityAreas` | scripts/embellishStationData.py:64-84 | The loop over the features fills the area table as `ParseAll`, including the failure |
| `StationEnrichment.ChicagoAreaMapper.UpdateStationCommunityArea` | scripts/embellishStationData.py:113-123 | Exactly the rows with that id get the area; the area table is unchanged |
| `StationEnrichment.ChicagoAreaMapper.AssignCandidates` | scripts/embellishStationData.py:133-151 | The loop over the candidates assigns each one its area, leaves the area table alone, counts the updated ones as `CountUpdated` and counts every candidate exactly once |
| `StationEnrichment.ChicagoAreaMapper.AssignNext` | scripts/embellishStationData.py:136-151 | One turn of the loop extends the processed prefix by the next candidate and adds one to the update count exactly when it was updated |
| `StationEnrichment.ChicagoAreaMapper.AssignStation` | scripts/embellishStationData.py:137-151 | One station: updated exactly when its assignment exists, and then only its row changes |
| `StationEnrichment.ChicagoAreaMapper.ProcessStations` | scripts/embellishStationData.py:125-154 | The table becomes `AssignAreas` of the old one. The update count is that of the candidates, and the two counts add up to the number of candidates |
| `StationEnrichment.ChicagoAreaMapper.ShowCommunityAreaSummary` | scripts/embellishStationData.py:166-189 | The reported total is the number of stations with an area |

## Left out

The outside world:
- Network and database: HTTP requests to the bucket and the city portal, the
  listing's XML parsing, and psycopg2 connections and cursors. Each is given
  as data: a key list, a `Remote`/`Fetch` outcome per name, feature lists, or
  `DbState` with `Database`.
- pandas `read_csv` and `iterrows`: a file is a sequence of parsed chunks, or
  a read error.
- shapely `shape` and `contains`: a geometry is a type parameter, and
  containment is a predicate passed in.
- `datetime.now()`: a `YearMonth` parameter. The source reads the clock once
  per key; a run across a month boundary is not modelled.
- The timestamp parsing behind `EXTRACT(day/month/year ...)`: a
  `dateOf` parameter.

Output and command-line glue:
- `print` output, progress percentages and sizes, `input()` confirmation,
  argparse, dotenv and `main`.
- `list_downloaded_files` and `cleanup` only print or close the connection.
- `connect_to_database` and `download_community_areas` are I/O.

The filesystem:
- Directories are not modelled: `mkdir` and `os.makedirs` are left out, and
  the filesystem is a set of file paths.
- File contents and sizes are not modelled.
- In `download_file` and `extract_file`, only the failures the source names
  are modelled: `RequestException`, a bad zip and a missing CSV entry. Other
  OS errors are not.

Database behaviour:
- Statement errors are not modelled: an insert rejected by a column type, or
  a failing UPDATE in the enrichment. Every statement is assumed to succeed.
- `Cells.TextValue`: a missing field of a trip is stored as NULL. psycopg2
  sends pandas' NaN as `'NaN'::float` instead. A text column then holds the
  text 'NaN', and a column of another type rejects the statement. The table
  schema is not part of this model, so the model stores NULL. The counters
  agree either way: the source's join at lines 94-95 and 113-114 finds no
  station 'NaN', and the model's `IS NOT NULL` test drops the trip.
- `Aggregation.ApplyTallies`: a new `station_days` row gets 0 in the two
  columns each INSERT at lines 85 and 104 leaves out. This assumes a column
  default of 0. The schema is not part of this model, and without that
  default `NULL + n` would stay NULL.
- How the driver converts a NaN name or coordinate for the database is not
  modelled. A station row keeps the field as pandas gave it, and coordinates
  are `real`.
- The `updated_at` column and the `trips_raw` columns the aggregation never
  reads are not modelled: names, coordinates and `member_casual`.
- The importer's `stations` table and the enrichment's `"Station"` table are
  separate models.
- The enrichment's final commit is not modelled. The mapper has one table
  state, and its only writes are the updates.

Python value semantics:
- NaN identity: Python's `in` on a set compares NaN by identity, and pandas
  may hand back a new NaN object per row. The model has one key for every
  missing value, so `TripImport.MissingIdPassesAsWritten` shows the as-written
  guard admitting a missing id once, not once per row.
- The float text of a `Real` cell is carried as given (`repr`). Float
  formatting is not modelled.
- `AreaLookup.CoordOf`: a coordinate field holding text is treated as
  missing. The source's comparison would raise `TypeError` and fail the file.
- `StationEnrichment.IntOf`: `int()` on strings with surrounding whitespace,
  a leading '+', underscores or non-ASCII decimal digits gives None here;
  Python accepts them. Float-valued and boolean properties are not
  modelled either: `int(2.0) == 2` and `int(True) == 1` in Python, but a
  property here is null, an integer or a string.
- `Cells.CleanColumn`: `str.lower()` lowers only the ASCII capitals here.
  Python lowers every Unicode capital, and some of them to two characters
  ('İ' becomes 'i' plus a combining dot). So "keeps its length" holds for
  ASCII headers only.
- `BucketSync.KeyDate`: `\d` matches only the ASCII digits 0-9 here. Python's
  `\d` and `int()` also accept other Unicode decimal digits.
- `BucketSync.DataPath`: `os.path.join` is modelled as joining with '/'.
  Python returns the second part unchanged when it is absolute, so an
  archive entry such as "/x.csv" would be written outside `divvy_data`.
- `shape()` rejecting a geometry, and features without `properties`, are not
  modelled.

Reports:
- `StationEnrichment.ChicagoAreaMapper.ShowCommunityAreaSummary`: only the
  total is returned. The per-area lines, their `ORDER BY` order and their
  area names are printed output.
- `Downloader.DivvyDownloader.DownloadYear` returns the failure list too. The
  source only prints it.

## Findings

| source | as written | input that shows it | evidently intended | confidence | as-written member | corrected member |
|---|---|---|---|---|---|---|
| scripts/import_with_community_areas.py:171-190 | The guard `row.get('start_station_id') and ... not in stations_processed` admits a missing id: pandas reads it as NaN, and NaN is truthy. `process_station` then gets `str(nan) == "nan"` | A CSV row with empty start station id and name | Rows without a station id are skipped | high, not executed | `TripImport.MissingIdPassesAsWritten` (with `TripImport.StationGuardAsWritten`, `TripImport.MissingIdVisitedAsWritten` and `TripImport.ImportCsvsAsWritten`) | `TripImport.MissingIdSkipped` (with `TripImport.StationGuard`, and `TripImport.RunImportSound` proving no missing id is ever handed over) |
| scripts/import_with_community_areas.py:229-233 | `aggregate_daily_data` runs and the connection is closed without a commit. psycopg2 then discards the aggregation | Any run | The daily counters are committed | high, not executed | `TripImport.AggregationDiscardedAsWritten` (with `TripImport.RunAsWrittenKeepsOldDays` over `TripImport.FinishAsWritten`) | `TripImport.FinishCommitsAggregation` (with `TripImport.RunImportSound` over `TripImport.Finish`, used by `TripImport.ImportCsvs`) |
| scripts/download_divvy_data.py:117-149 | With no CSV entry in the archive, `continue` leaves the loop before the temporary zip is unlinked. A transfer that breaks off mid-stream goes to the outer handler, which never unlinks the file either | An archive without CSV entries, or a connection dropped during `iter_content` | The temporary zip is removed on every path that created it | high, not executed | `BucketSync.TempFileLeftBehind` (with `BucketSync.StepAsWritten`, `BucketSync.RunLeavesTempAsWritten` and `BucketSync.DownloadDivvyData` run with `AsWritten`) | `BucketSync.RunLeavesOnlyData` (with `BucketSync.SyncStep`, used by `BucketSync.DownloadDivvyData` run with `Corrected`) |
