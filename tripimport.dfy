/**
 * The importer's database connection and what its statements do to the
 * tables.
 *
 * The connection sees two versions of the tables: what is committed and
 * what the open transaction has written on top of it. A commit makes the
 * open transaction's tables the committed ones, a rollback throws them away.
 * The stations id sequence is not transactional: a rollback does not hand
 * back the ids it gave out.
 */
module TripImport {
  import opened Wrappers
  import opened Text
  import opened Cells
  import opened AreaLookup
  import opened Tables
  import opened Aggregation

  datatype DbState = DbState(committed: Tables, working: Tables, nextPk: nat)

  /** Every station pk was drawn from the sequence before `nextPk`. */
  predicate PksBelow(stations: map<string, Station>, nextPk: nat) {
    forall id :: id in stations ==> stations[id].pk < nextPk
  }

  /** The serial primary key does not repeat. */
  predicate DistinctPks(stations: map<string, Station>) {
    forall a, b :: a in stations && b in stations && a != b ==> stations[a].pk != stations[b].pk
  }

  predicate TablesOk(t: Tables, nextPk: nat) {
    UniqueRideIds(t.trips) && PksBelow(t.stations, nextPk) && DistinctPks(t.stations)
  }

  /** The invariant of the connection: both versions of the tables keep
      ride ids unique and station pks distinct and already drawn. */
  predicate StateOk(s: DbState) {
    TablesOk(s.committed, s.nextPk) && TablesOk(s.working, s.nextPk)
  }

  function Committed(s: DbState): DbState {
    s.(committed := s.working)
  }

  function RolledBack(s: DbState): DbState {
    s.(working := s.committed)
  }

  // ---------------------------------------------------------------------
  // process_station
  // ---------------------------------------------------------------------

  /** process_station's guard: `not station_id or not station_name` declines. */
  predicate Accepts(stationId: string, name: Option<Cell>) {
    stationId != "" && PresentAndTruthy(name)
  }

  /** The row process_station writes for a station: the name, the two
      coordinates and the community area looked up from them. */
  function StationRow(pk: nat, name: Cell, lat: Option<Cell>, lng: Option<Cell>): Station {
    Station(pk, name, CoordOf(lat), CoordOf(lng), LookupArea(CoordOf(lat), CoordOf(lng)))
  }

  /** process_station on the open transaction, with the pk it returns. A
      declined call changes nothing and returns None. A known station id
      keeps its pk and has its row rewritten; a new one gets the next pk of
      the sequence. No other station changes, the table grows by at most one
      row, and the invariant of the connection is kept. */
  function UpsertStation(s: DbState, stationId: string, name: Option<Cell>, lat: Option<Cell>, lng: Option<Cell>)
    : (r: (DbState, Option<nat>))
    ensures !Accepts(stationId, name) ==> r == (s, None)
    ensures Accepts(stationId, name) ==> (r.1.Some?
      && r.0.working.stations == s.working.stations[stationId := StationRow(r.1.value, name.value, lat, lng)])
    ensures Accepts(stationId, name) && stationId in s.working.stations ==>
      r.1 == Some(s.working.stations[stationId].pk) && r.0.nextPk == s.nextPk
    ensures Accepts(stationId, name) && stationId !in s.working.stations ==>
      r.1 == Some(s.nextPk) && r.0.nextPk == s.nextPk + 1
    ensures r.0.committed == s.committed && r.0.working.trips == s.working.trips && r.0.working.days == s.working.days
    ensures |r.0.working.stations| <= |s.working.stations| + 1
    ensures StateOk(s) ==> StateOk(r.0)
  {
    if !Accepts(stationId, name) then (s, None)
    else if stationId in s.working.stations then
      var pk := s.working.stations[stationId].pk;
      var stations := s.working.stations[stationId := StationRow(pk, name.value, lat, lng)];
      assert stations.Keys == s.working.stations.Keys;
      (s.(working := s.working.(stations := stations)), Some(pk))
    else
      var pk := s.nextPk;
      var stations := s.working.stations[stationId := StationRow(pk, name.value, lat, lng)];
      assert stations.Keys == s.working.stations.Keys + {stationId};
      (s.(working := s.working.(stations := stations), nextPk := pk + 1), Some(pk))
  }

  /** The row of group k once the groups outside `todo` have been upserted. */
  function Done(days: map<DayKey, Counters>, tallies: map<DayKey, Tally>, todo: set<DayKey>, pass: Pass, k: DayKey): Counters
    requires k in days || (k in tallies && k !in todo)
  {
    if k in tallies && k !in todo then AddTally(CountersAt(days, k), tallies[k], pass) else days[k]
  }

  /** The executemany loop behind Database.InsertTrips: each trip of the
      batch is inserted unless its ride id is already stored. */
  method InsertBatch(stored: seq<Trip>, batch: seq<Trip>) returns (trips: seq<Trip>)
    ensures trips == InsertAll(stored, batch)
  {
    trips := stored;
    for i := 0 to |batch|
      invariant trips == InsertAll(stored, batch[..i])
    {
      InsertAllSnoc(stored, batch, i);
      if batch[i].rideId !in RideIds(trips) {
        trips := trips + [batch[i]];
      }
    }
    assert batch[..|batch|] == batch;
  }

  // ---------------------------------------------------------------------
  // The connection
  // ---------------------------------------------------------------------

  class Database {
    var committed: Tables
    var working: Tables
    var nextPk: nat

    function State(): DbState
      reads this
    {
      DbState(committed, working, nextPk)
    }

    /** A fresh connection: no open work on top of the committed tables. */
    constructor (tables: Tables, nextPk: nat)
      ensures State() == DbState(tables, tables, nextPk)
    {
      committed := tables;
      working := tables;
      this.nextPk := nextPk;
    }

    method Commit()
      modifies this
      ensures State() == Committed(old(State()))
    {
      committed := working;
    }

    method Rollback()
      modifies this
      ensures State() == RolledBack(old(State()))
    {
      working := committed;
    }

    /** process_station: the SELECT of the station's pk, then the UPDATE of
        its row or the INSERT ... RETURNING id of a new one. */
    method ProcessStation(stationId: string, name: Option<Cell>, lat: Option<Cell>, lng: Option<Cell>)
      returns (pk: Option<nat>)
      modifies this
      ensures (State(), pk) == UpsertStation(old(State()), stationId, name, lat, lng)
    {
      if stationId == "" || !PresentAndTruthy(name) {
        return None;
      }
      if stationId in working.stations {
        var existing := working.stations[stationId].pk;
        working := working.(stations := working.stations[stationId := StationRow(existing, name.value, lat, lng)]);
        pk := Some(existing);
      } else {
        var newPk := nextPk;
        nextPk := nextPk + 1;
        working := working.(stations := working.stations[stationId := StationRow(newPk, name.value, lat, lng)]);
        pk := Some(newPk);
      }
    }

    /** executemany of INSERT INTO trips_raw ... ON CONFLICT (ride_id) DO NOTHING. */
    method InsertTrips(batch: seq<Trip>)
      modifies this
      ensures State() == old(State()).(working := old(working).(trips := InsertAll(old(working.trips), batch)))
    {
      var trips := InsertBatch(working.trips, batch);
      working := working.(trips := trips);
    }

    /** One INSERT INTO station_days ... SELECT ... GROUP BY ... ON CONFLICT
        DO UPDATE: every group of the pass is added to its row in turn. */
    method UpsertPass(tallies: map<DayKey, Tally>, pass: Pass)
      modifies this
      ensures State() == old(State()).(working := old(working).(days := ApplyTallies(old(working.days), tallies, pass)))
    {
      var todo := tallies.Keys;
      while todo != {}
        invariant todo <= tallies.Keys
        invariant committed == old(committed) && nextPk == old(nextPk)
        invariant working.stations == old(working.stations) && working.trips == old(working.trips)
        invariant working.days.Keys == old(working.days).Keys + (tallies.Keys - todo)
        invariant forall k :: k in working.days ==> working.days[k] == Done(old(working.days), tallies, todo, pass, k)
        decreases todo
      {
        var k :| k in todo;
        assert CountersAt(working.days, k) == CountersAt(old(working.days), k);
        working := working.(days := working.days[k := AddTally(CountersAt(working.days, k), tallies[k], pass)]);
        todo := todo - {k};
      }
      assert working.days == ApplyTallies(old(working.days), tallies, pass);
    }

    /** aggregate_daily_data: the departure pass, then the arrival pass, each
        grouping the trips and stations the open transaction sees. */
    method AggregateDaily(dateOf: string -> Date)
      modifies this
      ensures State() == old(State()).(working := old(working).(
        days := AggregateDays(old(working.days), old(working.trips), old(working.stations), dateOf)))
    {
      UpsertPass(Tallies(working.trips, Departures, working.stations, dateOf), Departures);
      UpsertPass(Tallies(working.trips, Arrivals, working.stations, dateOf), Arrivals);
    }
  }

  // ---------------------------------------------------------------------
  // The import loop as a function of its inputs
  // ---------------------------------------------------------------------

  /** A chunk as pd.read_csv delivers it, or the error raised reading it. */
  datatype Chunk = Parsed(frame: Frame) | ReadError

  /** Where the import stands: the connection, the station ids already seen
      (stations_processed), the number of rows submitted (total_rows), and
      the ids handed to process_station so far, in order. */
  datatype Progress = Progress(db: DbState, processed: set<CellKey>, totalRows: nat, calls: seq<Cell>)

  /** The two ends of a trip, each with its own four columns. */
  datatype Endpoint = Start | End

  function IdColumn(e: Endpoint): string {
    if e == Start then "start_station_id" else "end_station_id"
  }

  function NameColumn(e: Endpoint): string {
    if e == Start then "start_station_name" else "end_station_name"
  }

  function LatColumn(e: Endpoint): string {
    if e == Start then "start_lat" else "end_lat"
  }

  function LngColumn(e: Endpoint): string {
    if e == Start then "start_lng" else "end_lng"
  }

  /** The decision of the loop at line 171 (and 182) as written: the id
      field is truthy and not yet seen. A missing id (NaN) is truthy. */
  predicate StationGuardAsWritten(id: Option<Cell>, processed: set<CellKey>) {
    PresentAndTruthy(id) && KeyOf(id.value) !in processed
  }

  /** The decision as intended: a present, non-missing, truthy id not yet seen. */
  predicate StationGuard(id: Option<Cell>, processed: set<CellKey>) {
    PresentAndTruthy(id) && !id.value.Null? && KeyOf(id.value) !in processed
  }

  /** Which of the two decisions the stations pass takes. */
  datatype Guard = AsWritten | Corrected

  predicate Admits(g: Guard, id: Option<Cell>, processed: set<CellKey>) {
    if g == AsWritten then StationGuardAsWritten(id, processed) else StationGuard(id, processed)
  }

  /** One end of a row: when the guard lets its id through, process_station
      is called with str() of the id and the id is marked as seen, whether
      or not process_station accepted it. */
  function VisitStation(g: Guard, p: Progress, columns: seq<string>, row: seq<Cell>, e: Endpoint): (r: Progress)
    ensures r.totalRows == p.totalRows
    ensures var id := Get(columns, row, IdColumn(e));
      if Admits(g, id, p.processed) then
        r.processed == p.processed + {KeyOf(id.value)} && r.calls == p.calls + [id.value]
        && r.db == UpsertStation(p.db, StrOf(id.value), Get(columns, row, NameColumn(e)),
                                 Get(columns, row, LatColumn(e)), Get(columns, row, LngColumn(e))).0
      else r == p
  {
    var id := Get(columns, row, IdColumn(e));
    if Admits(g, id, p.processed) then
      var (db, _) := UpsertStation(p.db, StrOf(id.value), Get(columns, row, NameColumn(e)),
                                   Get(columns, row, LatColumn(e)), Get(columns, row, LngColumn(e)));
      Progress(db, p.processed + {KeyOf(id.value)}, p.totalRows, p.calls + [id.value])
    else p
  }

  /** The stations pass over the rows of a chunk: start, then end, row by row. */
  function VisitRows(g: Guard, p: Progress, columns: seq<string>, rows: seq<seq<Cell>>): Progress
    decreases |rows|
  {
    if rows == [] then p
    else VisitRows(g, VisitStation(g, VisitStation(g, p, columns, rows[0], Start), columns, rows[0], End), columns, rows[1..])
  }

  /** A field as the database stores it: an absent column is not inserted
      and reads NULL, a missing field is NULL, anything else its text. */
  function Field(columns: seq<string>, row: seq<Cell>, name: string): Option<string> {
    match Get(columns, row, name)
    case None => None
    case Some(c) => TextValue(c)
  }

  /** The trip a row becomes, or None when dropna removes it for a missing ride_id. */
  function RowTrip(columns: seq<string>, row: seq<Cell>): (r: Option<Trip>)
    ensures r.Some? <==> Field(columns, row, "ride_id").Some?
    ensures r.Some? ==> r.value.rideId == Field(columns, row, "ride_id").value
  {
    match Field(columns, row, "ride_id")
    case None => None
    case Some(rideId) =>
      Some(Trip(rideId, Field(columns, row, "rideable_type"), Field(columns, row, "started_at"),
                Field(columns, row, "ended_at"), Field(columns, row, "start_station_id"), Field(columns, row, "end_station_id")))
  }

  /** The tuples of a chunk: one per row with a ride id, in row order. */
  function TripsOf(columns: seq<string>, rows: seq<seq<Cell>>): (r: seq<Trip>)
    ensures |r| <= |rows|
    ensures forall t :: t in r <==> exists i :: 0 <= i < |rows| && RowTrip(columns, rows[i]) == Some(t)
    decreases |rows|
  {
    if rows == [] then []
    else
      var rest := TripsOf(columns, rows[1..]);
      assert forall i :: 0 < i < |rows| ==> rows[i] == rows[1..][i - 1];
      match RowTrip(columns, rows[0])
      case None => rest
      case Some(t) => [t] + rest
  }

  /** The end of a chunk with trips: the insert, then the commit. */
  function InsertAndCommit(v: Progress, batch: seq<Trip>): Progress {
    var db := v.db.(working := v.db.working.(trips := InsertAll(v.db.working.trips, batch)));
    v.(db := Committed(db), totalRows := v.totalRows + |batch|)
  }

  datatype Outcome = Outcome(p: Progress, failed: bool)

  /** One chunk: clean the header, visit the stations, then insert the trips
      and commit. Without a ride_id column the column selection raises
      (KeyError) after the stations have been visited. A chunk with no trip
      inserts nothing and does not commit. */
  function ChunkStep(g: Guard, p: Progress, frame: Frame): Outcome {
    var columns := NormalizeHeader(frame.columns);
    var visited := VisitRows(g, p, columns, frame.rows);
    if "ride_id" !in columns then Outcome(visited, true)
    else
      var batch := TripsOf(columns, frame.rows);
      if batch == [] then Outcome(visited, false)
      else
        Outcome(InsertAndCommit(visited, batch), false)
  }

  /** A chunk that could not be read raises; a parsed one is imported. */
  function NextChunk(g: Guard, p: Progress, c: Chunk): Outcome {
    match c
    case ReadError => Outcome(p, true)
    case Parsed(frame) => ChunkStep(g, p, frame)
  }

  /** The chunks of a file in order, stopping at the first that fails. */
  function ReadChunks(g: Guard, p: Progress, chunks: seq<Chunk>): Outcome
    decreases |chunks|
  {
    if chunks == [] then Outcome(p, false)
    else
      var o := NextChunk(g, p, chunks[0]);
      if o.failed then o else ReadChunks(g, o.p, chunks[1..])
  }

  /** One file inside its try: on an error the open transaction is rolled
      back, and the seen ids and the row count are kept. */
  function FileStep(g: Guard, p: Progress, chunks: seq<Chunk>): Progress {
    var o := ReadChunks(g, p, chunks);
    if o.failed then o.p.(db := RolledBack(o.p.db)) else o.p
  }

  function ImportFiles(g: Guard, p: Progress, files: seq<string>, contents: string -> seq<Chunk>): Progress
    decreases |files|
  {
    if files == [] then p else ImportFiles(g, FileStep(g, p, contents(files[0])), files[1..], contents)
  }

  /** The glob of the CSV files of divvy_data over the names in it: the names
      ending in ".csv", except hidden ones, which `*` does not match. */
  predicate Globbed(name: string) {
    EndsWith(name, ".csv") && !StartsWith(name, ".")
  }

  function CsvPaths(names: seq<string>): (r: seq<string>)
    ensures forall n :: n in names && Globbed(n) ==> "divvy_data/" + n in r
    ensures forall q :: q in r ==> exists n :: n in names && Globbed(n) && q == "divvy_data/" + n
    decreases |names|
  {
    if names == [] then []
    else
      var rest := CsvPaths(names[1..]);
      assert forall n :: n in names[1..] ==> n in names;
      if Globbed(names[0]) then ["divvy_data/" + names[0]] + rest else rest
  }

  /** The files the import visits, in the order of csv_files.sort(). */
  function CsvFiles(names: seq<string>): (r: seq<string>)
    ensures Sorted(r)
    ensures forall q :: q in r <==> q in CsvPaths(names)
  {
    var r := Sort(CsvPaths(names));
    assert forall q :: q in r <==> q in multiset(r);
    r
  }

  /** The open transaction after aggregate_daily_data. */
  function Aggregated(s: DbState, dateOf: string -> Date): DbState {
    s.(working := s.working.(days := AggregateDays(s.working.days, s.working.trips, s.working.stations, dateOf)))
  }

  /** The end of the run as written: aggregate, then close the connection,
      which discards whatever was not committed. */
  function FinishAsWritten(s: DbState, dateOf: string -> Date): DbState {
    RolledBack(Aggregated(s, dateOf))
  }

  /** The end of the run as intended: aggregate and commit. */
  function Finish(s: DbState, dateOf: string -> Date): DbState {
    Committed(Aggregated(s, dateOf))
  }

  /** import_csvs_to_postgres from a fresh run state, corrected: every
      listed CSV file in sorted order with the corrected guard, then the
      aggregation and its commit. */
  function RunImport(s: DbState, names: seq<string>, contents: string -> seq<Chunk>, dateOf: string -> Date): Progress {
    var p := ImportFiles(Corrected, Progress(s, {}, 0, []), CsvFiles(names), contents);
    p.(db := Finish(p.db, dateOf))
  }

  /** import_csvs_to_postgres as written: the guard that admits a missing
      id, and the close without a commit. */
  function RunImportAsWritten(s: DbState, names: seq<string>, contents: string -> seq<Chunk>, dateOf: string -> Date): Progress {
    var p := ImportFiles(AsWritten, Progress(s, {}, 0, []), CsvFiles(names), contents);
    p.(db := FinishAsWritten(p.db, dateOf))
  }

  // ---------------------------------------------------------------------
  // The import loop
  // ---------------------------------------------------------------------

  /** One end of a row in the stations pass (lines 171-179 for the start,
      182-190 for the end). */
  method VisitStationAt(g: Guard, db: Database, columns: seq<string>, row: seq<Cell>, e: Endpoint,
                        processed: set<CellKey>, totalRows: nat, ghost calls: seq<Cell>)
    returns (seen: set<CellKey>, ghost called: seq<Cell>)
    modifies db
    ensures VisitStation(g, Progress(old(db.State()), processed, totalRows, calls), columns, row, e)
      == Progress(db.State(), seen, totalRows, called)
  {
    seen, called := processed, calls;
    var id := Get(columns, row, IdColumn(e));
    if Admits(g, id, processed) {
      var _ := db.ProcessStation(StrOf(id.value), Get(columns, row, NameColumn(e)),
                                 Get(columns, row, LatColumn(e)), Get(columns, row, LngColumn(e)));
      seen := processed + {KeyOf(id.value)};
      called := calls + [id.value];
    }
  }

  /** The stations pass over the rows of a chunk. */
  method VisitChunkRows(g: Guard, db: Database, columns: seq<string>, rows: seq<seq<Cell>>,
                        processed: set<CellKey>, totalRows: nat, ghost calls: seq<Cell>)
    returns (seen: set<CellKey>, ghost called: seq<Cell>)
    modifies db
    ensures VisitRows(g, Progress(old(db.State()), processed, totalRows, calls), columns, rows)
      == Progress(db.State(), seen, totalRows, called)
  {
    seen, called := processed, calls;
    ghost var p0 := Progress(old(db.State()), processed, totalRows, calls);
    var i := 0;
    while i < |rows|
      invariant 0 <= i <= |rows|
      invariant VisitRows(g, p0, columns, rows) == VisitRows(g, Progress(db.State(), seen, totalRows, called), columns, rows[i..])
    {
      assert rows[i..][1..] == rows[i + 1..];
      seen, called := VisitStationAt(g, db, columns, rows[i], Start, seen, totalRows, called);
      seen, called := VisitStationAt(g, db, columns, rows[i], End, seen, totalRows, called);
      i := i + 1;
    }
    assert rows[i..] == [];
  }

  /** The body of the chunk loop. */
  method ImportChunk(g: Guard, db: Database, frame: Frame, processed: set<CellKey>, totalRows: nat, ghost calls: seq<Cell>)
    returns (failed: bool, seen: set<CellKey>, total: nat, ghost called: seq<Cell>)
    modifies db
    ensures ChunkStep(g, Progress(old(db.State()), processed, totalRows, calls), frame)
      == Outcome(Progress(db.State(), seen, total, called), failed)
  {
    var columns := NormalizeHeader(frame.columns);
    seen, called := VisitChunkRows(g, db, columns, frame.rows, processed, totalRows, calls);
    total := totalRows;
    if "ride_id" !in columns {
      return true, seen, total, called;
    }
    var batch := TripsOf(columns, frame.rows);
    if batch != [] {
      db.InsertTrips(batch);
      db.Commit();
      total := total + |batch|;
    }
    failed := false;
  }

  /** One turn of the chunk loop: reading the next chunk, then importing it. */
  method ReadChunk(g: Guard, db: Database, c: Chunk, processed: set<CellKey>, totalRows: nat, ghost calls: seq<Cell>)
    returns (failed: bool, seen: set<CellKey>, total: nat, ghost called: seq<Cell>)
    modifies db
    ensures NextChunk(g, Progress(old(db.State()), processed, totalRows, calls), c)
      == Outcome(Progress(db.State(), seen, total, called), failed)
  {
    match c {
      case ReadError =>
        return true, processed, totalRows, calls;
      case Parsed(frame) =>
        failed, seen, total, called := ImportChunk(g, db, frame, processed, totalRows, calls);
    }
  }

  /** What is left of a file's chunks: nothing after a failure, else the rest. */
  function Resume(g: Guard, p: Progress, chunks: seq<Chunk>, failed: bool): Outcome {
    if failed then Outcome(p, true) else ReadChunks(g, p, chunks)
  }

  /** Reading a file's chunks is one chunk, then resuming after it. */
  lemma ReadChunksUnfold(g: Guard, p: Progress, chunks: seq<Chunk>)
    requires chunks != []
    ensures var o := NextChunk(g, p, chunks[0]);
      ReadChunks(g, p, chunks) == Resume(g, o.p, chunks[1..], o.failed)
  {
  }

  /** The body of the file loop: the chunks inside the try, and the
      rollback of the except branch. */
  method ImportFile(g: Guard, db: Database, chunks: seq<Chunk>, processed: set<CellKey>, totalRows: nat, ghost calls: seq<Cell>)
    returns (seen: set<CellKey>, total: nat, ghost called: seq<Cell>)
    modifies db
    ensures FileStep(g, Progress(old(db.State()), processed, totalRows, calls), chunks)
      == Progress(db.State(), seen, total, called)
  {
    seen, total, called := processed, totalRows, calls;
    ghost var p0 := Progress(old(db.State()), processed, totalRows, calls);
    var failed := false;
    var i := 0;
    while i < |chunks| && !failed
      invariant 0 <= i <= |chunks|
      invariant ReadChunks(g, p0, chunks) == Resume(g, Progress(db.State(), seen, total, called), chunks[i..], failed)
    {
      ReadChunksUnfold(g, Progress(db.State(), seen, total, called), chunks[i..]);
      assert chunks[i..][1..] == chunks[i + 1..];
      failed, seen, total, called := ReadChunk(g, db, chunks[i], seen, total, called);
      i := i + 1;
    }
    if failed {
      db.Rollback();
    } else {
      assert chunks[i..] == [];
    }
  }

  /** The file loop of import_csvs_to_postgres over the sorted CSV files. */
  method ImportAll(g: Guard, db: Database, names: seq<string>, contents: string -> seq<Chunk>)
    returns (totalRows: nat, processed: set<CellKey>)
    modifies db
    ensures var r := ImportFiles(g, Progress(old(db.State()), {}, 0, []), CsvFiles(names), contents);
      db.State() == r.db && totalRows == r.totalRows && processed == r.processed
  {
    var files := CsvFiles(names);
    totalRows, processed := 0, {};
    ghost var calls: seq<Cell> := [];
    ghost var p0 := Progress(old(db.State()), {}, 0, []);
    var i := 0;
    while i < |files|
      invariant 0 <= i <= |files|
      invariant ImportFiles(g, p0, files, contents) == ImportFiles(g, Progress(db.State(), processed, totalRows, calls), files[i..], contents)
    {
      assert files[i..][1..] == files[i + 1..];
      processed, totalRows, calls := ImportFile(g, db, contents(files[i]), processed, totalRows, calls);
      i := i + 1;
    }
    assert files[i..] == [];
  }

  /** import_csvs_to_postgres corrected: the intended guard, and the
      aggregation committed at the end. */
  method ImportCsvs(db: Database, names: seq<string>, contents: string -> seq<Chunk>, dateOf: string -> Date)
    returns (totalRows: nat, processed: set<CellKey>)
    modifies db
    ensures var r := RunImport(old(db.State()), names, contents, dateOf);
      db.State() == r.db && totalRows == r.totalRows && processed == r.processed
  {
    totalRows, processed := ImportAll(Corrected, db, names, contents);
    db.AggregateDaily(dateOf);
    db.Commit();
  }

  /** import_csvs_to_postgres as written: the guard that admits a missing
      id, and the connection closed after the aggregation without a commit. */
  method ImportCsvsAsWritten(db: Database, names: seq<string>, contents: string -> seq<Chunk>, dateOf: string -> Date)
    returns (totalRows: nat, processed: set<CellKey>)
    modifies db
    ensures var r := RunImportAsWritten(old(db.State()), names, contents, dateOf);
      db.State() == r.db && totalRows == r.totalRows && processed == r.processed
  {
    totalRows, processed := ImportAll(AsWritten, db, names, contents);
    db.AggregateDaily(dateOf);
    db.Rollback();
  }

  // ---------------------------------------------------------------------
  // What a run keeps and what it promises
  // ---------------------------------------------------------------------

  /** The station calls hand each station id (as Python compares them) to
      process_station at most once, and every id handed over is marked as
      seen. With the corrected guard no missing id is ever handed over. */
  predicate CallsOk(g: Guard, p: Progress) {
    (forall i, j :: 0 <= i < j < |p.calls| ==> KeyOf(p.calls[i]) != KeyOf(p.calls[j]))
    && (forall i :: 0 <= i < |p.calls| ==> KeyOf(p.calls[i]) in p.processed && (g == Corrected ==> !p.calls[i].Null?))
  }

  /** Between chunks the open transaction holds no trips and no day
      counters beyond the committed ones. */
  predicate Consistent(g: Guard, p: Progress) {
    StateOk(p.db) && p.db.working.trips == p.db.committed.trips && p.db.working.days == p.db.committed.days
    && CallsOk(g, p)
  }

  /** What only grows during the import, and what it never touches: the
      committed trips are extended, seen ids and counts only grow, ids
      seen before are never handed over again, and station_days is left
      alone. */
  predicate Grows(p: Progress, q: Progress) {
    p.db.committed.trips <= q.db.committed.trips
    && p.processed <= q.processed && p.calls <= q.calls && p.totalRows <= q.totalRows
    && (forall i :: |p.calls| <= i < |q.calls| ==> KeyOf(q.calls[i]) !in p.processed)
    && q.db.committed.days == p.db.committed.days && q.db.working.days == p.db.working.days
  }

  lemma GrowsTransitive(p: Progress, q: Progress, r: Progress)
    requires Grows(p, q) && Grows(q, r)
    ensures Grows(p, r)
  {
    assert forall i :: |p.calls| <= i < |q.calls| ==> r.calls[i] == q.calls[i];
  }

  lemma VisitStationKeeps(g: Guard, p: Progress, columns: seq<string>, row: seq<Cell>, e: Endpoint)
    requires Consistent(g, p)
    ensures Consistent(g, VisitStation(g, p, columns, row, e)) && Grows(p, VisitStation(g, p, columns, row, e))
  {
    var id := Get(columns, row, IdColumn(e));
    if Admits(g, id, p.processed) {
      var db := UpsertStation(p.db, StrOf(id.value), Get(columns, row, NameColumn(e)),
                              Get(columns, row, LatColumn(e)), Get(columns, row, LngColumn(e))).0;
      CallAdded(g, p, id.value, db);
    }
  }

  /** Handing over one further id, not seen before, and not missing when
      the guard is the corrected one, keeps the call list in order and
      extends what was seen. */
  lemma CallAdded(g: Guard, p: Progress, c: Cell, db: DbState)
    requires CallsOk(g, p) && KeyOf(c) !in p.processed && (g == Corrected ==> !c.Null?)
    requires db.committed == p.db.committed && db.working.days == p.db.working.days
    ensures var q := Progress(db, p.processed + {KeyOf(c)}, p.totalRows, p.calls + [c]);
      CallsOk(g, q) && Grows(p, q)
  {
    var q := Progress(db, p.processed + {KeyOf(c)}, p.totalRows, p.calls + [c]);
    assert forall i :: 0 <= i < |p.calls| ==> q.calls[i] == p.calls[i];
    assert q.calls[|p.calls|] == c;
  }

  lemma {:induction false} VisitRowsKeeps(g: Guard, p: Progress, columns: seq<string>, rows: seq<seq<Cell>>)
    requires Consistent(g, p)
    ensures Consistent(g, VisitRows(g, p, columns, rows)) && Grows(p, VisitRows(g, p, columns, rows))
    decreases |rows|
  {
    if rows != [] {
      var a := VisitStation(g, p, columns, rows[0], Start);
      var b := VisitStation(g, a, columns, rows[0], End);
      VisitStationKeeps(g, p, columns, rows[0], Start);
      VisitStationKeeps(g, a, columns, rows[0], End);
      GrowsTransitive(p, a, b);
      VisitRowsKeeps(g, b, columns, rows[1..]);
      GrowsTransitive(p, b, VisitRows(g, b, columns, rows[1..]));
    }
  }

  /** The stations pass touches neither the committed tables nor the open
      transaction's trips. */
  lemma {:induction false} VisitRowsKeepsTrips(g: Guard, p: Progress, columns: seq<string>, rows: seq<seq<Cell>>)
    ensures VisitRows(g, p, columns, rows).db.committed == p.db.committed
    ensures VisitRows(g, p, columns, rows).db.working.trips == p.db.working.trips
    decreases |rows|
  {
    if rows != [] {
      var b := VisitStation(g, VisitStation(g, p, columns, rows[0], Start), columns, rows[0], End);
      VisitRowsKeepsTrips(g, b, columns, rows[1..]);
    }
  }

  /** Every trip a chunk adds to the committed trips is the trip of one of
      the chunk's rows, and the first row of the chunk with its ride id. */
  lemma ChunkTripsFromRows(g: Guard, p: Progress, frame: Frame)
    requires Consistent(g, p)
    ensures var q := ChunkStep(g, p, frame).p;
      var columns := NormalizeHeader(frame.columns);
      forall i :: |p.db.committed.trips| <= i < |q.db.committed.trips| ==>
        q.db.committed.trips[i].rideId !in RideIds(p.db.committed.trips)
        && exists k :: 0 <= k < |frame.rows| && RowTrip(columns, frame.rows[k]) == Some(q.db.committed.trips[i])
  {
    var columns := NormalizeHeader(frame.columns);
    var visited := VisitRows(g, p, columns, frame.rows);
    VisitRowsKeepsTrips(g, p, columns, frame.rows);
    var q := ChunkStep(g, p, frame).p;
    if "ride_id" in columns && TripsOf(columns, frame.rows) != [] {
      var batch := TripsOf(columns, frame.rows);
      var stored := p.db.committed.trips;
      assert q.db.committed.trips == InsertAll(stored, batch);
      InsertedRowsFromBatch(stored, batch);
      forall i | |stored| <= i < |q.db.committed.trips|
        ensures q.db.committed.trips[i].rideId !in RideIds(stored)
        ensures exists k :: 0 <= k < |frame.rows| && RowTrip(columns, frame.rows[k]) == Some(q.db.committed.trips[i])
      {
        assert NewFirstRow(stored, batch, q.db.committed.trips[i]);
        var j :| 0 <= j < |batch| && FirstWithId(batch, j) && batch[j] == q.db.committed.trips[i];
        assert batch[j] in batch;
      }
    } else {
      assert q.db.committed == visited.db.committed;
    }
  }

  lemma InsertAndCommitKeeps(g: Guard, v: Progress, batch: seq<Trip>)
    requires Consistent(g, v)
    ensures Consistent(g, InsertAndCommit(v, batch)) && Grows(v, InsertAndCommit(v, batch))
  {
    var q := InsertAndCommit(v, batch);
    assert q.db.committed == q.db.working;
    assert q.db.working.stations == v.db.working.stations;
  }

  lemma ChunkStepKeeps(g: Guard, p: Progress, frame: Frame)
    requires Consistent(g, p)
    ensures Consistent(g, ChunkStep(g, p, frame).p) && Grows(p, ChunkStep(g, p, frame).p)
  {
    var columns := NormalizeHeader(frame.columns);
    var visited := VisitRows(g, p, columns, frame.rows);
    VisitRowsKeeps(g, p, columns, frame.rows);
    if "ride_id" in columns && TripsOf(columns, frame.rows) != [] {
      var batch := TripsOf(columns, frame.rows);
      assert ChunkStep(g, p, frame).p == InsertAndCommit(visited, batch);
      InsertAndCommitKeeps(g, visited, batch);
      GrowsTransitive(p, visited, InsertAndCommit(visited, batch));
    }
  }

  lemma {:induction false} ReadChunksKeeps(g: Guard, p: Progress, chunks: seq<Chunk>)
    requires Consistent(g, p)
    ensures Consistent(g, ReadChunks(g, p, chunks).p) && Grows(p, ReadChunks(g, p, chunks).p)
    decreases |chunks|
  {
    if chunks != [] {
      var o := NextChunk(g, p, chunks[0]);
      if chunks[0].Parsed? {
        ChunkStepKeeps(g, p, chunks[0].frame);
      }
      if !o.failed {
        ReadChunksKeeps(g, o.p, chunks[1..]);
        GrowsTransitive(p, o.p, ReadChunks(g, o.p, chunks[1..]).p);
      }
    }
  }

  /** A file that fails is rolled back to what its last successful chunk
      committed, but the ids its stations pass marked as seen stay marked. */
  lemma FileStepKeeps(g: Guard, p: Progress, chunks: seq<Chunk>)
    requires Consistent(g, p)
    ensures Consistent(g, FileStep(g, p, chunks)) && Grows(p, FileStep(g, p, chunks))
    ensures FileStep(g, p, chunks).processed == ReadChunks(g, p, chunks).p.processed
    ensures ReadChunks(g, p, chunks).failed ==> FileStep(g, p, chunks).db.working == FileStep(g, p, chunks).db.committed
  {
    ReadChunksKeeps(g, p, chunks);
  }

  lemma {:induction false} ImportFilesKeeps(g: Guard, p: Progress, files: seq<string>, contents: string -> seq<Chunk>)
    requires Consistent(g, p)
    ensures Consistent(g, ImportFiles(g, p, files, contents)) && Grows(p, ImportFiles(g, p, files, contents))
    decreases |files|
  {
    if files != [] {
      var q := FileStep(g, p, contents(files[0]));
      FileStepKeeps(g, p, contents(files[0]));
      ImportFilesKeeps(g, q, files[1..], contents);
      GrowsTransitive(p, q, ImportFiles(g, q, files[1..], contents));
    }
  }

  /** A run from a fresh connection keeps ride ids unique and station pks
      distinct, hands each station id to process_station at most once and
      never a missing one, only adds trips to what was committed, and
      leaves committed the aggregation of all committed trips on top of the
      day counters it started from. */
  lemma RunImportSound(s: DbState, names: seq<string>, contents: string -> seq<Chunk>, dateOf: string -> Date)
    requires StateOk(s) && s.working == s.committed
    ensures var r := RunImport(s, names, contents, dateOf);
      && StateOk(r.db) && CallsOk(Corrected, r)
      && s.committed.trips <= r.db.committed.trips
      && r.db.committed.days == AggregateDays(s.committed.days, r.db.committed.trips, r.db.committed.stations, dateOf)
  {
    var p0 := Progress(s, {}, 0, []);
    ImportFilesKeeps(Corrected, p0, CsvFiles(names), contents);
  }

  // ---------------------------------------------------------------------
  // Findings
  // ---------------------------------------------------------------------

  /** As written, a row whose start (or end) station id and name are both
      missing passes the guard, and process_station stores a station with
      the id "nan". */
  lemma MissingIdPassesAsWritten(s: DbState, processed: set<CellKey>, lat: Option<Cell>, lng: Option<Cell>)
    requires KNan !in processed
    ensures StationGuardAsWritten(Some(Null), processed)
    ensures !StationGuard(Some(Null), processed)
    ensures "nan" in UpsertStation(s, StrOf(Null), Some(Null), lat, lng).0.working.stations
  {
  }

  /** The stations pass as written: the first row with a missing id at one
      end hands the missing id to process_station and marks it as seen, and
      with a truthy name (a missing one is truthy) a station "nan" is
      written. */
  lemma MissingIdVisitedAsWritten(p: Progress, columns: seq<string>, row: seq<Cell>, e: Endpoint)
    requires Get(columns, row, IdColumn(e)) == Some(Null) && KNan !in p.processed
    ensures var r := VisitStation(AsWritten, p, columns, row, e);
      r.calls == p.calls + [Null] && KNan in r.processed
      && (PresentAndTruthy(Get(columns, row, NameColumn(e))) ==> "nan" in r.db.working.stations)
  {
  }

  /** With the intended guard a row without the id, or with a missing one,
      changes nothing in the stations pass. */
  lemma MissingIdSkipped(p: Progress, columns: seq<string>, row: seq<Cell>, e: Endpoint)
    requires Get(columns, row, IdColumn(e)) in {None, Some(Null)}
    ensures VisitStation(Corrected, p, columns, row, e) == p
  {
  }

  /** As written the connection is closed without a commit after the
      aggregation: nothing the aggregation wrote survives, and neither do
      stations upserted after the last commit. */
  lemma AggregationDiscardedAsWritten(s: DbState, dateOf: string -> Date)
    ensures FinishAsWritten(s, dateOf).committed == s.committed
    ensures FinishAsWritten(s, dateOf).working == s.committed
  {
  }

  /** The whole run as written leaves the committed day counters as they
      were, and may hand the missing id to process_station once. */
  lemma RunAsWrittenKeepsOldDays(s: DbState, names: seq<string>, contents: string -> seq<Chunk>, dateOf: string -> Date)
    requires StateOk(s) && s.working == s.committed
    ensures var r := RunImportAsWritten(s, names, contents, dateOf);
      r.db.committed.days == s.committed.days && CallsOk(AsWritten, r)
  {
    ImportFilesKeeps(AsWritten, Progress(s, {}, 0, []), CsvFiles(names), contents);
  }

  /** With the commit the aggregation survives, over the trips and stations
      of the open transaction. */
  lemma FinishCommitsAggregation(s: DbState, dateOf: string -> Date)
    ensures Finish(s, dateOf).committed.days == AggregateDays(s.working.days, s.working.trips, s.working.stations, dateOf)
    ensures Finish(s, dateOf).committed.trips == s.working.trips && Finish(s, dateOf).committed.stations == s.working.stations
  {
  }
}
