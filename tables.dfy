/**
 * The three database tables the importer writes: stations keyed by their
 * station id, the raw trips, and the per-station daily counters. The raw
 * trip table keeps each ride id at most once: an insert whose ride id is
 * already stored does nothing.
 */
module Tables {
  import opened Wrappers
  import opened Cells
  import opened AreaLookup

  /** A row of trips_raw, restricted to the columns the aggregation reads.
      Timestamps are kept as the text the CSV held. */
  datatype Trip = Trip(
    rideId: string,
    rideableType: Option<string>,
    startedAt: Option<string>,
    endedAt: Option<string>,
    startStationId: Option<string>,
    endStationId: Option<string>)

  /** A row of stations: its serial primary key and what the last upsert wrote. */
  datatype Station = Station(pk: nat, name: Cell, lat: Option<real>, lng: Option<real>, area: Option<Area>)

  /** The unique key of station_days. */
  datatype DayKey = DayKey(station: nat, day: int, month: int, year: int)

  datatype Counters = Counters(acousticDepart: nat, electricDepart: nat, acousticArrive: nat, electricArrive: nat)

  datatype Tables = Tables(stations: map<string, Station>, trips: seq<Trip>, days: map<DayKey, Counters>)

  function RideIds(trips: seq<Trip>): set<string> {
    set t | t in trips :: t.rideId
  }

  predicate UniqueRideIds(trips: seq<Trip>) {
    forall i, j :: 0 <= i < j < |trips| ==> trips[i].rideId != trips[j].rideId
  }

  /** INSERT ... ON CONFLICT (ride_id) DO NOTHING for each trip of the batch
      in turn (executemany). Stored rows are never changed or removed, a
      trip is added exactly when its ride id is not yet stored, and the ride
      ids stay unique. */
  function InsertAll(trips: seq<Trip>, batch: seq<Trip>): (r: seq<Trip>)
    ensures trips <= r
    ensures RideIds(r) == RideIds(trips) + RideIds(batch)
    ensures UniqueRideIds(trips) ==> UniqueRideIds(r)
    decreases |batch|
  {
    if batch == [] then trips
    else
      var front := batch[..|batch| - 1];
      var t := batch[|batch| - 1];
      var prev := InsertAll(trips, front);
      assert batch == front + [t];
      RideIdsSnoc(front, t);
      if t.rideId in RideIds(prev) then prev
      else
        RideIdsSnoc(prev, t);
        UniqueSnoc(prev, t);
        prev + [t]
  }

  /** One more trip of the batch: inserted exactly when its ride id is not yet stored. */
  lemma InsertAllSnoc(trips: seq<Trip>, batch: seq<Trip>, i: nat)
    requires i < |batch|
    ensures var prev := InsertAll(trips, batch[..i]);
      InsertAll(trips, batch[..i + 1]) == if batch[i].rideId in RideIds(prev) then prev else prev + [batch[i]]
  {
    assert batch[..i + 1][..i] == batch[..i];
  }

  lemma RideIdsSnoc(trips: seq<Trip>, t: Trip)
    ensures RideIds(trips + [t]) == RideIds(trips) + {t.rideId}
  {
    assert forall u :: u in trips + [t] <==> u in trips || u == t;
  }

  lemma UniqueSnoc(trips: seq<Trip>, t: Trip)
    requires t.rideId !in RideIds(trips)
    ensures UniqueRideIds(trips) ==> UniqueRideIds(trips + [t])
  {
    assert forall i :: 0 <= i < |trips| ==> trips[i] in trips;
  }

  /** Row j of the batch is the first one carrying its ride id. */
  predicate FirstWithId(batch: seq<Trip>, j: int) {
    0 <= j < |batch| && forall k :: 0 <= k < j ==> batch[k].rideId != batch[j].rideId
  }

  lemma InRideIds(trips: seq<Trip>, k: int)
    requires 0 <= k < |trips|
    ensures trips[k].rideId in RideIds(trips)
  {
    assert trips[k] in trips;
  }

  /** A first row of the front of the batch is a first row of the batch. */
  lemma FirstWithIdFront(batch: seq<Trip>, j: int)
    requires batch != [] && FirstWithId(batch[..|batch| - 1], j)
    ensures FirstWithId(batch, j)
  {
    var front := batch[..|batch| - 1];
    forall k | 0 <= k < j ensures batch[k].rideId != batch[j].rideId {
      assert batch[k] == front[k] && batch[j] == front[j];
    }
  }

  /** The last row of the batch is a first row exactly when no earlier row
      carries its ride id. */
  lemma FirstWithIdLast(batch: seq<Trip>)
    requires batch != []
    ensures FirstWithId(batch, |batch| - 1) <==> batch[|batch| - 1].rideId !in RideIds(batch[..|batch| - 1])
  {
    var front := batch[..|batch| - 1];
    var t := batch[|batch| - 1];
    if t.rideId in RideIds(front) {
      var u :| u in front && u.rideId == t.rideId;
      var k :| 0 <= k < |front| && front[k] == u;
      assert batch[k] == u;
    } else {
      forall k | 0 <= k < |front| ensures batch[k].rideId != t.rideId {
        InRideIds(front, k);
        assert batch[k] == front[k];
      }
    }
  }

  /** The last row of the batch is inserted exactly when its ride id is not yet stored. */
  lemma InsertAllLast(trips: seq<Trip>, batch: seq<Trip>)
    requires batch != []
    ensures var prev := InsertAll(trips, batch[..|batch| - 1]);
      var t := batch[|batch| - 1];
      InsertAll(trips, batch) == if t.rideId in RideIds(prev) then prev else prev + [t]
  {
  }

  /** x was not stored and is the first row of the batch with its ride id. */
  predicate NewFirstRow(trips: seq<Trip>, batch: seq<Trip>, x: Trip) {
    x.rideId !in RideIds(trips) && exists j :: 0 <= j < |batch| && FirstWithId(batch, j) && batch[j] == x
  }

  /** A row that qualifies for the front of the batch qualifies for the batch. */
  lemma NewFirstRowFront(trips: seq<Trip>, batch: seq<Trip>, x: Trip)
    requires batch != [] && NewFirstRow(trips, batch[..|batch| - 1], x)
    ensures NewFirstRow(trips, batch, x)
  {
    var front := batch[..|batch| - 1];
    var j :| 0 <= j < |front| && FirstWithId(front, j) && front[j] == x;
    FirstWithIdFront(batch, j);
    assert batch[j] == x;
  }

  /** The last row of the batch, when inserted, qualifies. */
  lemma NewFirstRowLast(trips: seq<Trip>, batch: seq<Trip>)
    requires batch != []
    requires batch[|batch| - 1].rideId !in RideIds(InsertAll(trips, batch[..|batch| - 1]))
    ensures NewFirstRow(trips, batch, batch[|batch| - 1])
  {
    FirstWithIdLast(batch);
  }

  /** A first row of the batch other than its last is a first row of its front. */
  lemma FirstWithIdOfFront(batch: seq<Trip>, j: int)
    requires FirstWithId(batch, j) && j < |batch| - 1
    ensures FirstWithId(batch[..|batch| - 1], j)
  {
    var front := batch[..|batch| - 1];
    assert forall k :: 0 <= k <= j ==> front[k] == batch[k];
  }

  /** The rows the insert adds are rows of the batch: each is the first
      row of the batch with its ride id, which was not stored before. */
  lemma {:induction false} InsertedRowsFromBatch(trips: seq<Trip>, batch: seq<Trip>)
    ensures var r := InsertAll(trips, batch);
      forall i :: |trips| <= i < |r| ==> NewFirstRow(trips, batch, r[i])
    decreases |batch|
  {
    if batch != [] {
      var front := batch[..|batch| - 1];
      var prev := InsertAll(trips, front);
      var r := InsertAll(trips, batch);
      InsertedRowsFromBatch(trips, front);
      InsertAllLast(trips, batch);
      forall i | |trips| <= i < |r| ensures NewFirstRow(trips, batch, r[i]) {
        if i < |prev| {
          NewFirstRowFront(trips, batch, prev[i]);
        } else {
          NewFirstRowLast(trips, batch);
        }
      }
    }
  }

  /** The last row of the batch, when it is a first row with a new ride id, is added. */
  lemma LastRowInserted(trips: seq<Trip>, batch: seq<Trip>)
    requires batch != [] && FirstWithId(batch, |batch| - 1) && batch[|batch| - 1].rideId !in RideIds(trips)
    ensures batch[|batch| - 1] in InsertAll(trips, batch)[|trips|..]
  {
    var prev := InsertAll(trips, batch[..|batch| - 1]);
    InsertAllLast(trips, batch);
    FirstWithIdLast(batch);
    assert InsertAll(trips, batch)[|trips|..] == prev[|trips|..] + [batch[|batch| - 1]];
  }

  /** A row added for the front of the batch stays added. */
  lemma FrontRowKept(trips: seq<Trip>, batch: seq<Trip>, x: Trip)
    requires batch != [] && x in InsertAll(trips, batch[..|batch| - 1])[|trips|..]
    ensures x in InsertAll(trips, batch)[|trips|..]
  {
    var prev := InsertAll(trips, batch[..|batch| - 1]);
    InsertAllLast(trips, batch);
    var t := batch[|batch| - 1];
    if t.rideId !in RideIds(prev) {
      SuffixSnoc(trips, prev, t, x);
    }
  }

  lemma SuffixSnoc(trips: seq<Trip>, prev: seq<Trip>, t: Trip, x: Trip)
    requires trips <= prev && x in prev[|trips|..]
    ensures x in (prev + [t])[|trips|..]
  {
    assert (prev + [t])[|trips|..] == prev[|trips|..] + [t];
  }

  /** Every first row of the batch whose ride id was not stored is added. */
  lemma {:induction false} FirstRowsInserted(trips: seq<Trip>, batch: seq<Trip>)
    ensures var r := InsertAll(trips, batch);
      forall j :: FirstWithId(batch, j) && batch[j].rideId !in RideIds(trips) ==> batch[j] in r[|trips|..]
    decreases |batch|
  {
    if batch != [] {
      var n := |batch|;
      var front := batch[..n - 1];
      FirstRowsInserted(trips, front);
      forall j | FirstWithId(batch, j) && batch[j].rideId !in RideIds(trips)
        ensures batch[j] in InsertAll(trips, batch)[|trips|..]
      {
        if j < n - 1 {
          FirstWithIdOfFront(batch, j);
          assert front[j] == batch[j];
          FrontRowKept(trips, batch, batch[j]);
        } else {
          LastRowInserted(trips, batch);
        }
      }
    }
  }

  /** A ride id already stored gets no second row, whatever the batch holds. */
  lemma StoredRideNotDuplicated(trips: seq<Trip>, batch: seq<Trip>)
    requires UniqueRideIds(trips)
    ensures forall i :: |trips| <= i < |InsertAll(trips, batch)| ==> InsertAll(trips, batch)[i].rideId !in RideIds(trips)
  {
  }
}
