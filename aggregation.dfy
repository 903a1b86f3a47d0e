/**
 * The daily aggregation: two INSERT ... SELECT ... GROUP BY statements,
 * one over trip starts (departures) and one over trip ends (arrivals).
 * Each groups the trips that have a timestamp and a station id known to the
 * stations table by (station pk, day, month, year), counts classic and docked
 * bikes as acoustic and electric bikes as electric, and adds the counts to
 * the existing counters of the group's row, creating the row if needed.
 *
 * A group's SQL grouping is written as a fold over the trips (`Tallies`),
 * checked against a plain count of the matching trips (`CountIn`). The upsert
 * is `ApplyTallies`.
 */
module Aggregation {
  import opened Wrappers
  import opened Cells
  import opened Tables

  /** What EXTRACT(day/month/year FROM ts) yields for a stored timestamp. */
  datatype Date = Date(year: int, month: int, day: int)

  datatype Pass = Departures | Arrivals

  /** The acoustic and the electric count of one group. */
  datatype Tally = Tally(acoustic: nat, electric: nat)

  predicate IsAcoustic(kind: Option<string>) {
    kind == Some("classic_bike") || kind == Some("docked_bike")
  }

  predicate IsElectric(kind: Option<string>) {
    kind == Some("electric_bike")
  }

  /** started_at for departures, ended_at for arrivals. */
  function TimeOf(t: Trip, pass: Pass): Option<string> {
    if pass == Departures then t.startedAt else t.endedAt
  }

  /** start_station_id for departures, end_station_id for arrivals. */
  function StationOf(t: Trip, pass: Pass): Option<string> {
    if pass == Departures then t.startStationId else t.endStationId
  }

  /** The group a trip falls into in a pass: its timestamp and station id for
      that pass must be present and the station must be in the stations
      table (the inner join). */
  function GroupKey(t: Trip, pass: Pass, stations: map<string, Station>, dateOf: string -> Date): (r: Option<DayKey>)
    ensures r.Some? <==> TimeOf(t, pass).Some? && StationOf(t, pass).Some? && StationOf(t, pass).value in stations
    ensures r.Some? ==> (StationOf(t, pass).Some? && StationOf(t, pass).value in stations
      && r.value.station == stations[StationOf(t, pass).value].pk)
  {
    var time := TimeOf(t, pass);
    var station := StationOf(t, pass);
    if time.Some? && station.Some? && station.value in stations then
      var d := dateOf(time.value);
      Some(DayKey(stations[station.value].pk, d.day, d.month, d.year))
    else None
  }

  /** The kinds of trip a count can select. */
  datatype Kind = Acoustic | Electric | AnyKind

  predicate HasKind(t: Trip, kind: Kind) {
    match kind
    case Acoustic => IsAcoustic(t.rideableType)
    case Electric => IsElectric(t.rideableType)
    case AnyKind => true
  }

  /** The number of trips of `kind` that fall into group k in the pass. */
  function CountIn(trips: seq<Trip>, pass: Pass, stations: map<string, Station>, dateOf: string -> Date,
                   k: DayKey, kind: Kind): nat
  {
    if trips == [] then 0
    else
      var t := trips[|trips| - 1];
      CountIn(trips[..|trips| - 1], pass, stations, dateOf, k, kind)
        + (if GroupKey(t, pass, stations, dateOf) == Some(k) && HasKind(t, kind) then 1 else 0)
  }

  function TallyAt(m: map<DayKey, Tally>, k: DayKey): Tally {
    if k in m then m[k] else Tally(0, 0)
  }

  /** One trip's contribution to its group's counts. */
  function Bump(t: Tally, kind: Option<string>): Tally {
    Tally(t.acoustic + (if IsAcoustic(kind) then 1 else 0), t.electric + (if IsElectric(kind) then 1 else 0))
  }

  /** The grouped counts of a pass. A group exists exactly when some trip
      falls into it, even if none of its trips is of a counted kind, and its
      counts are the numbers of acoustic and electric trips in it. */
  function Tallies(trips: seq<Trip>, pass: Pass, stations: map<string, Station>, dateOf: string -> Date)
    : (r: map<DayKey, Tally>)
    ensures forall k :: k in r <==> CountIn(trips, pass, stations, dateOf, k, AnyKind) > 0
    ensures forall k :: TallyAt(r, k) == Tally(CountIn(trips, pass, stations, dateOf, k, Acoustic),
                                               CountIn(trips, pass, stations, dateOf, k, Electric))
  {
    if trips == [] then map[]
    else
      var t := trips[|trips| - 1];
      var prev := Tallies(trips[..|trips| - 1], pass, stations, dateOf);
      match GroupKey(t, pass, stations, dateOf)
      case None => prev
      case Some(k) => prev[k := Bump(TallyAt(prev, k), t.rideableType)]
  }

  function CountersAt(days: map<DayKey, Counters>, k: DayKey): Counters {
    if k in days then days[k] else Counters(0, 0, 0, 0)
  }

  /** ON CONFLICT ... DO UPDATE SET c = c + EXCLUDED.c for the pass's two
      columns; a new row starts from zero counters. */
  function AddTally(c: Counters, t: Tally, pass: Pass): Counters {
    match pass
    case Departures =>
      Counters(c.acousticDepart + t.acoustic, c.electricDepart + t.electric, c.acousticArrive, c.electricArrive)
    case Arrivals =>
      Counters(c.acousticDepart, c.electricDepart, c.acousticArrive + t.acoustic, c.electricArrive + t.electric)
  }

  /** The upsert of a pass's groups into station_days. */
  function ApplyTallies(days: map<DayKey, Counters>, tallies: map<DayKey, Tally>, pass: Pass)
    : (r: map<DayKey, Counters>)
    ensures r.Keys == days.Keys + tallies.Keys
    ensures forall k :: CountersAt(r, k) == AddTally(CountersAt(days, k), TallyAt(tallies, k), pass)
  {
    map k | k in days.Keys + tallies.Keys :: if k in tallies then AddTally(CountersAt(days, k), tallies[k], pass) else days[k]
  }

  /** aggregate_daily_data: the departure pass, then the arrival pass. */
  function AggregateDays(days: map<DayKey, Counters>, trips: seq<Trip>, stations: map<string, Station>,
                         dateOf: string -> Date): map<DayKey, Counters>
  {
    var afterDepartures := ApplyTallies(days, Tallies(trips, Departures, stations, dateOf), Departures);
    ApplyTallies(afterDepartures, Tallies(trips, Arrivals, stations, dateOf), Arrivals)
  }

  /** The counters a group receives from one aggregation. */
  function Increase(trips: seq<Trip>, stations: map<string, Station>, dateOf: string -> Date, k: DayKey): Counters {
    Counters(CountIn(trips, Departures, stations, dateOf, k, Acoustic), CountIn(trips, Departures, stations, dateOf, k, Electric),
             CountIn(trips, Arrivals, stations, dateOf, k, Acoustic), CountIn(trips, Arrivals, stations, dateOf, k, Electric))
  }

  function Plus(a: Counters, b: Counters): Counters {
    Counters(a.acousticDepart + b.acousticDepart, a.electricDepart + b.electricDepart,
             a.acousticArrive + b.acousticArrive, a.electricArrive + b.electricArrive)
  }

  /** After an aggregation every group's four counters have grown by the
      number of acoustic and electric departures and arrivals it holds. */
  lemma AggregateAddsCounts(days: map<DayKey, Counters>, trips: seq<Trip>, stations: map<string, Station>,
                            dateOf: string -> Date, k: DayKey)
    ensures CountersAt(AggregateDays(days, trips, stations, dateOf), k) == Plus(CountersAt(days, k), Increase(trips, stations, dateOf, k))
  {
    var dep := Tallies(trips, Departures, stations, dateOf);
    var arr := Tallies(trips, Arrivals, stations, dateOf);
    TwoPassesAt(days, dep, arr, k);
    TallyOfGroup(trips, Departures, stations, dateOf, k);
    TallyOfGroup(trips, Arrivals, stations, dateOf, k);
  }

  lemma TallyOfGroup(trips: seq<Trip>, pass: Pass, stations: map<string, Station>, dateOf: string -> Date, k: DayKey)
    ensures TallyAt(Tallies(trips, pass, stations, dateOf), k)
      == Tally(CountIn(trips, pass, stations, dateOf, k, Acoustic), CountIn(trips, pass, stations, dateOf, k, Electric))
  {
  }

  /** After an aggregation a row exists for a group exactly when it existed
      before or some trip falls into it in either pass. */
  lemma AggregateCreatesRows(days: map<DayKey, Counters>, trips: seq<Trip>, stations: map<string, Station>,
                             dateOf: string -> Date, k: DayKey)
    ensures k in AggregateDays(days, trips, stations, dateOf) <==>
      k in days || CountIn(trips, Departures, stations, dateOf, k, AnyKind) > 0 || CountIn(trips, Arrivals, stations, dateOf, k, AnyKind) > 0
  {
    var dep := Tallies(trips, Departures, stations, dateOf);
    var arr := Tallies(trips, Arrivals, stations, dateOf);
    var mid := ApplyTallies(days, dep, Departures);
    assert mid.Keys == days.Keys + dep.Keys;
    assert ApplyTallies(mid, arr, Arrivals).Keys == mid.Keys + arr.Keys;
    assert k in dep <==> CountIn(trips, Departures, stations, dateOf, k, AnyKind) > 0;
    assert k in arr <==> CountIn(trips, Arrivals, stations, dateOf, k, AnyKind) > 0;
  }

  lemma AddBothPasses(c: Counters, d: Tally, a: Tally)
    ensures AddTally(AddTally(c, d, Departures), a, Arrivals) == Plus(c, Counters(d.acoustic, d.electric, a.acoustic, a.electric))
  {
  }

  /** Both upserts, seen at one key. */
  lemma TwoPassesAt(days: map<DayKey, Counters>, dep: map<DayKey, Tally>, arr: map<DayKey, Tally>, k: DayKey)
    ensures var r := ApplyTallies(ApplyTallies(days, dep, Departures), arr, Arrivals);
      && CountersAt(r, k) == Plus(CountersAt(days, k),
           Counters(TallyAt(dep, k).acoustic, TallyAt(dep, k).electric, TallyAt(arr, k).acoustic, TallyAt(arr, k).electric))
      && (k in r <==> k in days || k in dep || k in arr)
  {
    var mid := ApplyTallies(days, dep, Departures);
    var r := ApplyTallies(mid, arr, Arrivals);
    var c, d, a := CountersAt(days, k), TallyAt(dep, k), TallyAt(arr, k);
    assert CountersAt(mid, k) == AddTally(c, d, Departures);
    assert CountersAt(r, k) == AddTally(AddTally(c, d, Departures), a, Arrivals);
    AddBothPasses(c, d, a);
    assert r.Keys == days.Keys + dep.Keys + arr.Keys;
  }

  /** The upsert adds rather than replaces: aggregating the same trips a
      second time doubles what the first aggregation added. */
  lemma AggregateTwiceDoubles(days: map<DayKey, Counters>, trips: seq<Trip>, stations: map<string, Station>,
                              dateOf: string -> Date, k: DayKey)
    ensures var once := AggregateDays(days, trips, stations, dateOf);
      var inc := Increase(trips, stations, dateOf, k);
      CountersAt(AggregateDays(once, trips, stations, dateOf), k) == Plus(CountersAt(days, k), Plus(inc, inc))
  {
    AggregateAddsCounts(days, trips, stations, dateOf, k);
    AggregateAddsCounts(AggregateDays(days, trips, stations, dateOf), trips, stations, dateOf, k);
    var inc := Increase(trips, stations, dateOf, k);
    PlusAssociative(CountersAt(days, k), inc, inc);
  }

  lemma PlusAssociative(a: Counters, b: Counters, c: Counters)
    ensures Plus(Plus(a, b), c) == Plus(a, Plus(b, c))
  {
  }

  /** Trips without the pass's timestamp, without its station id, or whose
      station is not in the table change nothing in that pass. */
  lemma {:induction false} ExcludedTripsIgnored(trips: seq<Trip>, extra: seq<Trip>, pass: Pass,
                                                stations: map<string, Station>, dateOf: string -> Date)
    requires forall t :: t in extra ==> GroupKey(t, pass, stations, dateOf).None?
    ensures Tallies(trips + extra, pass, stations, dateOf) == Tallies(trips, pass, stations, dateOf)
    decreases |extra|
  {
    if extra != [] {
      var front := extra[..|extra| - 1];
      assert (trips + extra)[..|trips + extra| - 1] == trips + front;
      assert extra[|extra| - 1] in extra;
      assert forall t :: t in front ==> t in extra;
      ExcludedTripsIgnored(trips, front, pass, stations, dateOf);
    } else {
      assert trips + extra == trips;
    }
  }

  /** Legacy files put the numeric bike id into the rideable_type column;
      its decimal text is neither bike type, so such trips are counted in
      no acoustic or electric column. */
  lemma LegacyBikeIdsNotCounted(bikeId: int)
    ensures !IsAcoustic(Some(StrOf(Int(bikeId))))
    ensures !IsElectric(Some(StrOf(Int(bikeId))))
  {
    IntTextHasNoLetters(bikeId);
    var s := StrOf(Int(bikeId));
    assert |s| > 0;
    assert s[0] == '-' || ('0' <= s[0] <= '9');
    assert "classic_bike"[0] == 'c' && "docked_bike"[0] == 'd' && "electric_bike"[0] == 'e';
  }
}
