/**
 * The station enrichment script: it builds a table of community areas from
 * the features of the city's boundary file, then gives every station that
 * has no community area yet the number of the first area whose boundary
 * contains it, and can report how many stations each area holds.
 *
 * Geometry is not modelled: a boundary is a value of the type parameter G
 * and containment is a predicate passed in, asked as contains(boundary,
 * longitude, latitude) in the order the point is built.
 */
module StationEnrichment {
  import opened Wrappers
  import opened Text

  /** A value of a feature's properties, as decoded from JSON. */
  datatype Prop = PNull | PInt(i: int) | PStr(s: string)

  datatype Feature<G> = Feature(properties: map<string, Prop>, geometry: G)

  datatype AreaEntry<G> = AreaEntry(name: Prop, number: int, geometry: G)

  /** The dict of areas: its keys in insertion order and its entries. */
  datatype AreaTable<G> = AreaTable(order: seq<int>, areas: map<int, AreaEntry<G>>)

  /** The keys listed once each, exactly the keys of the dict, and each
      entry stored under its own number. */
  predicate TableOk<G>(t: AreaTable<G>) {
    (forall i, j :: 0 <= i < j < |t.order| ==> t.order[i] != t.order[j])
    && (forall i :: 0 <= i < |t.order| ==> t.order[i] in t.areas)
    && (forall k :: k in t.areas ==> k in t.order)
    && (forall k :: k in t.areas ==> t.areas[k].number == k)
  }

  /** int() of a property value: an integer, or a decimal string with an
      optional minus sign; anything else raises. */
  function IntOf(v: Prop): (r: Option<int>)
    ensures v.PInt? ==> r == Some(v.i)
    ensures v.PNull? ==> r.None?
    ensures v.PStr? && v.s != "" && AllDigits(v.s) ==> r == Some(ParseDecimal(v.s))
    ensures v.PStr? && v.s == "" ==> r.None?
  {
    match v
    case PNull => None
    case PInt(i) => Some(i)
    case PStr(s) =>
      if s != "" && AllDigits(s) then Some(ParseDecimal(s))
      else if |s| > 1 && s[0] == '-' && AllDigits(s[1..]) then Some(0 - ParseDecimal(s[1..]) as int)
      else None
  }

  /** properties.get('area_num_1', properties.get('area_numbe', 0)) before int(). */
  function NumberProp(props: map<string, Prop>): (v: Prop)
    ensures "area_num_1" in props ==> v == props["area_num_1"]
    ensures "area_num_1" !in props && "area_numbe" in props ==> v == props["area_numbe"]
    ensures "area_num_1" !in props && "area_numbe" !in props ==> v == PInt(0)
  {
    if "area_num_1" in props then props["area_num_1"]
    else if "area_numbe" in props then props["area_numbe"]
    else PInt(0)
  }

  /** properties.get('community', 'Unknown'). */
  function NameProp(props: map<string, Prop>): (v: Prop)
    ensures "community" in props ==> v == props["community"]
    ensures "community" !in props ==> v == PStr("Unknown")
  {
    if "community" in props then props["community"] else PStr("Unknown")
  }

  /** The entry a feature becomes, or None when int() raises on its number. */
  function EntryOf<G>(f: Feature<G>): (r: Option<AreaEntry<G>>)
    ensures r.Some? <==> IntOf(NumberProp(f.properties)).Some?
    ensures r.Some? ==> r.value == AreaEntry(NameProp(f.properties), IntOf(NumberProp(f.properties)).value, f.geometry)
  {
    match IntOf(NumberProp(f.properties))
    case None => None
    case Some(n) => Some(AreaEntry(NameProp(f.properties), n, f.geometry))
  }

  /** self.community_areas[area_num] = entry: the entry replaces any earlier
      one with the same number, which keeps its place in the order; a new
      number goes last. */
  function Register<G>(t: AreaTable<G>, e: AreaEntry<G>): (r: AreaTable<G>)
    ensures r.areas == t.areas[e.number := e]
    ensures |t.order| <= |r.order| <= |t.order| + 1 && t.order <= r.order
    ensures TableOk(t) ==> TableOk(r)
  {
    if e.number in t.areas then AreaTable(t.order, t.areas[e.number := e])
    else AreaTable(t.order + [e.number], t.areas[e.number := e])
  }

  /** parse_community_areas over the features in order: it stops at the
      first feature whose number int() rejects, keeping what was parsed
      before it, and then reports failure. */
  function ParseAll<G>(t: AreaTable<G>, features: seq<Feature<G>>): (r: (AreaTable<G>, bool))
    ensures TableOk(t) ==> TableOk(r.0)
    decreases |features|
  {
    if features == [] then (t, true)
    else
      var (u, ok) := ParseAll(t, features[..|features| - 1]);
      if !ok then (u, false)
      else match EntryOf(features[|features| - 1])
        case None => (u, false)
        case Some(e) => (Register(u, e), true)
  }

  /** Parsing fails exactly when some feature has a number int() rejects. */
  lemma {:induction false} ParseFailsOnBadNumber<G>(t: AreaTable<G>, features: seq<Feature<G>>)
    ensures !ParseAll(t, features).1 <==> exists i :: 0 <= i < |features| && EntryOf(features[i]).None?
    decreases |features|
  {
    if features != [] {
      var front := features[..|features| - 1];
      ParseFailsOnBadNumber(t, front);
      assert forall i :: 0 <= i < |front| ==> front[i] == features[i];
    }
  }

  /** After a failure the remaining features change nothing. */
  lemma {:induction false} FailureStops<G>(t: AreaTable<G>, features: seq<Feature<G>>, n: nat)
    requires n <= |features| && !ParseAll(t, features[..n]).1
    ensures ParseAll(t, features) == ParseAll(t, features[..n])
    decreases |features| - n
  {
    if n < |features| {
      assert features[..n + 1][..n] == features[..n];
      FailureStops(t, features, n + 1);
    } else {
      assert features[..n] == features;
    }
  }

  /** Feature i parses and no later feature carries its number. */
  predicate LastWithNumber<G>(features: seq<Feature<G>>, i: int) {
    0 <= i < |features| && EntryOf(features[i]).Some?
    && forall j :: i < j < |features| ==> EntryOf(features[j]).None? || EntryOf(features[j]).value.number != EntryOf(features[i]).value.number
  }

  /** Some feature parses to an area with number k. */
  predicate Carries<G>(features: seq<Feature<G>>, k: int) {
    exists i :: 0 <= i < |features| && EntryOf(features[i]).Some? && EntryOf(features[i]).value.number == k
  }

  lemma CarriesSnoc<G>(features: seq<Feature<G>>, k: int)
    requires features != []
    ensures var last := features[|features| - 1];
      Carries(features, k) <==>
      Carries(features[..|features| - 1], k) || (EntryOf(last).Some? && EntryOf(last).value.number == k)
  {
    var front := features[..|features| - 1];
    if Carries(features, k) {
      var i :| 0 <= i < |features| && EntryOf(features[i]).Some? && EntryOf(features[i]).value.number == k;
      if i < |front| {
        assert front[i] == features[i];
      }
    }
    if Carries(front, k) {
      var i :| 0 <= i < |front| && EntryOf(front[i]).Some? && EntryOf(front[i]).value.number == k;
      assert features[i] == front[i];
    }
  }

  /** A number is in the table after parsing exactly when it was there
      before or some feature carries it. */
  lemma {:induction false} ParsedNumbers<G>(t: AreaTable<G>, features: seq<Feature<G>>)
    requires ParseAll(t, features).1
    ensures forall k :: k in ParseAll(t, features).0.areas <==> k in t.areas || Carries(features, k)
    decreases |features|
  {
    if features != [] {
      var front := features[..|features| - 1];
      var u := ParseAll(t, front).0;
      var e := EntryOf(features[|features| - 1]).value;
      assert ParseAll(t, features).0 == Register(u, e);
      ParsedNumbers(t, front);
      forall k ensures k in ParseAll(t, features).0.areas <==> k in t.areas || Carries(features, k) {
        CarriesSnoc(features, k);
      }
    }
  }

  /** Areas are keyed by number: after a successful parse each number holds
      the entry of the last feature that carries it. */
  lemma {:induction false} LastFeatureWins<G>(t: AreaTable<G>, features: seq<Feature<G>>)
    requires ParseAll(t, features).1
    ensures forall i :: LastWithNumber(features, i) ==>
      && EntryOf(features[i]).value.number in ParseAll(t, features).0.areas
      && ParseAll(t, features).0.areas[EntryOf(features[i]).value.number] == EntryOf(features[i]).value
    decreases |features|
  {
    if features != [] {
      var front := features[..|features| - 1];
      var last := |features| - 1;
      var u := ParseAll(t, front).0;
      var e := EntryOf(features[last]).value;
      assert ParseAll(t, features).0 == Register(u, e);
      LastFeatureWins(t, front);
      forall i | LastWithNumber(features, i)
        ensures EntryOf(features[i]).value.number in ParseAll(t, features).0.areas
        ensures ParseAll(t, features).0.areas[EntryOf(features[i]).value.number] == EntryOf(features[i]).value
      {
        if i < last {
          assert front[i] == features[i];
          assert forall j :: i < j < |front| ==> front[j] == features[j];
          assert LastWithNumber(front, i);
        }
      }
    }
  }

  /** find_community_area: the number of the first area, in the dict's
      order, whose boundary contains the point, or None. */
  function FindCommunityArea<G>(t: AreaTable<G>, latitude: real, longitude: real, contains: (G, real, real) -> bool)
    : (r: Option<int>)
    requires forall i :: 0 <= i < |t.order| ==> t.order[i] in t.areas
    ensures r.Some? ==> exists i :: (0 <= i < |t.order| && t.order[i] == r.value
      && contains(t.areas[r.value].geometry, longitude, latitude)
      && forall j :: 0 <= j < i ==> !contains(t.areas[t.order[j]].geometry, longitude, latitude))
    ensures r.None? <==> forall i :: 0 <= i < |t.order| ==> !contains(t.areas[t.order[i]].geometry, longitude, latitude)
    decreases |t.order|
  {
    if t.order == [] then None
    else if contains(t.areas[t.order[0]].geometry, longitude, latitude) then Some(t.order[0])
    else
      var rest := AreaTable(t.order[1..], t.areas);
      assert forall i :: 0 < i < |t.order| ==> t.order[i] == rest.order[i - 1];
      var r := FindCommunityArea(rest, latitude, longitude, contains);
      assert forall i :: 0 < i < |t.order| ==> t.order[i] == rest.order[i - 1];
      r
  }

  // ---------------------------------------------------------------------
  // The "Station" table
  // ---------------------------------------------------------------------

  /** A row of "Station" as the script reads it. */
  datatype StationRow = StationRow(id: int, name: string, latitude: Option<real>, longitude: Option<real>,
                                   communityArea: Option<int>)

  /** The rows in primary-key order. */
  predicate IdsAscending(rows: seq<StationRow>) {
    forall i, j :: 0 <= i < j < |rows| ==> rows[i].id < rows[j].id
  }

  /** get_stations_from_db: the rows whose area is NULL, ordered by id. */
  function Candidates(rows: seq<StationRow>): (r: seq<StationRow>)
    ensures forall s :: s in r <==> s in rows && s.communityArea.None?
    ensures IdsAscending(rows) ==> IdsAscending(r)
    ensures |r| <= |rows|
    decreases |rows|
  {
    if rows == [] then []
    else
      var rest := Candidates(rows[1..]);
      assert forall s :: s in rows <==> s == rows[0] || s in rows[1..];
      if rows[0].communityArea.None? then [rows[0]] + rest else rest
  }

  /** What one station receives: a truthy area number, or nothing when the
      lookup finds no area, finds area 0, or raises on a NULL coordinate
      (which counts as not found). */
  function Assignment<G>(t: AreaTable<G>, row: StationRow, contains: (G, real, real) -> bool): (r: Option<int>)
    requires TableOk(t)
    ensures r.Some? ==> r.value != 0 && r.value in t.areas
    ensures r.Some? <==> (row.latitude.Some? && row.longitude.Some?
      && var found := FindCommunityArea(t, row.latitude.value, row.longitude.value, contains);
         found.Some? && found.value != 0)
  {
    if row.latitude.None? || row.longitude.None? then None
    else match FindCommunityArea(t, row.latitude.value, row.longitude.value, contains)
      case Some(k) => if k != 0 then Some(k) else None
      case None => None
  }

  /** The row after the stations pass. */
  function Assigned<G>(t: AreaTable<G>, row: StationRow, contains: (G, real, real) -> bool): StationRow
    requires TableOk(t)
  {
    if row.communityArea.None? && Assignment(t, row, contains).Some? then row.(communityArea := Assignment(t, row, contains))
    else row
  }

  /** The table after process_stations. */
  function AssignAreas<G>(rows: seq<StationRow>, t: AreaTable<G>, contains: (G, real, real) -> bool): (r: seq<StationRow>)
    requires TableOk(t)
    ensures |r| == |rows| && forall i :: 0 <= i < |r| ==> r[i] == Assigned(t, rows[i], contains)
  {
    seq(|rows|, i requires 0 <= i < |rows| => Assigned(t, rows[i], contains))
  }

  /** The number of stations among `candidates` the pass updates. */
  function CountUpdated<G>(candidates: seq<StationRow>, t: AreaTable<G>, contains: (G, real, real) -> bool): (n: nat)
    requires TableOk(t)
    ensures n <= |candidates|
  {
    if candidates == [] then 0
    else
      var last := candidates[|candidates| - 1];
      CountUpdated(candidates[..|candidates| - 1], t, contains) + (if Assignment(t, last, contains).Some? then 1 else 0)
  }

  /** Only rows without an area change, each to an area of the table with a
      truthy number whose boundary contains the station. */
  lemma OnlyMissingAreasFilled<G>(rows: seq<StationRow>, t: AreaTable<G>, contains: (G, real, real) -> bool)
    requires TableOk(t)
    ensures forall i :: 0 <= i < |rows| && AssignAreas(rows, t, contains)[i] != rows[i] ==>
      var a := AssignAreas(rows, t, contains)[i].communityArea;
      && rows[i].communityArea.None? && a.Some? && a.value != 0 && a.value in t.areas
      && contains(t.areas[a.value].geometry, rows[i].longitude.value, rows[i].latitude.value)
    ensures forall i :: 0 <= i < |rows| ==> AssignAreas(rows, t, contains)[i].id == rows[i].id
  {
    forall i | 0 <= i < |rows| && AssignAreas(rows, t, contains)[i] != rows[i]
      ensures var a := AssignAreas(rows, t, contains)[i].communityArea;
        && a.Some? && a.value in t.areas
        && contains(t.areas[a.value].geometry, rows[i].longitude.value, rows[i].latitude.value)
    {
      var found := FindCommunityArea(t, rows[i].latitude.value, rows[i].longitude.value, contains);
      assert found.Some?;
    }
  }

  /** A second pass over the same table finds nothing it can update, so it
      changes nothing. */
  lemma SecondRunChangesNothing<G>(rows: seq<StationRow>, t: AreaTable<G>, contains: (G, real, real) -> bool)
    requires TableOk(t)
    ensures AssignAreas(AssignAreas(rows, t, contains), t, contains) == AssignAreas(rows, t, contains)
    ensures CountUpdated(Candidates(AssignAreas(rows, t, contains)), t, contains) == 0
  {
    var once := AssignAreas(rows, t, contains);
    forall s | s in Candidates(once) ensures Assignment(t, s, contains).None? {
      var i :| 0 <= i < |once| && once[i] == s;
    }
    NoneUpdated(Candidates(once), t, contains);
  }

  lemma {:induction false} NoneUpdated<G>(candidates: seq<StationRow>, t: AreaTable<G>, contains: (G, real, real) -> bool)
    requires TableOk(t)
    requires forall s :: s in candidates ==> Assignment(t, s, contains).None?
    ensures CountUpdated(candidates, t, contains) == 0
    decreases |candidates|
  {
    if candidates != [] {
      var front := candidates[..|candidates| - 1];
      assert candidates[|candidates| - 1] in candidates;
      assert forall s :: s in front ==> s in candidates;
      NoneUpdated(front, t, contains);
    }
  }

  // ---------------------------------------------------------------------
  // The summary
  // ---------------------------------------------------------------------

  /** The result rows of the summary query: (area, count) pairs. */
  function Total(groups: seq<(int, nat)>): nat
    decreases |groups|
  {
    if groups == [] then 0 else groups[0].1 + Total(groups[1..])
  }

  /** The count listed for `area`, zero when it is not listed. */
  function CountFor(groups: seq<(int, nat)>, area: int): nat
    decreases |groups|
  {
    if groups == [] then 0 else if groups[0].0 == area then groups[0].1 else CountFor(groups[1..], area)
  }

  /** One more station in `area`. */
  function AddOne(groups: seq<(int, nat)>, area: int): (r: seq<(int, nat)>)
    ensures Total(r) == Total(groups) + 1
    ensures forall b :: CountFor(r, b) == CountFor(groups, b) + (if b == area then 1 else 0)
    decreases |groups|
  {
    if groups == [] then [(area, 1)]
    else if groups[0].0 == area then [(area, groups[0].1 + 1)] + groups[1..]
    else [groups[0]] + AddOne(groups[1..], area)
  }

  /** The number of stations with an area. */
  function AssignedCount(rows: seq<StationRow>): nat {
    if rows == [] then 0
    else AssignedCount(rows[..|rows| - 1]) + (if rows[|rows| - 1].communityArea.Some? then 1 else 0)
  }

  /** The number of stations in `area`. */
  function InArea(rows: seq<StationRow>, area: int): nat {
    if rows == [] then 0
    else InArea(rows[..|rows| - 1], area) + (if rows[|rows| - 1].communityArea == Some(area) then 1 else 0)
  }

  /** SELECT "communityArea", COUNT(*) ... WHERE "communityArea" IS NOT NULL
      GROUP BY "communityArea": each area's count is the number of its
      stations, and the counts add up to the stations that have an area. */
  function GroupCounts(rows: seq<StationRow>): (r: seq<(int, nat)>)
    ensures Total(r) == AssignedCount(rows)
    ensures forall area :: CountFor(r, area) == InArea(rows, area)
  {
    if rows == [] then []
    else
      var prev := GroupCounts(rows[..|rows| - 1]);
      match rows[|rows| - 1].communityArea
      case None => prev
      case Some(a) => AddOne(prev, a)
  }

  // ---------------------------------------------------------------------
  // The mapper
  // ---------------------------------------------------------------------

  class ChicagoAreaMapper<G> {
    var order: seq<int>
    var areas: map<int, AreaEntry<G>>
    /** The "Station" table the connection sees, in id order. */
    var stations: seq<StationRow>

    function Table(): AreaTable<G>
      reads this
    {
      AreaTable(order, areas)
    }

    predicate Valid()
      reads this
    {
      TableOk(Table()) && IdsAscending(stations)
    }

    constructor (stations: seq<StationRow>)
      requires IdsAscending(stations)
      ensures Valid() && Table() == AreaTable([], map[]) && this.stations == stations
    {
      order := [];
      areas := map[];
      this.stations := stations;
    }

    /** parse_community_areas: `ok` is false when int() raised on a
        feature's number, which leaves the areas parsed before it. */
    method ParseCommunityAreas(features: seq<Feature<G>>) returns (ok: bool)
      requires Valid()
      modifies this
      ensures Valid() && stations == old(stations)
      ensures (Table(), ok) == ParseAll(old(Table()), features)
    {
      var i := 0;
      while i < |features|
        invariant 0 <= i <= |features|
        invariant Valid() && stations == old(stations)
        invariant (Table(), true) == ParseAll(old(Table()), features[..i])
      {
        assert features[..i + 1][..i] == features[..i];
        var props := features[i].properties;
        var number := IntOf(NumberProp(props));
        if number.None? {
          FailureStops(old(Table()), features, i + 1);
          return false;
        }
        var n := number.value;
        if n !in areas {
          order := order + [n];
        }
        areas := areas[n := AreaEntry(NameProp(props), n, features[i].geometry)];
        i := i + 1;
      }
      assert features[..|features|] == features;
      ok := true;
    }

    /** update_station_community_area: UPDATE "Station" SET "communityArea" WHERE id. */
    method UpdateStationCommunityArea(id: int, area: int)
      modifies this
      ensures order == old(order) && areas == old(areas)
      ensures |stations| == |old(stations)|
      ensures forall i :: 0 <= i < |stations| ==>
        stations[i] == if old(stations)[i].id == id then old(stations)[i].(communityArea := Some(area)) else old(stations)[i]
    {
      stations := seq(|stations|, i requires 0 <= i < |stations| reads this =>
        if stations[i].id == id then stations[i].(communityArea := Some(area)) else stations[i]);
    }

    /** process_stations: every station without an area is looked up once
        and lands in exactly one of the two counts; those with a truthy area
        number are updated. */
    method ProcessStations(contains: (G, real, real) -> bool) returns (updated: nat, notFound: nat)
      requires Valid()
      modifies this
      ensures Valid() && Table() == old(Table())
      ensures stations == AssignAreas(old(stations), Table(), contains)
      ensures updated == CountUpdated(Candidates(old(stations)), Table(), contains)
      ensures updated + notFound == |Candidates(old(stations))|
    {
      var candidates := Candidates(stations);
      updated, notFound := 0, 0;
      if candidates == [] {
        assert IdsOf(candidates) == {};
        AllAssigned(old(stations), stations, candidates, Table(), contains);
        return;
      }
      updated, notFound := AssignCandidates(candidates, contains);
      AllAssigned(old(stations), stations, candidates, Table(), contains);
      AssignedKeepsIds(old(stations), Table(), contains);
    }

    /** The loop of process_stations over the candidates, each counted once. */
    method AssignCandidates(candidates: seq<StationRow>, contains: (G, real, real) -> bool) returns (updated: nat, notFound: nat)
      requires TableOk(Table()) && IdsAscending(stations) && candidates == Candidates(stations)
      modifies this
      ensures Table() == old(Table())
      ensures PartlyAssigned(old(stations), stations, IdsOf(candidates), Table(), contains)
      ensures updated == CountUpdated(candidates, Table(), contains) && updated + notFound == |candidates|
    {
      updated, notFound := 0, 0;
      ghost var rows := stations;
      ghost var t := Table();
      assert candidates[..0] == [];
      var k := 0;
      while k < |candidates|
        invariant 0 <= k <= |candidates|
        invariant Table() == t && rows == old(stations)
        invariant Processed(rows, stations, candidates, k, t, contains)
        invariant updated == CountUpdated(candidates[..k], t, contains) && updated + notFound == k
      {
        var isUpdated := AssignNext(candidates, k, rows, contains);
        if isUpdated {
          updated := updated + 1;
        } else {
          notFound := notFound + 1;
        }
        k := k + 1;
      }
      assert candidates[..k] == candidates;
    }

    /** One turn of the loop: candidate k is looked up and, when it has an
        area, updated. */
    method AssignNext(candidates: seq<StationRow>, k: nat, ghost rows: seq<StationRow>,
                      contains: (G, real, real) -> bool) returns (isUpdated: bool)
      requires TableOk(Table()) && IdsAscending(rows) && candidates == Candidates(rows) && k < |candidates|
      requires Processed(rows, stations, candidates, k, Table(), contains)
      modifies this
      ensures Table() == old(Table())
      ensures Processed(rows, stations, candidates, k + 1, Table(), contains)
      ensures CountUpdated(candidates[..k + 1], Table(), contains)
        == CountUpdated(candidates[..k], Table(), contains) + (if isUpdated then 1 else 0)
    {
      var c := candidates[k];
      ghost var done := IdsOf(candidates[..k]);
      CandidateRow(rows, candidates, k, done);
      CountUpdatedSnoc(candidates, k, Table(), contains);
      IdsOfSnoc(candidates, k);
      ghost var before := stations;
      isUpdated := AssignStation(c, contains);
      AssignStep(rows, before, stations, done, c, Table(), contains);
    }

    /** The body of the try for one station: the lookup, then the update
        when the area number is truthy. */
    method AssignStation(c: StationRow, contains: (G, real, real) -> bool) returns (isUpdated: bool)
      requires TableOk(Table())
      modifies this
      ensures Table() == old(Table())
      ensures isUpdated == Assignment(Table(), c, contains).Some?
      ensures |stations| == |old(stations)|
      ensures forall i :: 0 <= i < |stations| ==>
        (stations[i] == if isUpdated && old(stations)[i].id == c.id
                        then old(stations)[i].(communityArea := Assignment(Table(), c, contains)) else old(stations)[i])
    {
      var found := if c.latitude.None? || c.longitude.None? then None
                   else FindCommunityArea(Table(), c.latitude.value, c.longitude.value, contains);
      isUpdated := found.Some? && found.value != 0;
      if isUpdated {
        UpdateStationCommunityArea(c.id, found.value);
      }
    }

    /** show_community_area_summary: the total it reports is the number of
        stations with an area. */
    method ShowCommunityAreaSummary() returns (total: nat)
      ensures total == AssignedCount(stations)
    {
      var results := GroupCounts(stations);
      total := 0;
      var i := 0;
      while i < |results|
        invariant 0 <= i <= |results|
        invariant total + Total(results[i..]) == Total(results)
      {
        assert results[i..][1..] == results[i + 1..];
        total := total + results[i].1;
        i := i + 1;
      }
    }
  }

  /** The ids of the stations already processed. */
  ghost function IdsOf(rows: seq<StationRow>): (r: set<int>)
    ensures forall x :: x in r <==> exists j :: 0 <= j < |rows| && rows[j].id == x
  {
    if rows == [] then {}
    else
      var front := rows[..|rows| - 1];
      var r := IdsOf(front);
      assert forall j :: 0 <= j < |front| ==> front[j] == rows[j];
      r + {rows[|rows| - 1].id}
  }

  lemma IdsOfSnoc(rows: seq<StationRow>, k: nat)
    requires k < |rows|
    ensures IdsOf(rows[..k + 1]) == IdsOf(rows[..k]) + {rows[k].id}
  {
    assert rows[..k + 1][..k] == rows[..k];
  }

  /** The candidate about to be processed is found, unchanged, at exactly
      the rows bearing its id. */
  lemma CandidateRow(rows: seq<StationRow>, candidates: seq<StationRow>, k: nat, done: set<int>)
    requires IdsAscending(rows) && candidates == Candidates(rows) && k < |candidates|
    requires done == IdsOf(candidates[..k])
    ensures candidates[k].id !in done
    ensures forall i :: 0 <= i < |rows| && rows[i].id == candidates[k].id ==> rows[i] == candidates[k]
  {
    var c := candidates[k];
    assert c in candidates;
    var m :| 0 <= m < |rows| && rows[m] == c;
    assert IdsAscending(candidates);
    forall x | x in done ensures x < c.id {
      var j :| 0 <= j < k && candidates[..k][j].id == x;
      assert candidates[j].id == x;
    }
    forall i | 0 <= i < |rows| && rows[i].id == c.id ensures rows[i] == c {
      assert i == m;
    }
  }

  /** The pass keeps every row's id, so the table stays in id order. */
  lemma AssignedKeepsIds<G>(rows: seq<StationRow>, t: AreaTable<G>, contains: (G, real, real) -> bool)
    requires TableOk(t) && IdsAscending(rows)
    ensures IdsAscending(AssignAreas(rows, t, contains))
  {
    var r := AssignAreas(rows, t, contains);
    assert forall i :: 0 <= i < |rows| ==> r[i].id == rows[i].id;
  }

  lemma CountUpdatedSnoc<G>(candidates: seq<StationRow>, k: nat, t: AreaTable<G>, contains: (G, real, real) -> bool)
    requires TableOk(t) && k < |candidates|
    ensures CountUpdated(candidates[..k + 1], t, contains)
      == CountUpdated(candidates[..k], t, contains) + (if Assignment(t, candidates[k], contains).Some? then 1 else 0)
  {
    assert candidates[..k + 1][..k] == candidates[..k];
  }

  /** Once every candidate has been processed the table is fully assigned:
      a row whose id no candidate bears already had an area. */
  lemma AllAssigned<G>(rows: seq<StationRow>, cur: seq<StationRow>, candidates: seq<StationRow>, t: AreaTable<G>,
                       contains: (G, real, real) -> bool)
    requires TableOk(t) && candidates == Candidates(rows)
    requires PartlyAssigned(rows, cur, IdsOf(candidates), t, contains)
    ensures cur == AssignAreas(rows, t, contains)
  {
    forall i | 0 <= i < |rows|
      ensures cur[i] == Assigned(t, rows[i], contains)
    {
      if rows[i].communityArea.None? {
        assert rows[i] in candidates;
        var j :| 0 <= j < |candidates| && candidates[j] == rows[i];
      }
    }
  }

  /** The first k candidates have been processed. */
  ghost predicate Processed<G>(rows: seq<StationRow>, cur: seq<StationRow>, candidates: seq<StationRow>, k: nat,
                               t: AreaTable<G>, contains: (G, real, real) -> bool)
    requires TableOk(t)
  {
    k <= |candidates| && PartlyAssigned(rows, cur, IdsOf(candidates[..k]), t, contains)
  }

  /** The table once the candidates with an id in `done` have been processed. */
  predicate PartlyAssigned<G>(rows: seq<StationRow>, cur: seq<StationRow>, done: set<int>, t: AreaTable<G>,
                              contains: (G, real, real) -> bool)
    requires TableOk(t)
  {
    |cur| == |rows|
    && forall i :: 0 <= i < |rows| ==> cur[i] == (if rows[i].id in done then Assigned(t, rows[i], contains) else rows[i])
  }

  lemma AssignStep<G>(rows: seq<StationRow>, cur: seq<StationRow>, next: seq<StationRow>, done: set<int>, c: StationRow,
                      t: AreaTable<G>, contains: (G, real, real) -> bool)
    requires TableOk(t) && PartlyAssigned(rows, cur, done, t, contains)
    requires c.id !in done && c.communityArea.None?
    requires forall i :: 0 <= i < |rows| && rows[i].id == c.id ==> rows[i] == c
    requires |next| == |cur|
    requires forall i :: 0 <= i < |cur| ==>
      (next[i] == if Assignment(t, c, contains).Some? && cur[i].id == c.id
                  then cur[i].(communityArea := Assignment(t, c, contains)) else cur[i])
    ensures PartlyAssigned(rows, next, done + {c.id}, t, contains)
  {
    forall i | 0 <= i < |rows|
      ensures next[i] == (if rows[i].id in done + {c.id} then Assigned(t, rows[i], contains) else rows[i])
    {
      assert cur[i].id == rows[i].id;
    }
  }
}
