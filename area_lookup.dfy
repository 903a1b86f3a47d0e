/**
 * The importer's community-area lookup: a fixed table of latitude/longitude
 * boxes scanned in order, with one wide box around the city as a fallback.
 * Bounds are inclusive on all four sides.
 */
module AreaLookup {
  import opened Wrappers
  import opened Cells

  datatype Box = Box(latMin: real, latMax: real, lngMin: real, lngMax: real)

  datatype Area = Area(number: int, name: string)

  predicate InBox(b: Box, lat: real, lng: real) {
    b.latMin <= lat <= b.latMax && b.lngMin <= lng <= b.lngMax
  }

  /** The boxes in the order the table lists them. */
  const CommunityAreas: seq<(Box, Area)> := [
    (Box(41.8, 41.85, -87.65, -87.60), Area(32, "Loop")),
    (Box(41.85, 41.9, -87.65, -87.60), Area(8, "Near North Side")),
    (Box(41.75, 41.8, -87.65, -87.60), Area(35, "Douglas"))
  ]

  const FallbackBox := Box(41.7, 42.0, -87.8, -87.5)

  const FallbackArea := Area(1, "Rogers Park")

  /** Box i of `table` is the first to contain the point. */
  predicate FirstIn(table: seq<(Box, Area)>, i: int, lat: real, lng: real) {
    0 <= i < |table| && InBox(table[i].0, lat, lng) && forall j :: 0 <= j < i ==> !InBox(table[j].0, lat, lng)
  }

  /** The area of the first box in `table` that contains the point. */
  function FirstBox(table: seq<(Box, Area)>, lat: real, lng: real): (r: Option<Area>)
    ensures r.None? <==> forall i :: 0 <= i < |table| ==> !InBox(table[i].0, lat, lng)
    ensures r.Some? ==> exists i :: FirstIn(table, i, lat, lng) && r.value == table[i].1
  {
    if table == [] then None
    else if InBox(table[0].0, lat, lng) then Some(table[0].1)
    else
      var r := FirstBox(table[1..], lat, lng);
      assert forall i :: 0 < i < |table| ==> table[i] == table[1..][i - 1];
      r
  }

  /** get_community_area_from_coords: nothing without both coordinates; the
      first listed box that holds the point; else the fallback area when the
      point lies in the fallback box; else nothing. */
  function LookupArea(lat: Option<real>, lng: Option<real>): (r: Option<Area>)
    ensures lat.None? || lng.None? ==> r.None?
    ensures lat.Some? && lng.Some? ==>
      forall i :: FirstIn(CommunityAreas, i, lat.value, lng.value) ==> r == Some(CommunityAreas[i].1)
    ensures lat.Some? && lng.Some? && (forall i :: 0 <= i < |CommunityAreas| ==> !InBox(CommunityAreas[i].0, lat.value, lng.value))
      ==> r == (if InBox(FallbackBox, lat.value, lng.value) then Some(FallbackArea) else None)
    ensures r.Some? ==> r.value in AreaNames()
  {
    if lat.None? || lng.None? then None
    else
      match FirstBox(CommunityAreas, lat.value, lng.value)
      case Some(a) =>
        FirstMatchIsUnique(CommunityAreas, lat.value, lng.value);
        Some(a)
      case None =>
        if InBox(FallbackBox, lat.value, lng.value) then Some(FallbackArea) else None
  }

  /** Every area the lookup can answer. */
  function AreaNames(): set<Area> {
    {Area(32, "Loop"), Area(8, "Near North Side"), Area(35, "Douglas"), FallbackArea}
  }

  /** Only one box is the first to contain a point. */
  lemma FirstMatchIsUnique(table: seq<(Box, Area)>, lat: real, lng: real)
    ensures forall i, k :: FirstIn(table, i, lat, lng) && FirstIn(table, k, lat, lng) ==> i == k
  {
  }

  /** Latitude 41.85 lies on the edge Loop shares with Near North Side
      and 41.8 on the edge Loop shares with Douglas: Loop, listed first, wins both. */
  lemma LoopWinsSharedEdges(lng: real)
    requires -87.65 <= lng <= -87.60
    ensures LookupArea(Some(41.85), Some(lng)) == Some(Area(32, "Loop"))
    ensures LookupArea(Some(41.8), Some(lng)) == Some(Area(32, "Loop"))
  {
    assert InBox(CommunityAreas[0].0, 41.85, lng);
    assert InBox(CommunityAreas[0].0, 41.8, lng);
  }

  /** A point in none of the listed boxes but near the city gets the
      fallback area; west of -87.8 it gets nothing. */
  lemma FallbackExamples()
    ensures LookupArea(Some(41.95), Some(-87.7)) == Some(FallbackArea)
    ensures LookupArea(Some(41.95), Some(-87.9)) == None
  {
    assert forall i :: 0 <= i < |CommunityAreas| ==> !InBox(CommunityAreas[i].0, 41.95, -87.7);
    assert forall i :: 0 <= i < |CommunityAreas| ==> !InBox(CommunityAreas[i].0, 41.95, -87.9);
  }

  /** The coordinate a field supplies to the lookup. A missing field (NaN)
      fails every comparison, which the lookup treats exactly like no
      coordinate at all. */
  function CoordOf(c: Option<Cell>): (r: Option<real>)
    ensures c.None? || c.value.Null? ==> r.None?
  {
    match c
    case None => None
    case Some(Int(i)) => Some(i as real)
    case Some(Real(x, _)) => Some(x)
    case Some(_) => None
  }
}
