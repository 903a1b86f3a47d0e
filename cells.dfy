/**
 * The values a CSV chunk delivers to the importer and the column-name
 * clean-up applied to each chunk.
 *
 * A cell is what pandas hands back for one field: a missing field (read as
 * the floating-point NaN), a string, an integer or a float. Python's
 * truthiness, str() and equality of these values are spelled out, because
 * the importer's guards depend on them: NaN is truthy and str(NaN) is "nan".
 */
module Cells {
  import opened Wrappers
  import opened Text

  /** A field of a chunk: `Real` keeps the text str() gives for the float. */
  datatype Cell = Null | Str(s: string) | Int(i: int) | Real(x: real, repr: string)

  /** Python's truth value of the field (NaN is truthy). */
  predicate Truthy(c: Cell) {
    match c
    case Null => true
    case Str(s) => s != ""
    case Int(i) => i != 0
    case Real(x, _) => x != 0.0
  }

  /** `row.get(col)` is None when the column is absent; None is falsy. */
  predicate PresentAndTruthy(c: Option<Cell>) {
    c.Some? && Truthy(c.value)
  }

  /** str() of the field. */
  function StrOf(c: Cell): string {
    match c
    case Null => "nan"
    case Str(s) => s
    case Int(i) => IntToDecimal(i)
    case Real(_, repr) => repr
  }

  /** The field as the model stores it in a text column: a missing field
      as NULL (the driver would send pandas' NaN as the float NaN), a
      number as its decimal text. */
  function TextValue(c: Cell): (r: Option<string>)
    ensures r.None? <==> c.Null?
    ensures c.Str? ==> r == Some(c.s)
  {
    if c.Null? then None else Some(StrOf(c))
  }

  /** What Python's `==` and hashing see of a field: integers and floats of
      equal value are equal, strings never equal numbers. A missing field
      is the one NaN object pandas stores for it. */
  datatype CellKey = KNan | KStr(s: string) | KNum(x: real)

  function KeyOf(c: Cell): CellKey {
    match c
    case Null => KNan
    case Str(s) => KStr(s)
    case Int(i) => KNum(i as real)
    case Real(x, _) => KNum(x)
  }

  /** An integer renders without letters, so it never spells a bike type or
      any other word. */
  lemma IntTextHasNoLetters(i: int)
    ensures forall k :: 0 <= k < |StrOf(Int(i))| ==> StrOf(Int(i))[k] == '-' || IsDigit(StrOf(Int(i))[k])
  {
    var d := NatToDecimal(if i < 0 then -i else i);
    if i < 0 {
      assert StrOf(Int(i)) == "-" + d;
      assert forall k :: 0 < k < |"-" + d| ==> ("-" + d)[k] == d[k - 1];
    }
  }

  // ---------------------------------------------------------------------
  // Chunks and column names
  // ---------------------------------------------------------------------

  /** A chunk of a CSV file: its header and its rows of fields. */
  datatype Frame = Frame(columns: seq<string>, rows: seq<seq<Cell>>)

  /** The first position of `name` among the columns. */
  function IndexOf(columns: seq<string>, name: string): (r: Option<nat>)
    ensures r.None? <==> name !in columns
    ensures r.Some? ==> (r.value < |columns| && columns[r.value] == name
      && forall j :: 0 <= j < r.value ==> columns[j] != name)
  {
    if columns == [] then None
    else if columns[0] == name then Some(0)
    else match IndexOf(columns[1..], name)
      case None => None
      case Some(i) => Some(i + 1)
  }

  /** row.get(name): the field under the column, or None without such a column. */
  function Get(columns: seq<string>, row: seq<Cell>, name: string): Option<Cell> {
    match IndexOf(columns, name)
    case None => None
    case Some(i) => if i < |row| then Some(row[i]) else None
  }

  function LowerChar(c: char): char {
    if 'A' <= c <= 'Z' then (c as int + 32) as char else c
  }

  function CleanChar(c: char): char {
    if c == ' ' then '_' else LowerChar(c)
  }

  /** `.str.lower().str.replace(' ', '_')` on one column name. */
  function CleanColumn(name: string): (r: string)
    ensures |r| == |name|
    ensures forall k :: 0 <= k < |r| ==> r[k] != ' ' && !('A' <= r[k] <= 'Z')
    ensures forall k :: 0 <= k < |r| ==> (name[k] == ' ' ==> r[k] == '_')
  {
    seq(|name|, k requires 0 <= k < |name| => CleanChar(name[k]))
  }

  /** Cleaning a clean name changes nothing. */
  lemma CleanColumnIdempotent(name: string)
    ensures CleanColumn(CleanColumn(name)) == CleanColumn(name)
  {
    var once := CleanColumn(name);
    assert forall k :: 0 <= k < |once| ==> CleanChar(once[k]) == once[k];
  }

  function CleanColumns(columns: seq<string>): (r: seq<string>)
    ensures |r| == |columns| && forall k :: 0 <= k < |r| ==> r[k] == CleanColumn(columns[k])
  {
    seq(|columns|, k requires 0 <= k < |columns| => CleanColumn(columns[k]))
  }

  /** The legacy column names and their current names, in the order the
      renames are applied. */
  const ColumnMapping: seq<(string, string)> := [
    ("trip_id", "ride_id"),
    ("bikeid", "rideable_type"),
    ("starttime", "started_at"),
    ("stoptime", "ended_at"),
    ("from_station_name", "start_station_name"),
    ("from_station_id", "start_station_id"),
    ("to_station_name", "end_station_name"),
    ("to_station_id", "end_station_id"),
    ("usertype", "member_casual")
  ]

  /** DataFrame.rename(columns={from: to}): every column called `from` is renamed. */
  function RenameEach(columns: seq<string>, from: string, to: string): (r: seq<string>)
    ensures |r| == |columns|
    ensures forall k :: 0 <= k < |r| ==> r[k] == if columns[k] == from then to else columns[k]
  {
    seq(|columns|, k requires 0 <= k < |columns| => if columns[k] == from then to else columns[k])
  }

  /** The renaming loop: each pair, in order, is applied when its legacy
      name is among the columns and its new name is not empty. */
  function ApplyRenames(columns: seq<string>, pairs: seq<(string, string)>): seq<string>
    decreases |pairs|
  {
    if pairs == [] then columns
    else
      var (from, to) := pairs[0];
      var next := if from in columns && to != "" then RenameEach(columns, from, to) else columns;
      ApplyRenames(next, pairs[1..])
  }

  /** The current name of a column: the new name of the first pair whose
      legacy name it is, or the name itself. */
  function Lookup(pairs: seq<(string, string)>, name: string): string {
    if pairs == [] then name
    else if pairs[0].0 == name then pairs[0].1
    else Lookup(pairs[1..], name)
  }

  /** No new name is the legacy name of a later pair, and no new name is empty. */
  predicate RenamesIndependent(pairs: seq<(string, string)>) {
    (forall i, j :: 0 <= i < j < |pairs| ==> pairs[i].1 != pairs[j].0)
    && forall i :: 0 <= i < |pairs| ==> pairs[i].1 != ""
  }

  /** A name that is no later legacy name passes the remaining renames unchanged. */
  lemma {:induction false} LookupMisses(pairs: seq<(string, string)>, name: string)
    requires forall j :: 0 <= j < |pairs| ==> pairs[j].0 != name
    ensures Lookup(pairs, name) == name
    decreases |pairs|
  {
    if pairs != [] {
      LookupMisses(pairs[1..], name);
    }
  }

  /** Applying independent renames one after the other renames each column
      by its own lookup. */
  lemma {:induction false} ApplyRenamesPointwise(columns: seq<string>, pairs: seq<(string, string)>)
    requires RenamesIndependent(pairs)
    ensures |ApplyRenames(columns, pairs)| == |columns|
    ensures forall k :: 0 <= k < |columns| ==> ApplyRenames(columns, pairs)[k] == Lookup(pairs, columns[k])
    decreases |pairs|
  {
    if pairs != [] {
      var (from, to) := pairs[0];
      var next := if from in columns && to != "" then RenameEach(columns, from, to) else columns;
      var rest := pairs[1..];
      assert RenamesIndependent(rest) by {
        assert forall i :: 0 <= i < |rest| ==> rest[i] == pairs[i + 1];
      }
      ApplyRenamesPointwise(next, rest);
      forall k | 0 <= k < |columns|
        ensures ApplyRenames(columns, pairs)[k] == Lookup(pairs, columns[k])
      {
        if columns[k] == from {
          assert next[k] == to;
          assert forall j :: 0 <= j < |rest| ==> rest[j].0 != to by {
            assert forall j :: 0 <= j < |rest| ==> rest[j] == pairs[j + 1];
          }
          LookupMisses(rest, to);
        } else {
          assert next[k] == columns[k];
        }
      }
    }
  }

  /** The importer's renaming: header positions are kept, every legacy name
      becomes its current name and every other name is untouched. */
  function RenameColumns(columns: seq<string>): (r: seq<string>)
    ensures |r| == |columns|
    ensures forall k :: 0 <= k < |r| ==> r[k] == Lookup(ColumnMapping, columns[k])
    ensures forall k :: 0 <= k < |r| ==>
      (forall j :: 0 <= j < |ColumnMapping| ==> ColumnMapping[j].0 != columns[k]) ==> r[k] == columns[k]
  {
    assert RenamesIndependent(ColumnMapping);
    ApplyRenamesPointwise(columns, ColumnMapping);
    forall k | 0 <= k < |columns| && (forall j :: 0 <= j < |ColumnMapping| ==> ColumnMapping[j].0 != columns[k])
      ensures Lookup(ColumnMapping, columns[k]) == columns[k]
    {
      LookupMisses(ColumnMapping, columns[k]);
    }
    ApplyRenames(columns, ColumnMapping)
  }

  /** The clean-up of a chunk's header before anything reads it. */
  function NormalizeHeader(columns: seq<string>): (r: seq<string>)
    ensures |r| == |columns|
    ensures forall k :: 0 <= k < |r| ==> r[k] == Lookup(ColumnMapping, CleanColumn(columns[k]))
  {
    RenameColumns(CleanColumns(columns))
  }
}
