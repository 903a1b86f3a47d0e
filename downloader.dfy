/**
 * The monthly trip-data downloader (DivvyDownloader): file naming, the
 * skip-if-present and force rules of download and extraction, one month,
 * a whole year, the temporary-zip cleanup and the listing of CSV files.
 *
 * The filesystem is a set of file paths. The network and the zip reader are
 * a `Remote`: whether fetching a file name succeeds, and which entries the
 * archive of that name holds.
 */
module Downloader {
  import opened Wrappers
  import opened Text

  const TripdataZip := "-divvy-tripdata.zip"
  const TripdataCsv := "-divvy-tripdata.csv"

  /** get_filename: "{year:04d}{month:02d}-divvy-tripdata.zip". */
  function GetFilename(year: int, month: int): string {
    ZeroPad(year, 4) + ZeroPad(month, 2) + TripdataZip
  }

  /** For a four-digit year and a two-digit month the name is 25 characters:
      six digits that read back as the year and the month, then the suffix. */
  lemma GetFilenameLayout(year: int, month: int)
    requires 0 <= year <= 9999 && 0 <= month <= 99
    ensures var f := GetFilename(year, month);
      && |f| == 25
      && AllDigits(f[..6])
      && ParseDecimal(f[..4]) == year
      && ParseDecimal(f[4..6]) == month
      && f[6..] == TripdataZip
  {
    DecimalLengthBound(year, 4);
    DecimalLengthBound(month, 2);
    var f := GetFilename(year, month);
    assert f[..4] == PadNat(year, 4);
    assert f[4..6] == PadNat(month, 2);
  }

  /** filename.replace('.zip', '.csv') */
  function CsvName(zipName: string): string {
    ReplaceAll(zipName, ".zip", ".csv")
  }

  /** The CSV belonging to a month's archive has the same stem. */
  lemma CsvNameOfFilename(year: int, month: int)
    ensures CsvName(GetFilename(year, month)) == ZeroPad(year, 4) + ZeroPad(month, 2) + TripdataCsv
  {
    var a, b := ZeroPad(year, 4), ZeroPad(month, 2);
    var word := "-divvy-tripdata";
    var stem := a + b + word;
    assert GetFilename(year, month) == stem + ".zip";
    assert '.' !in a && '.' !in b;
    assert '.' !in word;
    assert '.' !in stem;
    ReplaceTrailing(stem, ".zip", ".csv");
    assert stem + ".csv" == a + b + TripdataCsv;
  }

  /** The "{year}-{month:02d}" label of a month in the year summary. */
  function MonthLabel(year: int, month: int): string {
    IntToDecimal(year) + "-" + ZeroPad(month, 2)
  }

  /** What an archive that is opened turns out to hold. */
  datatype Archive = Corrupt | Entries(names: seq<string>)

  /** The outside world as the downloader sees it: whether the HTTP transfer
      of a file name completes, and what the zip file of that name holds. */
  datatype Remote = Remote(delivers: string -> bool, archive: string -> Archive)

  /** A boolean result together with the filesystem afterwards. */
  datatype Outcome = Outcome(ok: bool, fs: set<string>)

  /** The first archive entry whose name ends in ".csv". */
  function FirstCsv(names: seq<string>): (r: Option<string>)
    ensures r.None? <==> forall i :: 0 <= i < |names| ==> !EndsWith(names[i], ".csv")
    ensures r.Some? ==>
      exists i :: (0 <= i < |names| && names[i] == r.value && EndsWith(r.value, ".csv")
        && forall j :: 0 <= j < i ==> !EndsWith(names[j], ".csv"))
  {
    if names == [] then None
    else if EndsWith(names[0], ".csv") then Some(names[0])
    else
      var r := FirstCsv(names[1..]);
      assert forall i :: 0 < i < |names| ==> names[i] == names[1..][i - 1];
      r
  }

  /** The names among `entries` that end in ".csv", in their order. */
  function CsvFilesIn(entries: seq<string>): (r: seq<string>)
    ensures forall n :: n in r <==> n in entries && EndsWith(n, ".csv")
    ensures |r| <= |entries|
  {
    if entries == [] then []
    else (if EndsWith(entries[0], ".csv") then [entries[0]] else []) + CsvFilesIn(entries[1..])
  }

  /** An archive has no CSV entries exactly when none of its names ends in ".csv". */
  lemma {:induction false} NoCsvFiles(entries: seq<string>)
    ensures CsvFilesIn(entries) == [] <==> forall n :: n in entries ==> !EndsWith(n, ".csv")
  {
    if entries != [] {
      NoCsvFiles(entries[1..]);
      assert entries[0] in entries;
      assert forall n :: n in entries[1..] ==> n in entries;
      assert forall n :: n in entries ==> n == entries[0] || n in entries[1..];
    }
  }

  datatype DivvyDownloader = DivvyDownloader(dataDir: string) {

    function TempDir(): string { dataDir + "/temp" }

    function CsvDir(): string { dataDir + "/csv" }

    function ZipPath(filename: string): string { TempDir() + "/" + filename }

    function CsvPath(filename: string): string { CsvDir() + "/" + CsvName(filename) }

    /** download_file: a zip already in the temporary directory is kept unless
        `force`; otherwise the transfer is attempted, and a failed transfer
        deletes whatever lay at the zip path. */
    function DownloadFile(filename: string, force: bool, fs: set<string>, remote: Remote): (r: Outcome)
      ensures ZipPath(filename) in fs && !force ==> r == Outcome(true, fs)
      ensures !(ZipPath(filename) in fs && !force) ==> r.ok == remote.delivers(filename)
      ensures r.ok <==> ZipPath(filename) in r.fs
      ensures r.fs - {ZipPath(filename)} == fs - {ZipPath(filename)}
    {
      var zip := ZipPath(filename);
      if zip in fs && !force then Outcome(true, fs)
      else if remote.delivers(filename) then Outcome(true, fs + {zip})
      else Outcome(false, fs - {zip})
    }

    /** extract_file: needs the zip; keeps an existing CSV unless `force`;
        otherwise extracts the archive's first ".csv" entry into the temporary
        directory and renames it to the CSV path. */
    function ExtractFile(filename: string, force: bool, fs: set<string>, remote: Remote): (r: Outcome)
      ensures ZipPath(filename) !in fs ==> r == Outcome(false, fs)
      ensures ZipPath(filename) in fs && CsvPath(filename) in fs && !force ==> r == Outcome(true, fs)
      ensures r.ok <==>
        (ZipPath(filename) in fs &&
          ((CsvPath(filename) in fs && !force) ||
           (remote.archive(filename).Entries? && FirstCsv(remote.archive(filename).names).Some?)))
      ensures !r.ok ==> r.fs == fs
      ensures r.ok ==> CsvPath(filename) in r.fs
      ensures r.ok && !(CsvPath(filename) in fs && !force) ==>
        var src := TempDir() + "/" + FirstCsv(remote.archive(filename).names).value;
        r.fs == (fs - {src}) + {CsvPath(filename)}
    {
      var zip := ZipPath(filename);
      var csvPath := CsvPath(filename);
      if zip !in fs then Outcome(false, fs)
      else if csvPath in fs && !force then Outcome(true, fs)
      else match remote.archive(filename)
        case Corrupt => Outcome(false, fs)
        case Entries(names) =>
          match FirstCsv(names)
          case None => Outcome(false, fs)
          case Some(entry) =>
            var src := TempDir() + "/" + entry;
            Outcome(true, (fs + {src} - {src}) + {csvPath})
    }

    /** download_month: extraction runs only after a successful download. */
    function DownloadMonth(year: int, month: int, force: bool, fs: set<string>, remote: Remote): (r: Outcome)
      ensures var name := GetFilename(year, month);
        var d := DownloadFile(name, force, fs, remote);
        && (!d.ok ==> r == d)
        && (r.ok <==> d.ok && ExtractFile(name, force, d.fs, remote).ok)
      ensures r.ok ==> CsvPath(GetFilename(year, month)) in r.fs
    {
      var name := GetFilename(year, month);
      var d := DownloadFile(name, force, fs, remote);
      if d.ok then ExtractFile(name, force, d.fs, remote) else d
    }

    /** The results of months 1..n of a year, each month seeing the
        filesystem the previous one left. */
    function YearRun(year: int, force: bool, fs: set<string>, remote: Remote, n: nat): (r: (seq<bool>, set<string>))
      ensures |r.0| == n
    {
      if n == 0 then ([], fs)
      else
        var prev := YearRun(year, force, fs, remote, n - 1);
        var m := DownloadMonth(year, n, force, prev.1, remote);
        (prev.0 + [m.ok], m.fs)
    }

    /** download_year: months 1..12 in order, each appended to the success
        or the failure list. Returns the success list (the failure list is
        only printed by the source) and the filesystem afterwards. */
    method DownloadYear(year: int, force: bool, fs: set<string>, remote: Remote)
      returns (successful: seq<string>, failed: seq<string>, fs': set<string>)
      ensures var run := YearRun(year, force, fs, remote, 12);
        && fs' == run.1
        && successful == Labels(year, MonthsWhere(run.0, true))
        && failed == Labels(year, MonthsWhere(run.0, false))
      ensures |successful| + |failed| == 12
    {
      successful, failed, fs' := [], [], fs;
      ghost var oks: seq<bool> := [];
      for month := 1 to 13
        invariant (oks, fs') == YearRun(year, force, fs, remote, month - 1)
        invariant successful == Labels(year, MonthsWhere(oks, true))
        invariant failed == Labels(year, MonthsWhere(oks, false))
      {
        var r := DownloadMonth(year, month, force, fs', remote);
        assert YearRun(year, force, fs, remote, month) == (oks + [r.ok], r.fs);
        LabelsWhereSnoc(year, oks, r.ok, true);
        LabelsWhereSnoc(year, oks, r.ok, false);
        if r.ok {
          successful := successful + [MonthLabel(year, month)];
        } else {
          failed := failed + [MonthLabel(year, month)];
        }
        oks := oks + [r.ok];
        fs' := r.fs;
      }
      MonthsPartition(oks);
    }

    /** cleanup_temp_files: every "*.zip" file directly in the temporary
        directory is deleted, and nothing else. */
    function CleanupTempFiles(fs: set<string>): (r: set<string>)
      ensures r <= fs
      ensures forall p :: p in fs && p !in r ==> IsTempZip(p)
      ensures forall p :: p in r ==> !IsTempZip(p)
    {
      set p | p in fs && !IsTempZip(p)
    }

    predicate IsTempZip(p: string) {
      var dir := TempDir() + "/";
      StartsWith(p, dir) && '/' !in p[|dir|..] && EndsWith(p[|dir|..], ".zip")
    }

    /** get_available_files: the ".csv" names of the CSV directory, sorted.
        `entries` are the names the directory holds, in the order the
        operating system lists them. */
    function GetAvailableFiles(entries: seq<string>): (r: seq<string>)
      ensures Sorted(r)
      ensures forall n :: n in r <==> n in entries && EndsWith(n, ".csv")
      ensures multiset(r) == multiset(CsvFilesIn(entries))
    {
      var csvs := CsvFilesIn(entries);
      var r := Sort(csvs);
      assert forall n :: n in r <==> n in multiset(r);
      assert forall n :: n in csvs <==> n in multiset(csvs);
      r
    }
  }

  /** The months (1-based positions) whose result equals `want`, ascending. */
  function MonthsWhere(oks: seq<bool>, want: bool): (r: seq<int>)
    ensures forall i, j :: 0 <= i < j < |r| ==> r[i] < r[j]
    ensures forall m :: m in r <==> 1 <= m <= |oks| && oks[m - 1] == want
  {
    if oks == [] then []
    else
      var prev := MonthsWhere(oks[..|oks| - 1], want);
      assert forall k :: 0 <= k < |prev| ==> prev[k] in prev;
      var r := prev + (if oks[|oks| - 1] == want then [|oks|] else []);
      assert forall m :: m in r <==> m in prev || (m == |oks| && oks[|oks| - 1] == want);
      r
  }

  lemma MonthsWhereSnoc(oks: seq<bool>, ok: bool, want: bool)
    ensures MonthsWhere(oks + [ok], want) == MonthsWhere(oks, want) + (if ok == want then [|oks| + 1] else [])
  {
    assert (oks + [ok])[..|oks|] == oks;
  }

  /** A further month adds its label to the list its result belongs to. */
  lemma LabelsWhereSnoc(year: int, oks: seq<bool>, ok: bool, want: bool)
    ensures Labels(year, MonthsWhere(oks + [ok], want))
      == Labels(year, MonthsWhere(oks, want)) + (if ok == want then [MonthLabel(year, |oks| + 1)] else [])
  {
    MonthsWhereSnoc(oks, ok, want);
    var ms := MonthsWhere(oks, want);
    if ok == want {
      var l := Labels(year, ms + [|oks| + 1]);
      assert forall i :: 0 <= i < |ms| ==> l[i] == Labels(year, ms)[i];
    }
  }

  /** Every month is either a success or a failure. */
  lemma {:induction false} MonthsPartition(oks: seq<bool>)
    ensures |MonthsWhere(oks, true)| + |MonthsWhere(oks, false)| == |oks|
  {
    if oks != [] {
      MonthsPartition(oks[..|oks| - 1]);
    }
  }

  function Labels(year: int, months: seq<int>): (r: seq<string>)
    ensures |r| == |months|
    ensures forall i :: 0 <= i < |months| ==> r[i] == MonthLabel(year, months[i])
  {
    seq(|months|, i requires 0 <= i < |months| => MonthLabel(year, months[i]))
  }
}
