/**
 * The bulk downloader that mirrors the public trip-data bucket into
 * "divvy_data": it picks the monthly archives from the bucket listing,
 * sorts them, and for each one either skips it (its CSV is already there)
 * or downloads it to a temporary file, unpacks its CSV entries under the
 * expected name and counts what happened.
 *
 * The bucket listing is the sequence of object keys, the current date is a
 * parameter, the filesystem is a set of paths, and the network together
 * with the zip reader is a function telling, per key, how the transfer and
 * the opening of the archive turn out.
 */
module BucketSync {
  import opened Wrappers
  import opened Text
  import Downloader

  const DataDir := "divvy_data"

  datatype YearMonth = YearMonth(year: int, month: int)

  /** (a.year, a.month) <= (b.year, b.month) in the order of the calendar. */
  predicate NotLater(a: YearMonth, b: YearMonth) {
    a.year < b.year || (a.year == b.year && a.month <= b.month)
  }

  // ---------------------------------------------------------------------
  // Selecting the monthly archives
  // ---------------------------------------------------------------------

  /** The pattern `(\d{6})-divvy-tripdata\.zip` matches at position i. */
  predicate MatchesAt(key: string, i: nat) {
    i + 25 <= |key| && AllDigits(key[i..i + 6]) && key[i + 6..i + 25] == Downloader.TripdataZip
  }

  /** re.search: the leftmost position at or after `from` where the pattern matches. */
  function FindMatch(key: string, from: nat): (r: Option<nat>)
    ensures r.Some? ==>
      from <= r.value && MatchesAt(key, r.value) && forall j :: from <= j < r.value ==> !MatchesAt(key, j)
    ensures r.None? ==> forall j :: from <= j ==> !MatchesAt(key, j)
    decreases |key| - from
  {
    if |key| < from + 25 then None
    else if MatchesAt(key, from) then Some(from)
    else FindMatch(key, from + 1)
  }

  /** The captured six digits read as int(date_str[:4]) and int(date_str[4:]). */
  function DateOf(digits: string): YearMonth
    requires |digits| == 6 && AllDigits(digits)
  {
    assert AllDigits(digits[..4]) && AllDigits(digits[4..]);
    YearMonth(ParseDecimal(digits[..4]), ParseDecimal(digits[4..]))
  }

  /** The date a bucket key carries: only keys ending in ".zip" that contain
      the pattern have one, and it is read from the leftmost match. */
  function KeyDate(key: string): (r: Option<YearMonth>)
    ensures r.Some? <==> EndsWith(key, ".zip") && exists i: nat :: MatchesAt(key, i)
    ensures r.Some? ==> exists i: nat :: (MatchesAt(key, i) && r.value == DateOf(key[i..i + 6])
      && forall j :: 0 <= j < i ==> !MatchesAt(key, j))
  {
    if !EndsWith(key, ".zip") then None
    else match FindMatch(key, 0)
      case None => None
      case Some(i) => Some(DateOf(key[i..i + 6]))
  }

  /** A key is kept when it carries a date from January 2020 up to and
      including the current month. */
  function IsKept(key: string, now: YearMonth): (r: bool)
    ensures r <==> (KeyDate(key).Some?
      && NotLater(YearMonth(2020, 1), KeyDate(key).value)
      && NotLater(KeyDate(key).value, now))
  {
    match KeyDate(key)
    case None => false
    case Some(d) =>
      var year, month := d.year, d.month;
      year >= 2020 && (year > 2020 || month >= 1)
        && (year < now.year || (year == now.year && month <= now.month))
  }

  /** The kept keys, in listing order. */
  function KeptKeys(keys: seq<string>, now: YearMonth): (r: seq<string>)
    ensures forall k :: k in r <==> k in keys && IsKept(k, now)
    ensures |r| <= |keys|
  {
    if keys == [] then []
    else
      var prev := KeptKeys(keys[..|keys| - 1], now);
      var last := keys[|keys| - 1];
      assert keys == keys[..|keys| - 1] + [last];
      prev + (if IsKept(last, now) then [last] else [])
  }

  /** An archive named by the monthly downloader's rule is found again by
      the key filter with the same date, and it is kept exactly when that
      date lies in the window. */
  lemma FilenameRoundTrip(year: int, month: int, now: YearMonth)
    requires 0 <= year <= 9999 && 0 <= month <= 99
    ensures KeyDate(Downloader.GetFilename(year, month)) == Some(YearMonth(year, month))
    ensures IsKept(Downloader.GetFilename(year, month), now) <==>
      NotLater(YearMonth(2020, 1), YearMonth(year, month)) && NotLater(YearMonth(year, month), now)
  {
    var f := Downloader.GetFilename(year, month);
    Downloader.GetFilenameLayout(year, month);
    assert MatchesAt(f, 0);
    assert f[|f| - 4..] == f[6..][15..];
    assert EndsWith(f, ".zip");
    var d := f[0..6];
    assert d[..4] == f[..4] && d[4..] == f[4..6];
  }

  /** The month digits are not range-checked: a thirteenth month of 2021 is kept. */
  lemma MonthNotRangeChecked()
    ensures IsKept(Downloader.GetFilename(2021, 13), YearMonth(2025, 1))
  {
    FilenameRoundTrip(2021, 13, YearMonth(2025, 1));
  }

  // ---------------------------------------------------------------------
  // One archive
  // ---------------------------------------------------------------------

  /** How fetching a key turns out: the request fails before anything is
      written, the transfer breaks off after the temporary file was created,
      or the archive arrives in the temporary file and is then opened. */
  datatype Fetch =
    | Unreachable
    | Interrupted(temp: string)
    | Fetched(temp: string, archive: Downloader.Archive)

  /** What the run reports for one key. */
  datatype Disposition = Skipped | NotDownloaded | NotAnArchive | NoCsv | Extracted(files: nat)

  /** The filesystem and the three counters of the run. */
  datatype Sync = Sync(fs: set<string>, downloaded: nat, skipped: nat, extracted: nat)

  predicate Downloaded(d: Disposition) {
    d == NotAnArchive || d == NoCsv || d.Extracted?
  }

  function Files(d: Disposition): nat {
    if d.Extracted? then d.files else 0
  }

  function TempFiles(f: Fetch): set<string> {
    if f.Unreachable? then {} else {f.temp}
  }

  predicate InDataDir(p: string) {
    StartsWith(p, DataDir + "/")
  }

  /** os.path.join('divvy_data', name) */
  function DataPath(name: string): (p: string)
    ensures InDataDir(p)
  {
    var p := DataDir + "/" + name;
    assert p[..|DataDir + "/"|] == DataDir + "/";
    p
  }

  lemma DataPathInjective(a: string, b: string)
    requires DataPath(a) == DataPath(b)
    ensures a == b
  {
    assert DataPath(a)[|DataDir + "/"|..] == a;
    assert DataPath(b)[|DataDir + "/"|..] == b;
  }

  /** The basename of the key with ".zip" replaced by ".csv". */
  function ExpectedName(key: string): string {
    Basename(Downloader.CsvName(key))
  }

  function ExpectedCsvPath(key: string): string {
    DataPath(ExpectedName(key))
  }

  function ExtractedPaths(entries: seq<string>): set<string> {
    set e | e in entries :: DataPath(e)
  }

  /** Unpacking the CSV entries one after the other: each is extracted under
      its own name and, when that is not the expected name, moved over the
      expected path. What is left is the expected file in place of every
      extracted one. */
  function ExtractEntries(entries: seq<string>, expected: string, fs: set<string>): (r: set<string>)
    ensures entries == [] ==> r == fs
    ensures entries != [] ==> r == (fs - ExtractedPaths(entries)) + {DataPath(expected)}
    decreases |entries|
  {
    if entries == [] then fs
    else
      var name := entries[0];
      var extracted := DataPath(name);
      var final := DataPath(expected);
      var fs1 := if name != expected then ((fs + {extracted}) - {final}) - {extracted} + {final}
                 else fs + {extracted};
      assert fs1 == (fs - {extracted}) + {final} by {
        if name != expected {
          if extracted == final {
            DataPathInjective(name, expected);
          }
        }
      }
      var rest := entries[1..];
      assert ExtractedPaths(entries) == {extracted} + ExtractedPaths(rest) by {
        assert entries == [name] + rest;
      }
      ExtractEntries(rest, expected, fs1)
  }

  /** Every extracted entry whose name differs from the expected one is gone. */
  lemma RenamedEntriesGone(entries: seq<string>, expected: string, fs: set<string>)
    ensures forall e :: e in entries && e != expected ==> DataPath(e) !in ExtractEntries(entries, expected, fs)
  {
    forall e | e in entries && e != expected
      ensures DataPath(e) !in ExtractEntries(entries, expected, fs)
    {
      if DataPath(e) == DataPath(expected) {
        DataPathInjective(e, expected);
      }
      assert DataPath(e) in ExtractedPaths(entries);
    }
  }

  /** Opening the downloaded archive, before the temporary file is removed. */
  function Unpack(key: string, archive: Downloader.Archive, s: Sync): (Sync, Disposition) {
    match archive
    case Corrupt => (s, NotAnArchive)
    case Entries(names) =>
      var csvs := Downloader.CsvFilesIn(names);
      if csvs == [] then (s, NoCsv)
      else (s.(fs := ExtractEntries(csvs, ExpectedName(key), s.fs), extracted := s.extracted + |csvs|),
            Extracted(|csvs|))
  }

  /** One pass of the loop as the script runs it: an archive without CSV
      entries leaves the loop through `continue` before the temporary file is
      deleted, and a transfer that breaks off is caught by the outer handler,
      which never deletes it. */
  function StepAsWritten(key: string, s: Sync, net: string -> Fetch): (Sync, Disposition) {
    if ExpectedCsvPath(key) in s.fs then (s.(skipped := s.skipped + 1), Skipped)
    else match net(key)
      case Unreachable => (s, NotDownloaded)
      case Interrupted(temp) => (s.(fs := s.fs + {temp}), NotDownloaded)
      case Fetched(temp, archive) =>
        var u := Unpack(key, archive, s.(fs := s.fs + {temp}, downloaded := s.downloaded + 1));
        if u.1 == NoCsv then u else (u.0.(fs := u.0.fs - {temp}), u.1)
  }

  /** An archive without CSV entries, or a broken transfer, leaves its
      temporary file behind. */
  lemma TempFileLeftBehind(key: string, s: Sync, net: string -> Fetch, temp: string, names: seq<string>)
    requires ExpectedCsvPath(key) !in s.fs
    requires net(key) == Interrupted(temp)
      || (net(key) == Fetched(temp, Downloader.Entries(names)) && forall n :: n in names ==> !EndsWith(n, ".csv"))
    ensures temp in StepAsWritten(key, s, net).0.fs
  {
    Downloader.NoCsvFiles(names);
  }

  /** One pass of the loop with the temporary file deleted on every path
      that created it. */
  function SyncStep(key: string, s: Sync, net: string -> Fetch): (r: (Sync, Disposition))
    ensures ExpectedCsvPath(key) in s.fs ==> r == (s.(skipped := s.skipped + 1), Skipped)
    ensures ExpectedCsvPath(key) !in s.fs ==> r.0.skipped == s.skipped && r.1 != Skipped
    ensures ExpectedCsvPath(key) !in s.fs ==> (Downloaded(r.1) <==> net(key).Fetched?)
    ensures r.0.downloaded == s.downloaded + (if Downloaded(r.1) then 1 else 0)
    ensures r.0.extracted == s.extracted + Files(r.1)
    ensures r.1.Extracted? ==> r.1.files > 0
    ensures r.1 != Skipped ==> TempFiles(net(key)) !! r.0.fs
    ensures forall p :: p in r.0.fs && p !in s.fs ==> InDataDir(p)
    ensures net(key).Fetched? && r.1.Extracted? && !InDataDir(net(key).temp) ==> ExpectedCsvPath(key) in r.0.fs
  {
    if ExpectedCsvPath(key) in s.fs then (s.(skipped := s.skipped + 1), Skipped)
    else match net(key)
      case Unreachable => (s, NotDownloaded)
      case Interrupted(temp) => (s.(fs := (s.fs + {temp}) - {temp}), NotDownloaded)
      case Fetched(temp, archive) =>
        var u := Unpack(key, archive, s.(fs := s.fs + {temp}, downloaded := s.downloaded + 1));
        (u.0.(fs := u.0.fs - {temp}), u.1)
  }

  /** The two steps differ only in the removal of the temporary file. */
  lemma StepsDifferInCleanupOnly(key: string, s: Sync, net: string -> Fetch)
    ensures var w := StepAsWritten(key, s, net);
      SyncStep(key, s, net) == (if w.1 == Skipped then w else (w.0.(fs := w.0.fs - TempFiles(net(key))), w.1))
  {
    if ExpectedCsvPath(key) !in s.fs {
      match net(key)
      case Unreachable =>
        assert s.fs - {} == s.fs;
      case Interrupted(temp) =>
      case Fetched(temp, archive) =>
        var u := Unpack(key, archive, s.(fs := s.fs + {temp}, downloaded := s.downloaded + 1));
        assert TempFiles(net(key)) == {temp};
        if u.1 == NoCsv {
          assert StepAsWritten(key, s, net) == u;
        } else {
          assert (u.0.fs - {temp}) - {temp} == u.0.fs - {temp};
        }
    }
  }

  /** Which handling of the temporary file the loop takes: the script as
      written, or the removal on every path (## Findings row 3 of README). */
  datatype Cleanup = AsWritten | Corrected

  function Step(c: Cleanup, key: string, s: Sync, net: string -> Fetch): (Sync, Disposition) {
    if c == AsWritten then StepAsWritten(key, s, net) else SyncStep(key, s, net)
  }

  /** Both steps report the same disposition and counters. */
  lemma StepCounters(c: Cleanup, key: string, s: Sync, net: string -> Fetch)
    ensures var r := Step(c, key, s, net);
      var q := SyncStep(key, s, net);
      r.1 == q.1 && r.0.downloaded == q.0.downloaded && r.0.skipped == q.0.skipped && r.0.extracted == q.0.extracted
  {
    StepsDifferInCleanupOnly(key, s, net);
  }

  // ---------------------------------------------------------------------
  // The whole run
  // ---------------------------------------------------------------------

  /** The keys processed in order, each seeing the state the previous one left. */
  function RunSync(c: Cleanup, keys: seq<string>, s: Sync, net: string -> Fetch): (r: (Sync, seq<Disposition>))
    ensures |r.1| == |keys|
  {
    if keys == [] then (s, [])
    else
      var prev := RunSync(c, keys[..|keys| - 1], s, net);
      var step := Step(c, keys[|keys| - 1], prev.0, net);
      (step.0, prev.1 + [step.1])
  }

  function CountSkipped(log: seq<Disposition>): nat {
    if log == [] then 0 else CountSkipped(log[..|log| - 1]) + (if log[|log| - 1] == Skipped then 1 else 0)
  }

  function CountAttempted(log: seq<Disposition>): nat {
    if log == [] then 0 else CountAttempted(log[..|log| - 1]) + (if log[|log| - 1] != Skipped then 1 else 0)
  }

  function CountDownloaded(log: seq<Disposition>): nat {
    if log == [] then 0 else CountDownloaded(log[..|log| - 1]) + (if Downloaded(log[|log| - 1]) then 1 else 0)
  }

  function CountFiles(log: seq<Disposition>): nat {
    if log == [] then 0 else CountFiles(log[..|log| - 1]) + Files(log[|log| - 1])
  }

  /** The counters of a run, as written or corrected: every key is either
      skipped or attempted, only an attempted key can be downloaded, and the
      counters add up the per-key reports. */
  lemma {:induction false} RunAccounting(c: Cleanup, keys: seq<string>, s: Sync, net: string -> Fetch)
    ensures var r := RunSync(c, keys, s, net);
      && r.0.skipped == s.skipped + CountSkipped(r.1)
      && r.0.downloaded == s.downloaded + CountDownloaded(r.1)
      && r.0.extracted == s.extracted + CountFiles(r.1)
      && CountSkipped(r.1) + CountAttempted(r.1) == |keys|
      && CountDownloaded(r.1) <= CountAttempted(r.1)
  {
    if keys != [] {
      var prev := RunSync(c, keys[..|keys| - 1], s, net);
      RunAccounting(c, keys[..|keys| - 1], s, net);
      StepCounters(c, keys[|keys| - 1], prev.0, net);
      var r := RunSync(c, keys, s, net);
      assert r.1[..|r.1| - 1] == prev.1;
    }
  }

  /** Whatever a corrected run adds to the filesystem lies in the data
      directory: no temporary file survives it. */
  lemma {:induction false} RunLeavesOnlyData(keys: seq<string>, s: Sync, net: string -> Fetch)
    ensures forall p :: p in RunSync(Corrected, keys, s, net).0.fs && p !in s.fs ==> InDataDir(p)
  {
    if keys != [] {
      RunLeavesOnlyData(keys[..|keys| - 1], s, net);
    }
  }

  /** A run as written whose last key is attempted and either breaks off or
      finds no CSV entry ends with that key's temporary file in place. */
  lemma RunLeavesTempAsWritten(keys: seq<string>, key: string, s: Sync, net: string -> Fetch, temp: string, names: seq<string>)
    requires ExpectedCsvPath(key) !in RunSync(AsWritten, keys, s, net).0.fs
    requires net(key) == Interrupted(temp)
      || (net(key) == Fetched(temp, Downloader.Entries(names)) && forall n :: n in names ==> !EndsWith(n, ".csv"))
    ensures temp in RunSync(AsWritten, keys + [key], s, net).0.fs
  {
    assert (keys + [key])[..|keys|] == keys;
    TempFileLeftBehind(key, RunSync(AsWritten, keys, s, net).0, net, temp, names);
  }

  /** The first loop of download_divvy_data: the kept keys, in listing order. */
  method SelectZipFiles(keys: seq<string>, now: YearMonth) returns (zipFiles: seq<string>)
    ensures zipFiles == KeptKeys(keys, now)
  {
    zipFiles := [];
    for i := 0 to |keys|
      invariant zipFiles == KeptKeys(keys[..i], now)
    {
      var key := keys[i];
      assert keys[..i + 1][..i] == keys[..i];
      ghost var before := zipFiles;
      if EndsWith(key, ".zip") {
        var found := FindMatch(key, 0);
        if found.Some? {
          var date := DateOf(key[found.value..found.value + 6]);
          var year, month := date.year, date.month;
          if year >= 2020 && (year > 2020 || month >= 1) {
            if year < now.year || (year == now.year && month <= now.month) {
              zipFiles := zipFiles + [key];
            }
          }
        }
      }
      assert zipFiles == before + (if IsKept(key, now) then [key] else []);
    }
    assert keys[..|keys|] == keys;
  }

  /** The body of the second loop of download_divvy_data, for one key. */
  method ProcessKey(c: Cleanup, key: string, net: string -> Fetch,
                    files: set<string>, downloaded: nat, skipped: nat, extracted: nat)
    returns (files': set<string>, downloaded': nat, skipped': nat, extracted': nat)
    ensures Sync(files', downloaded', skipped', extracted') == Step(c, key, Sync(files, downloaded, skipped, extracted), net).0
  {
    files', downloaded', skipped', extracted' := files, downloaded, skipped, extracted;
    if ExpectedCsvPath(key) in files {
      skipped' := skipped + 1;
      return;
    }
    var fetch := net(key);
    if fetch.Unreachable? {
      return;
    }
    files' := files + {fetch.temp};
    var continued := false;
    if fetch.Fetched? {
      downloaded' := downloaded + 1;
      if fetch.archive.Entries? {
        var csvs := Downloader.CsvFilesIn(fetch.archive.names);
        if csvs == [] {
          continued := true;
        } else {
          files' := ExtractEntries(csvs, ExpectedName(key), files');
          extracted' := extracted + |csvs|;
        }
      }
    }
    if c == Corrected || (fetch.Fetched? && !continued) {
      files' := files' - {fetch.temp};
    }
  }

  /** The second loop of download_divvy_data: the keys in order, with the
      counters starting at zero. */
  method SyncKeys(c: Cleanup, zipFiles: seq<string>, fs: set<string>, net: string -> Fetch)
    returns (files: set<string>, downloaded: nat, skipped: nat, extracted: nat)
    ensures Sync(files, downloaded, skipped, extracted) == RunSync(c, zipFiles, Sync(fs, 0, 0, 0), net).0
  {
    files, downloaded, skipped, extracted := fs, 0, 0, 0;
    for i := 0 to |zipFiles|
      invariant Sync(files, downloaded, skipped, extracted) == RunSync(c, zipFiles[..i], Sync(fs, 0, 0, 0), net).0
    {
      assert zipFiles[..i + 1][..i] == zipFiles[..i];
      files, downloaded, skipped, extracted := ProcessKey(c, zipFiles[i], net, files, downloaded, skipped, extracted);
    }
    assert zipFiles[..|zipFiles|] == zipFiles;
  }

  /** download_divvy_data: select the kept keys, sort them, then process
      each one, counting downloads, skipped keys and extracted CSV files.
      `c` chooses between the temporary-file handling as written and the
      corrected one. */
  method DownloadDivvyData(c: Cleanup, keys: seq<string>, now: YearMonth, fs: set<string>, net: string -> Fetch)
    returns (zipFiles: seq<string>, files: set<string>, downloaded: nat, skipped: nat, extracted: nat)
    ensures zipFiles == Sort(KeptKeys(keys, now))
    ensures Sync(files, downloaded, skipped, extracted) == RunSync(c, zipFiles, Sync(fs, 0, 0, 0), net).0
  {
    zipFiles := SelectZipFiles(keys, now);
    if zipFiles == [] {
      return zipFiles, fs, 0, 0, 0;
    }
    zipFiles := Sort(zipFiles);
    files, downloaded, skipped, extracted := SyncKeys(c, zipFiles, fs, net);
  }
}
