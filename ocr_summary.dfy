/**
 * `extract_ocr_durations_for_new_sheet`: the detailed OCR scan of every `.log` file, without
 * following login lines (user and date come from the file name), and the count summary per
 * (user, date): all attempts, the instant ones (zero seconds), and the rest.
 */
module OcrSummary {
  import opened Wrappers
  import opened FileNames
  import opened DetailedOcr

  /** One row of the "OCR Data" sheet (the float minutes are not kept). */
  datatype OcrRow = OcrRow(user: string, date: string, startTime: nat, endTime: nat, seconds: int,
                           original: string, clipboard: string, isInstant: bool)

  /** A log file: its base name and its lines. */
  datatype LogFile = LogFile(name: string, lines: seq<string>)

  /** Line `line` of file `file` raised. */
  datatype FileLine = FileLine(file: nat, line: nat)

  /** A detailed record as the new sheet writes it, under the file's user and date. */
  function NewRow(r: DetailRow, user: string, date: string): (o: OcrRow)
    ensures o.isInstant <==> o.seconds == 0
  {
    OcrRow(user, date, r.startTime, r.endTime, r.seconds, r.original, r.clipboard, r.seconds == 0)
  }

  /** The new sheet's rows of one file's lines, read under the given user and date. */
  function RowsUnder(f: LogFile, user: string, date: string): Result<seq<OcrRow>, nat> {
    match Rows(Tags(f.lines), false, f.name, DetailState(user, date, None, []))
    case Failure(i) => Failure(i)
    case Success(rs) => Success(seq(|rs|, k requires 0 <= k < |rs| => NewRow(rs[k], user, date)))
  }

  /** The new sheet's rows of one file, under the user and date of its name. */
  function FileRows(f: LogFile): Result<seq<OcrRow>, nat> {
    RowsUnder(f, FileUser(f.name), ExtractDate(f.name))
  }

  /** Each file's own result, in folder order. */
  function FileResults(files: seq<LogFile>): (r: seq<Result<seq<OcrRow>, nat>>)
    ensures |r| == |files|
  {
    if files == [] then [] else FileResults(files[..|files| - 1]) + [FileRows(files[|files| - 1])]
  }

  /** The result of file `k` is the rows of that file alone. */
  lemma {:induction false} FileResultsAt(files: seq<LogFile>, k: nat)
    requires k < |files|
    ensures FileResults(files)[k] == FileRows(files[k])
  {
    var init := files[..|files| - 1];
    if k < |init| {
      FileResultsAt(init, k);
      assert FileResults(files)[k] == FileResults(init)[k];
      assert files[k] == init[k];
    }
  }

  /** The rows of the results below `n`, one file after another; the first failing file stops it all. */
  function Combine(results: seq<Result<seq<OcrRow>, nat>>, n: nat): Result<seq<OcrRow>, FileLine>
    requires n <= |results|
  {
    if n == 0 then Success([])
    else match Combine(results, n - 1)
      case Failure(e) => Failure(e)
      case Success(rows) =>
        match results[n - 1]
        case Failure(i) => Failure(FileLine(n - 1, i))
        case Success(rs) => Success(rows + rs)
  }

  /** The rows of every file of the folder, or the first line that raises. */
  function AllRows(files: seq<LogFile>): Result<seq<OcrRow>, FileLine> {
    Combine(FileResults(files), |files|)
  }

  /**
   * Every row of a file carries the user and date of its name and a duration of at least
   * zero; it is instant exactly when its duration is zero; and the file gives at most one row
   * per timestamped start line.
   */
  lemma FileRowsMeaning(f: LogFile)
    ensures FileRows(f).Success? ==>
      var rs := FileRows(f).value;
      && |rs| <= Starts(Tags(f.lines), |f.lines|)
      && forall k :: 0 <= k < |rs| ==>
           && rs[k].user == FileUser(f.name) && rs[k].date == ExtractDate(f.name)
           && rs[k].seconds >= 0 && (rs[k].isInstant <==> rs[k].seconds == 0)
  {
    var tags := Tags(f.lines);
    RowsCount(tags, false, f.name, Start(f.name));
    FileRowsSound(tags, false, f.name, Start(f.name));
  }

  /** A combined failure is the failure of one of the files. */
  lemma {:induction false} CombineFailure(results: seq<Result<seq<OcrRow>, nat>>, n: nat)
    requires n <= |results|
    ensures Combine(results, n).Failure? ==>
      var e := Combine(results, n).error;
      e.file < n && results[e.file] == Failure(e.line)
  {
    if n > 0 {
      CombineFailure(results, n - 1);
    }
  }

  lemma FileRowsFailure(f: LogFile)
    ensures FileRows(f).Failure? ==> FileRows(f).error < |f.lines| && BadStamp(Tags(f.lines)[FileRows(f).error])
  {
    RowsFailure(Tags(f.lines), false, f.name, Start(f.name));
  }

  /** A failure names a file and one of its lines whose timestamp does not parse. */
  lemma AllRowsFailure(files: seq<LogFile>)
    ensures AllRows(files).Failure? ==>
      var e := AllRows(files).error;
      e.file < |files| && e.line < |files[e.file].lines| && BadStamp(Tags(files[e.file].lines)[e.line])
  {
    var results := FileResults(files);
    CombineFailure(results, |files|);
    if AllRows(files).Failure? {
      var e := AllRows(files).error;
      FileResultsAt(files, e.file);
      FileRowsFailure(files[e.file]);
    }
  }

  /** The per-file loop. */
  method OcrDurations(files: seq<LogFile>) returns (r: Result<seq<OcrRow>, FileLine>)
    ensures r == AllRows(files)
  {
    ghost var results := FileResults(files);
    var rows: seq<OcrRow> := [];
    var n := 0;
    while n < |files|
      invariant n <= |files|
      invariant Combine(results, n) == Success(rows)
    {
      var fr := FileOcr(files, n);
      CombineStep(results, n, rows, fr);
      if fr.Failure? {
        return Failure(FileLine(n, fr.error));
      }
      rows := rows + fr.value;
      n := n + 1;
    }
    r := Success(rows);
  }

  /** File `n`: its user and date from its name, then the loop over its lines. */
  method FileOcr(files: seq<LogFile>, n: nat) returns (r: Result<seq<OcrRow>, nat>)
    requires n < |files|
    ensures r == FileResults(files)[n]
  {
    var f := files[n];
    var user, date := FileUser(f.name), ExtractDate(f.name);
    r := LinesOcr(f, user, date);
    FileResultsAt(files, n);
  }

  /** The inner loop over one file's lines, then `file_ocr_data` under the given user and date. */
  method LinesOcr(f: LogFile, user: string, date: string) returns (r: Result<seq<OcrRow>, nat>)
    ensures r == RowsUnder(f, user, date)
  {
    var fr := ScanLines(Tags(f.lines), false, f.name, user, date);
    if fr.Failure? {
      return Failure(fr.error);
    }
    var rs := fr.value;
    var k := 0;
    var out: seq<OcrRow> := [];
    while k < |rs|
      invariant k <= |rs|
      invariant out == seq(k, j requires 0 <= j < k => NewRow(rs[j], user, date))
    {
      out := out + [NewRow(rs[k], user, date)];
      k := k + 1;
    }
    r := Success(out);
  }

  /** One more file: its rows are appended, or its failure is the result. */
  lemma CombineStep(results: seq<Result<seq<OcrRow>, nat>>, n: nat, rows: seq<OcrRow>, fr: Result<seq<OcrRow>, nat>)
    requires n < |results| && Combine(results, n) == Success(rows) && results[n] == fr
    ensures fr.Success? ==> Combine(results, n + 1) == Success(rows + fr.value)
    ensures fr.Failure? ==> Combine(results, |results|) == Failure(FileLine(n, fr.error))
  {
    if fr.Failure? {
      CombineFailed(results, n + 1, |results|);
    }
  }

  /** Once a file fails, the files after it change nothing. */
  lemma {:induction false} CombineFailed(results: seq<Result<seq<OcrRow>, nat>>, m: nat, n: nat)
    requires m <= n <= |results| && Combine(results, m).Failure?
    ensures Combine(results, n) == Combine(results, m)
    decreases n
  {
    if m < n {
      CombineFailed(results, m, n - 1);
    }
  }

  // ---------------------------------------------------------------------------
  // The count summary

  datatype Key = Key(user: string, date: string)

  /** One summary row: `Total OCR attempt`, `Partially OCR Attempt`, `OCR Attempt`, and the total seconds. */
  datatype Tally = Tally(total: nat, instant: nat, attempts: int, seconds: int)

  function KeyOf(r: OcrRow): Key { Key(r.user, r.date) }

  /** The rows of `k`. */
  function CountKey(rows: seq<OcrRow>, k: Key): nat {
    if rows == [] then 0 else CountKey(rows[..|rows| - 1], k) + if KeyOf(rows[|rows| - 1]) == k then 1 else 0
  }

  /** The rows of `k` with a duration of zero seconds. */
  function CountInstant(rows: seq<OcrRow>, k: Key): nat {
    if rows == [] then 0
    else CountInstant(rows[..|rows| - 1], k) + if KeyOf(rows[|rows| - 1]) == k && rows[|rows| - 1].seconds == 0 then 1 else 0
  }

  /** The summed durations of the rows of `k`. */
  function SumSeconds(rows: seq<OcrRow>, k: Key): int {
    if rows == [] then 0
    else SumSeconds(rows[..|rows| - 1], k) + if KeyOf(rows[|rows| - 1]) == k then rows[|rows| - 1].seconds else 0
  }

  /** A key has rows exactly when some row carries it; the instant rows are among them. */
  lemma {:induction false} CountMeaning(rows: seq<OcrRow>, k: Key)
    ensures CountKey(rows, k) > 0 <==> exists i :: 0 <= i < |rows| && KeyOf(rows[i]) == k
    ensures CountInstant(rows, k) <= CountKey(rows, k)
    ensures CountKey(rows, k) == 0 ==> CountInstant(rows, k) == 0 && SumSeconds(rows, k) == 0
  {
    if rows != [] {
      var init := rows[..|rows| - 1];
      CountMeaning(init, k);
      if CountKey(init, k) > 0 {
        var i :| 0 <= i < |init| && KeyOf(init[i]) == k;
        assert rows[i] == init[i];
      }
      if exists i :: 0 <= i < |rows| && KeyOf(rows[i]) == k {
        var i :| 0 <= i < |rows| && KeyOf(rows[i]) == k;
        if i < |init| {
          assert init[i] == rows[i];
        }
      }
    }
  }

  /** The durations of the rows are never negative, so neither is a key's total. */
  lemma {:induction false} SumSecondsNonNegative(rows: seq<OcrRow>, k: Key)
    requires forall i :: 0 <= i < |rows| ==> rows[i].seconds >= 0
    ensures SumSeconds(rows, k) >= 0
  {
    if rows != [] {
      var init := rows[..|rows| - 1];
      assert forall i :: 0 <= i < |init| ==> init[i] == rows[i];
      SumSecondsNonNegative(init, k);
    }
  }

  /** The tally of `k` over `rows`. */
  function TallyOf(rows: seq<OcrRow>, k: Key): Tally {
    Tally(CountKey(rows, k), CountInstant(rows, k), CountKey(rows, k) - CountInstant(rows, k), SumSeconds(rows, k))
  }

  /**
   * The summary loop: one row per (user, date) that has records, counting all of its records,
   * the instant ones and the others.
   */
  method Summarize(rows: seq<OcrRow>) returns (m: map<Key, Tally>)
    ensures forall k :: k in m <==> exists i :: 0 <= i < |rows| && KeyOf(rows[i]) == k
    ensures forall k :: k in m ==> m[k] == TallyOf(rows, k)
    ensures forall k :: k in m ==> 0 <= m[k].attempts <= m[k].total && m[k].total > 0
  {
    m := map[];
    var i := 0;
    while i < |rows|
      invariant i <= |rows|
      invariant forall k :: k in m <==> CountKey(rows[..i], k) > 0
      invariant forall k :: k in m ==> m[k] == TallyOf(rows[..i], k)
    {
      var r := rows[i];
      var key := KeyOf(r);
      var t := if key in m then m[key] else Tally(0, 0, 0, 0);
      CountMeaning(rows[..i], key);
      assert t == TallyOf(rows[..i], key);
      var inst := if r.seconds == 0 then 1 else 0;
      m := m[key := Tally(t.total + 1, t.instant + inst, t.total + 1 - (t.instant + inst), t.seconds + r.seconds)];
      assert rows[..i + 1][..i] == rows[..i];
      assert m[key] == TallyOf(rows[..i + 1], key);
      forall k | k != key
        ensures CountKey(rows[..i + 1], k) == CountKey(rows[..i], k)
        ensures TallyOf(rows[..i + 1], k) == TallyOf(rows[..i], k)
      {
      }
      i := i + 1;
    }
    assert rows[..|rows|] == rows;
    forall k | k in m
      ensures 0 <= m[k].attempts <= m[k].total
    {
      CountMeaning(rows, k);
    }
    forall k
      ensures k in m <==> exists i :: 0 <= i < |rows| && KeyOf(rows[i]) == k
    {
      CountMeaning(rows, k);
    }
  }

  /**
   * `extract_ocr_durations_for_new_sheet` over the folder's log files: the rows and their
   * summary, none when no file gives a row, or the first line that raises.
   */
  method ExtractOcrDurations(files: seq<LogFile>) returns (r: Result<Option<(seq<OcrRow>, map<Key, Tally>)>, FileLine>)
    ensures AllRows(files).Failure? ==> r == Failure(AllRows(files).error)
    ensures AllRows(files).Success? ==>
      var rows := AllRows(files).value;
      && r.Success? && (r.value.None? <==> rows == [])
      && (r.value.Some? ==> r.value.value.0 == rows)
      && (r.value.Some? ==> forall k :: k in r.value.value.1 <==> exists i :: 0 <= i < |rows| && KeyOf(rows[i]) == k)
      && (r.value.Some? ==> forall k :: k in r.value.value.1 ==> r.value.value.1[k] == TallyOf(rows, k))
  {
    var d := OcrDurations(files);
    if d.Failure? {
      return Failure(d.error);
    }
    if d.value == [] {
      return Success(None);
    }
    var m := Summarize(d.value);
    r := Success(Some((d.value, m)));
  }
}
