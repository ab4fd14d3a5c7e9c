/**
 * `analyze_log_file` as one method: a single pass over the classified lines drives the
 * session state machine, the OCR pairing and the side tallies together, then the close-out
 * of the last session, the OCR rows and totals, and the tally rows. A calendar-invalid
 * timestamp that the code hands to `strptime` aborts the analysis at its line.
 */
module LogAnalysis {
  import opened Wrappers
  import opened Timestamps
  import opened Classifier
  import opened Sessions
  import opened OcrPairing
  import opened Tallies

  /** The five results of `analyze_log_file`. */
  datatype Report = Report(
    sessions: seq<Session>,
    ocrRows: seq<OcrRow>,
    shortcutRows: seq<ShortcutRow>,
    imageRecordRows: seq<ImageRecordRow>,
    fieldRows: seq<FieldRow>)

  // ---------------------------------------------------------------------------
  // Where the scan raises

  /** The start line's timestamp is parsed as soon as the line matches. */
  predicate StartRaises(info: LineInfo) {
    info.ocrStart.Some? && ParseTimestamp(info.ocrStart.value).None?
  }

  /** The end line's timestamp is parsed only when the end is paired with an open start. */
  predicate EndRaises(st: OcrState, info: LineInfo) {
    info.ocrEnd.Some? && EndGate(StartBlock(st, info)) && ParseTimestamp(info.ocrEnd.value.stamp).None?
  }

  /** A login line's timestamp is parsed when its session opens. */
  predicate LoginRaises(info: LineInfo) {
    info.login.Some? && ParseTimestamp(info.login.value.stamp).None?
  }

  /** Line `i` raises `ValueError`, given the OCR variables the lines before it leave. */
  predicate Raises(infos: seq<LineInfo>, i: nat)
    requires i < |infos|
  {
    StartRaises(infos[i]) || EndRaises(OcrScan(infos, i), infos[i]) || LoginRaises(infos[i])
  }

  // ---------------------------------------------------------------------------
  // The report of a file that does not raise

  /** Every session carries the file's two OCR totals. */
  function WithTotals(ss: seq<Session>, total: int, nameTotal: int): (r: seq<Session>)
    ensures |r| == |ss|
    ensures forall k :: 0 <= k < |r| ==> r[k].totalOcrDuration == total && r[k].totalNameOcrDuration == nameTotal
    ensures forall k :: 0 <= k < |r| ==> r[k].(totalOcrDuration := 0, totalNameOcrDuration := 0)
                                          == ss[k].(totalOcrDuration := 0, totalNameOcrDuration := 0)
  {
    seq(|ss|, k requires 0 <= k < |ss| => ss[k].(totalOcrDuration := total, totalNameOcrDuration := nameTotal))
  }

  ghost function ReportOf(infos: seq<LineInfo>, logFile: string): Report {
    var ocr := OcrScan(infos, |infos|);
    OcrScanValid(infos, |infos|);
    var tally := TallyScan(infos, |infos|);
    var user, date := UserAt(infos, |infos|), DateAt(infos, |infos|);
    Report(
      WithTotals(SessionsOf(infos, logFile),
                 TotalOver(ocr.order, ocr.attempts, |ocr.order|),
                 NameTotalOver(ocr.order, ocr.attempts, |ocr.order|)),
      OcrRows(ocr, logFile, |ocr.order|),
      ShortcutRows(tally, user, date, logFile),
      ImageRecordRows(tally, user, date, logFile),
      FieldRows(tally, logFile, |tally.fieldUsers|))
  }

  /** What the scan returns for these classified lines: the report, or the index of the line that raises first. */
  ghost function AnalysisOf(infos: seq<LineInfo>, logFile: string): Result<Report, nat> {
    match FirstWhere(0, |infos|, (i: nat) => i < |infos| && Raises(infos, i))
    case Some(i) => Failure(i)
    case None => Success(ReportOf(infos, logFile))
  }

  /** What `analyze_log_file` returns for the lines of a file. */
  ghost function Analysis(lines: seq<string>, logFile: string): Result<Report, nat> {
    AnalysisOf(Infos(lines), logFile)
  }

  // ---------------------------------------------------------------------------
  // The method

  /** The loop variables of `analyze_log_file`. */
  datatype ScanState = ScanState(
    closed: seq<Session>, current: Option<OpenSession>, ocr: OcrState, tally: TallyState,
    user: Option<string>, date: Option<string>)

  /** The loop variables after the lines below `n`. */
  ghost function ScanAt(infos: seq<LineInfo>, logFile: string, n: nat): ScanState
    requires n <= |infos|
  {
    var ss := SessionScan(infos, logFile, n);
    ScanState(ss.closed, ss.current, OcrScan(infos, n), TallyScan(infos, n), UserAt(infos, n), DateAt(infos, n))
  }

  method AttachTotals(ss: seq<Session>, total: int, nameTotal: int) returns (r: seq<Session>)
    ensures r == WithTotals(ss, total, nameTotal)
  {
    r := [];
    var k := 0;
    while k < |ss|
      invariant k <= |ss| && |r| == k
      invariant forall j :: 0 <= j < k ==> r[j] == ss[j].(totalOcrDuration := total, totalNameOcrDuration := nameTotal)
    {
      r := r + [ss[k].(totalOcrDuration := total, totalNameOcrDuration := nameTotal)];
      k := k + 1;
    }
  }

  /** The OCR start and end blocks, parsing the timestamps they use. */
  method OcrTimes(ocr: OcrState, info: LineInfo) returns (ocr': OcrState, raised: bool)
    ensures raised == (StartRaises(info) || EndRaises(ocr, info))
    ensures !raised ==> ocr' == TimesStep(ocr, info)
  {
    ocr' := ocr;
    if info.ocrStart.Some? {
      var t := ParseTimestamp(info.ocrStart.value);
      if t.None? {
        return ocr', true;
      }
      ocr' := ocr'.(start := t, inProgress := true);
    }
    assert ocr' == StartBlock(ocr, info);
    if info.ocrEnd.Some? && ocr'.start.Some? && ocr'.imageId.Some? && ocr'.inProgress {
      var clip := info.ocrEnd.value;
      var e := ParseTimestamp(clip.stamp);
      if e.None? {
        return ocr', true;
      }
      var a := Attempt(ocr'.imageId.value, e.value - ocr'.start.value, clip.text, ocr'.start.value, e.value, Named(clip.text));
      ocr' := ocr'.(attempts := ocr'.attempts + [a], inProgress := false, start := None);
    }
    raised := false;
  }

  /** The login block: close the open session, take the new user and date, and open a session at the parsed time. */
  method LoginBlock(infos: seq<LineInfo>, logFile: string, i: nat, closed: seq<Session>, current: Option<OpenSession>,
                    user: Option<string>, date: Option<string>)
    returns (closed': seq<Session>, current': Option<OpenSession>, user': Option<string>, date': Option<string>, raised: bool)
    requires i < |infos| && user == UserAt(infos, i) && date == DateAt(infos, i)
    ensures raised == LoginRaises(infos[i])
    ensures !raised ==> user' == UserAt(infos, i + 1) && date' == DateAt(infos, i + 1)
    ensures !raised ==> SessionState(closed', if current'.Some? then Some(Track(current'.value, infos[i])) else None)
                        == SessionStep(infos, logFile, i, SessionState(closed, current))
  {
    closed', current', user', date', raised := closed, current, user, date, false;
    var info := infos[i];
    if info.login.Some? {
      var l := info.login.value;
      if current.Some? {
        var s := CloseSession(current.value, infos, i);
        closed' := closed + [s];
      }
      user', date' := Some(l.user), Some(l.date);
      var t := ParseTimestamp(l.stamp);
      if t.None? {
        raised := true;
        return;
      }
      current' := Some(Open(l, logFile));
    }
  }

  /** One line of the loop. */
  method ScanLine(infos: seq<LineInfo>, logFile: string, i: nat, st: ScanState) returns (st': ScanState, raised: bool)
    requires i < |infos| && st == ScanAt(infos, logFile, i)
    ensures raised == Raises(infos, i)
    ensures !raised ==> st' == ScanAt(infos, logFile, i + 1)
  {
    st' := st;
    var info := infos[i];
    var ocr, r1 := OcrTimes(st.ocr, info);
    if r1 {
      return st', true;
    }
    var closed, current, user, date, r2 := LoginBlock(infos, logFile, i, st.closed, st.current, st.user, st.date);
    if r2 {
      return st', true;
    }
    var tally := TallyStep(st.tally, info, user, date);
    ocr := ImageStep(ocr, info, user, date);
    if current.Some? {
      current := Some(Track(current.value, info));
    }
    st', raised := ScanState(closed, current, ocr, tally, user, date), false;
  }

  /** `analyze_log_file` on classified lines. */
  method AnalyzeInfos(infos: seq<LineInfo>, logFile: string) returns (r: Result<Report, nat>)
    ensures r == AnalysisOf(infos, logFile)
  {
    var st := ScanState([], None, InitialOcr, InitialTally, None, None);
    var i := 0;
    while i < |infos|
      invariant i <= |infos|
      invariant st == ScanAt(infos, logFile, i)
      invariant forall j :: 0 <= j < i ==> !Raises(infos, j)
    {
      var raised;
      st, raised := ScanLine(infos, logFile, i, st);
      if raised {
        NoEarlierRaise(infos, i);
        return Failure(i);
      }
      i := i + 1;
    }
    var closed := st.closed;
    if st.current.Some? {
      var s := CloseSession(st.current.value, infos, |infos|);
      closed := closed + [s];
    }
    OcrScanValid(infos, |infos|);
    var ocrRows, total, nameTotal := BuildOcrRows(st.ocr, logFile);
    var shortcutRows := BuildShortcutRows(st.tally, st.user, st.date, logFile);
    var imageRows := BuildImageRecordRows(st.tally, st.user, st.date, logFile);
    var fieldRows := BuildFieldRows(st.tally, logFile);
    assert closed == SessionsOf(infos, logFile);
    var sessions := AttachTotals(closed, total, nameTotal);
    NoRaise(infos);
    assert Report(sessions, ocrRows, shortcutRows, imageRows, fieldRows) == ReportOf(infos, logFile);
    r := Success(Report(sessions, ocrRows, shortcutRows, imageRows, fieldRows));
  }

  /** `analyze_log_file` on the lines of a file: each line is classified, then scanned. */
  method AnalyzeLogFile(lines: seq<string>, logFile: string) returns (r: Result<Report, nat>)
    ensures r == Analysis(lines, logFile)
  {
    var infos := Infos(lines);
    r := AnalyzeInfos(infos, logFile);
  }

  /** The first raising line is the one the scan stops at. */
  lemma NoEarlierRaise(infos: seq<LineInfo>, i: nat)
    requires i < |infos| && Raises(infos, i) && forall j :: 0 <= j < i ==> !Raises(infos, j)
    ensures FirstWhere(0, |infos|, (j: nat) => j < |infos| && Raises(infos, j)) == Some(i)
  {
    var p := (j: nat) => j < |infos| && Raises(infos, j);
    var r := FirstWhere(0, |infos|, p);
    assert p(i);
    assert r.Some?;
    assert !p(r.value) || r.value >= i;
    assert r.value <= i;
  }

  lemma NoRaise(infos: seq<LineInfo>)
    requires forall j :: 0 <= j < |infos| ==> !Raises(infos, j)
    ensures FirstWhere(0, |infos|, (j: nat) => j < |infos| && Raises(infos, j)) == None
  {
  }

  // ---------------------------------------------------------------------------
  // What the analysis promises

  /** The analysis fails exactly at the first line that raises. */
  lemma AnalysisFailure(infos: seq<LineInfo>, logFile: string)
    ensures AnalysisOf(infos, logFile).Failure? <==> exists i :: 0 <= i < |infos| && Raises(infos, i)
    ensures AnalysisOf(infos, logFile).Failure? ==>
              var i := AnalysisOf(infos, logFile).error;
              && i < |infos| && Raises(infos, i)
              && forall j :: 0 <= j < i ==> !Raises(infos, j)
  {
    var p := (j: nat) => j < |infos| && Raises(infos, j);
    var r := FirstWhere(0, |infos|, p);
    if r.Some? {
      assert p(r.value);
      forall j | 0 <= j < r.value ensures !Raises(infos, j) {
        assert !p(j);
      }
    } else {
      forall j | 0 <= j < |infos| ensures !Raises(infos, j) {
        assert !p(j);
      }
    }
  }

  /** A successful analysis is the report of the folds, and no line raises. */
  lemma SuccessReport(infos: seq<LineInfo>, logFile: string)
    requires AnalysisOf(infos, logFile).Success?
    ensures AnalysisOf(infos, logFile).value == ReportOf(infos, logFile)
    ensures forall j :: 0 <= j < |infos| ==> !Raises(infos, j)
  {
    AnalysisFailure(infos, logFile);
  }

  /** A file whose matched timestamps are all calendar dates does not raise. */
  lemma AnalysisSucceeds(infos: seq<LineInfo>, logFile: string)
    requires forall i :: 0 <= i < |infos| ==>
               && (infos[i].ocrStart.Some? ==> ParseTimestamp(infos[i].ocrStart.value).Some?)
               && (infos[i].ocrEnd.Some? ==> ParseTimestamp(infos[i].ocrEnd.value.stamp).Some?)
               && (infos[i].login.Some? ==> ParseTimestamp(infos[i].login.value.stamp).Some?)
    ensures AnalysisOf(infos, logFile).Success?
  {
    AnalysisFailure(infos, logFile);
  }

  /**
   * One session per login line, in file order: the k-th carries the k-th login's user and
   * date, starts at its parsed timestamp, counts the `UPDATED` lines from that login up to
   * the next, and carries the file's OCR total, which is the sum of every recorded duration.
   */
  lemma AnalysisSessions(infos: seq<LineInfo>, logFile: string)
    requires AnalysisOf(infos, logFile).Success?
    ensures var rep := AnalysisOf(infos, logFile).value;
            var L := Logins(infos, |infos|);
            var ocr := OcrScan(infos, |infos|);
            && |rep.sessions| == |L|
            && forall k :: 0 <= k < |L| ==>
                 var l := infos[L[k]].login.value;
                 var s := rep.sessions[k];
                 && s.user == l.user && s.date == l.date
                 && ParseTimestamp(l.stamp) == Some(s.start)
                 && s.updateCount == CountUpdates(infos, L[k], Boundary(L, k, |infos|))
                 && s.totalOcrDuration == SumDurations(ocr.attempts)
  {
    SuccessReport(infos, logFile);
    var rep := AnalysisOf(infos, logFile).value;
    var L := Logins(infos, |infos|);
    var ocr := OcrScan(infos, |infos|);
    OcrScanValid(infos, |infos|);
    var total := TotalOver(ocr.order, ocr.attempts, |ocr.order|);
    TotalIsSumOfAttempts(ocr.order, ocr.attempts);
    var ss := SessionsOf(infos, logFile);
    assert rep.sessions == WithTotals(ss, total, NameTotalOver(ocr.order, ocr.attempts, |ocr.order|));
    SessionsPerLogin(infos, logFile);
    forall k | 0 <= k < |L|
      ensures var l := infos[L[k]].login.value;
              var s := rep.sessions[k];
              && s.user == l.user && s.date == l.date
              && ParseTimestamp(l.stamp) == Some(s.start)
              && s.updateCount == CountUpdates(infos, L[k], Boundary(L, k, |infos|))
              && s.totalOcrDuration == SumDurations(ocr.attempts)
    {
      SessionOfLogin(infos, logFile, L, k);
    }
  }

  /** The k-th session of the fold before its totals are attached. */
  lemma SessionOfLogin(infos: seq<LineInfo>, logFile: string, L: seq<nat>, k: nat)
    requires L == Logins(infos, |infos|) && k < |L|
    requires forall j :: 0 <= j < |infos| ==> !Raises(infos, j)
    ensures var l := infos[L[k]].login.value;
            var b := Boundary(L, k, |infos|);
            var s := Close(SessionFrom(infos, logFile, L[k], b), infos, b);
            && s.user == l.user && s.date == l.date
            && ParseTimestamp(l.stamp) == Some(s.start)
            && s.updateCount == CountUpdates(infos, L[k], b)
  {
    var b := Boundary(L, k, |infos|);
    assert L[k] < b by {
      if k + 1 < |L| {
        assert L[k] < L[k + 1];
      }
    }
    SessionFromLogin(infos, logFile, L[k], b);
    SessionFromUpdates(infos, logFile, L[k], b);
    assert !Raises(infos, L[k]);
  }

  /** Each shortcut row counts the presses of its key; keys are listed once, and every pressed key is listed. */
  lemma AnalysisShortcuts(infos: seq<LineInfo>, logFile: string)
    requires AnalysisOf(infos, logFile).Success?
    ensures var rows := AnalysisOf(infos, logFile).value.shortcutRows;
            && (forall k :: 0 <= k < |rows| ==> rows[k].count == Presses(infos, |infos|, rows[k].name) > 0)
            && (forall k, l :: 0 <= k < l < |rows| ==> rows[k].name != rows[l].name)
            && (forall key :: Presses(infos, |infos|, key) > 0 ==> exists k :: 0 <= k < |rows| && rows[k].name == key)
  {
    AnalysisFailure(infos, logFile);
    TallyScanCounts(infos, |infos|);
    var st := TallyScan(infos, |infos|);
    var rows := AnalysisOf(infos, logFile).value.shortcutRows;
    forall key | Presses(infos, |infos|, key) > 0
      ensures exists k :: 0 <= k < |rows| && rows[k].name == key
    {
      assert ShortcutCount(st, key) > 0;
      var k :| 0 <= k < |st.shortcutOrder| && st.shortcutOrder[k] == key;
      assert rows[k].name == key;
    }
  }

  /** The records filed under `img` by the lines below `n`. */
  ghost function RecordsUnder(infos: seq<LineInfo>, n: nat, img: string): set<string>
    requires n <= |infos|
  {
    set p | p in Sheet5Pairs(infos, n) && p.0 == img :: p.1
  }

  /** Each image-record row counts the distinct records filed under its image; images are listed once, and every image with a record is listed. */
  lemma AnalysisImageRecords(infos: seq<LineInfo>, logFile: string)
    requires AnalysisOf(infos, logFile).Success?
    ensures var rows := AnalysisOf(infos, logFile).value.imageRecordRows;
            && (forall k :: 0 <= k < |rows| ==> rows[k].records == |RecordsUnder(infos, |infos|, rows[k].image)| > 0)
            && (forall k, l :: 0 <= k < l < |rows| ==> rows[k].image != rows[l].image)
            && (forall img, rec :: (img, rec) in Sheet5Pairs(infos, |infos|) ==> exists k :: 0 <= k < |rows| && rows[k].image == img)
  {
    var n := |infos|;
    var st := TallyScan(infos, n);
    TallyScanValid(infos, n);
    TallyScanImages(infos, n);
    var rows := AnalysisOf(infos, logFile).value.imageRecordRows;
    assert rows == ImageRecordRows(st, UserAt(infos, n), DateAt(infos, n), logFile);
    ImageRecordRowsMeaning(st, UserAt(infos, n), DateAt(infos, n), logFile);
    forall k | 0 <= k < |rows|
      ensures rows[k].records == |RecordsUnder(infos, n, rows[k].image)|
    {
      var img := rows[k].image;
      assert st.imageRecords[img] == RecordsUnder(infos, n, img) by {
        forall rec ensures rec in st.imageRecords[img] <==> rec in RecordsUnder(infos, n, img) {
          if rec in st.imageRecords[img] {
            assert (img, rec) in Sheet5Pairs(infos, n);
          }
        }
      }
    }
    forall img, rec | (img, rec) in Sheet5Pairs(infos, n)
      ensures exists k :: 0 <= k < |rows| && rows[k].image == img
    {
      assert img in st.imageRecords;
    }
  }

  /**
   * Each field-update row counts the lines updating its field while its user and date are
   * current, and every such user, date and field has a row.
   */
  lemma AnalysisFieldUpdates(infos: seq<LineInfo>, logFile: string)
    requires AnalysisOf(infos, logFile).Success?
    ensures var rows := AnalysisOf(infos, logFile).value.fieldRows;
            && (forall k :: 0 <= k < |rows| ==>
                  rows[k].count == FieldHits(infos, |infos|, rows[k].user, rows[k].date, rows[k].field) > 0)
            && (forall u, d, f :: FieldHits(infos, |infos|, u, d, f) > 0 ==>
                  FieldRow(u, d, f, FieldHits(infos, |infos|, u, d, f), logFile) in rows)
  {
    AnalysisFailure(infos, logFile);
    TallyScanCounts(infos, |infos|);
    var st := TallyScan(infos, |infos|);
    var rows := AnalysisOf(infos, logFile).value.fieldRows;
    assert rows == FieldRows(st, logFile, |st.fieldUsers|);
    FieldRowsSound(st, logFile, |st.fieldUsers|);
    forall k | 0 <= k < |rows|
      ensures rows[k].count == FieldHits(infos, |infos|, rows[k].user, rows[k].date, rows[k].field) > 0
    {
      var r := rows[k];
      assert StoredRow(st, r);
      assert r.user in st.fieldDates && r.date in st.fieldDates[r.user];
      assert (r.user, r.date) in st.fieldNames;
      assert (r.user, r.date, r.field) in st.fieldCounts;
    }
    forall u, d, f | FieldHits(infos, |infos|, u, d, f) > 0
      ensures FieldRow(u, d, f, FieldHits(infos, |infos|, u, d, f), logFile) in rows
    {
      assert FieldCount(st, u, d, f) > 0;
      FieldRowsComplete(st, logFile, u, d, f);
    }
  }
}
