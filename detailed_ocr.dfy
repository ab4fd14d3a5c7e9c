/**
 * `extract_detailed_ocr_data` and the per-file loop of `extract_ocr_durations_for_new_sheet`:
 * an OCR record is opened by every timestamped `perform_ocr_on_cropped_image:` line, collects
 * the original and clipboard texts of the lines after it, ends at the first clipboard time
 * unless a confirming `UPDATED` line moves the end, and is closed (emitted when it has an end)
 * by the next `perform_ocr_on_cropped_image:` line or at the end of the file. The two scans
 * differ only in that the first follows the login lines for its user and date.
 */
module DetailedOcr {
  import opened Wrappers
  import opened Text
  import opened Timestamps
  import opened Classifier
  import opened FileNames

  const OriginalSubstring := "Original Text =>"
  const CopiedSubstring := "Text copied to clipboard:"

  /** What the scan sees of one line: `time` is what `strptime` makes of the timestamp text `stamp`. */
  datatype DetailTag = DetailTag(
    login: Option<UserDate>,
    perform: bool,
    original: bool, originalText: Option<string>,
    copied: bool, copiedText: Option<string>,
    updated: bool,
    stamp: Option<string>, time: Option<int>,
    line: string)

  function TagOf(line: string): DetailTag {
    var stamp := FirstStamp(line);
    DetailTag(DetailLoginMatch(line), Contains(line, PerformMarker),
              Contains(line, OriginalSubstring), QuotedMatch(line, OriginalMarker),
              Contains(line, CopiedSubstring), QuotedMatch(line, ClipMarker),
              Contains(line, Updated), stamp, if stamp.Some? then ParseTimestamp(stamp.value) else None, line)
  }

  function Tags(lines: seq<string>): (r: seq<DetailTag>)
    ensures |r| == |lines|
  {
    seq(|lines|, i requires 0 <= i < |lines| => TagOf(lines[i]))
  }

  /** A line whose timestamp text `strptime` rejects: reading it raises `ValueError`. */
  predicate BadStamp(t: DetailTag) {
    t.stamp.Some? && t.time.None?
  }

  /** `split()[:3]`: the first three words. */
  function FirstWords(s: string): (r: seq<string>)
    ensures |r| <= 3
  {
    var w := Split(s);
    if |w| <= 3 then w else w[..3]
  }

  /** One of the first three words of the clipboard text, longer than two characters, occurs in the line. */
  predicate Hits(line: string, clip: string) {
    var w := FirstWords(clip);
    exists k :: 0 <= k < |w| && |w[k]| > 2 && Contains(line, w[k])
  }

  /** The open record (`current_ocr`). */
  datatype Pending = Pending(start: int, end: Option<int>, original: string, clipboard: string,
                             clipTime: Option<int>, hasUpdated: bool)

  /** One emitted record (`Duration (minutes)`, a float, is not kept). */
  datatype DetailRow = DetailRow(user: string, date: string, startTime: nat, endTime: nat,
                                 seconds: int, original: string, clipboard: string, hasUpdated: bool,
                                 logFile: string)

  /** The end a record is closed with: its end, or else its clipboard time. */
  function EndOf(p: Pending): Option<int> {
    if p.end.None? && p.clipTime.Some? then p.clipTime else p.end
  }

  /** Closing the open record, if any: a row when it has an end. */
  function Close(current: Option<Pending>, user: string, date: string, logFile: string): seq<DetailRow> {
    if current.Some? && EndOf(current.value).Some? then
      var p := current.value;
      var s, e := p.start, EndOf(p).value;
      [DetailRow(user, date, TimeOfDay(s), TimeOfDay(e), if e - s < 0 then 0 else e - s,
                 p.original, p.clipboard, p.hasUpdated, logFile)]
    else []
  }

  /**
   * A record is emitted exactly when one is open and it has an end or a clipboard time; its
   * duration is the end minus the start, clamped at zero, so it is never negative and is zero
   * exactly when the end is not after the start.
   */
  lemma CloseMeaning(current: Option<Pending>, user: string, date: string, logFile: string)
    ensures var rs := Close(current, user, date, logFile);
      && |rs| <= 1
      && (|rs| == 1 <==> current.Some? && (current.value.end.Some? || current.value.clipTime.Some?))
      && (|rs| == 1 ==>
            var p, r := current.value, rs[0];
            var e := if p.end.Some? then p.end.value else p.clipTime.value;
            && r.seconds >= 0 && (r.seconds == 0 <==> e <= p.start) && (r.seconds > 0 ==> r.seconds == e - p.start)
            && r.startTime == TimeOfDay(p.start) && r.endTime == TimeOfDay(e)
            && r.original == p.original && r.clipboard == p.clipboard && r.hasUpdated == p.hasUpdated
            && r.user == user && r.date == date && r.logFile == logFile)
  {
  }

  /** The scan's variables between two lines. */
  datatype DetailState = DetailState(user: string, date: string, current: Option<Pending>, rows: seq<DetailRow>)

  /** A line other than a start line, read while a record is open. */
  function Update(p: Pending, t: DetailTag, i: nat): Result<Pending, nat> {
    if t.original then
      Success(if t.originalText.Some? then p.(original := t.originalText.value) else p)
    else if t.copied then
      var p' := if t.copiedText.Some? then p.(clipboard := t.copiedText.value) else p;
      if t.stamp.None? then Success(p')
      else match t.time
        case None => Failure(i)
        case Some(v) => Success(p'.(clipTime := Some(v), end := if p'.end.None? then Some(v) else p'.end))
    else if t.updated && p.clipboard != [] && Hits(t.line, p.clipboard) then
      var p' := p.(hasUpdated := true);
      if t.stamp.None? then Success(p')
      else match t.time
        case None => Failure(i)
        case Some(v) => Success(p'.(end := Some(v)))
    else Success(p)
  }

  /**
   * Reading a line keeps the start; only a clipboard line changes the clipboard text, and
   * only a confirming `UPDATED` line sets "Has UPDATED".
   */
  lemma UpdateMeaning(p: Pending, t: DetailTag, i: nat)
    requires Update(p, t, i).Success?
    ensures var p' := Update(p, t, i).value;
      && p'.start == p.start
      && (p'.clipboard != p.clipboard ==> t.copied && t.copiedText == Some(p'.clipboard))
      && (p'.hasUpdated && !p.hasUpdated ==>
            t.updated && !t.original && !t.copied && p.clipboard != [] && Hits(t.line, p.clipboard))
  {
  }

  /** One line of the scan; `Failure(i)` when line `i` raises. */
  function Step(st: DetailState, t: DetailTag, i: nat, track: bool, logFile: string): Result<DetailState, nat> {
    var user := if track && t.login.Some? then t.login.value.user else st.user;
    var date := if track && t.login.Some? then t.login.value.date else st.date;
    if t.perform then
      var rows := st.rows + Close(st.current, user, date, logFile);
      if t.stamp.None? then Success(DetailState(user, date, None, rows))
      else match t.time
        case None => Failure(i)
        case Some(v) => Success(DetailState(user, date, Some(Pending(v, None, "", "", None, false)), rows))
    else if st.current.None? then Success(DetailState(user, date, None, st.rows))
    else match Update(st.current.value, t, i)
      case Failure(e) => Failure(e)
      case Success(p) => Success(DetailState(user, date, Some(p), st.rows))
  }

  /** The scan over the lines below `n`, from `init`. */
  function Scan(tags: seq<DetailTag>, track: bool, logFile: string, init: DetailState, n: nat): Result<DetailState, nat>
    requires n <= |tags|
  {
    if n == 0 then Success(init)
    else match Scan(tags, track, logFile, init, n - 1)
      case Failure(e) => Failure(e)
      case Success(st) => Step(st, tags[n - 1], n - 1, track, logFile)
  }

  /** The rows of the whole file: the scan, then closing the last record. */
  function Rows(tags: seq<DetailTag>, track: bool, logFile: string, init: DetailState): Result<seq<DetailRow>, nat> {
    match Scan(tags, track, logFile, init, |tags|)
    case Failure(e) => Failure(e)
    case Success(st) => Success(st.rows + Close(st.current, st.user, st.date, logFile))
  }

  // ---------------------------------------------------------------------------
  // Failure

  /** Once a line raises, the scan stops there. */
  lemma {:induction false} FailureStays(tags: seq<DetailTag>, track: bool, logFile: string, init: DetailState, m: nat, n: nat)
    requires m <= n <= |tags| && Scan(tags, track, logFile, init, m).Failure?
    ensures Scan(tags, track, logFile, init, n) == Scan(tags, track, logFile, init, m)
    decreases n
  {
    if m < n {
      FailureStays(tags, track, logFile, init, m, n - 1);
    }
  }

  /** The scan fails only at a line whose timestamp does not parse. */
  lemma {:induction false} ScanFailure(tags: seq<DetailTag>, track: bool, logFile: string, init: DetailState, n: nat)
    requires n <= |tags|
    ensures Scan(tags, track, logFile, init, n).Failure? ==>
      Scan(tags, track, logFile, init, n).error < n && BadStamp(tags[Scan(tags, track, logFile, init, n).error])
  {
    if n > 0 {
      ScanFailure(tags, track, logFile, init, n - 1);
    }
  }

  /** The rows of a file fail only at a line whose timestamp does not parse. */
  lemma RowsFailure(tags: seq<DetailTag>, track: bool, logFile: string, init: DetailState)
    ensures Rows(tags, track, logFile, init).Failure? ==>
      Rows(tags, track, logFile, init).error < |tags| && BadStamp(tags[Rows(tags, track, logFile, init).error])
  {
    ScanFailure(tags, track, logFile, init, |tags|);
  }

  /** The scan succeeds on lines whose timestamps all parse. */
  lemma {:induction false} ScanSuccess(tags: seq<DetailTag>, track: bool, logFile: string, init: DetailState, n: nat)
    requires n <= |tags| && forall j :: 0 <= j < n ==> !BadStamp(tags[j])
    ensures Scan(tags, track, logFile, init, n).Success?
  {
    if n > 0 {
      ScanSuccess(tags, track, logFile, init, n - 1);
      var st := Scan(tags, track, logFile, init, n - 1).value;
      assert !BadStamp(tags[n - 1]);
    }
  }

  // ---------------------------------------------------------------------------
  // Counting records

  /** The timestamped `perform_ocr_on_cropped_image:` lines below `n`. */
  function Starts(tags: seq<DetailTag>, n: nat): (c: nat)
    requires n <= |tags|
    ensures c <= n
  {
    if n == 0 then 0 else Starts(tags, n - 1) + if tags[n - 1].perform && tags[n - 1].stamp.Some? then 1 else 0
  }

  function Open(st: DetailState): nat { if st.current.Some? then 1 else 0 }

  /** Each emitted and each open record was opened by its own timestamped start line. */
  lemma {:induction false} ScanCount(tags: seq<DetailTag>, track: bool, logFile: string, init: DetailState, n: nat)
    requires n <= |tags| && init.current.None? && init.rows == []
    ensures Scan(tags, track, logFile, init, n).Success? ==>
      var st := Scan(tags, track, logFile, init, n).value; |st.rows| + Open(st) <= Starts(tags, n)
  {
    if n > 0 {
      ScanCount(tags, track, logFile, init, n - 1);
      var prev := Scan(tags, track, logFile, init, n - 1);
      if prev.Success? && Scan(tags, track, logFile, init, n).Success? {
        StepCount(prev.value, tags[n - 1], n - 1, track, logFile);
      }
    }
  }

  /** A start line closes at most one record and opens at most one; other lines do neither. */
  lemma StepCount(st: DetailState, t: DetailTag, i: nat, track: bool, logFile: string)
    requires Step(st, t, i, track, logFile).Success?
    ensures var st' := Step(st, t, i, track, logFile).value;
      |st'.rows| + Open(st') <= |st.rows| + Open(st) + if t.perform && t.stamp.Some? then 1 else 0
  {
    var user := if track && t.login.Some? then t.login.value.user else st.user;
    var date := if track && t.login.Some? then t.login.value.date else st.date;
    CloseMeaning(st.current, user, date, logFile);
  }

  /** At most one record per timestamped start line of the file. */
  lemma RowsCount(tags: seq<DetailTag>, track: bool, logFile: string, init: DetailState)
    requires init.current.None? && init.rows == []
    ensures Rows(tags, track, logFile, init).Success? ==> |Rows(tags, track, logFile, init).value| <= Starts(tags, |tags|)
  {
    ScanCount(tags, track, logFile, init, |tags|);
    var sc := Scan(tags, track, logFile, init, |tags|);
    if sc.Success? {
      CloseMeaning(sc.value.current, sc.value.user, sc.value.date, logFile);
    }
  }

  // ---------------------------------------------------------------------------
  // Durations and "Has UPDATED"

  /**
   * Line `j` confirms a record: an `UPDATED` line that is none of the other kinds and that
   * holds one of the first three long words of a text copied to the clipboard earlier.
   */
  predicate Confirms(tags: seq<DetailTag>, j: nat)
    requires j < |tags|
  {
    && tags[j].updated && !tags[j].perform && !tags[j].original && !tags[j].copied
    && exists k :: 0 <= k < j && tags[k].copiedText.Some? && Hits(tags[j].line, tags[k].copiedText.value)
  }

  /** A confirming line lies below `n`. */
  predicate Confirmed(tags: seq<DetailTag>, n: nat)
    requires n <= |tags|
  {
    exists j :: 0 <= j < n && Confirms(tags, j)
  }

  /** A line below `n` copied `c` to the clipboard. */
  predicate CopiedBelow(tags: seq<DetailTag>, n: nat, c: string)
    requires n <= |tags|
  {
    exists k :: 0 <= k < n && tags[k].copiedText == Some(c)
  }

  /** Every row so far has a duration of at least zero, and says "Has UPDATED" only after a confirming line. */
  predicate RowsSound(tags: seq<DetailTag>, n: nat, rows: seq<DetailRow>, logFile: string)
    requires n <= |tags|
  {
    forall k :: 0 <= k < |rows| ==>
      rows[k].seconds >= 0 && rows[k].logFile == logFile && (rows[k].hasUpdated ==> Confirmed(tags, n))
  }

  /** The open record says "Has UPDATED" only after a confirming line, and its clipboard text was copied. */
  predicate PendingSound(tags: seq<DetailTag>, n: nat, p: Pending)
    requires n <= |tags|
  {
    (p.hasUpdated ==> Confirmed(tags, n)) && (p.clipboard != [] ==> CopiedBelow(tags, n, p.clipboard))
  }

  /** What holds of every row and of the open record along the scan. */
  predicate Sound(tags: seq<DetailTag>, n: nat, st: DetailState, logFile: string)
    requires n <= |tags|
  {
    RowsSound(tags, n, st.rows, logFile) && (st.current.Some? ==> PendingSound(tags, n, st.current.value))
  }

  lemma RowsSoundGrows(tags: seq<DetailTag>, n: nat, rows: seq<DetailRow>, logFile: string)
    requires n < |tags| && RowsSound(tags, n, rows, logFile)
    ensures RowsSound(tags, n + 1, rows, logFile)
  {
    if Confirmed(tags, n) {
      var j :| 0 <= j < n && Confirms(tags, j);
      assert Confirmed(tags, n + 1);
    }
  }

  lemma PendingSoundGrows(tags: seq<DetailTag>, n: nat, p: Pending)
    requires n < |tags| && PendingSound(tags, n, p)
    ensures PendingSound(tags, n + 1, p)
  {
    if Confirmed(tags, n) {
      var j :| 0 <= j < n && Confirms(tags, j);
      assert Confirmed(tags, n + 1);
    }
    if p.clipboard != [] {
      var k :| 0 <= k < n && tags[k].copiedText == Some(p.clipboard);
      assert CopiedBelow(tags, n + 1, p.clipboard);
    }
  }

  /** Closing a sound open record keeps the rows sound. */
  lemma CloseSound(tags: seq<DetailTag>, n: nat, rows: seq<DetailRow>, current: Option<Pending>,
                   user: string, date: string, logFile: string)
    requires n <= |tags| && RowsSound(tags, n, rows, logFile)
    requires current.Some? ==> PendingSound(tags, n, current.value)
    ensures RowsSound(tags, n, rows + Close(current, user, date, logFile), logFile)
  {
    CloseMeaning(current, user, date, logFile);
  }

  /** Reading a line keeps the open record sound. */
  lemma UpdateSound(tags: seq<DetailTag>, i: nat, p: Pending)
    requires i < |tags| && !tags[i].perform && PendingSound(tags, i, p) && Update(p, tags[i], i).Success?
    ensures PendingSound(tags, i + 1, Update(p, tags[i], i).value)
  {
    var t := tags[i];
    UpdateMeaning(p, t, i);
    var p' := Update(p, t, i).value;
    PendingSoundGrows(tags, i, p);
    if p'.hasUpdated && !p.hasUpdated {
      var k :| 0 <= k < i && tags[k].copiedText == Some(p.clipboard);
      assert Confirms(tags, i);
      assert Confirmed(tags, i + 1);
    }
    if p'.clipboard != [] && p'.clipboard != p.clipboard {
      assert CopiedBelow(tags, i + 1, p'.clipboard);
    }
  }

  lemma {:induction false} ScanSound(tags: seq<DetailTag>, track: bool, logFile: string, init: DetailState, n: nat)
    requires n <= |tags| && init.current.None? && init.rows == []
    ensures Scan(tags, track, logFile, init, n).Success? ==> Sound(tags, n, Scan(tags, track, logFile, init, n).value, logFile)
  {
    if n > 0 {
      ScanSound(tags, track, logFile, init, n - 1);
      var prev := Scan(tags, track, logFile, init, n - 1);
      if prev.Success? && Scan(tags, track, logFile, init, n).Success? {
        StepSound(tags, track, logFile, n - 1, prev.value);
      }
    }
  }

  lemma StepSound(tags: seq<DetailTag>, track: bool, logFile: string, i: nat, st: DetailState)
    requires i < |tags| && Sound(tags, i, st, logFile)
    requires Step(st, tags[i], i, track, logFile).Success?
    ensures Sound(tags, i + 1, Step(st, tags[i], i, track, logFile).value, logFile)
  {
    var t := tags[i];
    var st' := Step(st, t, i, track, logFile).value;
    var user := if track && t.login.Some? then t.login.value.user else st.user;
    var date := if track && t.login.Some? then t.login.value.date else st.date;
    if t.perform {
      CloseSound(tags, i, st.rows, st.current, user, date, logFile);
      RowsSoundGrows(tags, i, st.rows + Close(st.current, user, date, logFile), logFile);
      assert st'.rows == st.rows + Close(st.current, user, date, logFile);
    } else {
      RowsSoundGrows(tags, i, st.rows, logFile);
      if st.current.Some? {
        UpdateSound(tags, i, st.current.value);
      }
    }
  }

  /**
   * Every emitted duration is at least zero, and a record says "Has UPDATED" only when a
   * confirming `UPDATED` line was read.
   */
  lemma FileRowsSound(tags: seq<DetailTag>, track: bool, logFile: string, init: DetailState)
    requires init.current.None? && init.rows == []
    ensures Rows(tags, track, logFile, init).Success? ==>
      var rs := Rows(tags, track, logFile, init).value;
      && (forall k :: 0 <= k < |rs| ==> rs[k].seconds >= 0 && rs[k].logFile == logFile)
      && (forall k :: 0 <= k < |rs| && rs[k].hasUpdated ==> Confirmed(tags, |tags|))
  {
    ScanSound(tags, track, logFile, init, |tags|);
    var sc := Scan(tags, track, logFile, init, |tags|);
    if sc.Success? {
      CloseMeaning(sc.value.current, sc.value.user, sc.value.date, logFile);
    }
  }

  // ---------------------------------------------------------------------------
  // The scan as a loop

  /** The body of the loop over the lines: reads line `i` and says whether it raised. */
  method ReadLine(st: DetailState, t: DetailTag, i: nat, track: bool, logFile: string)
    returns (ok: bool, st': DetailState)
    ensures Step(st, t, i, track, logFile) == if ok then Success(st') else Failure(i)
  {
    var user, date, current, rows := st.user, st.date, st.current, st.rows;
    ok := true;
    if track && t.login.Some? {
      user, date := t.login.value.user, t.login.value.date;
    }
    if t.perform {
      rows := rows + Close(current, user, date, logFile);
      if t.stamp.Some? {
        var v := t.time;
        if v.None? {
          return false, st;
        }
        current := Some(Pending(v.value, None, "", "", None, false));
      } else {
        current := None;
      }
    } else if t.original && current.Some? {
      if t.originalText.Some? {
        current := Some(current.value.(original := t.originalText.value));
      }
    } else if t.copied && current.Some? {
      if t.copiedText.Some? {
        current := Some(current.value.(clipboard := t.copiedText.value));
      }
      if t.stamp.Some? {
        var v := t.time;
        if v.None? {
          return false, st;
        }
        var p := current.value.(clipTime := v);
        if p.end.None? {
          p := p.(end := v);
        }
        current := Some(p);
      }
    } else if t.updated && current.Some? && current.value.clipboard != [] && Hits(t.line, current.value.clipboard) {
      current := Some(current.value.(hasUpdated := true));
      if t.stamp.Some? {
        var v := t.time;
        if v.None? {
          return false, st;
        }
        current := Some(current.value.(end := v));
      }
    }
    st' := DetailState(user, date, current, rows);
  }

  /** The per-line loop of both scans, from the given user and date. */
  method ScanLines(tags: seq<DetailTag>, track: bool, logFile: string, user0: string, date0: string)
    returns (r: Result<seq<DetailRow>, nat>)
    ensures r == Rows(tags, track, logFile, DetailState(user0, date0, None, []))
  {
    ghost var init := DetailState(user0, date0, None, []);
    var st := DetailState(user0, date0, None, []);
    var i := 0;
    while i < |tags|
      invariant i <= |tags|
      invariant Scan(tags, track, logFile, init, i) == Success(st)
    {
      var ok, next := ReadLine(st, tags[i], i, track, logFile);
      if !ok {
        assert Scan(tags, track, logFile, init, i + 1) == Failure(i);
        FailureStays(tags, track, logFile, init, i + 1, |tags|);
        return Failure(i);
      }
      st := next;
      i := i + 1;
    }
    r := Success(st.rows + Close(st.current, st.user, st.date, logFile));
  }

  /** The scan's starting user and date: those of the file name, or "Unknown". */
  function Start(logFile: string): DetailState {
    DetailState(FileUser(logFile), ExtractDate(logFile), None, [])
  }

  /** `extract_detailed_ocr_data` on a file's base name and lines; `Failure(i)` when line `i` raises. */
  method ExtractDetailedOcrData(logFile: string, lines: seq<string>) returns (r: Result<seq<DetailRow>, nat>)
    ensures r == Rows(Tags(lines), true, logFile, Start(logFile))
  {
    r := ScanLines(Tags(lines), true, logFile, FileUser(logFile), ExtractDate(logFile));
  }
}
