/**
 * The session state machine of `analyze_log_file`: a session opens on every login line,
 * collects the record, update and edit counts of the lines that follow, and closes on the
 * next login line or at the end of the file. Closing it finds its end time by scanning
 * back for timestamped lines and totals its records.
 */
module Sessions {
  import opened Wrappers
  import opened Text
  import opened Timestamps
  import opened Classifier

  /** `image_sections[rec_id]`. */
  datatype Section = Section(imageNum: string, recordsProcessed: nat)

  /** `current_session` while the lines after its login are read. */
  datatype OpenSession = OpenSession(
    user: string, date: string, start: int,
    records: set<string>,
    imageRecords: map<string, set<nat>>,
    updateCount: nat,
    characterCount: nat,
    columnEdits: map<string, nat>,
    imagesProcessed: nat,
    sections: map<string, Section>,
    logFile: string)

  /** A closed session (`duration_minutes`, a rounded float, is not kept). */
  datatype Session = Session(
    user: string, date: string, start: int,
    end: Option<int>,
    durationSeconds: int,
    records: set<string>,
    imageRecords: map<string, set<nat>>,
    updateCount: nat,
    characterCount: nat,
    columnEdits: map<string, nat>,
    imagesProcessed: nat,
    sections: map<string, Section>,
    totalRecordCount: nat,
    totalOcrDuration: int,
    totalNameOcrDuration: int,
    logFile: string)

  predicate IsLogin(info: LineInfo) { info.login.Some? }

  /** The last login line below `n`: the one `current_user` and `current_date` come from. */
  function LastLogin(infos: seq<LineInfo>, n: nat): (r: Option<nat>)
    requires n <= |infos|
    ensures r.Some? ==> r.value < n && IsLogin(infos[r.value])
    ensures r.Some? ==> forall j :: r.value < j < n ==> !IsLogin(infos[j])
    ensures r.None? ==> forall j :: 0 <= j < n ==> !IsLogin(infos[j])
  {
    if n == 0 then None
    else if IsLogin(infos[n - 1]) then Some(n - 1)
    else LastLogin(infos, n - 1)
  }

  /** `current_user` once the lines below `n` have been read. */
  function UserAt(infos: seq<LineInfo>, n: nat): Option<string>
    requires n <= |infos|
  {
    match LastLogin(infos, n)
    case Some(j) => Some(infos[j].login.value.user)
    case None => None
  }

  /** `current_date` once the lines below `n` have been read. */
  function DateAt(infos: seq<LineInfo>, n: nat): Option<string>
    requires n <= |infos|
  {
    match LastLogin(infos, n)
    case Some(j) => Some(infos[j].login.value.date)
    case None => None
  }

  /** Reading one more line changes the current user and date only when it is a login line. */
  lemma CurrentStep(infos: seq<LineInfo>, n: nat)
    requires n < |infos|
    ensures UserAt(infos, n + 1) == if IsLogin(infos[n]) then Some(infos[n].login.value.user) else UserAt(infos, n)
    ensures DateAt(infos, n + 1) == if IsLogin(infos[n]) then Some(infos[n].login.value.date) else DateAt(infos, n)
  {
    assert LastLogin(infos, n + 1) == if IsLogin(infos[n]) then Some(n) else LastLogin(infos, n);
  }

  /** The session a login line opens. */
  function Open(l: Login, logFile: string): (s: OpenSession)
    ensures s.records == {} && s.imageRecords == map[] && s.columnEdits == map[] && s.sections == map[]
    ensures s.updateCount == 0 && s.characterCount == 0 && s.imagesProcessed == 0
  {
    OpenSession(l.user, l.date, StampValue(l.stamp), {}, map[], 0, 0, map[], 0, map[], logFile)
  }

  // ---------------------------------------------------------------------------
  // What one line does to the open session, block by block

  /** An image update adds the record, gives it an (empty) r_num set if new, and resets its section. */
  function TrackImage(cur: OpenSession, info: LineInfo): OpenSession {
    match info.imageUpdate
    case Some(m) =>
      cur.(records := cur.records + {m.record},
           imageRecords := if m.record in cur.imageRecords then cur.imageRecords
                           else cur.imageRecords[m.record := {}],
           sections := cur.sections[m.record := Section(m.number, 0)])
    case None => cur
  }

  /** A DOC_TYPE update sets the processed-images count outright. */
  function TrackDocType(cur: OpenSession, info: LineInfo): OpenSession {
    match info.docType
    case Some(n) => cur.(imagesProcessed := n)
    case None => cur
  }

  function Max(a: nat, b: nat): nat { if a < b then b else a }

  /** An r_num update adds the value to its record's set and raises the record's section maximum. */
  function TrackRNum(cur: OpenSession, info: LineInfo): OpenSession {
    match info.rnum
    case Some(r) =>
      var recs := if r.record in cur.imageRecords then cur.imageRecords[r.record] else {};
      cur.(imageRecords := cur.imageRecords[r.record := recs + {r.value}],
           sections := if r.record in cur.sections
                       then cur.sections[r.record := cur.sections[r.record].(
                              recordsProcessed := Max(cur.sections[r.record].recordsProcessed, r.value))]
                       else cur.sections)
    case None => cur
  }

  /** An edit adds the length of the new value and counts one edit of its column. */
  function TrackEdit(cur: OpenSession, info: LineInfo): OpenSession {
    match info.edit
    case Some(e) =>
      var before := if e.column in cur.columnEdits then cur.columnEdits[e.column] else 0;
      cur.(characterCount := cur.characterCount + |e.value|,
           columnEdits := cur.columnEdits[e.column := before + 1])
    case None => cur
  }

  function TrackUpdate(cur: OpenSession, info: LineInfo): OpenSession {
    if info.updated then cur.(updateCount := cur.updateCount + 1) else cur
  }

  /** The session blocks of the per-line loop, in the order the source runs them. */
  function Track(cur: OpenSession, info: LineInfo): OpenSession {
    TrackUpdate(TrackEdit(TrackRNum(TrackDocType(TrackImage(cur, info), info), info), info), info)
  }

  /** Two open sessions of the same login: same user, date, start time and log file. */
  predicate SameLogin(a: OpenSession, b: OpenSession) {
    a.user == b.user && a.date == b.date && a.start == b.start && a.logFile == b.logFile
  }

  lemma BlocksKeepLogin(cur: OpenSession, info: LineInfo)
    ensures SameLogin(cur, TrackImage(cur, info)) && SameLogin(cur, TrackDocType(cur, info))
    ensures SameLogin(cur, TrackRNum(cur, info)) && SameLogin(cur, TrackEdit(cur, info))
    ensures SameLogin(cur, TrackUpdate(cur, info))
  {
  }

  /** No block of a line changes the session's user, date, start time or log file. */
  lemma TrackKeeps(cur: OpenSession, info: LineInfo)
    ensures SameLogin(cur, Track(cur, info))
  {
    var c1 := TrackImage(cur, info);
    var c2 := TrackDocType(c1, info);
    var c3 := TrackRNum(c2, info);
    var c4 := TrackEdit(c3, info);
    BlocksKeepLogin(cur, info);
    BlocksKeepLogin(c1, info);
    BlocksKeepLogin(c2, info);
    BlocksKeepLogin(c3, info);
    BlocksKeepLogin(c4, info);
  }

  // ---------------------------------------------------------------------------
  // The end time

  /** A line the close-out scan takes a timestamp from: not a login line, and `line[:19]` parses. */
  predicate Stamped(info: LineInfo) { !info.loginMarker && info.head.Some? }

  /** The nearest stamped line below `hi`. */
  function NearestStamped(infos: seq<LineInfo>, hi: nat): (r: Option<nat>)
    requires hi <= |infos|
    ensures r.Some? ==> r.value < hi && Stamped(infos[r.value])
    ensures r.Some? ==> forall j :: r.value < j < hi ==> !Stamped(infos[j])
    ensures r.None? ==> forall j :: 0 <= j < hi ==> !Stamped(infos[j])
  {
    if hi == 0 then None
    else if Stamped(infos[hi - 1]) then Some(hi - 1)
    else NearestStamped(infos, hi - 1)
  }

  /**
   * The end time of a session closed at line `i`: the timestamp of the second-nearest
   * stamped line below `i`, else of the nearest, else none.
   */
  function SessionEnd(infos: seq<LineInfo>, i: nat): (r: Option<int>)
    requires i <= |infos|
    ensures r.Some? <==> exists j :: 0 <= j < i && Stamped(infos[j])
  {
    match NearestStamped(infos, i)
    case None => None
    case Some(j1) =>
      match NearestStamped(infos, j1)
      case Some(j2) => infos[j2].head
      case None => infos[j1].head
  }

  /** The backward `for j` scan of the close-out, with its early `break`. */
  method FindSessionEnd(infos: seq<LineInfo>, i: nat) returns (end: Option<int>)
    requires i <= |infos|
    ensures end == SessionEnd(infos, i)
  {
    var last: Option<int> := None;
    var second: Option<int> := None;
    ghost var lastIdx: nat := 0;
    var j: nat := i;
    while j > 0
      invariant j <= i
      invariant last.None? ==> forall k :: j <= k < i ==> !Stamped(infos[k])
      invariant last.Some? ==> j <= lastIdx < i && NearestStamped(infos, i) == Some(lastIdx)
      invariant last.Some? ==> last == infos[lastIdx].head
      invariant last.Some? ==> forall k :: j <= k < lastIdx ==> !Stamped(infos[k])
    {
      j := j - 1;
      if infos[j].loginMarker {
        continue;
      }
      var t := infos[j].head;
      if t.Some? {
        if last.None? {
          last, lastIdx := t, j;
        } else {
          second := t;
          assert NearestStamped(infos, lastIdx) == Some(j);
          break;
        }
      }
    }
    end := if second.Some? then second else last;
  }

  // ---------------------------------------------------------------------------
  // The record totals

  /** `max(rnums) if rnums else 0`. */
  ghost function MaxOf(s: set<nat>): (m: nat)
    ensures s == {} ==> m == 0
    ensures s != {} ==> m in s && forall x :: x in s ==> x <= m
    decreases s
  {
    if s == {} then 0
    else
      var x :| x in s;
      var r := MaxOf(s - {x});
      assert forall y :: y in s ==> y == x || y in s - {x};
      Max(x, r)
  }

  lemma MaxOfRemove(s: set<nat>, x: nat)
    requires x in s
    ensures MaxOf(s) == Max(x, MaxOf(s - {x}))
  {
    var a, b := MaxOf(s), MaxOf(s - {x});
    if s - {x} != {} {
      assert b in s;
      assert a == x || a in s - {x};
    }
  }

  /** The sum, over the images `ks`, of the largest r_num of each. */
  ghost function SumMax(m: map<string, set<nat>>, ks: set<string>): nat
    requires ks <= m.Keys
    decreases ks
  {
    if ks == {} then 0
    else
      var k :| k in ks;
      MaxOf(m[k]) + SumMax(m, ks - {k})
  }

  /** The sum does not depend on the order in which the images are taken. */
  lemma {:induction false} SumMaxRemove(m: map<string, set<nat>>, ks: set<string>, k: string)
    requires ks <= m.Keys && k in ks
    ensures SumMax(m, ks) == MaxOf(m[k]) + SumMax(m, ks - {k})
    decreases ks
  {
    var j :| j in ks && SumMax(m, ks) == MaxOf(m[j]) + SumMax(m, ks - {j});
    if j != k {
      SumMaxRemove(m, ks - {j}, k);
      SumMaxRemove(m, ks - {k}, j);
      assert ks - {j} - {k} == ks - {k} - {j};
    }
  }

  /** The number of images whose r_num set is not empty. */
  ghost function NonEmptyCount(m: map<string, set<nat>>): nat {
    |set k | k in m && m[k] != {}|
  }

  method MaxOfSet(s: set<nat>) returns (best: nat)
    ensures best == MaxOf(s)
  {
    best := 0;
    var rem := s;
    while rem != {}
      invariant Max(best, MaxOf(rem)) == MaxOf(s)
      decreases rem
    {
      var x :| x in rem;
      MaxOfRemove(rem, x);
      best := Max(best, x);
      rem := rem - {x};
    }
  }

  /** `total_record_count`: the sum of the largest r_num of every image. */
  method TotalRecordCount(m: map<string, set<nat>>) returns (total: nat)
    ensures total == SumMax(m, m.Keys)
  {
    total := 0;
    var rem := m.Keys;
    while rem != {}
      invariant rem <= m.Keys
      invariant total + SumMax(m, rem) == SumMax(m, m.Keys)
      decreases rem
    {
      var k :| k in rem;
      var top := MaxOfSet(m[k]);
      SumMaxRemove(m, rem, k);
      total := total + top;
      rem := rem - {k};
    }
  }

  /** The fallback count of processed images: those with a non-empty r_num set. */
  method CountNonEmpty(m: map<string, set<nat>>) returns (count: nat)
    ensures count == NonEmptyCount(m)
  {
    count := 0;
    var rem := m.Keys;
    while rem != {}
      invariant rem <= m.Keys
      invariant count + |set k | k in rem && m[k] != {}| == NonEmptyCount(m)
      decreases rem
    {
      var k :| k in rem;
      var after := set j | j in rem - {k} && m[j] != {};
      if m[k] != {} {
        assert (set j | j in rem && m[j] != {}) == after + {k};
        count := count + 1;
      } else {
        assert (set j | j in rem && m[j] != {}) == after;
      }
      rem := rem - {k};
    }
  }

  /** Closing a session at line `i` (the next login line, or the end of the file). */
  ghost function Close(cur: OpenSession, infos: seq<LineInfo>, i: nat): Session
    requires i <= |infos|
  {
    var end := SessionEnd(infos, i);
    Session(cur.user, cur.date, cur.start, end,
            if end.Some? then end.value - cur.start else 0,
            cur.records, cur.imageRecords, cur.updateCount, cur.characterCount, cur.columnEdits,
            if cur.imagesProcessed != 0 then cur.imagesProcessed else NonEmptyCount(cur.imageRecords),
            cur.sections, SumMax(cur.imageRecords, cur.imageRecords.Keys), 0, 0, cur.logFile)
  }

  /**
   * A closed session has an end exactly when a stamped line precedes the close-out; without
   * one its duration is zero, with one it is the end minus the start, unclamped. A non-zero
   * DOC_TYPE count is kept, else the fallback count is used; the record total is the sum of maxima.
   */
  lemma CloseMeaning(cur: OpenSession, infos: seq<LineInfo>, i: nat)
    requires i <= |infos|
    ensures var s := Close(cur, infos, i);
      && (s.end.Some? <==> exists j :: 0 <= j < i && Stamped(infos[j]))
      && (s.end.None? ==> s.durationSeconds == 0)
      && (s.end.Some? ==> s.durationSeconds == s.end.value - s.start)
      && s.imagesProcessed == (if cur.imagesProcessed != 0 then cur.imagesProcessed else NonEmptyCount(cur.imageRecords))
      && s.totalRecordCount == SumMax(cur.imageRecords, cur.imageRecords.Keys)
  {
  }

  /** The close-out: end time and duration, record total, and the processed-images fallback. */
  method CloseSession(cur: OpenSession, infos: seq<LineInfo>, i: nat) returns (s: Session)
    requires i <= |infos|
    ensures s == Close(cur, infos, i)
  {
    var end := FindSessionEnd(infos, i);
    var duration := 0;
    if end.Some? {
      duration := end.value - cur.start;
    }
    var total := TotalRecordCount(cur.imageRecords);
    var processed := cur.imagesProcessed;
    if processed == 0 {
      processed := CountNonEmpty(cur.imageRecords);
    }
    s := Session(cur.user, cur.date, cur.start, end, duration, cur.records, cur.imageRecords,
                 cur.updateCount, cur.characterCount, cur.columnEdits, processed, cur.sections,
                 total, 0, 0, cur.logFile);
  }

  // ---------------------------------------------------------------------------
  // The session part of the per-line loop

  datatype SessionState = SessionState(closed: seq<Session>, current: Option<OpenSession>)

  /** Line `i`: a login closes the open session and opens a new one; then the line is tracked. */
  ghost function SessionStep(infos: seq<LineInfo>, logFile: string, i: nat, st: SessionState): SessionState
    requires i < |infos|
  {
    var info := infos[i];
    var st1 := match info.login
      case Some(l) =>
        SessionState(st.closed + (if st.current.Some? then [Close(st.current.value, infos, i)] else []),
                     Some(Open(l, logFile)))
      case None => st;
    st1.(current := if st1.current.Some? then Some(Track(st1.current.value, info)) else None)
  }

  ghost function SessionScan(infos: seq<LineInfo>, logFile: string, n: nat): SessionState
    requires n <= |infos|
  {
    if n == 0 then SessionState([], None)
    else SessionStep(infos, logFile, n - 1, SessionScan(infos, logFile, n - 1))
  }

  /** The sessions of the file: the closed ones and, closed at the end of the file, the last. */
  ghost function SessionsOf(infos: seq<LineInfo>, logFile: string): seq<Session> {
    var st := SessionScan(infos, logFile, |infos|);
    st.closed + if st.current.Some? then [Close(st.current.value, infos, |infos|)] else []
  }

  // ---------------------------------------------------------------------------
  // One session per login line

  /** The indices of the login lines below `n`, in file order. */
  function Logins(infos: seq<LineInfo>, n: nat): (r: seq<nat>)
    requires n <= |infos|
    ensures forall k :: 0 <= k < |r| ==> r[k] < n && IsLogin(infos[r[k]])
    ensures forall k, l :: 0 <= k < l < |r| ==> r[k] < r[l]
  {
    if n == 0 then [] else Logins(infos, n - 1) + if IsLogin(infos[n - 1]) then [n - 1] else []
  }

  /** Every login line below `n` is among them. */
  lemma {:induction false} LoginsComplete(infos: seq<LineInfo>, n: nat, j: nat)
    requires j < n <= |infos| && IsLogin(infos[j])
    ensures j in Logins(infos, n)
  {
    if j < n - 1 {
      LoginsComplete(infos, n - 1, j);
    }
  }

  /** The open session of the login at `a` after the lines below `b` have been read. */
  function SessionFrom(infos: seq<LineInfo>, logFile: string, a: nat, b: nat): OpenSession
    requires a < b <= |infos| && IsLogin(infos[a])
    decreases b
  {
    if b == a + 1 then Track(Open(infos[a].login.value, logFile), infos[a])
    else Track(SessionFrom(infos, logFile, a, b - 1), infos[b - 1])
  }

  /** The line that closes the k-th session: the next login line, or the end of the file. */
  function Boundary(L: seq<nat>, k: nat, n: nat): nat
    requires k < |L|
  {
    if k + 1 < |L| then L[k + 1] else n
  }

  /**
   * After the lines below `n`: one closed session per login but the last, each built from
   * the lines of its login up to the next login, and the last login's session open.
   */
  ghost predicate ShapeAt(infos: seq<LineInfo>, logFile: string, n: nat)
    requires n <= |infos|
  {
    var L := Logins(infos, n);
    var st := SessionScan(infos, logFile, n);
    && (st.current.Some? <==> |L| > 0)
    && |st.closed| == (if |L| == 0 then 0 else |L| - 1)
    && (forall k :: 0 <= k < |st.closed| ==>
          st.closed[k] == Close(SessionFrom(infos, logFile, L[k], L[k + 1]), infos, L[k + 1]))
    && (|L| > 0 ==> st.current.value == SessionFrom(infos, logFile, L[|L| - 1], n))
  }

  /** A login line closes the open session, if any, and opens its own. */
  lemma ScanAtLogin(infos: seq<LineInfo>, logFile: string, n: nat)
    requires 0 < n <= |infos| && IsLogin(infos[n - 1])
    ensures var st := SessionScan(infos, logFile, n - 1);
            SessionScan(infos, logFile, n)
              == SessionState(st.closed + (if st.current.Some? then [Close(st.current.value, infos, n - 1)] else []),
                              Some(SessionFrom(infos, logFile, n - 1, n)))
  {
  }

  lemma ShapeAtLogin(infos: seq<LineInfo>, logFile: string, n: nat)
    requires 0 < n <= |infos| && IsLogin(infos[n - 1]) && ShapeAt(infos, logFile, n - 1)
    ensures ShapeAt(infos, logFile, n)
  {
    var L := Logins(infos, n - 1);
    var st := SessionScan(infos, logFile, n - 1);
    var L' := Logins(infos, n);
    assert L' == L + [n - 1];
    ScanAtLogin(infos, logFile, n);
    var closed' := SessionScan(infos, logFile, n).closed;
    forall k | 0 <= k < |closed'|
      ensures closed'[k] == Close(SessionFrom(infos, logFile, L'[k], L'[k + 1]), infos, L'[k + 1])
    {
      ClosedAtLogin(infos, logFile, n, k);
    }
  }

  /** After a login line, each closed session is the earlier one, or the session that line closed. */
  lemma ClosedAtLogin(infos: seq<LineInfo>, logFile: string, n: nat, k: nat)
    requires 0 < n <= |infos| && IsLogin(infos[n - 1]) && ShapeAt(infos, logFile, n - 1)
    requires k < |SessionScan(infos, logFile, n).closed|
    ensures var L' := Logins(infos, n);
            k + 1 < |L'| &&
            SessionScan(infos, logFile, n).closed[k]
              == Close(SessionFrom(infos, logFile, L'[k], L'[k + 1]), infos, L'[k + 1])
  {
    var L := Logins(infos, n - 1);
    var st := SessionScan(infos, logFile, n - 1);
    assert Logins(infos, n) == L + [n - 1];
    ScanAtLogin(infos, logFile, n);
    var closed' := SessionScan(infos, logFile, n).closed;
    if k < |st.closed| {
      assert closed'[k] == st.closed[k];
    } else {
      assert closed'[k] == Close(st.current.value, infos, n - 1);
    }
  }

  lemma ShapeAtOther(infos: seq<LineInfo>, logFile: string, n: nat)
    requires 0 < n <= |infos| && !IsLogin(infos[n - 1]) && ShapeAt(infos, logFile, n - 1)
    ensures ShapeAt(infos, logFile, n)
  {
    var L := Logins(infos, n - 1);
    var st := SessionScan(infos, logFile, n - 1);
    var info := infos[n - 1];
    assert Logins(infos, n) == L;
    assert SessionScan(infos, logFile, n)
        == st.(current := if st.current.Some? then Some(Track(st.current.value, info)) else None);
    if |L| > 0 {
      var a := L[|L| - 1];
      assert a < n - 1;
      assert SessionFrom(infos, logFile, a, n) == Track(SessionFrom(infos, logFile, a, n - 1), info);
    }
  }

  lemma {:induction false} SessionScanShape(infos: seq<LineInfo>, logFile: string, n: nat)
    requires n <= |infos|
    ensures ShapeAt(infos, logFile, n)
  {
    if n > 0 {
      SessionScanShape(infos, logFile, n - 1);
      if IsLogin(infos[n - 1]) {
        ShapeAtLogin(infos, logFile, n);
      } else {
        ShapeAtOther(infos, logFile, n);
      }
    }
  }

  /** `analyze_log_file` emits one session per login line, each closed at the next login or the end. */
  lemma SessionsPerLogin(infos: seq<LineInfo>, logFile: string)
    ensures var L := Logins(infos, |infos|);
            var ss := SessionsOf(infos, logFile);
            && |ss| == |L|
            && forall k :: 0 <= k < |ss| ==>
                 ss[k] == Close(SessionFrom(infos, logFile, L[k], Boundary(L, k, |infos|)), infos, Boundary(L, k, |infos|))
  {
    SessionScanShape(infos, logFile, |infos|);
  }

  // ---------------------------------------------------------------------------
  // What the lines of one session add up to

  /** Lines whose `update_count` effect is one. */
  ghost function CountUpdates(infos: seq<LineInfo>, a: nat, b: nat): nat
    requires a <= b <= |infos|
  {
    |set j | a <= j < b && infos[j].updated|
  }

  lemma CountUpdatesStep(infos: seq<LineInfo>, a: nat, b: nat)
    requires a <= b < |infos|
    ensures CountUpdates(infos, a, b + 1) == CountUpdates(infos, a, b) + if infos[b].updated then 1 else 0
  {
    var before := set j | a <= j < b && infos[j].updated;
    if infos[b].updated {
      assert (set j | a <= j < b + 1 && infos[j].updated) == before + {b};
    } else {
      assert (set j | a <= j < b + 1 && infos[j].updated) == before;
    }
  }

  /** The last DOC_TYPE line in [a, b). */
  function LastDocType(infos: seq<LineInfo>, a: nat, b: nat): (r: Option<nat>)
    requires a <= b <= |infos|
    ensures r.Some? ==> a <= r.value < b && infos[r.value].docType.Some?
    ensures r.Some? ==> forall j :: r.value < j < b ==> infos[j].docType.None?
    ensures r.None? ==> forall j :: a <= j < b ==> infos[j].docType.None?
    decreases b
  {
    if b == a then None
    else if infos[b - 1].docType.Some? then Some(b - 1)
    else LastDocType(infos, a, b - 1)
  }

  /** A session carries its login's user, date, start time and log file. */
  lemma {:induction false} SessionFromLogin(infos: seq<LineInfo>, logFile: string, a: nat, b: nat)
    requires a < b <= |infos| && IsLogin(infos[a])
    ensures var s := SessionFrom(infos, logFile, a, b);
            var l := infos[a].login.value;
            s.user == l.user && s.date == l.date && s.start == StampValue(l.stamp) && s.logFile == logFile
    decreases b
  {
    if b > a + 1 {
      SessionFromLogin(infos, logFile, a, b - 1);
      TrackKeeps(SessionFrom(infos, logFile, a, b - 1), infos[b - 1]);
    } else {
      TrackKeeps(Open(infos[a].login.value, logFile), infos[a]);
    }
  }

  /** `update_count` is the number of `UPDATED` lines from the session's login line up to `b`. */
  lemma {:induction false} SessionFromUpdates(infos: seq<LineInfo>, logFile: string, a: nat, b: nat)
    requires a < b <= |infos| && IsLogin(infos[a])
    ensures SessionFrom(infos, logFile, a, b).updateCount == CountUpdates(infos, a, b)
    decreases b
  {
    CountUpdatesStep(infos, a, b - 1);
    if b == a + 1 {
      assert CountUpdates(infos, a, a) == 0;
    } else {
      SessionFromUpdates(infos, logFile, a, b - 1);
    }
  }

  /** `images_processed_count` before the close-out is the value of the last DOC_TYPE line, or 0. */
  lemma {:induction false} SessionFromDocType(infos: seq<LineInfo>, logFile: string, a: nat, b: nat)
    requires a < b <= |infos| && IsLogin(infos[a])
    ensures SessionFrom(infos, logFile, a, b).imagesProcessed
         == match LastDocType(infos, a, b) case Some(j) => infos[j].docType.value case None => 0
    decreases b
  {
    if b > a + 1 {
      SessionFromDocType(infos, logFile, a, b - 1);
    }
  }

  /** The record ids of the image-update lines in [a, b). */
  ghost function ImageRecordIds(infos: seq<LineInfo>, a: nat, b: nat): set<string>
    requires a <= b <= |infos|
  {
    set j | a <= j < b && infos[j].imageUpdate.Some? :: infos[j].imageUpdate.value.record
  }

  /** `records` holds exactly the record ids of the session's image-update lines. */
  lemma {:induction false} SessionFromRecords(infos: seq<LineInfo>, logFile: string, a: nat, b: nat)
    requires a < b <= |infos| && IsLogin(infos[a])
    ensures SessionFrom(infos, logFile, a, b).records == ImageRecordIds(infos, a, b)
    decreases b
  {
    var m := infos[b - 1].imageUpdate;
    if b == a + 1 {
      assert ImageRecordIds(infos, a, b - 1) == {};
    } else {
      SessionFromRecords(infos, logFile, a, b - 1);
    }
    if m.Some? {
      assert ImageRecordIds(infos, a, b) == ImageRecordIds(infos, a, b - 1) + {m.value.record};
    } else {
      assert ImageRecordIds(infos, a, b) == ImageRecordIds(infos, a, b - 1);
    }
  }

  /** The record ids of the r_num lines in [a, b). */
  ghost function RNumRecordIds(infos: seq<LineInfo>, a: nat, b: nat): set<string>
    requires a <= b <= |infos|
  {
    set j | a <= j < b && infos[j].rnum.Some? :: infos[j].rnum.value.record
  }

  /** The values of the r_num lines of record `rec` in [a, b). */
  ghost function RNumValues(infos: seq<LineInfo>, a: nat, b: nat, rec: string): set<nat>
    requires a <= b <= |infos|
  {
    set j | a <= j < b && infos[j].rnum.Some? && infos[j].rnum.value.record == rec :: infos[j].rnum.value.value
  }

  /**
   * What `image_records` says about record `rec` after the lines [a, b): it is a key exactly
   * when the record has an image-update or an r_num line, and it holds the values of the
   * record's r_num lines.
   */
  ghost predicate ImageRecordOf(m: map<string, set<nat>>, infos: seq<LineInfo>, a: nat, b: nat, rec: string)
    requires a <= b <= |infos|
  {
    && (rec in m <==> rec in ImageRecordIds(infos, a, b) || rec in RNumRecordIds(infos, a, b))
    && (rec in m ==> m[rec] == RNumValues(infos, a, b, rec))
  }

  /** A record without r_num lines has no r_num values. */
  lemma NoRNumNoValues(infos: seq<LineInfo>, a: nat, b: nat, rec: string)
    requires a <= b <= |infos| && rec !in RNumRecordIds(infos, a, b)
    ensures RNumValues(infos, a, b, rec) == {}
  {
    forall j | a <= j < b && infos[j].rnum.Some?
      ensures infos[j].rnum.value.record != rec
    {
      assert infos[j].rnum.value.record in RNumRecordIds(infos, a, b);
    }
  }

  /** One more line adds its image-update record, its r_num record and its r_num value. */
  lemma RecordSetsStep(infos: seq<LineInfo>, a: nat, b: nat, rec: string)
    requires a <= b < |infos|
    ensures rec in ImageRecordIds(infos, a, b + 1)
        <==> rec in ImageRecordIds(infos, a, b) || (infos[b].imageUpdate.Some? && infos[b].imageUpdate.value.record == rec)
    ensures rec in RNumRecordIds(infos, a, b + 1)
        <==> rec in RNumRecordIds(infos, a, b) || (infos[b].rnum.Some? && infos[b].rnum.value.record == rec)
    ensures RNumValues(infos, a, b + 1, rec)
         == RNumValues(infos, a, b, rec) + if infos[b].rnum.Some? && infos[b].rnum.value.record == rec then {infos[b].rnum.value.value} else {}
  {
    var v := RNumValues(infos, a, b + 1, rec);
    if infos[b].rnum.Some? && infos[b].rnum.value.record == rec {
      assert infos[b].rnum.value.value in v;
      assert rec in RNumRecordIds(infos, a, b + 1);
    }
    if infos[b].imageUpdate.Some? && infos[b].imageUpdate.value.record == rec {
      assert rec in ImageRecordIds(infos, a, b + 1);
    }
  }

  /** Of a line's blocks only the image-update and r_num blocks touch `image_records`. */
  lemma TrackImageRecords(cur: OpenSession, info: LineInfo)
    ensures Track(cur, info).imageRecords == TrackRNum(TrackImage(cur, info), info).imageRecords
  {
    var c1 := TrackImage(cur, info);
    var c2 := TrackDocType(c1, info);
    assert c2.imageRecords == c1.imageRecords;
    assert TrackRNum(c2, info).imageRecords == TrackRNum(c1, info).imageRecords;
    var c4 := TrackEdit(TrackRNum(c2, info), info);
    assert c4.imageRecords == TrackRNum(c2, info).imageRecords;
    assert TrackUpdate(c4, info).imageRecords == c4.imageRecords;
  }

  /** Tracking line `b` carries what `image_records` says about `rec` from [a, b) to [a, b + 1). */
  lemma ImageRecordStep(cur: OpenSession, infos: seq<LineInfo>, a: nat, b: nat, rec: string)
    requires a <= b < |infos| && ImageRecordOf(cur.imageRecords, infos, a, b, rec)
    ensures ImageRecordOf(Track(cur, infos[b]).imageRecords, infos, a, b + 1, rec)
  {
    var info := infos[b];
    TrackImageRecords(cur, info);
    RecordSetsStep(infos, a, b, rec);
    if rec !in cur.imageRecords {
      NoRNumNoValues(infos, a, b, rec);
    }
  }

  /**
   * `image_records` holds a key for exactly the records with an image-update or an r_num line
   * in the session, and each key holds the values of that record's r_num lines.
   */
  lemma {:induction false} SessionFromImageRecords(infos: seq<LineInfo>, logFile: string, a: nat, b: nat, rec: string)
    requires a < b <= |infos| && IsLogin(infos[a])
    ensures ImageRecordOf(SessionFrom(infos, logFile, a, b).imageRecords, infos, a, b, rec)
    decreases b
  {
    if b == a + 1 {
      assert rec !in ImageRecordIds(infos, a, a) && rec !in RNumRecordIds(infos, a, a);
      ImageRecordStep(Open(infos[a].login.value, logFile), infos, a, a, rec);
    } else {
      SessionFromImageRecords(infos, logFile, a, b - 1, rec);
      ImageRecordStep(SessionFrom(infos, logFile, a, b - 1), infos, a, b - 1, rec);
    }
  }

  /** The total length of the new values of the edit lines in [a, b). */
  ghost function EditedChars(infos: seq<LineInfo>, a: nat, b: nat): nat
    requires a <= b <= |infos|
    decreases b
  {
    if b == a then 0
    else EditedChars(infos, a, b - 1) + if infos[b - 1].edit.Some? then |infos[b - 1].edit.value.value| else 0
  }

  /** Of a line's blocks only the edit block touches `character_count` and `column_edits`. */
  lemma TrackEdits(cur: OpenSession, info: LineInfo)
    ensures Track(cur, info).characterCount == TrackEdit(cur, info).characterCount
    ensures Track(cur, info).columnEdits == TrackEdit(cur, info).columnEdits
  {
    var c2 := TrackDocType(TrackImage(cur, info), info);
    assert c2.characterCount == cur.characterCount && c2.columnEdits == cur.columnEdits;
    var c3 := TrackRNum(c2, info);
    assert c3.characterCount == cur.characterCount && c3.columnEdits == cur.columnEdits;
    assert TrackEdit(c3, info).characterCount == TrackEdit(cur, info).characterCount;
    assert TrackEdit(c3, info).columnEdits == TrackEdit(cur, info).columnEdits;
  }

  /** `character_count` is the total length of the values of the session's edit lines. */
  lemma {:induction false} SessionFromChars(infos: seq<LineInfo>, logFile: string, a: nat, b: nat)
    requires a < b <= |infos| && IsLogin(infos[a])
    ensures SessionFrom(infos, logFile, a, b).characterCount == EditedChars(infos, a, b)
    decreases b
  {
    if b == a + 1 {
      TrackEdits(Open(infos[a].login.value, logFile), infos[a]);
    } else {
      SessionFromChars(infos, logFile, a, b - 1);
      TrackEdits(SessionFrom(infos, logFile, a, b - 1), infos[b - 1]);
    }
  }

  /** The number of edit lines of column `col` in [a, b). */
  ghost function EditCount(infos: seq<LineInfo>, a: nat, b: nat, col: string): nat
    requires a <= b <= |infos|
  {
    |set j | a <= j < b && infos[j].edit.Some? && infos[j].edit.value.column == col|
  }

  lemma EditCountStep(infos: seq<LineInfo>, a: nat, b: nat, col: string)
    requires a <= b < |infos|
    ensures EditCount(infos, a, b + 1, col)
         == EditCount(infos, a, b, col) + if infos[b].edit.Some? && infos[b].edit.value.column == col then 1 else 0
  {
    var before := set j | a <= j < b && infos[j].edit.Some? && infos[j].edit.value.column == col;
    if infos[b].edit.Some? && infos[b].edit.value.column == col {
      assert (set j | a <= j < b + 1 && infos[j].edit.Some? && infos[j].edit.value.column == col) == before + {b};
    } else {
      assert (set j | a <= j < b + 1 && infos[j].edit.Some? && infos[j].edit.value.column == col) == before;
    }
  }

  /** What `column_edits` says about column `col` after the lines [a, b): a key exactly when edited, holding its number of edit lines. */
  ghost predicate ColumnEditsOf(m: map<string, nat>, infos: seq<LineInfo>, a: nat, b: nat, col: string)
    requires a <= b <= |infos|
  {
    && (col in m <==> EditCount(infos, a, b, col) > 0)
    && (col in m ==> m[col] == EditCount(infos, a, b, col))
  }

  /**
   * `column_edits` holds a key for exactly the columns the session's edit lines name, and
   * each key counts that column's edit lines.
   */
  lemma {:induction false} SessionFromColumnEdits(infos: seq<LineInfo>, logFile: string, a: nat, b: nat, col: string)
    requires a < b <= |infos| && IsLogin(infos[a])
    ensures ColumnEditsOf(SessionFrom(infos, logFile, a, b).columnEdits, infos, a, b, col)
    decreases b
  {
    EditCountStep(infos, a, b - 1, col);
    if b == a + 1 {
      assert EditCount(infos, a, a, col) == 0;
      TrackEdits(Open(infos[a].login.value, logFile), infos[a]);
    } else {
      SessionFromColumnEdits(infos, logFile, a, b - 1, col);
      TrackEdits(SessionFrom(infos, logFile, a, b - 1), infos[b - 1]);
    }
  }

  /**
   * A file holding one login line (whose classification always carries the login marker),
   * on which no DOC_TYPE or r_num update appears, yields one session with no end time, duration 0, record total 0 and processed-images count 0.
   */
  lemma SingleLoginFile(line: LineInfo, logFile: string)
    requires IsLogin(line) && line.loginMarker && line.docType.None? && line.rnum.None?
    ensures var ss := SessionsOf([line], logFile);
            && |ss| == 1 && ss[0].end == None && ss[0].durationSeconds == 0
            && ss[0].totalRecordCount == 0 && ss[0].imagesProcessed == 0
  {
    var infos := [line];
    SessionsPerLogin(infos, logFile);
    var s := SessionFrom(infos, logFile, 0, 1);
    assert Logins(infos, 1) == [0];
    assert !Stamped(infos[0]);
    var im := s.imageRecords;
    assert forall k :: k in im ==> im[k] == {};
    assert (set k | k in im && im[k] != {}) == {};
    SumMaxNoValues(im, im.Keys);
  }

  /** Images without r_num values add nothing to the record total. */
  lemma {:induction false} SumMaxNoValues(m: map<string, set<nat>>, ks: set<string>)
    requires ks <= m.Keys && forall k :: k in ks ==> m[k] == {}
    ensures SumMax(m, ks) == 0
    decreases ks
  {
    if ks != {} {
      var k :| k in ks;
      SumMaxRemove(m, ks, k);
      SumMaxNoValues(m, ks - {k});
    }
  }
}
