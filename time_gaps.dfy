/**
 * `analyze_time_gaps`: every pair of adjacent lines whose first line is not a login line,
 * whose two lines both carry a leading timestamp, and whose timestamps lie at least two
 * minutes apart is a gap. A gap carries the user and date of the last login line above it.
 */
module TimeGaps {
  import opened Wrappers
  import opened Timestamps
  import opened Classifier
  import opened Sessions

  /** Two minutes in seconds: `delta_mins >= 2` on a whole number of seconds. */
  const MinGap := 120

  /**
   * One gap row. The clock times are kept as times of day and the duration as seconds; the
   * row's `HH:MM:SS` texts are `FormatDuration` of them. `Duration (minutes)`, a rounded
   * float, is not kept.
   */
  datatype Gap = Gap(
    user: Option<string>, date: Option<string>,
    startTime: nat, endTime: nat, seconds: nat,
    startLine: string, endLine: string, logFile: string)

  /** `len(lines) - 1` pairs, none for an empty file. */
  function Pairs(n: nat): nat { if n == 0 then 0 else n - 1 }

  /** Lines `i` and `i + 1` form a gap. */
  predicate IsGap(infos: seq<LineInfo>, i: nat)
    requires i + 1 < |infos|
  {
    !IsLogin(infos[i]) && infos[i].stamp.Some? && infos[i + 1].stamp.Some?
    && infos[i + 1].stamp.value - infos[i].stamp.value >= MinGap
  }

  /** The row `gaps.append` adds for two stamped lines at least two minutes apart. */
  function MakeGap(user: Option<string>, date: Option<string>, t0: int, t1: int,
                   startLine: string, endLine: string, logFile: string): Gap
    requires t1 - t0 >= MinGap
  {
    Gap(user, date, TimeOfDay(t0), TimeOfDay(t1), t1 - t0, startLine, endLine, logFile)
  }

  /** The row of the gap starting at line `i`. */
  function GapRow(infos: seq<LineInfo>, i: nat, logFile: string): Gap
    requires i + 1 < |infos| && IsGap(infos, i)
  {
    MakeGap(UserAt(infos, i), DateAt(infos, i), infos[i].stamp.value, infos[i + 1].stamp.value,
            infos[i].text, infos[i + 1].text, logFile)
  }

  /**
   * A gap row spans at least two minutes, starts and ends at the times of day of its two lines, and carries the user and date of
   * the last login line above it, or none when there is none.
   */
  lemma GapRowMeaning(infos: seq<LineInfo>, i: nat, logFile: string)
    requires i + 1 < |infos| && IsGap(infos, i)
    ensures var g := GapRow(infos, i, logFile);
      && g.seconds >= MinGap && g.seconds == infos[i + 1].stamp.value - infos[i].stamp.value
      && g.startTime == TimeOfDay(infos[i].stamp.value) && g.endTime == TimeOfDay(infos[i + 1].stamp.value)
      && g.startLine == infos[i].text && g.endLine == infos[i + 1].text && g.logFile == logFile
      && (g.user.Some? <==> LastLogin(infos, i).Some?) && (g.date.Some? <==> LastLogin(infos, i).Some?)
      && (LastLogin(infos, i).Some? ==>
            g.user.value == infos[LastLogin(infos, i).value].login.value.user
            && g.date.value == infos[LastLogin(infos, i).value].login.value.date)
  {
  }

  /** The gaps among the pairs that start below `n`, in file order: at most one per pair. */
  function GapsBelow(infos: seq<LineInfo>, logFile: string, n: nat): (r: seq<Gap>)
    requires n <= Pairs(|infos|)
    ensures |r| <= n
  {
    if n == 0 then []
    else GapsBelow(infos, logFile, n - 1) + if IsGap(infos, n - 1) then [GapRow(infos, n - 1, logFile)] else []
  }

  /** The first lines of the gaps among the pairs that start below `n`, in increasing order. */
  function GapStarts(infos: seq<LineInfo>, n: nat): (r: seq<nat>)
    requires n <= Pairs(|infos|)
    ensures forall k :: 0 <= k < |r| ==> r[k] < n && IsGap(infos, r[k])
    ensures forall k, l :: 0 <= k < l < |r| ==> r[k] < r[l]
    ensures forall i :: 0 <= i < n && IsGap(infos, i) ==> i in r
  {
    if n == 0 then []
    else GapStarts(infos, n - 1) + if IsGap(infos, n - 1) then [n - 1] else []
  }

  /** The k-th gap is the row of the k-th gap start: every gap row comes from one adjacent pair and every gap is reported. */
  lemma {:induction false} GapsAreRows(infos: seq<LineInfo>, logFile: string, n: nat)
    requires n <= Pairs(|infos|)
    ensures |GapsBelow(infos, logFile, n)| == |GapStarts(infos, n)|
    ensures forall k :: 0 <= k < |GapStarts(infos, n)| ==>
      GapsBelow(infos, logFile, n)[k] == GapRow(infos, GapStarts(infos, n)[k], logFile)
  {
    if n > 0 {
      GapsAreRows(infos, logFile, n - 1);
      if IsGap(infos, n - 1) {
        GapsAreRowsStep(infos, logFile, n, GapsBelow(infos, logFile, n - 1), GapStarts(infos, n - 1));
      } else {
        assert GapStarts(infos, n) == GapStarts(infos, n - 1);
        assert GapsBelow(infos, logFile, n) == GapsBelow(infos, logFile, n - 1);
      }
    }
  }

  lemma GapsAreRowsStep(infos: seq<LineInfo>, logFile: string, n: nat, prev: seq<Gap>, starts: seq<nat>)
    requires 0 < n <= Pairs(|infos|) && IsGap(infos, n - 1)
    requires prev == GapsBelow(infos, logFile, n - 1) && starts == GapStarts(infos, n - 1)
    requires |prev| == |starts| && forall k :: 0 <= k < |starts| ==> prev[k] == GapRow(infos, starts[k], logFile)
    ensures |GapsBelow(infos, logFile, n)| == |GapStarts(infos, n)|
    ensures forall k :: 0 <= k < |GapStarts(infos, n)| ==>
      GapsBelow(infos, logFile, n)[k] == GapRow(infos, GapStarts(infos, n)[k], logFile)
  {
    var all, rows := GapStarts(infos, n), GapsBelow(infos, logFile, n);
    assert all == starts + [n - 1];
    assert rows == prev + [GapRow(infos, n - 1, logFile)];
    forall k | 0 <= k < |all|
      ensures rows[k] == GapRow(infos, all[k], logFile)
    {
      if k < |starts| {
        assert rows[k] == prev[k] && all[k] == starts[k];
      }
    }
  }

  /** The scan over pairs: a login line sets the user and date and skips its pair. */
  method TimeGapsOf(infos: seq<LineInfo>, logFile: string) returns (gaps: seq<Gap>)
    ensures gaps == GapsBelow(infos, logFile, Pairs(|infos|))
  {
    gaps := [];
    var user: Option<string> := None;
    var date: Option<string> := None;
    var i := 0;
    while i < Pairs(|infos|)
      invariant i <= Pairs(|infos|)
      invariant user == UserAt(infos, i) && date == DateAt(infos, i)
      invariant gaps == GapsBelow(infos, logFile, i)
    {
      var info := infos[i];
      CurrentStep(infos, i);
      if info.login.Some? {
        user := Some(info.login.value.user);
        date := Some(info.login.value.date);
      } else {
        if info.stamp.Some? && infos[i + 1].stamp.Some? {
          var t0 := info.stamp.value;
          var t1 := infos[i + 1].stamp.value;
          if t1 - t0 >= MinGap {
            gaps := gaps + [MakeGap(user, date, t0, t1, info.text, infos[i + 1].text, logFile)];
          }
        }
      }
      i := i + 1;
    }
  }

  /** `analyze_time_gaps` on the lines of one file. */
  method AnalyzeTimeGaps(lines: seq<string>, logFile: string) returns (gaps: seq<Gap>)
    ensures gaps == GapsBelow(Infos(lines), logFile, Pairs(|lines|))
  {
    gaps := TimeGapsOf(Infos(lines), logFile);
  }
}
