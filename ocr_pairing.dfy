/**
 * OCR pairing inside `analyze_log_file`: an "HWR mode set to True" line opens an attempt,
 * the next clipboard line of the DEBUG logger closes it once an image id is known, and the
 * image-number lines create the per-image records whose clipboard lines are counted.
 */
module OcrPairing {
  import opened Wrappers
  import opened Text
  import opened Timestamps
  import opened Classifier
  import opened Sessions

  /** `ocr_records[image_id]`. */
  datatype OcrRecord = OcrRecord(
    imageNumber: string, clipboardCount: nat, nameCount: nat,
    user: Option<string>, date: Option<string>)

  /** One paired start and end; `named` marks the attempts kept in `ocr_durations_with_criteria`. */
  datatype Attempt = Attempt(imageId: string, duration: int, text: string, start: int, end: int, named: bool)

  /**
   * The OCR variables of the loop. `attempts` is every recorded duration in file order:
   * `ocr_durations[id]` is its sub-sequence for `id`, and `ocr_durations_with_criteria[id]`
   * the named part of that. `order` is the insertion order of `records`.
   */
  datatype OcrState = OcrState(
    start: Option<int>, imageId: Option<string>, inProgress: bool,
    records: map<string, OcrRecord>, order: seq<string>,
    attempts: seq<Attempt>)

  const InitialOcr := OcrState(None, None, false, map[], [], [])

  /** The two-word test: `len(text.split()) >= 2`. */
  predicate Named(text: string) { |Split(text)| >= 2 }

  /** The OCR start block: a start line opens an attempt at its time. */
  function StartBlock(st: OcrState, info: LineInfo): OcrState {
    match info.ocrStart
    case Some(stamp) => st.(start := Some(StampValue(stamp)), inProgress := true)
    case None => st
  }

  /** The condition under which an OCR end line is paired with the open start. */
  predicate EndGate(st: OcrState) { st.start.Some? && st.imageId.Some? && st.inProgress }

  /** The OCR end block: a gated end line records a duration for the current image and closes the attempt. */
  function EndBlock(st: OcrState, info: LineInfo): OcrState {
    match info.ocrEnd
    case Some(clip) =>
      if EndGate(st) then
        var e := StampValue(clip.stamp);
        var a := Attempt(st.imageId.value, e - st.start.value, clip.text, st.start.value, e, Named(clip.text));
        st.(attempts := st.attempts + [a], inProgress := false, start := None)
      else st
    case None => st
  }

  /** The OCR start and end blocks of one line. */
  function TimesStep(st: OcrState, info: LineInfo): OcrState {
    EndBlock(StartBlock(st, info), info)
  }

  /** The image-number block: the image becomes current and gets a record under the current user and date if new. */
  function ImageBlock(st: OcrState, info: LineInfo, user: Option<string>, date: Option<string>): OcrState {
    match info.ocrImage
    case Some(m) =>
      var id := m.record;
      if id in st.records then st.(imageId := Some(id))
      else st.(imageId := Some(id),
               records := st.records[id := OcrRecord(m.number + "_" + m.suffix, 0, 0, user, date)],
               order := st.order + [id])
    case None => st
  }

  /** The clipboard block: one more clipboard line for the current image, and one more named one for two words. */
  function ClipboardBlock(st: OcrState, info: LineInfo): OcrState {
    match info.clipboard
    case Some(text) =>
      if st.imageId.Some? && st.imageId.value in st.records then
        var id := st.imageId.value;
        var r := st.records[id];
        st.(records := st.records[id := r.(clipboardCount := r.clipboardCount + 1,
                                           nameCount := r.nameCount + if Named(text) then 1 else 0)])
      else st
    case None => st
  }

  /** The image-number and clipboard blocks of one line, under the user and date current after its login block. */
  function ImageStep(st: OcrState, info: LineInfo, user: Option<string>, date: Option<string>): OcrState {
    ClipboardBlock(ImageBlock(st, info, user, date), info)
  }

  /** The OCR variables after the lines below `n`. */
  function OcrScan(infos: seq<LineInfo>, n: nat): OcrState
    requires n <= |infos|
  {
    if n == 0 then InitialOcr
    else
      var st := TimesStep(OcrScan(infos, n - 1), infos[n - 1]);
      ImageStep(st, infos[n - 1], UserAt(infos, n), DateAt(infos, n))
  }

  // ---------------------------------------------------------------------------
  // Invariants of the pairing

  /** What the loop keeps true of its OCR variables. */
  ghost predicate Valid(st: OcrState) {
    && (st.start.Some? <==> st.inProgress)
    && (st.imageId.Some? ==> st.imageId.value in st.records)
    && Distinct(st.order)
    && (forall k :: 0 <= k < |st.order| ==> st.order[k] in st.records)
    && (forall id :: id in st.records ==> id in st.order)
    && (forall k :: 0 <= k < |st.attempts| ==> st.attempts[k].imageId in st.records)
    && (forall id :: id in st.records ==> st.records[id].nameCount <= st.records[id].clipboardCount)
  }

  /** The start lines below `n`. */
  ghost function CountStarts(infos: seq<LineInfo>, n: nat): nat
    requires n <= |infos|
  {
    |set i | 0 <= i < n && infos[i].ocrStart.Some?|
  }

  lemma CountStartsStep(infos: seq<LineInfo>, n: nat)
    requires n < |infos|
    ensures CountStarts(infos, n + 1) == CountStarts(infos, n) + if infos[n].ocrStart.Some? then 1 else 0
  {
    var before := set i | 0 <= i < n && infos[i].ocrStart.Some?;
    if infos[n].ocrStart.Some? {
      assert (set i | 0 <= i < n + 1 && infos[i].ocrStart.Some?) == before + {n};
    } else {
      assert (set i | 0 <= i < n + 1 && infos[i].ocrStart.Some?) == before;
    }
  }

  /**
   * A start that is not yet consumed counts one; recording a duration consumes the open
   * start, so attempts and the open start together never outnumber the start lines.
   */
  ghost function Pending(st: OcrState): nat {
    |st.attempts| + if st.inProgress then 1 else 0
  }

  lemma TimesStepValid(st: OcrState, info: LineInfo)
    requires Valid(st)
    ensures Valid(TimesStep(st, info))
    ensures Pending(TimesStep(st, info)) <= Pending(st) + if info.ocrStart.Some? then 1 else 0
    ensures TimesStep(st, info).records == st.records && TimesStep(st, info).order == st.order
  {
  }

  lemma ImageBlockValid(st: OcrState, info: LineInfo, user: Option<string>, date: Option<string>)
    requires Valid(st)
    ensures Valid(ImageBlock(st, info, user, date))
  {
    if info.ocrImage.Some? && info.ocrImage.value.record !in st.records {
      DistinctSnoc(st.order, info.ocrImage.value.record);
    }
  }

  lemma ClipboardBlockValid(st: OcrState, info: LineInfo)
    requires Valid(st)
    ensures Valid(ClipboardBlock(st, info))
  {
  }

  lemma ImageStepValid(st: OcrState, info: LineInfo, user: Option<string>, date: Option<string>)
    requires Valid(st)
    ensures Valid(ImageStep(st, info, user, date))
    ensures ImageStep(st, info, user, date).attempts == st.attempts
    ensures ImageStep(st, info, user, date).inProgress == st.inProgress
  {
    ImageBlockValid(st, info, user, date);
    ClipboardBlockValid(ImageBlock(st, info, user, date), info);
  }

  /**
   * Throughout the scan: an attempt is open exactly when a start time is set, the current
   * image id has a record, every recorded duration belongs to an image with a record,
   * `name_clipboard_count <= clipboard_count` for every image, and each start line is
   * consumed by at most one end.
   */
  lemma {:induction false} OcrScanValid(infos: seq<LineInfo>, n: nat)
    requires n <= |infos|
    ensures Valid(OcrScan(infos, n))
    ensures Pending(OcrScan(infos, n)) <= CountStarts(infos, n)
  {
    if n == 0 {
      assert CountStarts(infos, 0) == 0;
    } else {
      OcrScanValid(infos, n - 1);
      CountStartsStep(infos, n - 1);
      var st := OcrScan(infos, n - 1);
      TimesStepValid(st, infos[n - 1]);
      ImageStepValid(TimesStep(st, infos[n - 1]), infos[n - 1], UserAt(infos, n), DateAt(infos, n));
    }
  }

  /** A duration is recorded only when a start is open and an image id is current, and it consumes the start. */
  lemma AttemptNeedsStartAndImage(st: OcrState, info: LineInfo)
    requires |TimesStep(st, info).attempts| > |st.attempts|
    ensures info.ocrEnd.Some?
    ensures info.ocrStart.Some? || (st.start.Some? && st.inProgress)
    ensures st.imageId.Some? && TimesStep(st, info).attempts == st.attempts + [TimesStep(st, info).attempts[|st.attempts|]]
    ensures TimesStep(st, info).attempts[|st.attempts|].imageId == st.imageId.value
    ensures !TimesStep(st, info).inProgress && TimesStep(st, info).start.None?
  {
  }

  // ---------------------------------------------------------------------------
  // Output rows

  /** A row of the OCR sheet; "OCR Duration" is `durationTotal / durationCount` (0 when empty). */
  datatype OcrRow = OcrRow(
    user: Option<string>, date: Option<string>, imageId: string, imageNumber: string,
    attempt: nat, durationTotal: int, durationCount: nat,
    startTime: Option<nat>, endTime: Option<nat>, text: string, isName: bool, logFile: string)

  /** `ocr_durations.get(image_id, [])`, as attempts. */
  function AttemptsOf(atts: seq<Attempt>, id: string): (r: seq<Attempt>)
    ensures |r| <= |atts|
    ensures forall k :: 0 <= k < |r| ==> r[k].imageId == id
  {
    if atts == [] then []
    else AttemptsOf(atts[..|atts| - 1], id) + if atts[|atts| - 1].imageId == id then [atts[|atts| - 1]] else []
  }

  /** `ocr_durations_with_criteria.get(image_id, [])`. */
  function NamedOf(atts: seq<Attempt>, id: string): (r: seq<Attempt>)
    ensures |r| <= |atts|
    ensures forall k :: 0 <= k < |r| ==> r[k].imageId == id && r[k].named
  {
    if atts == [] then []
    else NamedOf(atts[..|atts| - 1], id)
         + if atts[|atts| - 1].imageId == id && atts[|atts| - 1].named then [atts[|atts| - 1]] else []
  }

  function SumDurations(atts: seq<Attempt>): int {
    if atts == [] then 0 else SumDurations(atts[..|atts| - 1]) + atts[|atts| - 1].duration
  }

  function YesRow(info: OcrRecord, id: string, a: Attempt, logFile: string): OcrRow {
    OcrRow(info.user, info.date, id, info.imageNumber, info.clipboardCount, a.duration, 1,
           Some(TimeOfDay(a.start)), Some(TimeOfDay(a.end)), a.text, true, logFile)
  }

  /** The rows of one image: one "Yes" row per named attempt, else one "No" summary row. */
  function RowsFor(st: OcrState, id: string, logFile: string): seq<OcrRow>
    requires id in st.records
  {
    var info := st.records[id];
    var named := NamedOf(st.attempts, id);
    if named != [] then
      seq(|named|, k requires 0 <= k < |named| => YesRow(info, id, named[k], logFile))
    else
      var durations := AttemptsOf(st.attempts, id);
      [OcrRow(info.user, info.date, id, info.imageNumber, info.clipboardCount,
              SumDurations(durations), |durations|, None, None, "", false, logFile)]
  }

  /**
   * An image with named attempts yields one "Yes" row per named attempt, with its duration and
   * text; otherwise it yields one "No" row with the total and the number of all its durations.
   * Every row carries the image's clipboard count.
   */
  lemma RowsForMeaning(st: OcrState, id: string, logFile: string)
    requires id in st.records
    ensures var r, named := RowsFor(st, id, logFile), NamedOf(st.attempts, id);
            && |r| == (if named == [] then 1 else |named|)
            && (forall k :: 0 <= k < |r| ==> r[k].imageId == id && r[k].isName == (named != []))
            && (forall k :: 0 <= k < |r| ==> r[k].attempt == st.records[id].clipboardCount)
            && (named == [] ==> r[0].durationTotal == SumDurations(AttemptsOf(st.attempts, id))
                                && r[0].durationCount == |AttemptsOf(st.attempts, id)|)
            && (forall k :: 0 <= k < |named| ==> r[k].durationTotal == named[k].duration && r[k].text == named[k].text)
  {
  }

  /** The rows of the first `k` images of `order`. */
  function OcrRows(st: OcrState, logFile: string, k: nat): seq<OcrRow>
    requires k <= |st.order| && forall j :: 0 <= j < |st.order| ==> st.order[j] in st.records
  {
    if k == 0 then [] else OcrRows(st, logFile, k - 1) + RowsFor(st, st.order[k - 1], logFile)
  }

  /** `total_ocr_duration` over the first `k` images of `order`. */
  function TotalOver(order: seq<string>, atts: seq<Attempt>, k: nat): int
    requires k <= |order|
  {
    if k == 0 then 0 else TotalOver(order, atts, k - 1) + SumDurations(AttemptsOf(atts, order[k - 1]))
  }

  /** `total_name_ocr_duration` over the first `k` images of `order`. */
  function NameTotalOver(order: seq<string>, atts: seq<Attempt>, k: nat): int
    requires k <= |order|
  {
    if k == 0 then 0 else NameTotalOver(order, atts, k - 1) + SumDurations(NamedOf(atts, order[k - 1]))
  }

  /** The OCR rows and the two totals, built by the loop over `ocr_records`. */
  method BuildOcrRows(st: OcrState, logFile: string) returns (rows: seq<OcrRow>, total: int, nameTotal: int)
    requires forall j :: 0 <= j < |st.order| ==> st.order[j] in st.records
    ensures rows == OcrRows(st, logFile, |st.order|)
    ensures total == TotalOver(st.order, st.attempts, |st.order|)
    ensures nameTotal == NameTotalOver(st.order, st.attempts, |st.order|)
  {
    rows, total, nameTotal := [], 0, 0;
    var k := 0;
    while k < |st.order|
      invariant k <= |st.order|
      invariant rows == OcrRows(st, logFile, k)
      invariant total == TotalOver(st.order, st.attempts, k)
      invariant nameTotal == NameTotalOver(st.order, st.attempts, k)
    {
      var id := st.order[k];
      var durations := AttemptsOf(st.attempts, id);
      total := total + SumDurations(durations);
      var named := NamedOf(st.attempts, id);
      nameTotal := nameTotal + SumDurations(named);
      rows := rows + RowsFor(st, id, logFile);
      OcrRowsStep(st, logFile, k);
      k := k + 1;
    }
  }

  lemma OcrRowsStep(st: OcrState, logFile: string, k: nat)
    requires k < |st.order| && forall j :: 0 <= j < |st.order| ==> st.order[j] in st.records
    ensures OcrRows(st, logFile, k + 1) == OcrRows(st, logFile, k) + RowsFor(st, st.order[k], logFile)
    ensures TotalOver(st.order, st.attempts, k + 1)
            == TotalOver(st.order, st.attempts, k) + SumDurations(AttemptsOf(st.attempts, st.order[k]))
    ensures NameTotalOver(st.order, st.attempts, k + 1)
            == NameTotalOver(st.order, st.attempts, k) + SumDurations(NamedOf(st.attempts, st.order[k]))
  {
  }

  // ---------------------------------------------------------------------------
  // The total is the sum of every recorded duration

  lemma AttemptsOfSnoc(atts: seq<Attempt>, x: Attempt, id: string)
    ensures AttemptsOf(atts + [x], id) == AttemptsOf(atts, id) + if x.imageId == id then [x] else []
  {
    assert (atts + [x])[..|atts + [x]| - 1] == atts;
  }

  lemma SumDurationsSnoc(atts: seq<Attempt>, x: Attempt)
    ensures SumDurations(atts + [x]) == SumDurations(atts) + x.duration
  {
    assert (atts + [x])[..|atts + [x]| - 1] == atts;
  }

  /** One more attempt adds its duration to the total once if its image is among the first `k`, else not at all. */
  lemma {:induction false} TotalOverSnoc(order: seq<string>, atts: seq<Attempt>, x: Attempt, k: nat)
    requires k <= |order| && Distinct(order)
    ensures TotalOver(order, atts + [x], k) == TotalOver(order, atts, k) + if x.imageId in order[..k] then x.duration else 0
  {
    if k > 0 {
      var id := order[k - 1];
      assert order[..k] == order[..k - 1] + [id];
      TotalOverSnoc(order, atts, x, k - 1);
      AttemptsOfSnoc(atts, x, id);
      var a := AttemptsOf(atts, id);
      if id == x.imageId {
        SumDurationsSnoc(a, x);
        assert SumDurations(AttemptsOf(atts + [x], id)) == SumDurations(a) + x.duration;
        assert x.imageId !in order[..k - 1];
      } else {
        assert AttemptsOf(atts + [x], id) == a;
      }
      assert TotalOver(order, atts + [x], k) == TotalOver(order, atts + [x], k - 1) + SumDurations(AttemptsOf(atts + [x], id));
    }
  }

  /**
   * `total_ocr_duration` (summed per image over `ocr_records`) is the sum of every recorded
   * duration: each attempt's image has exactly one record.
   */
  lemma {:induction false} TotalIsSumOfAttempts(order: seq<string>, atts: seq<Attempt>)
    requires Distinct(order) && forall k :: 0 <= k < |atts| ==> atts[k].imageId in order
    ensures TotalOver(order, atts, |order|) == SumDurations(atts)
  {
    if atts == [] {
      TotalOverEmpty(order, |order|);
    } else {
      var p, x := atts[..|atts| - 1], atts[|atts| - 1];
      assert atts == p + [x];
      TotalIsSumOfAttempts(order, p);
      TotalOverSnoc(order, p, x, |order|);
      assert order[..|order|] == order;
    }
  }

  lemma {:induction false} TotalOverEmpty(order: seq<string>, k: nat)
    requires k <= |order|
    ensures TotalOver(order, [], k) == 0
  {
    if k > 0 {
      TotalOverEmpty(order, k - 1);
    }
  }
}
