/**
 * The line classifier: one deterministic matcher per regular expression of the
 * log analyser. Each matcher follows the choice Python's `re.search` makes for
 * its pattern: the leftmost starting position at which the pattern matches, a
 * greedy group taking the longest text that lets the rest match, a lazy group
 * the shortest. `\d`, `\w` and `\s` are read as their ASCII classes, and lines
 * carry no line terminator, so `.` is any character and `$` is the end.
 */
module Classifier {
  import opened Wrappers
  import opened Text
  import opened Timestamps

  // ---------------------------------------------------------------------------
  // Searching positions

  /** The smallest position in [lo, hi) satisfying `p`. */
  function FirstWhere(lo: nat, hi: nat, p: nat -> bool): (r: Option<nat>)
    ensures r.Some? ==> lo <= r.value < hi && p(r.value)
    ensures r.Some? ==> forall j :: lo <= j < r.value ==> !p(j)
    ensures r.None? ==> forall j :: lo <= j < hi ==> !p(j)
    decreases hi - lo
  {
    if hi <= lo then None else if p(lo) then Some(lo) else FirstWhere(lo + 1, hi, p)
  }

  /** The largest position in [lo, hi) satisfying `p`. */
  function LastWhere(lo: nat, hi: nat, p: nat -> bool): (r: Option<nat>)
    ensures r.Some? ==> lo <= r.value < hi && p(r.value)
    ensures r.Some? ==> forall j :: r.value < j < hi ==> !p(j)
    ensures r.None? ==> forall j :: lo <= j < hi ==> !p(j)
    decreases hi - lo
  {
    if hi <= lo then None else if p(hi - 1) then Some(hi - 1) else LastWhere(lo, hi - 1, p)
  }

  // ---------------------------------------------------------------------------
  // Literal parts of the patterns

  /** The substring the session close-out scan skips lines by. */
  const LoginSubstring := "- config - INFO - Logging initialized for user:"
  const LoginMarker := " " + LoginSubstring + " "
  const HwrMarker := " - scripts.config - INFO - HWR mode set to True"
  const ClipEndMarker := " - scripts.config - DEBUG - Text copied to clipboard: '"
  const ShortcutMarker := " - scripts.config - INFO - "
  const ImagePrefix := "Updated IMAGE_NUMBER to "
  const RecordsOf := " for all records of "
  const ClipMarker := "Text copied to clipboard: '"
  const DocTypePrefix := "Updated DOC_TYPE for "
  const DocTypeSuffix := " local records"
  const Updated := "UPDATED"
  const RNumPrefix := Updated + " r_num"
  const UpdatedSp := Updated + " "
  const PerformMarker := "perform_ocr_on_cropped_image:"
  const OriginalMarker := "Original Text => '"
  const UserMarker := "Logging initialized for user: "

  /** ` on \d{4}-\d{2}-\d{2}` at position `q`. */
  predicate OnDateAt(s: string, q: nat) {
    StartsAt(s, q, " on ") && DateShapeAt(s, q + 4)
  }

  // ---------------------------------------------------------------------------
  // Patterns of analyze_log_file and analyze_time_gaps

  /**
   * The value of a matched timestamp. A matched text that is not a calendar date raises
   * `ValueError` in the source; the analysis reports that line as its failure before this
   * value can reach an output, so the 0 below is never observed.
   */
  function StampValue(stamp: string): (t: int)
    ensures ParseTimestamp(stamp).Some? ==> t == ParseTimestamp(stamp).value
  {
    match ParseTimestamp(stamp)
    case Some(t) => t
    case None => 0
  }

  datatype Login = Login(stamp: string, user: string, date: string)

  function LoginAt(s: string, k: nat): Option<Login> {
    if TimestampShapeAt(s, k) && StartsAt(s, k + 19, LoginMarker) then
      var u := k + 19 + |LoginMarker|;
      match LastWhere(u + 1, |s|, (q: nat) => OnDateAt(s, q))
      case Some(q) => Some(Login(s[k..k + 19], s[u..q], s[q + 4..q + 14]))
      case None => None
    else None
  }

  /** `(TS) - (?:config) - INFO - Logging initialized for user: (.+) on (DATE)`. */
  function LoginMatch(s: string): (r: Option<Login>)
    ensures r.Some? ==> Contains(s, LoginSubstring)
    ensures r.Some? ==> |r.value.stamp| == 19 && TimestampShapeAt(r.value.stamp, 0)
    ensures r.Some? ==> r.value.user != [] && |r.value.date| == 10 && DateShapeAt(r.value.date, 0)
  {
    match FirstWhere(0, |s|, (k: nat) => LoginAt(s, k).Some?)
    case Some(k) =>
      LoginAtMeaning(s, k);
      StartsAtConcat(" ", LoginSubstring, " ");
      StartsAtInside(s, k + 19, LoginMarker, 1, LoginSubstring);
      ContainsAt(s, LoginSubstring, k + 20);
      LoginAt(s, k)
    case None => None
  }

  /** A login found at `k` has the login text after its timestamp, a non-empty user and a date. */
  lemma LoginAtMeaning(s: string, k: nat)
    requires LoginAt(s, k).Some?
    ensures StartsAt(s, k + 19, LoginMarker)
    ensures var r := LoginAt(s, k).value;
      |r.stamp| == 19 && TimestampShapeAt(r.stamp, 0)
      && r.user != [] && |r.date| == 10 && DateShapeAt(r.date, 0)
  {
    var r := LoginAt(s, k).value;
    assert r.stamp == s[k..k + 19];
    assert forall j :: 0 <= j < 19 ==> r.stamp[j] == s[k + j];
  }

  /** `(TS) - scripts\.config - INFO - HWR mode set to True`: the start of an OCR attempt. */
  function OcrStartMatch(s: string): (r: Option<string>)
    ensures r.Some? ==> |r.value| == 19
  {
    match FirstWhere(0, |s|, (k: nat) => TimestampShapeAt(s, k) && StartsAt(s, k + 19, HwrMarker))
    case Some(k) => Some(s[k..k + 19])
    case None => None
  }

  /** Greedy `(.+)'` from `u`: the text up to the last quote that leaves it non-empty. */
  function QuotedTail(s: string, u: nat): (r: Option<string>)
    ensures r.Some? ==> r.value != []
  {
    match LastWhere(u + 1, |s|, (q: nat) => q < |s| && s[q] == '\'')
    case Some(q) => Some(s[u..q])
    case None => None
  }

  datatype Clip = Clip(stamp: string, text: string)

  function OcrEndAt(s: string, k: nat): Option<Clip> {
    if TimestampShapeAt(s, k) && StartsAt(s, k + 19, ClipEndMarker) then
      match QuotedTail(s, k + 19 + |ClipEndMarker|)
      case Some(t) => Some(Clip(s[k..k + 19], t))
      case None => None
    else None
  }

  /** `(TS) - scripts\.config - DEBUG - Text copied to clipboard: '(.+)'`: the end of an OCR attempt. */
  function OcrEndMatch(s: string): (r: Option<Clip>)
    ensures r.Some? ==> |r.value.stamp| == 19 && r.value.text != []
  {
    match FirstWhere(0, |s|, (k: nat) => OcrEndAt(s, k).Some?)
    case Some(k) => OcrEndAt(s, k)
    case None => None
  }

  /** `Text copied to clipboard: '(.+)'` anywhere in the line. */
  function ClipboardMatch(s: string): (r: Option<string>)
    ensures r.Some? ==> r.value != []
  {
    match FirstWhere(0, |s|, (p: nat) => StartsAt(s, p, ClipMarker) && QuotedTail(s, p + |ClipMarker|).Some?)
    case Some(p) => QuotedTail(s, p + |ClipMarker|)
    case None => None
  }

  datatype ImageNumber = ImageNumber(number: string, suffix: string, record: string)

  /** `Updated IMAGE_NUMBER to (\d+)_(\d+) for all records of (\d+)` at position `p`. */
  function ImageNumberAt(s: string, p: nat): Option<ImageNumber> {
    if !StartsAt(s, p, ImagePrefix) then None
    else
      var d1 := DigitsFrom(s, p + |ImagePrefix|);
      var b := p + |ImagePrefix| + |d1|;
      if d1 == [] || b >= |s| || s[b] != '_' then None
      else
        var d2 := DigitsFrom(s, b + 1);
        var c := b + 1 + |d2|;
        if d2 == [] || !StartsAt(s, c, RecordsOf) then None
        else
          var d3 := DigitsFrom(s, c + |RecordsOf|);
          if d3 == [] then None else Some(ImageNumber(d1, d2, d3))
  }

  /**
   * `Updated IMAGE_NUMBER to (\d+)_\d+ for all records of (\d+)`, the pattern of both the
   * image-update and the "sheet5" image lines: the image number and the record id.
   */
  function ImageUpdateMatch(s: string): (r: Option<ImageNumber>)
    ensures r.Some? ==> AllDigits(r.value.number) && r.value.number != []
    ensures r.Some? ==> AllDigits(r.value.record) && r.value.record != []
  {
    match FirstWhere(0, |s|, (p: nat) => ImageNumberAt(s, p).Some?)
    case Some(p) => ImageNumberAt(s, p)
    case None => None
  }

  predicate HasDoubleZero(d: string) { |d| >= 3 && d[0] == '0' && d[1] == '0' }

  /** `Updated IMAGE_NUMBER to (\d+)_00(\d+) for all records of (\d+)`: `suffix` is the part after `00`. */
  function OcrImageMatch(s: string): (r: Option<ImageNumber>)
    ensures r.Some? ==> AllDigits(r.value.record) && r.value.record != [] && r.value.suffix != []
  {
    match FirstWhere(0, |s|, (p: nat) => ImageNumberAt(s, p).Some? && HasDoubleZero(ImageNumberAt(s, p).value.suffix))
    case Some(p) =>
      var m := ImageNumberAt(s, p).value;
      Some(m.(suffix := m.suffix[2..]))
    case None => None
  }

  /** `of (\d+)$`: the record number that ends a line. */
  function RecordSuffixMatch(s: string): (r: Option<string>)
    ensures r.Some? ==> r.value != [] && AllDigits(r.value)
  {
    match FirstWhere(0, |s|, (p: nat) => StartsAt(s, p, "of ") && p + 3 < |s| && AllDigits(s[p + 3..]))
    case Some(p) => Some(s[p + 3..])
    case None => None
  }

  predicate IsKeyChar(c: char) { IsWordChar(c) || c == '+' }

  function ShortcutAt(s: string, k: nat): Option<string> {
    if TimestampShapeAt(s, k) && StartsAt(s, k + 19, ShortcutMarker) then
      var u := k + 19 + |ShortcutMarker|;
      var e := SpanEnd(s, u, IsKeyChar);
      if e > u && StartsAt(s, e, " pressed") then Some(s[u..e]) else None
    else None
  }

  /** `TS - scripts\.config - INFO - ([\w+]+) pressed`: the key of a shortcut. */
  function ShortcutMatch(s: string): (r: Option<string>)
    ensures r.Some? ==> r.value != [] && forall j :: 0 <= j < |r.value| ==> IsKeyChar(r.value[j])
  {
    match FirstWhere(0, |s|, (k: nat) => ShortcutAt(s, k).Some?)
    case Some(k) => ShortcutAt(s, k)
    case None => None
  }

  function DocTypeAt(s: string, p: nat): Option<nat> {
    if !StartsAt(s, p, DocTypePrefix) then None
    else
      var d := DigitsFrom(s, p + |DocTypePrefix|);
      if d != [] && StartsAt(s, p + |DocTypePrefix| + |d|, DocTypeSuffix) then Some(DecimalValue(d)) else None
  }

  /** `Updated DOC_TYPE for (\d+) local records`: an explicit count of processed images. */
  function DocTypeMatch(s: string): (r: Option<nat>)
    ensures r.Some? ==> Contains(s, DocTypePrefix)
  {
    match FirstWhere(0, |s|, (p: nat) => DocTypeAt(s, p).Some?)
    case Some(p) => ContainsAt(s, DocTypePrefix, p); DocTypeAt(s, p)
    case None => None
  }

  datatype RNum = RNum(value: nat, record: string)

  function RNumAt(s: string, p: nat): Option<RNum> {
    if !StartsAt(s, p, RNumPrefix) then None
    else
      var a := p + |RNumPrefix|;
      var w := SpanEnd(s, a, IsSpace);
      if w == a || !StartsAt(s, w, "TO ") then None
      else
        var d1 := DigitsFrom(s, w + 3);
        var c := w + 3 + |d1|;
        if d1 == [] || !StartsAt(s, c, " of ") then None
        else
          var d2 := DigitsFrom(s, c + 4);
          if d2 == [] then None else Some(RNum(DecimalValue(d1), d2))
  }

  /** `UPDATED r_num\s+TO (\d+) of (\d+)`: a record index reached on an image. */
  function RNumMatch(s: string): (r: Option<RNum>)
    ensures r.Some? ==> Contains(s, Updated) && r.value.record != [] && AllDigits(r.value.record)
  {
    match FirstWhere(0, |s|, (p: nat) => RNumAt(s, p).Some?)
    case Some(p) =>
      StartsAtConcat([], Updated, " r_num");
      StartsAtInside(s, p, RNumPrefix, 0, Updated);
      ContainsAt(s, Updated, p);
      RNumAt(s, p)
    case None => None
  }

  function FieldUpdateAt(s: string, p: nat): Option<string> {
    if StartsAt(s, p, UpdatedSp) then
      var e := SpanEnd(s, p + 8, IsWordChar);
      if e > p + 8 then Some(s[p + 8..e]) else None
    else None
  }

  /** `UPDATED (\w+)`: the field a line updates. */
  function FieldUpdateMatch(s: string): (r: Option<string>)
    ensures r.Some? ==> Contains(s, Updated)
    ensures r.Some? ==> r.value != [] && forall j :: 0 <= j < |r.value| ==> IsWordChar(r.value[j])
  {
    match FirstWhere(0, |s|, (p: nat) => FieldUpdateAt(s, p).Some?)
    case Some(p) =>
      StartsAtConcat([], Updated, " ");
      StartsAtInside(s, p, UpdatedSp, 0, Updated);
      ContainsAt(s, Updated, p);
      FieldUpdateAt(s, p)
    case None => None
  }

  /** ` of \d` at `q`: where the lazy value group of the edit pattern may stop. */
  predicate OfDigitAt(s: string, q: nat) {
    StartsAt(s, q, " of ") && q + 4 < |s| && IsDigit(s[q + 4])
  }

  /** The lazy `(.+?) of (\d+)` from `v`: the first admissible ` of ` after at least one character. */
  function LazyValueEnd(s: string, v: nat): Option<nat> {
    FirstWhere(v + 1, |s|, (q: nat) => OfDigitAt(s, q))
  }

  datatype Edit = Edit(column: string, value: string, record: string)

  function EditAt(s: string, p: nat): Option<Edit> {
    if !StartsAt(s, p, UpdatedSp) then None
    else
      var a := p + 8;
      var w := SpanEnd(s, a, IsWordChar);
      if w == a || w >= |s| || s[w] != ' ' then None
      else
        // greedy `.+ TO `: the last ` TO ` after which the lazy value can still stop
        match LastWhere(w + 2, |s|, (t: nat) => StartsAt(s, t, " TO ") && LazyValueEnd(s, t + 4).Some?)
        case Some(t) =>
          var q := LazyValueEnd(s, t + 4).value;
          Some(Edit(s[a..w], s[t + 4..q], DigitsFrom(s, q + 4)))
        case None => None
  }

  /** An edit found at `p` starts with `UPDATED ` and has a non-empty column, value and record. */
  lemma EditAtMeaning(s: string, p: nat)
    requires EditAt(s, p).Some?
    ensures StartsAt(s, p, UpdatedSp)
    ensures var e := EditAt(s, p).value; e.column != [] && e.value != [] && e.record != []
  {
    var a := p + 8;
    var w := SpanEnd(s, a, IsWordChar);
    var t := LastWhere(w + 2, |s|, (t: nat) => StartsAt(s, t, " TO ") && LazyValueEnd(s, t + 4).Some?).value;
    var q := LazyValueEnd(s, t + 4).value;
    assert OfDigitAt(s, q);
    assert |DigitsFrom(s, q + 4)| > 0;
  }

  /** `UPDATED (\w+) .+ TO (.+?) of (\d+)`: an edit of a column to a new value. */
  function EditMatch(s: string): (r: Option<Edit>)
    ensures r.Some? ==> Contains(s, Updated)
    ensures r.Some? ==> r.value.column != [] && r.value.value != [] && r.value.record != []
  {
    match FirstWhere(0, |s|, (p: nat) => EditAt(s, p).Some?)
    case Some(p) =>
      EditAtMeaning(s, p);
      StartsAtConcat([], Updated, " ");
      StartsAtInside(s, p, UpdatedSp, 0, Updated);
      ContainsAt(s, Updated, p);
      EditAt(s, p)
    case None => None
  }

  /** `any_update_pattern`: the line mentions `UPDATED`. */
  predicate IsUpdateLine(s: string) { Contains(s, Updated) }

  /** The session close-out scan skips lines holding the login text. */
  predicate HasLoginMarker(s: string) { Contains(s, LoginSubstring) }

  /** `strptime(line[:19], ...)`: the timestamp at the head of a line, if any. */
  function HeadTimestamp(s: string): Option<int> {
    ParseTimestamp(if |s| <= 19 then s else s[..19])
  }

  /** `line.split(" - ")[0]`. */
  function BeforeSeparator(s: string): (r: string)
    ensures |r| <= |s| && r == s[..|r|]
  {
    match FindFrom(s, " - ", 0)
    case Some(i) => s[..i]
    case None => s
  }

  /** `extract_timestamp_line`: the timestamp before the first ` - `, once stripped. */
  function LineTimestamp(s: string): Option<int> {
    ParseTimestamp(Strip(BeforeSeparator(s)))
  }

  // ---------------------------------------------------------------------------
  // Patterns of extract_detailed_ocr_data and collect_updated_fields_snippet

  /** `(\d{4}-\d{2}-\d{2} \d{2}:\d{2}:\d{2})` anywhere in the line. */
  function FirstStamp(s: string): (r: Option<string>)
    ensures r.Some? ==> |r.value| == 19
  {
    match FirstWhere(0, |s|, (k: nat) => TimestampShapeAt(s, k))
    case Some(k) => Some(s[k..k + 19])
    case None => None
  }

  function QuotedAt(s: string, p: nat, marker: string): Option<string> {
    if StartsAt(s, p, marker) then
      var e := SpanEnd(s, p + |marker|, NotQuote);
      if e < |s| then Some(s[p + |marker|..e]) else None
    else None
  }

  /** `marker([^']*)'`, where `marker` ends with the opening quote. */
  function QuotedMatch(s: string, marker: string): (r: Option<string>)
    ensures r.Some? ==> forall j :: 0 <= j < |r.value| ==> r.value[j] != '\''
  {
    match FirstWhere(0, |s|, (p: nat) => QuotedAt(s, p, marker).Some?)
    case Some(p) => QuotedAt(s, p, marker)
    case None => None
  }

  datatype UserDate = UserDate(user: string, date: string)

  /** `Logging initialized for user: ([^\.]+)\.? on (DATE)` at `p`; the user is not yet stripped. */
  function UserDateAt(s: string, p: nat): Option<UserDate> {
    if !StartsAt(s, p, UserMarker) then None
    else
      var u := p + |UserMarker|;
      var e := SpanEnd(s, u, NotDot);
      if e == u then None
      else if e < |s| && OnDateAt(s, e + 1) then Some(UserDate(s[u..e], s[e + 5..e + 15]))
      else
        match LastWhere(u + 1, e, (q: nat) => OnDateAt(s, q))
        case Some(q) => Some(UserDate(s[u..q], s[q + 4..q + 14]))
        case None => None
  }

  /** The detailed-OCR login pattern (leftmost match), with the user stripped. */
  function DetailLoginMatch(s: string): (r: Option<UserDate>)
    ensures r.Some? ==> |r.value.date| == 10
  {
    match FirstWhere(0, |s|, (p: nat) => UserDateAt(s, p).Some?)
    case Some(p) => var m := UserDateAt(s, p).value; Some(m.(user := Strip(m.user)))
    case None => None
  }

  /** The snippet's `.*Logging initialized ...`: the leading `.*` makes the last login text win. */
  function SnippetLoginMatch(s: string): (r: Option<UserDate>)
    ensures r.Some? ==> |r.value.date| == 10
  {
    match LastWhere(0, |s|, (p: nat) => UserDateAt(s, p).Some?)
    case Some(p) => var m := UserDateAt(s, p).value; Some(m.(user := Strip(m.user)))
    case None => None
  }

  function SnippetUpdateAt(s: string, p: nat): Option<string> {
    if StartsAt(s, p, Updated) && (p == 0 || !IsWordChar(s[p - 1])) then
      var w := SpanEnd(s, p + 7, IsSpace);
      var e := SpanEnd(s, w, NotSpace);
      if w > p + 7 && e > w then Some(s[w..e]) else None
    else None
  }

  /** `\bUPDATED\b\s+(\S+)`: the field named after a stand-alone `UPDATED`. */
  function SnippetUpdateMatch(s: string): (r: Option<string>)
    ensures r.Some? ==> r.value != [] && forall j :: 0 <= j < |r.value| ==> NotSpace(r.value[j])
  {
    match FirstWhere(0, |s|, (p: nat) => SnippetUpdateAt(s, p).Some?)
    case Some(p) => SnippetUpdateAt(s, p)
    case None => None
  }

  // ---------------------------------------------------------------------------
  // What the per-line loops of analyze_log_file and analyze_time_gaps see of a line

  /**
   * Every match the per-line loops of `analyze_log_file` and `analyze_time_gaps` test a line
   * for. The "sheet5" image pattern is the image-update pattern, so `imageUpdate` serves both.
   */
  datatype LineInfo = LineInfo(
    ocrStart: Option<string>,
    ocrEnd: Option<Clip>,
    login: Option<Login>,
    recordSuffix: Option<string>,
    shortcut: Option<string>,
    ocrImage: Option<ImageNumber>,
    clipboard: Option<string>,
    imageUpdate: Option<ImageNumber>,
    docType: Option<nat>,
    rnum: Option<RNum>,
    fieldUpdate: Option<string>,
    edit: Option<Edit>,
    updated: bool,
    loginMarker: bool,
    head: Option<int>,
    stamp: Option<int>,
    text: string)

  function Classify(line: string): (r: LineInfo)
    ensures r.login.Some? ==> r.loginMarker
    ensures r.rnum.Some? ==> r.updated
    ensures r.fieldUpdate.Some? ==> r.updated
    ensures r.edit.Some? ==> r.updated
    ensures r.ocrStart.Some? ==> |r.ocrStart.value| == 19
    ensures r.login.Some? ==> r.login.value.user != []
  {
    LineInfo(OcrStartMatch(line), OcrEndMatch(line), LoginMatch(line), RecordSuffixMatch(line),
             ShortcutMatch(line), OcrImageMatch(line), ClipboardMatch(line), ImageUpdateMatch(line),
             DocTypeMatch(line), RNumMatch(line), FieldUpdateMatch(line), EditMatch(line),
             IsUpdateLine(line), HasLoginMarker(line), HeadTimestamp(line), LineTimestamp(line),
             Strip(line))
  }

  /** The classified lines of a file. */
  function Infos(lines: seq<string>): (r: seq<LineInfo>)
    ensures |r| == |lines| && forall i :: 0 <= i < |lines| ==> r[i] == Classify(lines[i])
  {
    seq(|lines|, i requires 0 <= i < |lines| => Classify(lines[i]))
  }
}
