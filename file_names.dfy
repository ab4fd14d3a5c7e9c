/**
 * What the scans read off a log file's base name: the user id (`extract_user_id`, and the
 * `(\d+)_` search of the detailed OCR scans) and the date (`extract_date_from_filename`,
 * the same `_(\d{4}-\d{2}-\d{2})\.log` search in all three places), with "Unknown" when
 * the name does not match.
 */
module FileNames {
  import opened Wrappers
  import opened Text
  import opened Timestamps
  import opened Classifier

  const Unknown := "Unknown"

  /** The first digit of `fn` at or after `i`. */
  function FirstDigit(fn: string, i: nat): (r: Option<nat>)
    requires i <= |fn|
    ensures r.Some? ==> i <= r.value < |fn| && IsDigit(fn[r.value])
    ensures r.Some? ==> forall j :: i <= j < r.value ==> !IsDigit(fn[j])
    ensures r.None? ==> forall j :: i <= j < |fn| ==> !IsDigit(fn[j])
    decreases |fn| - i
  {
    if i == |fn| then None else if IsDigit(fn[i]) then Some(i) else FirstDigit(fn, i + 1)
  }

  /** `extract_user_id`: `re.search(r"(\d+)", filename)`, the first run of digits. */
  function ExtractUserId(fn: string): (r: string)
    ensures r == Unknown <==> forall k :: 0 <= k < |fn| ==> !IsDigit(fn[k])
    ensures r != Unknown ==> r != [] && AllDigits(r)
    ensures r != Unknown ==>
      exists p :: 0 <= p < |fn| && (forall q :: 0 <= q < p ==> !IsDigit(fn[q])) && StartsAt(fn, p, r)
                  && (p + |r| == |fn| || !IsDigit(fn[p + |r|]))
  {
    match FirstDigit(fn, 0)
    case Some(p) =>
      var d := DigitsFrom(fn, p);
      assert StartsAt(fn, p, d);
      d
    case None => Unknown
  }

  /** A run of digits starting at `p` that is followed by `_`. */
  predicate UserPrefixAt(fn: string, p: nat) {
    p < |fn| && IsDigit(fn[p]) && var e := SpanEnd(fn, p, IsDigit); e < |fn| && fn[e] == '_'
  }

  /** The first position at or after `i` where a run of digits followed by `_` starts. */
  function FirstUserPrefix(fn: string, i: nat): (r: Option<nat>)
    requires i <= |fn|
    ensures r.Some? ==> i <= r.value < |fn| && UserPrefixAt(fn, r.value)
    ensures r.Some? ==> forall j :: i <= j < r.value ==> !UserPrefixAt(fn, j)
    ensures r.None? ==> forall j :: i <= j < |fn| ==> !UserPrefixAt(fn, j)
    decreases |fn| - i
  {
    if i == |fn| then None else if UserPrefixAt(fn, i) then Some(i) else FirstUserPrefix(fn, i + 1)
  }

  /** `re.search(r'(\d+)_', fn)`: the first run of digits that is followed by `_`. */
  function FileUser(fn: string): string {
    match FirstUserPrefix(fn, 0)
    case Some(p) => DigitsFrom(fn, p)
    case None => Unknown
  }

  /**
   * The user is "Unknown" exactly when no run of digits is followed by `_`; otherwise it is the
   * whole run of digits at the leftmost position where such a run starts.
   */
  lemma FileUserMeaning(fn: string)
    ensures FileUser(fn) == Unknown <==> forall p :: 0 <= p < |fn| ==> !UserPrefixAt(fn, p)
    ensures FileUser(fn) != Unknown ==> FileUser(fn) != [] && AllDigits(FileUser(fn)) && Contains(fn, FileUser(fn) + "_")
    ensures FileUser(fn) != Unknown ==>
      exists p: nat :: UserPrefixAt(fn, p) && (forall q: nat :: q < p ==> !UserPrefixAt(fn, q))
                  && StartsAt(fn, p, FileUser(fn)) && p + |FileUser(fn)| < |fn| && fn[p + |FileUser(fn)|] == '_'
  {
    match FirstUserPrefix(fn, 0)
    case Some(p) =>
      var d := DigitsFrom(fn, p);
      assert fn[p..p + |d| + 1] == d + "_";
      ContainsAt(fn, d + "_", p);
      assert StartsAt(fn, p, d);
    case None =>
  }

  /** `_(\d{4}-\d{2}-\d{2})\.log` at position `p`. */
  predicate DateNameAt(fn: string, p: nat) {
    p < |fn| && fn[p] == '_' && DateShapeAt(fn, p + 1) && StartsAt(fn, p + 11, ".log")
  }

  /** The first position at or after `i` where `_DATE.log` starts. */
  function FirstDateName(fn: string, i: nat): (r: Option<nat>)
    requires i <= |fn|
    ensures r.Some? ==> i <= r.value < |fn| && DateNameAt(fn, r.value)
    ensures r.Some? ==> forall j :: i <= j < r.value ==> !DateNameAt(fn, j)
    ensures r.None? ==> forall j :: i <= j < |fn| ==> !DateNameAt(fn, j)
    decreases |fn| - i
  {
    if i == |fn| then None else if DateNameAt(fn, i) then Some(i) else FirstDateName(fn, i + 1)
  }

  /** `extract_date_from_filename`: the first `_DATE.log` of the name. */
  function ExtractDate(fn: string): string {
    match FirstDateName(fn, 0)
    case Some(p) => fn[p + 1..p + 11]
    case None => Unknown
  }

  /**
   * The date is "Unknown" exactly when no `_YYYY-MM-DD.log` occurs; otherwise it is the date of
   * the leftmost occurrence.
   */
  lemma ExtractDateMeaning(fn: string)
    ensures ExtractDate(fn) == Unknown <==> forall p :: 0 <= p < |fn| ==> !DateNameAt(fn, p)
    ensures ExtractDate(fn) != Unknown ==>
      |ExtractDate(fn)| == 10 && DateShapeAt(ExtractDate(fn), 0) && Contains(fn, "_" + ExtractDate(fn) + ".log")
    ensures ExtractDate(fn) != Unknown ==>
      exists p: nat :: DateNameAt(fn, p) && (forall q: nat :: q < p ==> !DateNameAt(fn, q))
                  && ExtractDate(fn) == fn[p + 1..p + 11]
  {
    match FirstDateName(fn, 0)
    case Some(p) =>
      var d := fn[p + 1..p + 11];
      assert forall k :: 0 <= k < 10 ==> d[k] == fn[p + 1 + k];
      assert fn[p..p + 15] == "_" + d + ".log";
      ContainsAt(fn, "_" + d + ".log", p);
    case None =>
  }

  /** The user id of a name that starts with digits is those digits. */
  lemma {:induction false} UserIdOfName(d: string, rest: string)
    requires d != [] && AllDigits(d) && (rest == [] || !IsDigit(rest[0]))
    ensures ExtractUserId(d + rest) == d
  {
    var fn := d + rest;
    assert fn[0] == d[0];
    var e := SpanEnd(fn, 0, IsDigit);
    assert forall k :: 0 <= k < |d| ==> IsDigit(fn[k]);
    SpanEndAtLeast(fn, 0, |d|);
    assert rest == [] || fn[|d|] == rest[0];
    assert fn[0..|d|] == d;
  }

  /** The digit run from `i` reaches past `n` digits when there are `n` digits there. */
  lemma {:induction false} SpanEndAtLeast(fn: string, i: nat, n: nat)
    requires i + n <= |fn| && forall j :: i <= j < i + n ==> IsDigit(fn[j])
    ensures SpanEnd(fn, i, IsDigit) >= i + n
    decreases n
  {
    if n > 0 {
      SpanEndAtLeast(fn, i + 1, n - 1);
    }
  }

  /**
   * For the names the tool writes, `<digits>_<YYYY-MM-DD>.log`, both searches read the
   * user and the date back.
   */
  lemma FileNameRoundTrip(d: string, date: string)
    requires d != [] && AllDigits(d) && |date| == 10 && DateShapeAt(date, 0)
    ensures FileUser(d + "_" + date + ".log") == d
    ensures ExtractDate(d + "_" + date + ".log") == date
    ensures ExtractUserId(d + "_" + date + ".log") == d
  {
    var fn := d + "_" + date + ".log";
    assert fn == d + ("_" + date + ".log");
    UserIdOfName(d, "_" + date + ".log");
    UserOfName(d, "_" + date + ".log");
    DateOfName(d, date);
  }

  /** A name that starts with digits and then `_` has those digits as its user. */
  lemma UserOfName(d: string, rest: string)
    requires d != [] && AllDigits(d) && rest != [] && rest[0] == '_'
    ensures FileUser(d + rest) == d
  {
    var fn := d + rest;
    assert forall k :: 0 <= k < |d| ==> fn[k] == d[k];
    SpanEndAtLeast(fn, 0, |d|);
    assert fn[|d|] == '_';
    assert SpanEnd(fn, 0, IsDigit) == |d|;
    assert UserPrefixAt(fn, 0);
    assert fn[0..|d|] == d;
  }

  /** In `<digits>_<date>.log` the first `_DATE.log` is the one after the digits. */
  lemma DateOfName(d: string, date: string)
    requires AllDigits(d) && |date| == 10 && DateShapeAt(date, 0)
    ensures ExtractDate(d + "_" + date + ".log") == date
  {
    var fn := d + "_" + date + ".log";
    var n := |d|;
    assert forall p :: 0 <= p < n ==> fn[p] == d[p];
    assert forall p :: 0 <= p < n ==> !DateNameAt(fn, p);
    assert forall k :: 0 <= k < 10 ==> fn[n + 1 + k] == date[k];
    assert DateShapeAt(fn, n + 1) by { DateShapeCopy(date, fn, n + 1); }
    assert fn[n + 11..n + 15] == ".log";
    assert DateNameAt(fn, n);
    assert fn[n + 1..n + 11] == date;
  }

  /** A date shape copied character by character into `s` at `i` is a date shape there. */
  lemma DateShapeCopy(date: string, s: string, i: nat)
    requires |date| == 10 && DateShapeAt(date, 0) && i + 10 <= |s|
    requires forall k :: 0 <= k < 10 ==> s[i + k] == date[k]
    ensures DateShapeAt(s, i)
  {
    assert forall k :: i <= k < i + 10 ==> s[k] == date[k - i];
  }

}
