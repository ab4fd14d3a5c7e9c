/**
 * Character classes and string helpers that the line matchers are built from:
 * substring search, maximal runs of a character class, Python's argument-less
 * `str.split()` and `str.strip()`, and decimal digits.
 */
module Text {
  import opened Wrappers

  /** `\d` restricted to ASCII. */
  predicate IsDigit(c: char) { '0' <= c <= '9' }

  predicate IsUpper(c: char) { 'A' <= c <= 'Z' }

  predicate IsLower(c: char) { 'a' <= c <= 'z' }

  /** `\w` restricted to ASCII. */
  predicate IsWordChar(c: char) { IsDigit(c) || IsUpper(c) || IsLower(c) || c == '_' }

  /** The ASCII characters Python treats as whitespace (`str.isspace`, `\s`). */
  predicate IsSpace(c: char) {
    c == ' ' || c == '\t' || c == '\n' || c == '\r' || c == '\U{000B}' || c == '\U{000C}'
    || ('\U{001C}' <= c <= '\U{001F}')
  }

  predicate NotSpace(c: char) { !IsSpace(c) }

  predicate NotQuote(c: char) { c != '\'' }

  predicate NotDot(c: char) { c != '.' }

  predicate AllDigits(s: string) { forall k :: 0 <= k < |s| ==> IsDigit(s[k]) }

  /** No string occurs twice: the key order of a dictionary. */
  predicate Distinct(s: seq<string>) {
    forall k, l :: 0 <= k < l < |s| ==> s[k] != s[l]
  }

  /** A new key appended to an order whose keys are all old keeps it free of repeats. */
  lemma DistinctSnoc(s: seq<string>, x: string)
    requires Distinct(s) && x !in s
    ensures Distinct(s + [x])
  {
  }

  /** `pat` occurs in `s` at position `i`. */
  predicate StartsAt(s: string, i: nat, pat: string) {
    i + |pat| <= |s| && s[i..i + |pat|] == pat
  }

  /** Leftmost occurrence of `pat` in `s` at or after `from`. */
  function FindFrom(s: string, pat: string, from: nat): (r: Option<nat>)
    ensures r.Some? ==> from <= r.value && StartsAt(s, r.value, pat)
    ensures r.Some? ==> forall j :: from <= j < r.value ==> !StartsAt(s, j, pat)
    ensures r.None? ==> forall j :: from <= j ==> !StartsAt(s, j, pat)
    decreases |s| - from
  {
    if from + |pat| > |s| then None
    else if StartsAt(s, from, pat) then Some(from)
    else FindFrom(s, pat, from + 1)
  }

  /** Python's `pat in s`. */
  predicate Contains(s: string, pat: string) { FindFrom(s, pat, 0).Some? }

  lemma ContainsAt(s: string, pat: string, i: nat)
    requires StartsAt(s, i, pat)
    ensures Contains(s, pat)
  {
  }

  /** An occurrence of `outer` at `i` that has `inner` at offset `d` gives an occurrence of `inner`. */
  lemma StartsAtInside(s: string, i: nat, outer: string, d: nat, inner: string)
    requires StartsAt(s, i, outer) && StartsAt(outer, d, inner)
    ensures StartsAt(s, i + d, inner)
  {
    forall k | 0 <= k < |inner|
      ensures s[i + d + k] == inner[k]
    {
      assert s[i + d + k] == s[i..i + |outer|][d + k] == outer[d..d + |inner|][k];
    }
  }

  /** `b` occurs in `a + b + c` right after `a`. */
  lemma StartsAtConcat(a: string, b: string, c: string)
    ensures StartsAt(a + b + c, |a|, b)
  {
    assert (a + b + c)[|a|..|a| + |b|] == b;
  }

  /** End of the maximal run of characters satisfying `p` that starts at `i`. */
  function SpanEnd(s: string, i: nat, p: char -> bool): (e: nat)
    requires i <= |s|
    ensures i <= e <= |s|
    ensures forall k :: i <= k < e ==> p(s[k])
    ensures e == |s| || !p(s[e])
    decreases |s| - i
  {
    if i == |s| || !p(s[i]) then i else SpanEnd(s, i + 1, p)
  }

  /** The run of digits starting at `i`, in `\d+` greedy form (possibly empty). */
  function DigitsFrom(s: string, i: nat): (d: string)
    requires i <= |s|
    ensures AllDigits(d) && i + |d| <= |s| && s[i..i + |d|] == d
    ensures i + |d| == |s| || !IsDigit(s[i + |d|])
  {
    s[i..SpanEnd(s, i, IsDigit)]
  }

  function DigitValue(c: char): nat
    requires IsDigit(c)
  {
    (c as int) - ('0' as int)
  }

  function DigitChar(n: nat): (c: char)
    requires n < 10
    ensures IsDigit(c) && DigitValue(c) == n
  {
    ('0' as int + n) as char
  }

  /** Python's `int(s)` on a string of ASCII digits. */
  function DecimalValue(s: string): nat
    requires AllDigits(s)
  {
    if s == [] then 0 else 10 * DecimalValue(s[..|s| - 1]) + DigitValue(s[|s| - 1])
  }

  /** The decimal rendering of `n`, without leading zeros. */
  function DecimalText(n: nat): (s: string)
    ensures AllDigits(s) && 1 <= |s|
    ensures n < 10 <==> |s| == 1
  {
    if n < 10 then [DigitChar(n)] else DecimalText(n / 10) + [DigitChar(n % 10)]
  }

  lemma {:induction false} DecimalRoundTrip(n: nat)
    ensures DecimalValue(DecimalText(n)) == n
  {
    if n >= 10 {
      var s := DecimalText(n);
      assert s[..|s| - 1] == DecimalText(n / 10);
      DecimalRoundTrip(n / 10);
    }
  }

  /** Python's argument-less `str.split()`: the maximal runs of non-whitespace characters. */
  function Split(s: string): (r: seq<string>)
    ensures forall k :: 0 <= k < |r| ==> r[k] != []
    ensures forall k, j :: 0 <= k < |r| && 0 <= j < |r[k]| ==> NotSpace(r[k][j])
    decreases |s|
  {
    if s == [] then []
    else if IsSpace(s[0]) then Split(s[1..])
    else
      var e := SpanEnd(s, 0, NotSpace);
      [s[..e]] + Split(s[e..])
  }

  lemma {:induction false} SplitOfSpaces(s: string)
    requires forall k :: 0 <= k < |s| ==> IsSpace(s[k])
    ensures Split(s) == []
  {
    if s != [] {
      SplitOfSpaces(s[1..]);
    }
  }

  /** A string with no whitespace splits into at most itself. */
  lemma SplitOfToken(s: string)
    requires s != [] && forall k :: 0 <= k < |s| ==> NotSpace(s[k])
    ensures Split(s) == [s]
  {
    var e := SpanEnd(s, 0, NotSpace);
    assert e == |s|;
    assert s[e..] == [] && s[..e] == s;
    assert Split(s[e..]) == [];
  }

  function StripLeft(s: string): (r: string)
    ensures |r| <= |s| && r == s[|s| - |r|..]
    ensures r == [] || NotSpace(r[0])
    decreases |s|
  {
    if s != [] && IsSpace(s[0]) then StripLeft(s[1..]) else s
  }

  function StripRight(s: string): (r: string)
    ensures |r| <= |s| && r == s[..|r|]
    ensures r == [] || NotSpace(r[|r| - 1])
    decreases |s|
  {
    if s != [] && IsSpace(s[|s| - 1]) then StripRight(s[..|s| - 1]) else s
  }

  /** Python's argument-less `str.strip()`. */
  function Strip(s: string): (r: string)
    ensures r == [] || (NotSpace(r[0]) && NotSpace(r[|r| - 1]))
  {
    StripRight(StripLeft(s))
  }

  /** Python's `str.lower()` on ASCII letters; every other character is kept. */
  function LowerChar(c: char): (r: char)
    ensures !IsUpper(r)
    ensures IsUpper(c) || r == c
  {
    if IsUpper(c) then (c as int - 'A' as int + 'a' as int) as char else c
  }

  function Lower(s: string): (r: string)
    ensures |r| == |s|
    ensures forall k :: 0 <= k < |s| ==> r[k] == LowerChar(s[k])
  {
    seq(|s|, k requires 0 <= k < |s| => LowerChar(s[k]))
  }
}
