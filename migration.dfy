/**
 * The pure helpers of the migration script: cleaning column names, renaming the columns of
 * the "Shortcut Analysis" sheet and filling the ones it lacks, picking a row's user from the
 * first candidate column that holds a value, and the same-day duration of two clock times.
 */
module Migration {
  import opened Wrappers
  import opened Text

  // ---------------------------------------------------------------------------
  // sanitize_column_names

  /** `.replace(' ', '_')`. */
  function Underscored(s: string): (r: string)
    ensures |r| == |s| && forall k :: 0 <= k < |s| ==> r[k] == if s[k] == ' ' then '_' else s[k]
  {
    seq(|s|, k requires 0 <= k < |s| => if s[k] == ' ' then '_' else s[k])
  }

  /** `re.sub(r'[^a-zA-Z0-9_]', '', s)`: the characters of `s` that are letters, digits or `_`, in order. */
  function KeepWordChars(s: string): (r: string)
    ensures |r| <= |s|
    ensures forall k :: 0 <= k < |r| ==> IsWordChar(r[k]) && r[k] in s
  {
    if s == [] then [] else (if IsWordChar(s[0]) then [s[0]] else []) + KeepWordChars(s[1..])
  }

  /** The cleaned name of one column: only lower-case letters, digits and `_` remain. */
  function SanitizeName(col: string): (r: string)
    ensures |r| <= |col|
    ensures forall k :: 0 <= k < |r| ==> IsWordChar(r[k]) && !IsUpper(r[k])
  {
    var low := Lower(col);
    var u := Underscored(low);
    assert forall c :: c in u ==> !IsUpper(c);
    KeepWordChars(u)
  }

  lemma {:induction false} KeepConcat(a: string, b: string)
    ensures KeepWordChars(a + b) == KeepWordChars(a) + KeepWordChars(b)
  {
    if a != [] {
      assert (a + b)[0] == a[0] && (a + b)[1..] == a[1..] + b;
      KeepConcat(a[1..], b);
    } else {
      assert a + b == b;
    }
  }

  /** Cleaning works character by character: the name of a concatenation is the concatenation of the names. */
  lemma SanitizeConcat(a: string, b: string)
    ensures SanitizeName(a + b) == SanitizeName(a) + SanitizeName(b)
  {
    assert Underscored(Lower(a + b)) == Underscored(Lower(a)) + Underscored(Lower(b));
    KeepConcat(Underscored(Lower(a)), Underscored(Lower(b)));
  }

  /** A space becomes `_`, a letter is lower-cased, a digit or `_` stays, anything else is dropped. */
  lemma SanitizeChar(c: char)
    ensures SanitizeName([c]) == if c == ' ' then "_" else if IsWordChar(c) then [LowerChar(c)] else []
  {
    var u := Underscored(Lower([c]));
    assert u == [if LowerChar(c) == ' ' then '_' else LowerChar(c)];
    assert u[1..] == [];
  }

  /** A string of word characters is kept whole. */
  lemma {:induction false} KeepAll(s: string)
    requires forall k :: 0 <= k < |s| ==> IsWordChar(s[k])
    ensures KeepWordChars(s) == s
  {
    if s != [] {
      KeepAll(s[1..]);
    }
  }

  /** Cleaning a cleaned name changes nothing. */
  lemma SanitizeIdempotent(col: string)
    ensures SanitizeName(SanitizeName(col)) == SanitizeName(col)
  {
    var r := SanitizeName(col);
    assert Lower(r) == r;
    assert Underscored(r) == r;
    KeepAll(r);
  }

  /** A data frame, as far as the migration touches it: its column names, and the columns it adds with one value throughout. */
  /**
   * A cell of a frame read from the workbook: `Date(d)` is a pandas `Timestamp` at midnight of
   * the day `d`, written `YYYY-MM-DD`.
   */
  datatype Cell = Null | Text(text: string) | Number(number: int) | Date(date: string)

  class Frame {
    var columns: seq<string>
    var added: map<string, Cell>

    constructor (columns: seq<string>)
      ensures this.columns == columns && added == map[]
    {
      this.columns := columns;
      added := map[];
    }

    /** `sanitize_column_names`: every column is renamed to its cleaned name, in place. */
    method SanitizeColumnNames()
      modifies this
      ensures |columns| == |old(columns)|
      ensures forall k :: 0 <= k < |columns| ==> columns[k] == SanitizeName(old(columns)[k])
      ensures added == old(added)
    {
      columns := seq(|columns|, k requires 0 <= k < |columns| reads this => SanitizeName(columns[k]));
    }

    /** `rename(columns=rename_map, inplace=True)`. */
    method Rename(m: map<string, string>)
      modifies this
      ensures |columns| == |old(columns)|
      ensures forall k :: 0 <= k < |columns| ==>
        columns[k] == if old(columns)[k] in m then m[old(columns)[k]] else old(columns)[k]
      ensures added == old(added)
    {
      var i := 0;
      var out: seq<string> := [];
      while i < |columns|
        invariant i <= |columns| && |out| == i
        invariant forall k :: 0 <= k < i ==> out[k] == if columns[k] in m then m[columns[k]] else columns[k]
      {
        out := out + [if columns[i] in m then m[columns[i]] else columns[i]];
        i := i + 1;
      }
      columns := out;
    }

    /** Adds each of the needed shortcut columns the frame lacks, in the needed order, with its default value. */
    method FillMissing()
      modifies this
      ensures columns == old(columns) + MissingNeeded(old(columns))
      ensures forall c :: c in Needed ==> c in columns
      ensures forall c :: c in added <==> c in old(added) || c in MissingNeeded(old(columns))
      ensures forall c :: c in MissingNeeded(old(columns)) ==> added[c] == DefaultOf(c)
      ensures forall c :: c in old(added) && c !in MissingNeeded(old(columns)) ==> added[c] == old(added)[c]
    {
      var cols0, add0 := columns, added;
      var cols, add := cols0, add0;
      var i := 0;
      while i < |Needed|
        invariant i <= |Needed|
        invariant cols == cols0 + MissingBelow(cols0, i)
        invariant AddedFor(add, add0, MissingBelow(cols0, i))
      {
        var c := Needed[i];
        MissingBelowStep(cols0, i);
        if c !in cols {
          assert c !in cols0;
          MissingBelowIn(cols0, i, c);
          AddedStep(add, add0, MissingBelow(cols0, i), c);
          cols := cols + [c];
          add := add[c := DefaultOf(c)];
        } else {
          assert c in cols0 || c in MissingBelow(cols0, i);
          MissingBelowIn(cols0, i, c);
        }
        i := i + 1;
      }
      assert MissingBelow(cols0, |Needed|) == MissingNeeded(cols0);
      forall c | c in Needed
        ensures c in cols
      {
        MissingCovers(cols0, c);
      }
      columns, added := cols, add;
    }
  }

  // ---------------------------------------------------------------------------
  // The "Shortcut Analysis" rule

  /** The columns the "Shortcut" table needs, in the order they are checked. */
  const Needed: seq<string> := ["psn", "cr_date", "shortcut_name", "shortcut"]

  /** The value a missing needed column is filled with. */
  function DefaultOf(c: string): Cell {
    if c == "shortcut_name" then Text("DEFAULT_SHORTCUT")
    else if c == "shortcut" then Number(0)
    else if c == "psn" then Text("DEFAULT_USER")
    else Date("2025-01-01")
  }

  /** The new name of a header: case-insensitive, the first matching rule wins; none when no rule matches. */
  function ShortcutTarget(col: string): (r: Option<string>)
    ensures r.Some? ==> r.value in Needed
  {
    var low := Lower(col);
    if Contains(low, "psn") || Contains(low, "user") || Contains(low, "employee") then Some("psn")
    else if Contains(low, "date") then Some("cr_date")
    else if Contains(low, "shortcut") && Contains(low, "name") then Some("shortcut_name")
    else if Contains(low, "shortcut") then Some("shortcut")
    else None
  }

  /**
   * The added columns after the columns `miss` are filled in: the earlier ones and `miss`,
   * each of `miss` holding its default and every other keeping its earlier value.
   */
  ghost predicate AddedFor(add: map<string, Cell>, add0: map<string, Cell>, miss: seq<string>) {
    && (forall c :: c in add <==> c in add0 || c in miss)
    && (forall c :: c in miss ==> add[c] == DefaultOf(c))
    && (forall c :: c in add0 && c !in miss ==> add[c] == add0[c])
  }

  lemma AddedStep(add: map<string, Cell>, add0: map<string, Cell>, miss: seq<string>, c: string)
    requires AddedFor(add, add0, miss) && c !in miss
    ensures AddedFor(add[c := DefaultOf(c)], add0, miss + [c])
  {
  }

  /** The Needed columns below `i` that `cols` lacks, in order. */
  function MissingBelow(cols: seq<string>, i: nat): (r: seq<string>)
    requires i <= |Needed|
    ensures forall c :: c in r <==> c in Needed[..i] && c !in cols
  {
    if i == 0 then []
    else MissingBelow(cols, i - 1) + if Needed[i - 1] !in cols then [Needed[i - 1]] else []
  }

  /** The needed columns `cols` lacks, in the needed order. */
  function MissingNeeded(cols: seq<string>): (r: seq<string>)
    ensures forall c :: c in r <==> c in Needed && c !in cols
  {
    assert Needed[..|Needed|] == Needed;
    MissingBelow(cols, |Needed|)
  }

  lemma MissingBelowStep(cols: seq<string>, i: nat)
    requires i < |Needed|
    ensures MissingBelow(cols, i + 1) == MissingBelow(cols, i) + if Needed[i] !in cols then [Needed[i]] else []
  {
  }

  /** The needed columns are distinct, so a later one is not among the earlier missing ones. */
  lemma MissingBelowIn(cols: seq<string>, i: nat, c: string)
    requires i < |Needed| && c == Needed[i]
    ensures c !in MissingBelow(cols, i)
  {
    assert c !in Needed[..i];
  }

  lemma MissingCovers(cols: seq<string>, c: string)
    requires c in Needed
    ensures c in cols + MissingNeeded(cols)
  {
  }

  /** A pattern with a character the text lacks after its first position does not occur in it. */
  lemma NotContains(s: string, pat: string, k: nat)
    requires k < |pat| && |s| > 0 && pat[k] !in s[1..] && (k == 0 ==> pat[0] != s[0])
    ensures !Contains(s, pat)
  {
    forall p: nat
      ensures !StartsAt(s, p, pat)
    {
      if p + |pat| <= |s| {
        assert s[p..p + |pat|][k] == s[p + k];
        if p + k > 0 {
          assert s[p + k] == s[1..][p + k - 1];
        }
      }
    }
  }

  lemma LowerNames()
    ensures Lower("psn") == "psn" && Lower("cr_date") == "cr_date"
    ensures Lower("shortcut_name") == "shortcut_name" && Lower("shortcut") == "shortcut"
  {
  }

  lemma TargetOfPsn()
    ensures ShortcutTarget("psn") == Some("psn")
  {
    LowerNames();
    assert StartsAt("psn", 0, "psn");
  }

  lemma DateFacts()
    ensures Contains("cr_date", "date")
    ensures !Contains("cr_date", "psn") && !Contains("cr_date", "user") && !Contains("cr_date", "employee")
  {
    assert StartsAt("cr_date", 3, "date");
    DateLacksOthers();
  }

  lemma DateLacksOthers()
    ensures !Contains("cr_date", "psn") && !Contains("cr_date", "user") && !Contains("cr_date", "employee")
  {
    var tail := "cr_date"[1..];
    assert tail == "r_date";
    assert 'p' !in tail && 'u' !in tail && 'm' !in tail;
    NotContains("cr_date", "psn", 0);
    NotContains("cr_date", "user", 0);
    NotContains("cr_date", "employee", 1);
  }

  lemma TargetOfDate()
    ensures ShortcutTarget("cr_date") == Some("cr_date")
  {
    LowerNames();
    DateFacts();
  }

  lemma ShortcutNameHas()
    ensures Contains("shortcut_name", "shortcut") && Contains("shortcut_name", "name")
  {
    assert StartsAt("shortcut_name", 0, "shortcut");
    assert StartsAt("shortcut_name", 9, "name");
  }

  lemma ShortcutNameLacksUser()
    ensures !Contains("shortcut_name", "psn") && !Contains("shortcut_name", "user")
  {
    var tail := "shortcut_name"[1..];
    assert tail == "hortcut_name";
    assert 'p' !in tail && 's' !in tail;
    NotContains("shortcut_name", "psn", 0);
    NotContains("shortcut_name", "user", 1);
  }

  lemma ShortcutNameLacksOthers()
    ensures !Contains("shortcut_name", "employee") && !Contains("shortcut_name", "date")
  {
    NotContains("shortcut_name", "employee", 2);
    NotContains("shortcut_name", "date", 0);
  }

  lemma TargetOfShortcutName()
    ensures ShortcutTarget("shortcut_name") == Some("shortcut_name")
  {
    LowerNames();
    ShortcutNameHas();
    ShortcutNameLacksUser();
    ShortcutNameLacksOthers();
  }

  lemma ShortcutLacksUser()
    ensures !Contains("shortcut", "psn") && !Contains("shortcut", "user") && !Contains("shortcut", "employee")
  {
    ShortcutLacksPsn();
    var tail := "shortcut"[1..];
    assert tail == "hortcut";
    assert 's' !in tail && 'm' !in tail;
    NotContains("shortcut", "user", 1);
    NotContains("shortcut", "employee", 1);
  }

  lemma ShortcutLacksPsn()
    ensures !Contains("shortcut", "psn")
  {
    var tail := "shortcut"[1..];
    assert tail == "hortcut";
    assert 'p' !in tail;
    NotContains("shortcut", "psn", 0);
  }

  lemma ShortcutLacksOthers()
    ensures !Contains("shortcut", "date") && !Contains("shortcut", "name")
  {
    var tail := "shortcut"[1..];
    assert tail == "hortcut";
    assert 'd' !in tail && 'n' !in tail;
    NotContains("shortcut", "date", 0);
    NotContains("shortcut", "name", 0);
  }

  lemma ShortcutFacts()
    ensures Contains("shortcut", "shortcut")
    ensures !Contains("shortcut", "psn") && !Contains("shortcut", "user") && !Contains("shortcut", "employee")
    ensures !Contains("shortcut", "date") && !Contains("shortcut", "name")
  {
    assert StartsAt("shortcut", 0, "shortcut");
    ShortcutLacksUser();
    ShortcutLacksOthers();
  }

  lemma TargetOfShortcut()
    ensures ShortcutTarget("shortcut") == Some("shortcut")
  {
    LowerNames();
    ShortcutFacts();
  }

  /** Headers already carrying a target name keep it: renaming a renamed sheet changes nothing. */
  lemma TargetsAreFixed()
    ensures forall c :: c in Needed ==> ShortcutTarget(c) == Some(c)
  {
    forall c | c in Needed
      ensures ShortcutTarget(c) == Some(c)
    {
      if c == "psn" {
        TargetOfPsn();
      } else if c == "cr_date" {
        TargetOfDate();
      } else if c == "shortcut_name" {
        TargetOfShortcutName();
      } else if c == "shortcut" {
        TargetOfShortcut();
      } else {
        assert false;
      }
    }
  }

  /** The rule ignores case. */
  lemma TargetIgnoresCase(col: string)
    ensures ShortcutTarget(Lower(col)) == ShortcutTarget(col)
  {
    assert Lower(Lower(col)) == Lower(col);
  }

  /** The loop that builds `rename_map`: every header some rule matches, mapped to its target. */
  method RenameMap(cols: seq<string>) returns (m: map<string, string>)
    ensures forall c :: c in m <==> c in cols && ShortcutTarget(c).Some?
    ensures forall c :: c in m ==> m[c] == ShortcutTarget(c).value && m[c] in Needed
  {
    m := map[];
    for i := 0 to |cols|
      invariant forall c :: c in m <==> c in cols[..i] && ShortcutTarget(c).Some?
      invariant forall c :: c in m ==> m[c] == ShortcutTarget(c).value
    {
      var t := ShortcutTarget(cols[i]);
      if t.Some? {
        m := m[cols[i] := t.value];
      }
      assert cols[..i + 1] == cols[..i] + [cols[i]];
    }
    assert cols[..|cols|] == cols;
  }

  /**
   * The "Shortcut Analysis" to "Shortcut" step on a frame's headers: each header is renamed by
   * the rule, then every needed column the frame still lacks is added with its default.
   */
  method ShortcutSheet(cols: seq<string>) returns (f: Frame)
    ensures fresh(f)
    ensures f.columns == RenamedHeaders(cols) + MissingNeeded(RenamedHeaders(cols))
    ensures forall c :: c in Needed ==> c in f.columns
    ensures forall c :: c in f.added <==> c in MissingNeeded(RenamedHeaders(cols))
    ensures forall c :: c in f.added ==> c in Needed && f.added[c] == DefaultOf(c)
  {
    f := new Frame(cols);
    var m := RenameMap(cols);
    f.Rename(m);
    assert f.columns == RenamedHeaders(cols);
    f.FillMissing();
  }

  /** The headers after the rename: each header a rule matches becomes its target, the others stay. */
  function RenamedHeaders(cols: seq<string>): (r: seq<string>)
    ensures |r| == |cols|
    ensures forall k :: 0 <= k < |cols| ==> r[k] == if ShortcutTarget(cols[k]).Some? then ShortcutTarget(cols[k]).value else cols[k]
  {
    seq(|cols|, k requires 0 <= k < |cols| => if ShortcutTarget(cols[k]).Some? then ShortcutTarget(cols[k]).value else cols[k])
  }

  // ---------------------------------------------------------------------------
  // The candidate-column lookup

  /** The columns a row's user is read from, in order of preference. */
  const UserCandidates: seq<string> := ["psn", "user", "user_id", "user_name"]

  /** Column `c` exists and the row holds a non-null value there (`pd.notna(row.get(c, None))`). */
  predicate Usable(columns: seq<string>, row: map<string, Cell>, c: string) {
    c in columns && c in row && row[c] != Null
  }

  /** `str(value).strip()`. */
  function CellText(v: Cell): string {
    match v
    case Null => "None"
    case Text(s) => Strip(s)
    case Number(n) => if n < 0 then "-" + DecimalText(-n) else DecimalText(n)
    case Date(d) => d + " 00:00:00"
  }

  /**
   * The text of the first usable candidate column; none when no candidate is usable.
   */
  function FirstOf(columns: seq<string>, row: map<string, Cell>, candidates: seq<string>): (v: Option<string>)
    ensures v.Some? ==>
      exists j :: 0 <= j < |candidates| && Usable(columns, row, candidates[j])
        && v.value == CellText(row[candidates[j]])
        && forall l :: 0 <= l < j ==> !Usable(columns, row, candidates[l])
    ensures v.None? <==> forall j :: 0 <= j < |candidates| ==> !Usable(columns, row, candidates[j])
  {
    if candidates == [] then None
    else if Usable(columns, row, candidates[0]) then Some(CellText(row[candidates[0]]))
    else
      var v := FirstOf(columns, row, candidates[1..]);
      assert forall j :: 1 <= j < |candidates| ==> candidates[j] == candidates[1..][j - 1];
      v
  }

  /** The loop with `break`: the first candidate that exists and holds a value supplies the text. */
  method FirstCandidate(columns: seq<string>, row: map<string, Cell>, candidates: seq<string>) returns (v: Option<string>)
    ensures v == FirstOf(columns, row, candidates)
  {
    v := None;
    var i := 0;
    while i < |candidates|
      invariant i <= |candidates|
      invariant FirstOf(columns, row, candidates) == FirstOf(columns, row, candidates[i..])
    {
      var c := candidates[i];
      assert candidates[i..][1..] == candidates[i + 1..];
      if Usable(columns, row, c) {
        v := Some(CellText(row[c]));
        return;
      }
      i := i + 1;
    }
  }

  /**
   * The user of a row: the first of `psn`, `user`, `user_id`, `user_name` that holds a value;
   * a row without one, or with an empty one, is skipped (`if not psn_val: continue`).
   */
  method RowUser(columns: seq<string>, row: map<string, Cell>) returns (user: Option<string>)
    ensures var v := FirstOf(columns, row, UserCandidates);
      user == if v.Some? && v.value != [] then v else None
  {
    var v := FirstCandidate(columns, row, UserCandidates);
    if v.None? || v.value == [] {
      return None;
    }
    user := v;
  }

  // ---------------------------------------------------------------------------
  // compute_duration_minutes

  /** A clock time as seconds after midnight. */
  type DayTime = t: nat | t < 86400

  /**
   * The seconds from `start` to `end` on one day: zero when either is missing, negative when
   * the end is before the start, never wrapping past midnight.
   */
  function DurationSeconds(start: Option<DayTime>, end: Option<DayTime>): (r: int)
    ensures start.None? || end.None? ==> r == 0
    ensures start.Some? && end.Some? ==> start.value + r == end.value
    ensures -86400 < r < 86400
  {
    if start.None? || end.None? then 0 else end.value - start.value
  }
}
