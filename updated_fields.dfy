/**
 * `collect_updated_fields_snippet`: within each file the current user and date start as
 * "Unknown" and follow the login lines; every line with a stand-alone `UPDATED <field>`
 * yields one row naming the field with the current user and date and a count of one.
 */
module UpdatedFields {
  import opened Wrappers
  import opened Classifier
  import opened FileNames

  /** What the loop sees of one line: the login it reports and the field it updates. */
  datatype FieldTag = FieldTag(login: Option<UserDate>, field: Option<string>)

  function TagOf(line: string): FieldTag {
    FieldTag(SnippetLoginMatch(line), SnippetUpdateMatch(line))
  }

  function Tags(lines: seq<string>): (r: seq<FieldTag>)
    ensures |r| == |lines|
  {
    seq(|lines|, i requires 0 <= i < |lines| => TagOf(lines[i]))
  }

  datatype FieldRow = FieldRow(user: string, date: string, field: string, count: nat)

  /** The user and date in force once the lines below `n` have been read. */
  function Current(tags: seq<FieldTag>, n: nat): UserDate
    requires n <= |tags|
  {
    if n == 0 then UserDate(Unknown, Unknown)
    else if tags[n - 1].login.Some? then tags[n - 1].login.value
    else Current(tags, n - 1)
  }

  /**
   * The user and date in force are those of the last login line read, or "Unknown" for
   * both when no login line has been read.
   */
  lemma {:induction false} CurrentMeaning(tags: seq<FieldTag>, n: nat)
    requires n <= |tags|
    ensures (forall j :: 0 <= j < n ==> tags[j].login.None?) ==> Current(tags, n) == UserDate(Unknown, Unknown)
    ensures forall j :: 0 <= j < n && tags[j].login.Some? && (forall l :: j < l < n ==> tags[l].login.None?) ==>
      Current(tags, n) == tags[j].login.value
  {
    if n > 0 {
      CurrentMeaning(tags, n - 1);
      if tags[n - 1].login.None? {
        forall j | 0 <= j < n && tags[j].login.Some? && (forall l :: j < l < n ==> tags[l].login.None?)
          ensures Current(tags, n) == tags[j].login.value
        {
          assert j < n - 1;
          assert forall l :: j < l < n - 1 ==> tags[l].login.None?;
        }
      }
    }
  }

  /** The row of line `i`: a login on the same line is read before its update. */
  function RowAt(tags: seq<FieldTag>, i: nat): FieldRow
    requires i < |tags| && tags[i].field.Some?
  {
    var ud := Current(tags, i + 1);
    FieldRow(ud.user, ud.date, tags[i].field.value, 1)
  }

  /** The lines below `n` that update a field, in file order. */
  function UpdateLines(tags: seq<FieldTag>, n: nat): (r: seq<nat>)
    requires n <= |tags|
    ensures forall k :: 0 <= k < |r| ==> r[k] < n && tags[r[k]].field.Some?
    ensures forall k, l :: 0 <= k < l < |r| ==> r[k] < r[l]
    ensures forall i :: 0 <= i < n && tags[i].field.Some? ==> i in r
  {
    if n == 0 then []
    else UpdateLines(tags, n - 1) + if tags[n - 1].field.Some? then [n - 1] else []
  }

  /** The rows of the updating lines below `n`. */
  function RowsBelow(tags: seq<FieldTag>, n: nat): seq<FieldRow>
    requires n <= |tags|
  {
    var ls := UpdateLines(tags, n);
    seq(|ls|, k requires 0 <= k < |ls| => RowAt(tags, ls[k]))
  }

  /**
   * One row per updating line below `n`, in file order: each counts one update of the
   * field its line names, under the user and date in force on that line.
   */
  lemma RowsBelowMeaning(tags: seq<FieldTag>, n: nat)
    requires n <= |tags|
    ensures |RowsBelow(tags, n)| == |UpdateLines(tags, n)|
    ensures forall k :: 0 <= k < |RowsBelow(tags, n)| ==> RowsBelow(tags, n)[k].count == 1
    ensures forall k :: 0 <= k < |RowsBelow(tags, n)| ==>
      && RowsBelow(tags, n)[k].field == tags[UpdateLines(tags, n)[k]].field.value
      && UserDate(RowsBelow(tags, n)[k].user, RowsBelow(tags, n)[k].date) == Current(tags, UpdateLines(tags, n)[k] + 1)
  {
  }

  /** Reading one more line adds its row, if it updates a field. */
  lemma RowsBelowStep(tags: seq<FieldTag>, n: nat)
    requires n < |tags|
    ensures RowsBelow(tags, n + 1) == RowsBelow(tags, n) + if tags[n].field.Some? then [RowAt(tags, n)] else []
  {
    var ls := UpdateLines(tags, n);
    assert UpdateLines(tags, n + 1) == ls + if tags[n].field.Some? then [n] else [];
  }

  /** The scan of one file. */
  method FileRows(lines: seq<string>) returns (rows: seq<FieldRow>)
    ensures rows == RowsBelow(Tags(lines), |lines|)
  {
    rows := RowsOf(Tags(lines));
  }

  /** The per-line loop over the tagged lines of one file. */
  method RowsOf(tags: seq<FieldTag>) returns (rows: seq<FieldRow>)
    ensures rows == RowsBelow(tags, |tags|)
  {
    var user, date := Unknown, Unknown;
    rows := [];
    var i := 0;
    while i < |tags|
      invariant i <= |tags|
      invariant UserDate(user, date) == Current(tags, i)
      invariant rows == RowsBelow(tags, i)
    {
      var t := tags[i];
      if t.login.Some? {
        user, date := t.login.value.user, t.login.value.date;
      }
      RowsBelowStep(tags, i);
      if t.field.Some? {
        assert FieldRow(user, date, t.field.value, 1) == RowAt(tags, i);
        rows := rows + [FieldRow(user, date, t.field.value, 1)];
      }
      i := i + 1;
    }
  }

  /** The rows of the first `n` files, one after another. */
  function AllRows(files: seq<seq<string>>, n: nat): (r: seq<FieldRow>)
    requires n <= |files|
  {
    if n == 0 then [] else AllRows(files, n - 1) + RowsBelow(Tags(files[n - 1]), |files[n - 1]|)
  }

  /** The rows of a file are a contiguous run of the collected rows, after the earlier files' rows. */
  lemma {:induction false} AllRowsPrefix(files: seq<seq<string>>, m: nat, n: nat)
    requires m <= n <= |files|
    ensures |AllRows(files, m)| <= |AllRows(files, n)| && AllRows(files, n)[..|AllRows(files, m)|] == AllRows(files, m)
    decreases n
  {
    if m < n {
      AllRowsPrefix(files, m, n - 1);
      var a := AllRows(files, n - 1);
      assert AllRows(files, n)[..|a|] == a;
    }
  }

  /** Every collected row counts one update. */
  lemma {:induction false} AllRowsCountOne(files: seq<seq<string>>, n: nat)
    requires n <= |files|
    ensures forall k :: 0 <= k < |AllRows(files, n)| ==> AllRows(files, n)[k].count == 1
  {
    if n > 0 {
      AllRowsCountOne(files, n - 1);
      RowsBelowMeaning(Tags(files[n - 1]), |files[n - 1]|);
    }
  }

  /**
   * `collect_updated_fields_snippet` over the contents of a folder's `.log` files; no file,
   * or no update, gives no rows.
   */
  method CollectUpdatedFields(files: seq<seq<string>>) returns (rows: seq<FieldRow>)
    ensures rows == AllRows(files, |files|)
  {
    rows := [];
    var n := 0;
    while n < |files|
      invariant n <= |files|
      invariant rows == AllRows(files, n)
    {
      var r := FileRows(files[n]);
      rows := rows + r;
      n := n + 1;
    }
  }
}
