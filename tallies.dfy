/**
 * The side tallies of `analyze_log_file`: the shortcut counts, the "sheet5" map from the
 * current image to the record numbers seen under it, and the field-update counts keyed by
 * user, date and field, together with the rows each of them becomes.
 */
module Tallies {
  import opened Wrappers
  import opened Text
  import opened Classifier
  import opened Sessions

  /**
   * The tally variables of the loop. Each dictionary is a map plus the insertion order of
   * its keys; the nested `field_updates` dictionary keeps an order of users, an order of
   * dates per user and an order of fields per user and date.
   */
  datatype TallyState = TallyState(
    image: Option<string>,
    imageRecords: map<string, set<string>>, imageOrder: seq<string>,
    shortcuts: map<string, nat>, shortcutOrder: seq<string>,
    fieldUsers: seq<string>,
    fieldDates: map<string, seq<string>>,
    fieldNames: map<(string, string), seq<string>>,
    fieldCounts: map<(string, string, string), nat>)

  const InitialTally := TallyState(None, map[], [], map[], [], [], map[], map[], map[])

  // ---------------------------------------------------------------------------
  // One line

  /** The "sheet5" block: an image update makes its record the current image; else a line ending in `of <digits>` is filed under it. */
  function Sheet5Block(st: TallyState, info: LineInfo): TallyState {
    match info.imageUpdate
    case Some(m) => st.(image := Some(m.record))
    case None =>
      if info.recordSuffix.Some? && st.image.Some? && st.image.value != [] then
        var img := st.image.value;
        var recs := if img in st.imageRecords then st.imageRecords[img] else {};
        st.(imageRecords := st.imageRecords[img := recs + {info.recordSuffix.value}],
            imageOrder := if img in st.imageRecords then st.imageOrder else st.imageOrder + [img])
      else st
  }

  function ShortcutCount(st: TallyState, k: string): nat {
    if k in st.shortcuts then st.shortcuts[k] else 0
  }

  /** The shortcut block: one more press of the named key. */
  function ShortcutBlock(st: TallyState, info: LineInfo): TallyState {
    match info.shortcut
    case Some(k) =>
      st.(shortcuts := st.shortcuts[k := ShortcutCount(st, k) + 1],
          shortcutOrder := if k in st.shortcuts then st.shortcutOrder else st.shortcutOrder + [k])
    case None => st
  }

  function DatesOf(st: TallyState, u: string): seq<string> {
    if u in st.fieldDates then st.fieldDates[u] else []
  }

  function NamesOf(st: TallyState, u: string, d: string): seq<string> {
    if (u, d) in st.fieldNames then st.fieldNames[(u, d)] else []
  }

  function FieldCount(st: TallyState, u: string, d: string, f: string): nat {
    if (u, d, f) in st.fieldCounts then st.fieldCounts[(u, d, f)] else 0
  }

  /** `field_updates[user][date][field] += 1`, creating the nested entries in order. */
  function AddField(st: TallyState, u: string, d: string, f: string): TallyState {
    var ds := DatesOf(st, u);
    var fs := NamesOf(st, u, d);
    st.(fieldUsers := if u in st.fieldDates then st.fieldUsers else st.fieldUsers + [u],
        fieldDates := st.fieldDates[u := if d in ds then ds else ds + [d]],
        fieldNames := st.fieldNames[(u, d) := if f in fs then fs else fs + [f]],
        fieldCounts := st.fieldCounts[(u, d, f) := FieldCount(st, u, d, f) + 1])
  }

  /** The field-update block, under the user and date current after the line's login block. */
  function FieldBlock(st: TallyState, info: LineInfo, user: Option<string>, date: Option<string>): TallyState {
    match info.fieldUpdate
    case Some(f) =>
      if user.Some? && user.value != [] && date.Some? && date.value != [] then AddField(st, user.value, date.value, f)
      else st
    case None => st
  }

  function TallyStep(st: TallyState, info: LineInfo, user: Option<string>, date: Option<string>): TallyState {
    FieldBlock(ShortcutBlock(Sheet5Block(st, info), info), info, user, date)
  }

  /** The tally variables after the lines below `n`. */
  function TallyScan(infos: seq<LineInfo>, n: nat): TallyState
    requires n <= |infos|
  {
    if n == 0 then InitialTally
    else TallyStep(TallyScan(infos, n - 1), infos[n - 1], UserAt(infos, n), DateAt(infos, n))
  }

  // ---------------------------------------------------------------------------
  // What the tallies count

  /** `current_image` once the lines below `n` have been read: the record of the last image update. */
  function ImageAt(infos: seq<LineInfo>, n: nat): (r: Option<string>)
    requires n <= |infos|
    ensures r.Some? ==> exists j :: 0 <= j < n && infos[j].imageUpdate.Some? && infos[j].imageUpdate.value.record == r.value
  {
    if n == 0 then None
    else if infos[n - 1].imageUpdate.Some? then Some(infos[n - 1].imageUpdate.value.record)
    else ImageAt(infos, n - 1)
  }

  /** Line `i` files its trailing record number under the current image. */
  predicate Sheet5Hit(infos: seq<LineInfo>, i: nat)
    requires i < |infos|
  {
    infos[i].imageUpdate.None? && infos[i].recordSuffix.Some? && ImageAt(infos, i).Some? && ImageAt(infos, i).value != []
  }

  /** The (image, record) pairs filed by the lines below `n`. */
  ghost function Sheet5Pairs(infos: seq<LineInfo>, n: nat): set<(string, string)>
    requires n <= |infos|
  {
    set i | 0 <= i < n && Sheet5Hit(infos, i) :: (ImageAt(infos, i).value, infos[i].recordSuffix.value)
  }

  /** The number of indices below `n` satisfying `p`. */
  ghost function CountBelow(n: nat, p: nat -> bool): nat {
    |set i: nat | i < n && p(i)|
  }

  lemma CountBelowStep(m: nat, p: nat -> bool)
    requires 0 < m
    ensures CountBelow(m, p) == CountBelow(m - 1, p) + if p(m - 1) then 1 else 0
  {
    var before := set i: nat | i < m - 1 && p(i);
    if p(m - 1) {
      assert (set i: nat | i < m && p(i)) == before + {m - 1};
    } else {
      assert (set i: nat | i < m && p(i)) == before;
    }
  }

  lemma CountBelowZero(p: nat -> bool)
    ensures CountBelow(0, p) == 0
  {
    assert (set i: nat | i < 0 && p(i)) == {};
  }

  /** The presses of shortcut `k` below `n`. */
  ghost function Presses(infos: seq<LineInfo>, n: nat, k: string): nat
    requires n <= |infos|
  {
    CountBelow(n, (i: nat) => i < |infos| && infos[i].shortcut == Some(k))
  }

  /** Line `i` updates field `f` while `u` and `d` are the current user and date. */
  predicate FieldHit(infos: seq<LineInfo>, i: nat, u: string, d: string, f: string)
    requires i < |infos|
  {
    infos[i].fieldUpdate == Some(f) && UserAt(infos, i + 1) == Some(u) && DateAt(infos, i + 1) == Some(d)
    && u != [] && d != []
  }

  ghost function FieldHits(infos: seq<LineInfo>, n: nat, u: string, d: string, f: string): nat
    requires n <= |infos|
  {
    CountBelow(n, (i: nat) => i < |infos| && FieldHit(infos, i, u, d, f))
  }

  /** The "sheet5" map lists each image once, in `order`, and files at least one record under it. */
  ghost predicate ImagesValid(order: seq<string>, m: map<string, set<string>>) {
    && Distinct(order)
    && (forall img :: img in m <==> img in order)
    && (forall img :: img in m ==> m[img] != {})
  }

  /** The shortcut map lists each key once, in `order`, with a positive count. */
  ghost predicate ShortcutsValid(order: seq<string>, m: map<string, nat>) {
    && Distinct(order)
    && (forall k :: k in m <==> k in order)
    && (forall k :: k in m ==> m[k] > 0)
  }

  ghost predicate UsersValid(users: seq<string>, dates: map<string, seq<string>>) {
    && Distinct(users)
    && (forall u :: u in dates <==> u in users)
  }

  ghost predicate DatesValid(dates: map<string, seq<string>>, names: map<(string, string), seq<string>>) {
    && (forall u :: u in dates ==> Distinct(dates[u]))
    && (forall u, d :: (u, d) in names <==> u in dates && d in dates[u])
  }

  ghost predicate NamesValid(names: map<(string, string), seq<string>>, counts: map<(string, string, string), nat>) {
    && (forall u, d :: (u, d) in names ==> Distinct(names[(u, d)]))
    && (forall u, d, f :: (u, d, f) in counts <==> (u, d) in names && f in names[(u, d)])
    && (forall u, d, f :: (u, d, f) in counts ==> counts[(u, d, f)] > 0)
  }

  /** The shape the dictionaries keep: each order lists its keys once, and every stored count is positive. */
  ghost predicate Valid(st: TallyState) {
    && ImagesValid(st.imageOrder, st.imageRecords)
    && ShortcutsValid(st.shortcutOrder, st.shortcuts)
    && UsersValid(st.fieldUsers, st.fieldDates)
    && DatesValid(st.fieldDates, st.fieldNames)
    && NamesValid(st.fieldNames, st.fieldCounts)
  }

  /** The tallies after the lines below `n` are the counts of their lines. */
  ghost predicate Counts(infos: seq<LineInfo>, n: nat, st: TallyState)
    requires n <= |infos|
  {
    && st.image == ImageAt(infos, n)
    && (forall img, rec :: (img in st.imageRecords && rec in st.imageRecords[img]) <==> (img, rec) in Sheet5Pairs(infos, n))
    && (forall k :: ShortcutCount(st, k) == Presses(infos, n, k))
    && (forall u, d, f :: FieldCount(st, u, d, f) == FieldHits(infos, n, u, d, f))
  }

  // ---------------------------------------------------------------------------
  // Step lemmas

  lemma Sheet5PairsStep(infos: seq<LineInfo>, n: nat)
    requires n < |infos|
    ensures Sheet5Pairs(infos, n + 1) == Sheet5Pairs(infos, n)
              + if Sheet5Hit(infos, n) then {(ImageAt(infos, n).value, infos[n].recordSuffix.value)} else {}
  {
    var before := Sheet5Pairs(infos, n);
    var after := Sheet5Pairs(infos, n + 1);
    if Sheet5Hit(infos, n) {
      var p := (ImageAt(infos, n).value, infos[n].recordSuffix.value);
      assert p in after;
      assert after == before + {p};
    } else {
      assert after == before;
    }
  }

  lemma PressesStep(infos: seq<LineInfo>, m: nat, k: string)
    requires 0 < m <= |infos|
    ensures Presses(infos, m, k) == Presses(infos, m - 1, k) + if infos[m - 1].shortcut == Some(k) then 1 else 0
  {
    CountBelowStep(m, (i: nat) => i < |infos| && infos[i].shortcut == Some(k));
  }

  lemma FieldHitsStep(infos: seq<LineInfo>, m: nat, u: string, d: string, f: string)
    requires 0 < m <= |infos|
    ensures FieldHits(infos, m, u, d, f) == FieldHits(infos, m - 1, u, d, f) + if FieldHit(infos, m - 1, u, d, f) then 1 else 0
  {
    CountBelowStep(m, (i: nat) => i < |infos| && FieldHit(infos, i, u, d, f));
  }

  lemma Sheet5BlockValid(st: TallyState, info: LineInfo)
    requires ImagesValid(st.imageOrder, st.imageRecords)
    ensures var st' := Sheet5Block(st, info);
            && ImagesValid(st'.imageOrder, st'.imageRecords)
            && st'.shortcuts == st.shortcuts && st'.shortcutOrder == st.shortcutOrder
            && st'.fieldUsers == st.fieldUsers && st'.fieldDates == st.fieldDates
            && st'.fieldNames == st.fieldNames && st'.fieldCounts == st.fieldCounts
  {
    if info.imageUpdate.None? && info.recordSuffix.Some? && st.image.Some? && st.image.value != []
       && st.image.value !in st.imageRecords {
      DistinctSnoc(st.imageOrder, st.image.value);
    }
  }

  lemma ShortcutBlockValid(st: TallyState, info: LineInfo)
    requires ShortcutsValid(st.shortcutOrder, st.shortcuts)
    ensures var st' := ShortcutBlock(st, info);
            && ShortcutsValid(st'.shortcutOrder, st'.shortcuts)
            && st'.imageRecords == st.imageRecords && st'.imageOrder == st.imageOrder
            && st'.fieldUsers == st.fieldUsers && st'.fieldDates == st.fieldDates
            && st'.fieldNames == st.fieldNames && st'.fieldCounts == st.fieldCounts
  {
    if info.shortcut.Some? && info.shortcut.value !in st.shortcuts {
      DistinctSnoc(st.shortcutOrder, info.shortcut.value);
    }
  }

  lemma AddFieldUsers(st: TallyState, u: string, d: string, f: string)
    requires UsersValid(st.fieldUsers, st.fieldDates)
    ensures UsersValid(AddField(st, u, d, f).fieldUsers, AddField(st, u, d, f).fieldDates)
  {
    if u !in st.fieldDates {
      DistinctSnoc(st.fieldUsers, u);
    }
  }

  lemma AddFieldDates(st: TallyState, u: string, d: string, f: string)
    requires DatesValid(st.fieldDates, st.fieldNames)
    ensures DatesValid(AddField(st, u, d, f).fieldDates, AddField(st, u, d, f).fieldNames)
  {
    var ds := DatesOf(st, u);
    if d !in ds {
      DistinctSnoc(ds, d);
    }
  }

  lemma AddFieldNames(st: TallyState, u: string, d: string, f: string)
    requires NamesValid(st.fieldNames, st.fieldCounts)
    ensures NamesValid(AddField(st, u, d, f).fieldNames, AddField(st, u, d, f).fieldCounts)
  {
    var fs := NamesOf(st, u, d);
    if f !in fs {
      DistinctSnoc(fs, f);
    }
  }

  lemma FieldBlockValid(st: TallyState, info: LineInfo, user: Option<string>, date: Option<string>)
    requires UsersValid(st.fieldUsers, st.fieldDates)
    requires DatesValid(st.fieldDates, st.fieldNames)
    requires NamesValid(st.fieldNames, st.fieldCounts)
    ensures var st' := FieldBlock(st, info, user, date);
            && UsersValid(st'.fieldUsers, st'.fieldDates)
            && DatesValid(st'.fieldDates, st'.fieldNames)
            && NamesValid(st'.fieldNames, st'.fieldCounts)
            && st'.imageRecords == st.imageRecords && st'.imageOrder == st.imageOrder
            && st'.shortcuts == st.shortcuts && st'.shortcutOrder == st.shortcutOrder
  {
    if info.fieldUpdate.Some? && user.Some? && user.value != [] && date.Some? && date.value != [] {
      var u, d, f := user.value, date.value, info.fieldUpdate.value;
      AddFieldUsers(st, u, d, f);
      AddFieldDates(st, u, d, f);
      AddFieldNames(st, u, d, f);
    }
  }

  lemma TallyStepValid(st: TallyState, info: LineInfo, user: Option<string>, date: Option<string>)
    requires Valid(st)
    ensures Valid(TallyStep(st, info, user, date))
  {
    Sheet5BlockValid(st, info);
    var st1 := Sheet5Block(st, info);
    ShortcutBlockValid(st1, info);
    FieldBlockValid(ShortcutBlock(st1, info), info, user, date);
  }

  lemma {:induction false} TallyScanValid(infos: seq<LineInfo>, n: nat)
    requires n <= |infos|
    ensures Valid(TallyScan(infos, n))
  {
    if n > 0 {
      TallyScanValid(infos, n - 1);
      TallyStepValid(TallyScan(infos, n - 1), infos[n - 1], UserAt(infos, n), DateAt(infos, n));
    }
  }

  /** Filing `rec` under `img` adds exactly the pair `(img, rec)` to what a map of record sets holds. */
  lemma FileRecord(m: map<string, set<string>>, pairs: set<(string, string)>, img: string, rec: string)
    requires forall a, b :: (a in m && b in m[a]) <==> (a, b) in pairs
    ensures var m' := m[img := (if img in m then m[img] else {}) + {rec}];
            forall a, b :: (a in m' && b in m'[a]) <==> (a, b) in pairs + {(img, rec)}
  {
    var m' := m[img := (if img in m then m[img] else {}) + {rec}];
    forall a, b
      ensures (a in m' && b in m'[a]) <==> (a, b) in pairs + {(img, rec)}
    {
      if a == img {
        assert (a in m && b in m[a]) <==> (a, b) in pairs;
      } else {
        assert (a in m' && b in m'[a]) <==> (a in m && b in m[a]);
      }
    }
  }

  /** The "sheet5" block files the line's record under the current image, and no other pair. */
  lemma Sheet5BlockRecords(st: TallyState, info: LineInfo, pairs: set<(string, string)>)
    requires forall a, b :: (a in st.imageRecords && b in st.imageRecords[a]) <==> (a, b) in pairs
    ensures var m' := Sheet5Block(st, info).imageRecords;
            var hit := info.imageUpdate.None? && info.recordSuffix.Some? && st.image.Some? && st.image.value != [];
            forall a, b :: (a in m' && b in m'[a]) <==> (a, b) in pairs + if hit then {(st.image.value, info.recordSuffix.value)} else {}
  {
    if info.imageUpdate.None? && info.recordSuffix.Some? && st.image.Some? && st.image.value != [] {
      FileRecord(st.imageRecords, pairs, st.image.value, info.recordSuffix.value);
    }
  }

  lemma Sheet5Counts(infos: seq<LineInfo>, m: nat, st: TallyState)
    requires 0 < m <= |infos|
    requires st.image == ImageAt(infos, m - 1)
    requires forall img, rec :: (img in st.imageRecords && rec in st.imageRecords[img]) <==> (img, rec) in Sheet5Pairs(infos, m - 1)
    ensures var st' := Sheet5Block(st, infos[m - 1]);
            && st'.image == ImageAt(infos, m)
            && forall img, rec :: (img in st'.imageRecords && rec in st'.imageRecords[img]) <==> (img, rec) in Sheet5Pairs(infos, m)
  {
    var n := m - 1;
    Sheet5PairsStep(infos, n);
    Sheet5BlockRecords(st, infos[n], Sheet5Pairs(infos, n));
  }

  lemma ShortcutCounts(infos: seq<LineInfo>, m: nat, st: TallyState)
    requires 0 < m <= |infos| && (forall k :: ShortcutCount(st, k) == Presses(infos, m - 1, k))
    ensures forall k :: ShortcutCount(ShortcutBlock(st, infos[m - 1]), k) == Presses(infos, m, k)
  {
    forall k ensures ShortcutCount(ShortcutBlock(st, infos[m - 1]), k) == Presses(infos, m, k) {
      PressesStep(infos, m, k);
      assert ShortcutCount(st, k) == Presses(infos, m - 1, k);
    }
  }

  lemma FieldCounts(infos: seq<LineInfo>, m: nat, st: TallyState)
    requires 0 < m <= |infos| && (forall u, d, f :: FieldCount(st, u, d, f) == FieldHits(infos, m - 1, u, d, f))
    ensures var st' := FieldBlock(st, infos[m - 1], UserAt(infos, m), DateAt(infos, m));
            forall u, d, f :: FieldCount(st', u, d, f) == FieldHits(infos, m, u, d, f)
  {
    var st' := FieldBlock(st, infos[m - 1], UserAt(infos, m), DateAt(infos, m));
    forall u, d, f
      ensures FieldCount(st', u, d, f) == FieldHits(infos, m, u, d, f)
    {
      FieldHitsStep(infos, m, u, d, f);
      assert FieldCount(st, u, d, f) == FieldHits(infos, m - 1, u, d, f);
    }
  }

  lemma {:induction false} TallyScanImages(infos: seq<LineInfo>, n: nat)
    requires n <= |infos|
    ensures TallyScan(infos, n).image == ImageAt(infos, n)
    ensures forall img, rec :: (img in TallyScan(infos, n).imageRecords && rec in TallyScan(infos, n).imageRecords[img])
                               <==> (img, rec) in Sheet5Pairs(infos, n)
  {
    if n > 0 {
      TallyScanImages(infos, n - 1);
      var st := TallyScan(infos, n - 1);
      Sheet5Counts(infos, n, st);
      TallyStepImages(st, infos[n - 1], UserAt(infos, n), DateAt(infos, n));
    }
  }

  /** Only the "sheet5" block of a step touches the current image and the image map. */
  lemma TallyStepImages(st: TallyState, info: LineInfo, user: Option<string>, date: Option<string>)
    ensures TallyStep(st, info, user, date).image == Sheet5Block(st, info).image
    ensures TallyStep(st, info, user, date).imageRecords == Sheet5Block(st, info).imageRecords
  {
    var st1 := Sheet5Block(st, info);
    var st2 := ShortcutBlock(st1, info);
    assert st2.image == st1.image && st2.imageRecords == st1.imageRecords;
    var st3 := FieldBlock(st2, info, user, date);
    assert st3.image == st2.image && st3.imageRecords == st2.imageRecords;
  }

  lemma {:induction false} TallyScanShortcuts(infos: seq<LineInfo>, n: nat)
    requires n <= |infos|
    ensures forall k :: ShortcutCount(TallyScan(infos, n), k) == Presses(infos, n, k)
  {
    if n == 0 {
      forall k ensures ShortcutCount(InitialTally, k) == Presses(infos, 0, k) {
        CountBelowZero((i: nat) => i < |infos| && infos[i].shortcut == Some(k));
      }
    } else {
      TallyScanShortcuts(infos, n - 1);
      var st := TallyScan(infos, n - 1);
      var st1 := Sheet5Block(st, infos[n - 1]);
      assert st1.shortcuts == st.shortcuts;
      ShortcutCounts(infos, n, st1);
      var st2 := ShortcutBlock(st1, infos[n - 1]);
      assert TallyScan(infos, n).shortcuts == st2.shortcuts;
    }
  }

  lemma {:induction false} TallyScanFields(infos: seq<LineInfo>, n: nat)
    requires n <= |infos|
    ensures forall u, d, f :: FieldCount(TallyScan(infos, n), u, d, f) == FieldHits(infos, n, u, d, f)
  {
    if n == 0 {
      forall u, d, f ensures FieldCount(InitialTally, u, d, f) == FieldHits(infos, 0, u, d, f) {
        CountBelowZero((i: nat) => i < |infos| && FieldHit(infos, i, u, d, f));
      }
    } else {
      TallyScanFields(infos, n - 1);
      var st := TallyScan(infos, n - 1);
      var st2 := ShortcutBlock(Sheet5Block(st, infos[n - 1]), infos[n - 1]);
      assert st2.fieldCounts == st.fieldCounts;
      FieldCounts(infos, n, st2);
    }
  }

  /**
   * After every line, `shortcuts[k]` is the number of lines pressing `k`, `field_updates[u][d][f]`
   * the number of lines updating `f` while `u` and `d` are current, and `image_record_map`
   * holds exactly the pairs of a current image and a trailing record number of a later line.
   */
  lemma TallyScanCounts(infos: seq<LineInfo>, n: nat)
    requires n <= |infos|
    ensures Valid(TallyScan(infos, n)) && Counts(infos, n, TallyScan(infos, n))
  {
    TallyScanValid(infos, n);
    TallyScanImages(infos, n);
    TallyScanShortcuts(infos, n);
    TallyScanFields(infos, n);
  }

  // ---------------------------------------------------------------------------
  // Output rows

  /** A row of the shortcut sheet, under the user and date current at the end of the file. */
  datatype ShortcutRow = ShortcutRow(user: Option<string>, date: Option<string>, name: string, count: nat, logFile: string)

  /** A row of the image-record sheet: an image and its number of distinct records. */
  datatype ImageRecordRow = ImageRecordRow(user: Option<string>, date: Option<string>, image: string, records: nat, logFile: string)

  /** A row of the field-update sheet. */
  datatype FieldRow = FieldRow(user: string, date: string, field: string, count: nat, logFile: string)

  function ShortcutRows(st: TallyState, user: Option<string>, date: Option<string>, logFile: string): (r: seq<ShortcutRow>)
    ensures |r| == |st.shortcutOrder|
  {
    seq(|st.shortcutOrder|, j requires 0 <= j < |st.shortcutOrder| =>
      ShortcutRow(user, date, st.shortcutOrder[j], ShortcutCount(st, st.shortcutOrder[j]), logFile))
  }

  function ImageRecordRows(st: TallyState, user: Option<string>, date: Option<string>, logFile: string): (r: seq<ImageRecordRow>)
    ensures |r| == |st.imageOrder|
  {
    seq(|st.imageOrder|, j requires 0 <= j < |st.imageOrder| =>
      var img := st.imageOrder[j];
      ImageRecordRow(user, date, img, if img in st.imageRecords then |st.imageRecords[img]| else 0, logFile))
  }

  /** Each image-record row counts the records of its own image; each image with records has exactly one row. */
  lemma ImageRecordRowsMeaning(st: TallyState, user: Option<string>, date: Option<string>, logFile: string)
    requires ImagesValid(st.imageOrder, st.imageRecords)
    ensures var rows := ImageRecordRows(st, user, date, logFile);
            && (forall k :: 0 <= k < |rows| ==>
                  rows[k].image in st.imageRecords && rows[k].records == |st.imageRecords[rows[k].image]| > 0)
            && (forall k, l :: 0 <= k < l < |rows| ==> rows[k].image != rows[l].image)
            && (forall img :: img in st.imageRecords ==> exists k :: 0 <= k < |rows| && rows[k].image == img)
  {
    var rows := ImageRecordRows(st, user, date, logFile);
    forall img | img in st.imageRecords
      ensures exists k :: 0 <= k < |rows| && rows[k].image == img
    {
      var k :| 0 <= k < |st.imageOrder| && st.imageOrder[k] == img;
      assert rows[k].image == img;
    }
  }

  /** The rows of one user and date, in the order the fields were first updated. */
  function NamesRows(st: TallyState, logFile: string, u: string, d: string): (r: seq<FieldRow>)
    ensures |r| == |NamesOf(st, u, d)|
  {
    var fs := NamesOf(st, u, d);
    seq(|fs|, j requires 0 <= j < |fs| => FieldRow(u, d, fs[j], FieldCount(st, u, d, fs[j]), logFile))
  }

  /** The rows of the first `b` dates of user `u`. */
  function DatesRows(st: TallyState, logFile: string, u: string, b: nat): seq<FieldRow>
    requires b <= |DatesOf(st, u)|
  {
    if b == 0 then []
    else DatesRows(st, logFile, u, b - 1) + NamesRows(st, logFile, u, DatesOf(st, u)[b - 1])
  }

  /** The rows of the first `a` users, nested by date and field as `field_updates` is. */
  function FieldRows(st: TallyState, logFile: string, a: nat): seq<FieldRow>
    requires a <= |st.fieldUsers|
  {
    if a == 0 then []
    else
      var u := st.fieldUsers[a - 1];
      FieldRows(st, logFile, a - 1) + DatesRows(st, logFile, u, |DatesOf(st, u)|)
  }

  /** A row that names a stored user, one of its dates and a field updated then, and carries that field's count. */
  predicate StoredRow(st: TallyState, row: FieldRow) {
    row.date in DatesOf(st, row.user) && row.field in NamesOf(st, row.user, row.date)
    && row.count == FieldCount(st, row.user, row.date, row.field)
  }

  /** Each row of user `u` carries one of its first `b` dates, a field updated then, and that field's count. */
  lemma {:induction false} DatesRowsSound(st: TallyState, logFile: string, u: string, b: nat)
    requires b <= |DatesOf(st, u)|
    ensures forall j :: 0 <= j < |DatesRows(st, logFile, u, b)| ==>
      DatesRows(st, logFile, u, b)[j].user == u && DatesRows(st, logFile, u, b)[j].date in DatesOf(st, u)[..b]
      && StoredRow(st, DatesRows(st, logFile, u, b)[j])
  {
    if b > 0 {
      DatesRowsSound(st, logFile, u, b - 1);
      var prev, d := DatesRows(st, logFile, u, b - 1), DatesOf(st, u)[b - 1];
      var rows := NamesRows(st, logFile, u, d);
      var r := DatesRows(st, logFile, u, b);
      assert r == prev + rows;
      assert DatesOf(st, u)[..b] == DatesOf(st, u)[..b - 1] + [d];
      forall j | 0 <= j < |r|
        ensures r[j].user == u && r[j].date in DatesOf(st, u)[..b] && StoredRow(st, r[j])
      {
        if j < |prev| {
          assert r[j] == prev[j];
        } else {
          var i := j - |prev|;
          var fs := NamesOf(st, u, d);
          assert r[j] == rows[i] == FieldRow(u, d, fs[i], FieldCount(st, u, d, fs[i]), logFile);
          assert fs[i] in fs;
          assert DatesOf(st, u)[..b][b - 1] == d;
          assert d in DatesOf(st, u);
        }
      }
    }
  }

  /** Each field row names one of the first `a` stored users, one of its dates and a field updated then, with its count. */
  lemma {:induction false} FieldRowsSound(st: TallyState, logFile: string, a: nat)
    requires a <= |st.fieldUsers|
    ensures forall j :: 0 <= j < |FieldRows(st, logFile, a)| ==>
      FieldRows(st, logFile, a)[j].user in st.fieldUsers[..a] && StoredRow(st, FieldRows(st, logFile, a)[j])
  {
    if a > 0 {
      FieldRowsSound(st, logFile, a - 1);
      var u := st.fieldUsers[a - 1];
      var ds := DatesOf(st, u);
      DatesRowsSound(st, logFile, u, |ds|);
      var prev, rows := FieldRows(st, logFile, a - 1), DatesRows(st, logFile, u, |ds|);
      var r := FieldRows(st, logFile, a);
      assert r == prev + rows;
      assert st.fieldUsers[..a] == st.fieldUsers[..a - 1] + [u];
      forall j | 0 <= j < |r|
        ensures r[j].user in st.fieldUsers[..a] && StoredRow(st, r[j])
      {
        if j < |prev| {
          assert r[j] == prev[j];
        } else {
          assert r[j] == rows[j - |prev|];
        }
      }
    }
  }

  lemma {:induction false} DatesRowsHas(st: TallyState, logFile: string, u: string, b: nat, k: nat, f: string)
    requires k < b <= |DatesOf(st, u)| && f in NamesOf(st, u, DatesOf(st, u)[k])
    ensures var d := DatesOf(st, u)[k]; FieldRow(u, d, f, FieldCount(st, u, d, f), logFile) in DatesRows(st, logFile, u, b)
  {
    var d := DatesOf(st, u)[k];
    var row := FieldRow(u, d, f, FieldCount(st, u, d, f), logFile);
    var prev, rows := DatesRows(st, logFile, u, b - 1), NamesRows(st, logFile, u, DatesOf(st, u)[b - 1]);
    assert DatesRows(st, logFile, u, b) == prev + rows;
    if k < b - 1 {
      DatesRowsHas(st, logFile, u, b - 1, k, f);
      assert row in prev;
    } else {
      var fs := NamesOf(st, u, d);
      var i :| 0 <= i < |fs| && fs[i] == f;
      assert rows[i] == row;
    }
  }

  lemma {:induction false} FieldRowsHas(st: TallyState, logFile: string, a: nat, k: nat, d: string, f: string)
    requires k < a <= |st.fieldUsers|
    requires d in DatesOf(st, st.fieldUsers[k]) && f in NamesOf(st, st.fieldUsers[k], d)
    ensures var u := st.fieldUsers[k]; FieldRow(u, d, f, FieldCount(st, u, d, f), logFile) in FieldRows(st, logFile, a)
  {
    var u := st.fieldUsers[k];
    var row := FieldRow(u, d, f, FieldCount(st, u, d, f), logFile);
    var last := st.fieldUsers[a - 1];
    var prev, rows := FieldRows(st, logFile, a - 1), DatesRows(st, logFile, last, |DatesOf(st, last)|);
    assert FieldRows(st, logFile, a) == prev + rows;
    if k < a - 1 {
      FieldRowsHas(st, logFile, a - 1, k, d, f);
      assert row in prev;
    } else {
      var ds := DatesOf(st, u);
      var i :| 0 <= i < |ds| && ds[i] == d;
      DatesRowsHas(st, logFile, u, |ds|, i, f);
      assert row in rows;
    }
  }

  /** Every stored count has its row. */
  lemma FieldRowsComplete(st: TallyState, logFile: string, u: string, d: string, f: string)
    requires Valid(st) && (u, d, f) in st.fieldCounts
    ensures FieldRow(u, d, f, FieldCount(st, u, d, f), logFile) in FieldRows(st, logFile, |st.fieldUsers|)
  {
    assert (u, d) in st.fieldNames;
    var k :| 0 <= k < |st.fieldUsers| && st.fieldUsers[k] == u;
    FieldRowsHas(st, logFile, |st.fieldUsers|, k, d, f);
  }

  method BuildShortcutRows(st: TallyState, user: Option<string>, date: Option<string>, logFile: string)
    returns (rows: seq<ShortcutRow>)
    ensures rows == ShortcutRows(st, user, date, logFile)
  {
    rows := [];
    var k := 0;
    while k < |st.shortcutOrder|
      invariant k <= |st.shortcutOrder|
      invariant |rows| == k
      invariant forall j :: 0 <= j < k ==> rows[j] == ShortcutRows(st, user, date, logFile)[j]
    {
      var name := st.shortcutOrder[k];
      rows := rows + [ShortcutRow(user, date, name, ShortcutCount(st, name), logFile)];
      k := k + 1;
    }
  }

  method BuildImageRecordRows(st: TallyState, user: Option<string>, date: Option<string>, logFile: string)
    returns (rows: seq<ImageRecordRow>)
    ensures rows == ImageRecordRows(st, user, date, logFile)
  {
    rows := [];
    var k := 0;
    while k < |st.imageOrder|
      invariant k <= |st.imageOrder|
      invariant |rows| == k
      invariant forall j :: 0 <= j < k ==> rows[j] == ImageRecordRows(st, user, date, logFile)[j]
    {
      var img := st.imageOrder[k];
      var count := if img in st.imageRecords then |st.imageRecords[img]| else 0;
      rows := rows + [ImageRecordRow(user, date, img, count, logFile)];
      k := k + 1;
    }
  }

  /** The innermost of the three loops: the rows of user `u` and date `d`, appended to `rows0`. */
  method AppendNameRows(st: TallyState, logFile: string, u: string, d: string, rows0: seq<FieldRow>)
    returns (rows: seq<FieldRow>)
    ensures rows == rows0 + NamesRows(st, logFile, u, d)
  {
    var fs := NamesOf(st, u, d);
    rows := rows0;
    var c := 0;
    while c < |fs|
      invariant c <= |fs|
      invariant rows == rows0 + NamesRows(st, logFile, u, d)[..c]
    {
      rows := rows + [FieldRow(u, d, fs[c], FieldCount(st, u, d, fs[c]), logFile)];
      assert NamesRows(st, logFile, u, d)[..c + 1] == NamesRows(st, logFile, u, d)[..c] + [NamesRows(st, logFile, u, d)[c]];
      c := c + 1;
    }
    assert NamesRows(st, logFile, u, d)[..c] == NamesRows(st, logFile, u, d);
  }

  /** The three nested loops over `field_updates`. */
  method BuildFieldRows(st: TallyState, logFile: string) returns (rows: seq<FieldRow>)
    ensures rows == FieldRows(st, logFile, |st.fieldUsers|)
  {
    rows := [];
    var a := 0;
    while a < |st.fieldUsers|
      invariant a <= |st.fieldUsers|
      invariant rows == FieldRows(st, logFile, a)
    {
      var u := st.fieldUsers[a];
      var ds := DatesOf(st, u);
      var b := 0;
      while b < |ds|
        invariant b <= |ds|
        invariant rows == FieldRows(st, logFile, a) + DatesRows(st, logFile, u, b)
      {
        rows := AppendNameRows(st, logFile, u, ds[b], rows);
        b := b + 1;
      }
      a := a + 1;
    }
  }
}
