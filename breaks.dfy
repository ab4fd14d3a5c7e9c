/**
 * `calculate_break_times`: the sessions that have an end time are grouped by user in the
 * order users are first seen, each group is sorted by start time (stably, as Python's sort
 * is), and sorted-adjacent sessions of one user on one date that leave a positive gap
 * between the first one's end and the next one's start form a break.
 */
module Breaks {
  import opened Wrappers
  import opened Text
  import opened Timestamps
  import opened Sessions

  /**
   * One break row. `Starting` and `Ending` are kept as times of day and the break as seconds;
   * the row's `HH:MM:SS` texts are `FormatDuration` of them.
   */
  datatype Break = Break(
    user: string, date: string, starting: nat, ending: nat,
    seconds: nat, logFile: string)

  /** `session["start_time"] and session["end_time"]`: a start is always present, so only the end decides. */
  predicate Eligible(s: Session) { s.end.Some? }

  // ---------------------------------------------------------------------------
  // Grouping by user

  /** The users of the eligible sessions below `n`, in the order they are first seen. */
  function UsersBelow(all: seq<Session>, n: nat): (r: seq<string>)
    requires n <= |all|
    ensures Distinct(r)
  {
    if n == 0 then []
    else
      var r := UsersBelow(all, n - 1);
      var s := all[n - 1];
      if Eligible(s) && s.user !in r then
        DistinctSnoc(r, s.user);
        r + [s.user]
      else r
  }

  /** `user_sessions[u]` once the sessions below `n` are grouped: the eligible sessions of `u`, in input order. */
  function GroupBelow(all: seq<Session>, n: nat, u: string): (r: seq<Session>)
    requires n <= |all|
    ensures |r| <= n
    ensures forall k :: 0 <= k < |r| ==> Eligible(r[k]) && r[k].user == u
  {
    if n == 0 then []
    else
      var r := GroupBelow(all, n - 1, u);
      if Eligible(all[n - 1]) && all[n - 1].user == u then r + [all[n - 1]] else r
  }

  /** A user is listed, and has a non-empty group, exactly when one of its sessions is eligible. */
  lemma {:induction false} UsersAndGroups(all: seq<Session>, n: nat, u: string)
    requires n <= |all|
    ensures u in UsersBelow(all, n) <==> exists i :: 0 <= i < n && Eligible(all[i]) && all[i].user == u
    ensures GroupBelow(all, n, u) != [] <==> u in UsersBelow(all, n)
  {
    if n > 0 {
      UsersAndGroups(all, n - 1, u);
    }
  }

  // ---------------------------------------------------------------------------
  // The stable sort by start time

  predicate SortedByStart(s: seq<Session>) {
    forall k, l :: 0 <= k < l < |s| ==> s[k].start <= s[l].start
  }

  /** Inserts `x` after every session that starts no later than it. */
  function Insert(s: seq<Session>, x: Session): (r: seq<Session>)
    ensures |r| == |s| + 1
  {
    if s == [] then [x]
    else if x.start < s[0].start then [x] + s
    else [s[0]] + Insert(s[1..], x)
  }

  /** `sessions.sort(key=lambda x: x["start_time"])`: each session, taken in order, is inserted after its equals. */
  function SortByStart(s: seq<Session>): (r: seq<Session>)
    ensures |r| == |s|
  {
    if s == [] then [] else Insert(SortByStart(s[..|s| - 1]), s[|s| - 1])
  }

  /** Insertion adds `x` and keeps every session of `s`. */
  lemma {:induction false} InsertPermutes(s: seq<Session>, x: Session)
    ensures multiset(Insert(s, x)) == multiset(s) + multiset{x}
  {
    if s != [] && x.start >= s[0].start {
      InsertPermutes(s[1..], x);
      assert s == [s[0]] + s[1..];
    }
  }

  /** A lower bound on the starts of `s` and of `x` bounds the starts after insertion. */
  lemma {:induction false} InsertBound(s: seq<Session>, x: Session, b: int)
    requires x.start >= b && forall k :: 0 <= k < |s| ==> s[k].start >= b
    ensures forall k :: 0 <= k < |Insert(s, x)| ==> Insert(s, x)[k].start >= b
  {
    if s != [] && x.start >= s[0].start {
      InsertBound(s[1..], x, b);
      var r := Insert(s[1..], x);
      assert Insert(s, x) == [s[0]] + r;
      assert forall k :: 1 <= k < |r| + 1 ==> Insert(s, x)[k] == r[k - 1];
    }
  }

  lemma {:induction false} InsertSorted(s: seq<Session>, x: Session)
    requires SortedByStart(s)
    ensures SortedByStart(Insert(s, x))
  {
    if s != [] && x.start >= s[0].start {
      var rest := s[1..];
      assert SortedByStart(rest);
      InsertSorted(rest, x);
      InsertBound(rest, x, s[0].start);
      var r := Insert(rest, x);
      assert Insert(s, x) == [s[0]] + r;
      assert forall k :: 1 <= k < |r| + 1 ==> Insert(s, x)[k] == r[k - 1];
    }
  }

  lemma {:induction false} SortByStartSorted(s: seq<Session>)
    ensures SortedByStart(SortByStart(s))
  {
    if s != [] {
      var init := s[..|s| - 1];
      SortByStartSorted(init);
      InsertSorted(SortByStart(init), s[|s| - 1]);
    }
  }

  lemma {:induction false} SortByStartPermutes(s: seq<Session>)
    ensures multiset(SortByStart(s)) == multiset(s)
  {
    if s != [] {
      var init, x := s[..|s| - 1], s[|s| - 1];
      SortByStartPermutes(init);
      InsertPermutes(SortByStart(init), x);
      assert s == init + [x];
    }
  }

  /** The sort yields its input's sessions, each as often, in start order. */
  lemma SortByStartSorts(s: seq<Session>)
    ensures SortedByStart(SortByStart(s))
    ensures multiset(SortByStart(s)) == multiset(s)
  {
    SortByStartSorted(s);
    SortByStartPermutes(s);
  }

  /** The sessions of `s` that start at `t`, in their order in `s`. */
  function StartingAt(s: seq<Session>, t: int): (r: seq<Session>) {
    if s == [] then []
    else (if s[0].start == t then [s[0]] else []) + StartingAt(s[1..], t)
  }

  lemma {:induction false} StartingAtSnoc(s: seq<Session>, x: Session, t: int)
    ensures StartingAt(s + [x], t) == StartingAt(s, t) + if x.start == t then [x] else []
  {
    if s == [] {
      assert [x][1..] == [];
    } else {
      assert (s + [x])[1..] == s[1..] + [x];
      StartingAtSnoc(s[1..], x, t);
    }
  }

  lemma {:induction false} StartingAtNone(s: seq<Session>, t: int)
    requires forall k :: 0 <= k < |s| ==> s[k].start > t
    ensures StartingAt(s, t) == []
  {
    if s != [] {
      StartingAtNone(s[1..], t);
    }
  }

  lemma {:induction false} InsertStartingAt(s: seq<Session>, x: Session, t: int)
    requires SortedByStart(s)
    ensures StartingAt(Insert(s, x), t) == StartingAt(s, t) + if x.start == t then [x] else []
  {
    var tail := if x.start == t then [x] else [];
    if s == [] {
      assert [x][1..] == [];
    } else if x.start < s[0].start {
      assert ([x] + s)[1..] == s;
      if x.start == t {
        assert forall k :: 0 <= k < |s| ==> s[k].start >= s[0].start;
        StartingAtNone(s, t);
      }
    } else {
      var rest, head := s[1..], if s[0].start == t then [s[0]] else [];
      assert SortedByStart(rest);
      InsertStartingAt(rest, x, t);
      var r := Insert(rest, x);
      assert ([s[0]] + r)[1..] == r;
      calc {
        StartingAt(Insert(s, x), t);
        StartingAt([s[0]] + r, t);
        head + StartingAt(r, t);
        head + (StartingAt(rest, t) + tail);
        (head + StartingAt(rest, t)) + tail;
        StartingAt(s, t) + tail;
      }
    }
  }

  /** Stability: the sessions with one start time keep their input order. */
  lemma {:induction false} SortByStartStable(s: seq<Session>, t: int)
    ensures StartingAt(SortByStart(s), t) == StartingAt(s, t)
  {
    if s != [] {
      var init, x := s[..|s| - 1], s[|s| - 1];
      var r := SortByStart(init);
      assert SortedByStart(r) by { SortByStartSorts(init); }
      calc {
        StartingAt(SortByStart(s), t);
        StartingAt(Insert(r, x), t);
        { InsertStartingAt(r, x, t); }
        StartingAt(r, t) + (if x.start == t then [x] else []);
        { SortByStartStable(init, t); }
        StartingAt(init, t) + (if x.start == t then [x] else []);
        { StartingAtSnoc(init, x, t); assert s == init + [x]; }
        StartingAt(s, t);
      }
    }
  }

  // ---------------------------------------------------------------------------
  // The breaks of one user's sorted sessions

  /** Sorted sessions `i` and `i + 1` are on one date and leave a positive gap from the first one's end. */
  predicate IsBreak(s: seq<Session>, i: nat)
    requires i + 1 < |s|
  {
    s[i].end.Some? && s[i].date == s[i + 1].date && s[i + 1].start - s[i].end.value > 0
  }

  function BreakRow(u: string, s: seq<Session>, i: nat): Break
    requires i + 1 < |s| && IsBreak(s, i)
  {
    var gap := s[i + 1].start - s[i].end.value;
    Break(u, s[i].date, TimeOfDay(s[i].end.value), TimeOfDay(s[i + 1].start), gap, s[i].logFile)
  }

  /** A break row belongs to its user and date, runs from the earlier session's end to the later one's start, and is positive. */
  lemma BreakRowMeaning(u: string, s: seq<Session>, i: nat)
    requires i + 1 < |s| && IsBreak(s, i)
    ensures var b := BreakRow(u, s, i);
      && b.user == u && b.date == s[i].date == s[i + 1].date && b.logFile == s[i].logFile
      && b.seconds > 0 && b.seconds == s[i + 1].start - s[i].end.value
      && b.starting == TimeOfDay(s[i].end.value) && b.ending == TimeOfDay(s[i + 1].start)
  {
  }

  /** `len(sessions) - 1` pairs, none for an empty group. */
  function Pairs(n: nat): nat { if n == 0 then 0 else n - 1 }

  /** The first sessions of the breaks among the sorted pairs starting below `n`, in increasing order. */
  function BreakStarts(s: seq<Session>, n: nat): (r: seq<nat>)
    requires n <= Pairs(|s|)
    ensures |r| <= n
    ensures forall k :: 0 <= k < |r| ==> r[k] < n && IsBreak(s, r[k])
    ensures forall k, l :: 0 <= k < l < |r| ==> r[k] < r[l]
    ensures forall i :: 0 <= i < n && IsBreak(s, i) ==> i in r
  {
    if n == 0 then []
    else BreakStarts(s, n - 1) + if IsBreak(s, n - 1) then [n - 1] else []
  }

  /** The breaks among the sorted pairs starting below `n`, in pair order. */
  function PairBreaks(u: string, s: seq<Session>, n: nat): (r: seq<Break>)
    requires n <= Pairs(|s|)
  {
    var starts := BreakStarts(s, n);
    seq(|starts|, k requires 0 <= k < |starts| => BreakRow(u, s, starts[k]))
  }

  lemma PairBreaksStep(u: string, s: seq<Session>, n: nat)
    requires n < Pairs(|s|)
    ensures PairBreaks(u, s, n + 1) == PairBreaks(u, s, n) + if IsBreak(s, n) then [BreakRow(u, s, n)] else []
  {
    var a, b := BreakStarts(s, n), BreakStarts(s, n + 1);
    if IsBreak(s, n) {
      assert b == a + [n];
    } else {
      assert b == a;
    }
  }

  /** `user_sessions[u]` after the sort. */
  function SortedGroup(all: seq<Session>, u: string): seq<Session> {
    SortByStart(GroupBelow(all, |all|, u))
  }

  /** All of one user's breaks. */
  function UserBreaks(all: seq<Session>, u: string): seq<Break> {
    var s := SortedGroup(all, u);
    PairBreaks(u, s, Pairs(|s|))
  }

  /** One block of breaks per user, in first-seen order. */
  function Blocks(all: seq<Session>): (r: seq<seq<Break>>)
    ensures |r| == |UsersBelow(all, |all|)|
  {
    var users := UsersBelow(all, |all|);
    seq(|users|, k requires 0 <= k < |users| => UserBreaks(all, users[k]))
  }

  /** The blocks one after another. */
  function Flatten(bl: seq<seq<Break>>): seq<Break> {
    if bl == [] then [] else Flatten(bl[..|bl| - 1]) + bl[|bl| - 1]
  }

  /** The result of `calculate_break_times`. */
  function BreaksOf(all: seq<Session>): seq<Break> {
    Flatten(Blocks(all))
  }

  /** The sorted group holds only eligible sessions of its user. */
  lemma SortedGroupEligible(all: seq<Session>, u: string)
    ensures var s := SortedGroup(all, u);
      forall k :: 0 <= k < |s| ==> Eligible(s[k]) && s[k].user == u
  {
    var g := GroupBelow(all, |all|, u);
    var s := SortedGroup(all, u);
    SortByStartSorts(g);
    forall k | 0 <= k < |s|
      ensures Eligible(s[k]) && s[k].user == u
    {
      assert s[k] in multiset(g);
    }
  }

  /** A user's breaks are that user's, and at most one fewer than its eligible sessions. */
  lemma UserBreaksBound(all: seq<Session>, u: string)
    ensures |UserBreaks(all, u)| <= Pairs(|GroupBelow(all, |all|, u)|)
    ensures forall b :: b in UserBreaks(all, u) ==> b.user == u
  {
  }

  /** The number of breaks of user `u`. */
  function CountOf(bs: seq<Break>, u: string): (c: nat)
    ensures c <= |bs|
  {
    if bs == [] then 0 else CountOf(bs[..|bs| - 1], u) + if bs[|bs| - 1].user == u then 1 else 0
  }

  lemma {:induction false} CountOfConcat(a: seq<Break>, b: seq<Break>, u: string)
    ensures CountOf(a + b, u) == CountOf(a, u) + CountOf(b, u)
    decreases |b|
  {
    if b != [] {
      assert (a + b)[..|a + b| - 1] == a + b[..|b| - 1];
      assert (a + b)[|a + b| - 1] == b[|b| - 1];
      CountOfConcat(a, b[..|b| - 1], u);
    } else {
      assert a + b == a;
    }
  }

  lemma {:induction false} CountOfOthers(bs: seq<Break>, u: string)
    requires forall b :: b in bs ==> b.user != u
    ensures CountOf(bs, u) == 0
  {
    if bs != [] {
      assert bs[|bs| - 1] in bs;
      assert forall b :: b in bs[..|bs| - 1] ==> b in bs;
      CountOfOthers(bs[..|bs| - 1], u);
    }
  }

  lemma {:induction false} CountOfOwn(bs: seq<Break>, u: string)
    requires forall b :: b in bs ==> b.user == u
    ensures CountOf(bs, u) == |bs|
  {
    if bs != [] {
      assert bs[|bs| - 1] in bs;
      assert forall b :: b in bs[..|bs| - 1] ==> b in bs;
      CountOfOwn(bs[..|bs| - 1], u);
    }
  }

  /** Blocks owned by distinct users: a user's count is the length of its own block. */
  lemma {:induction false} CountOfFlatten(bl: seq<seq<Break>>, users: seq<string>, u: string)
    requires |bl| == |users| && Distinct(users)
    requires forall k, b :: 0 <= k < |bl| && b in bl[k] ==> b.user == users[k]
    ensures forall k :: 0 <= k < |users| && users[k] == u ==> CountOf(Flatten(bl), u) == |bl[k]|
    ensures u !in users ==> CountOf(Flatten(bl), u) == 0
  {
    if bl != [] {
      var m := |bl| - 1;
      var init, inits := bl[..m], users[..m];
      assert forall k :: 0 <= k < m ==> init[k] == bl[k] && inits[k] == users[k];
      CountOfFlatten(init, inits, u);
      CountOfConcat(Flatten(init), bl[m], u);
      if users[m] == u {
        CountOfOwn(bl[m], u);
        assert u !in inits;
      } else {
        CountOfOthers(bl[m], u);
        assert u in users ==> u in inits;
      }
    }
  }

  lemma {:induction false} FlattenIn(bl: seq<seq<Break>>, b: Break) returns (k: nat)
    requires b in Flatten(bl)
    ensures k < |bl| && b in bl[k]
  {
    var m := |bl| - 1;
    if b in bl[m] {
      k := m;
    } else {
      k := FlattenIn(bl[..m], b);
      assert bl[..m][k] == bl[k];
    }
  }

  lemma {:induction false} FlattenHas(bl: seq<seq<Break>>, k: nat, b: Break)
    requires k < |bl| && b in bl[k]
    ensures b in Flatten(bl)
  {
    var m := |bl| - 1;
    if k < m {
      assert bl[..m][k] == bl[k];
      FlattenHas(bl[..m], k, b);
    }
  }

  /** A user gets at most one break fewer than it has eligible sessions. */
  lemma BreaksPerUser(all: seq<Session>, u: string)
    ensures CountOf(BreaksOf(all), u) <= Pairs(|GroupBelow(all, |all|, u)|)
  {
    var users, bl := UsersBelow(all, |all|), Blocks(all);
    forall k, b: Break | 0 <= k < |bl| && b in bl[k]
      ensures b.user == users[k]
    {
      UserBreaksBound(all, users[k]);
    }
    CountOfFlatten(bl, users, u);
    UserBreaksBound(all, u);
    if u in users {
      var k :| 0 <= k < |users| && users[k] == u;
      assert bl[k] == UserBreaks(all, u);
    }
  }

  /** Every break joins two sorted-adjacent sessions of its user on one date, from the first one's end to the next one's start. */
  lemma BreakOrigin(all: seq<Session>, b: Break)
    requires b in BreaksOf(all)
    ensures var s := SortedGroup(all, b.user);
      exists i :: 0 <= i < Pairs(|s|) && IsBreak(s, i) && b == BreakRow(b.user, s, i)
  {
    var users, bl := UsersBelow(all, |all|), Blocks(all);
    var p := FlattenIn(bl, b);
    UserBreaksBound(all, users[p]);
    assert b.user == users[p];
    var s := SortedGroup(all, b.user);
    var starts := BreakStarts(s, Pairs(|s|));
    var k :| 0 <= k < |starts| && PairBreaks(b.user, s, Pairs(|s|))[k] == b;
    assert IsBreak(s, starts[k]) && b == BreakRow(b.user, s, starts[k]);
  }

  /** Every such pair of a user with an eligible session gives its break. */
  lemma BreakComplete(all: seq<Session>, u: string, i: nat)
    requires exists j :: 0 <= j < |all| && Eligible(all[j]) && all[j].user == u
    requires i < Pairs(|SortedGroup(all, u)|) && IsBreak(SortedGroup(all, u), i)
    ensures BreakRow(u, SortedGroup(all, u), i) in BreaksOf(all)
  {
    var users, bl := UsersBelow(all, |all|), Blocks(all);
    UsersAndGroups(all, |all|, u);
    var s := SortedGroup(all, u);
    var starts := BreakStarts(s, Pairs(|s|));
    var k :| 0 <= k < |starts| && starts[k] == i;
    assert PairBreaks(u, s, Pairs(|s|))[k] == BreakRow(u, s, i);
    var p :| 0 <= p < |users| && users[p] == u;
    assert bl[p] == UserBreaks(all, u);
    FlattenHas(bl, p, BreakRow(u, s, i));
  }

  // ---------------------------------------------------------------------------
  // The loops

  /** The grouping loop: `user_sessions`, with its keys in insertion order. */
  method GroupSessions(all: seq<Session>) returns (users: seq<string>, groups: map<string, seq<Session>>)
    ensures users == UsersBelow(all, |all|)
    ensures groups.Keys == set u | u in users
    ensures forall u :: u in groups ==> groups[u] == GroupBelow(all, |all|, u)
  {
    users, groups := [], map[];
    var n := 0;
    while n < |all|
      invariant n <= |all|
      invariant users == UsersBelow(all, n)
      invariant groups.Keys == set u | u in users
      invariant forall u :: u in groups ==> groups[u] == GroupBelow(all, n, u)
    {
      var s := all[n];
      if s.end.Some? {
        if s.user in groups {
          groups := groups[s.user := groups[s.user] + [s]];
        } else {
          UsersAndGroups(all, n, s.user);
          users := users + [s.user];
          groups := groups[s.user := [s]];
        }
      }
      n := n + 1;
    }
  }

  /** The pair loop over one user's sorted sessions. */
  method UserBreakLoop(u: string, s: seq<Session>) returns (bs: seq<Break>)
    requires forall k :: 0 <= k < |s| ==> Eligible(s[k])
    ensures bs == PairBreaks(u, s, Pairs(|s|))
  {
    bs := [];
    var i := 0;
    while i < Pairs(|s|)
      invariant i <= Pairs(|s|)
      invariant bs == PairBreaks(u, s, i)
    {
      PairBreaksStep(u, s, i);
      var cur, next := s[i], s[i + 1];
      if cur.date == next.date {
        var gap := next.start - cur.end.value;
        if gap > 0 {
          var b := Break(u, cur.date, TimeOfDay(cur.end.value), TimeOfDay(next.start), gap, cur.logFile);
          assert IsBreak(s, i) && b == BreakRow(u, s, i);
          bs := bs + [b];
        } else {
          assert !IsBreak(s, i);
        }
      } else {
        assert !IsBreak(s, i);
      }
      i := i + 1;
    }
  }

  /** `calculate_break_times` over the sessions of every file. */
  method CalculateBreakTimes(all: seq<Session>) returns (breaks: seq<Break>)
    ensures breaks == BreaksOf(all)
  {
    var users, groups := GroupSessions(all);
    ghost var bl := Blocks(all);
    breaks := [];
    var m := 0;
    while m < |users|
      invariant m <= |users|
      invariant breaks == Flatten(bl[..m])
    {
      var u := users[m];
      assert u in groups && groups[u] == GroupBelow(all, |all|, u);
      var s := SortByStart(groups[u]);
      assert s == SortedGroup(all, u);
      SortedGroupEligible(all, u);
      var bs := UserBreakLoop(u, s);
      assert bs == bl[m];
      assert bl[..m + 1][..m] == bl[..m];
      breaks := breaks + bs;
      m := m + 1;
    }
    assert bl[..m] == bl;
  }
}
