/**
 * The weekly check-in rule of `UserManager.has_weekly_checkins`: a user
 * qualifies when their check-ins inside an inclusive UTC day window fall in
 * at least three distinct ISO week numbers. The week number alone is the
 * bucket, so week 2 of one year and week 2 of the next share a bucket.
 */
module Checkins {
  import opened Records
  import opened Calendar

  const MinWeeks: nat := 3

  /** The epoch-second bounds, both inclusive, of a check-in window. */
  datatype Window = Window(lo: int, hi: int) {
    predicate Contains(t: int) {
      lo <= t <= hi
    }
  }

  /**
   * The window of `has_weekly_checkins`: from midnight of `start` (by
   * default the first day of `today`'s quarter) to the end of `end` (by
   * default `today`).
   */
  function CheckinWindow(start: Option<Date>, end: Option<Date>, today: Date): (w: Window)
    requires today.Valid()
    requires start.Some? ==> start.value.Valid()
    requires end.Some? ==> end.value.Valid()
    ensures w.lo % SecondsPerDay == 0 && w.hi % SecondsPerDay == SecondsPerDay - 1
    ensures w.lo / SecondsPerDay == DaysFromCivil(if start.Some? then start.value else QuarterStart(today))
    ensures w.hi / SecondsPerDay == DaysFromCivil(if end.Some? then end.value else today)
  {
    var first := if start.Some? then start.value else QuarterStart(today);
    var last := if end.Some? then end.value else today;
    Window(DayStart(first), DayEnd(last))
  }

  /** Timestamps of `uid`'s check-ins among `rows`, in row order. */
  function UserTimes(rows: seq<CheckinRow>, uid: string): seq<int> {
    if |rows| == 0 then []
    else
      var last := rows[|rows| - 1];
      UserTimes(rows[..|rows| - 1], uid) + (if last.userId == uid then [last.day] else [])
  }

  /** The check-in timestamps the source collects: none unless the frame has both columns. */
  function CheckinTimes(t: Table<CheckinRow>, uid: string): seq<int> {
    if !t.Empty() && "user_id" in t.columns && "day" in t.columns then UserTimes(t.rows, uid) else []
  }

  /** The timestamps of `ts` that lie in the window, in order. */
  function InWindow(ts: seq<int>, w: Window): seq<int> {
    if |ts| == 0 then []
    else (if w.Contains(ts[0]) then [ts[0]] else []) + InWindow(ts[1..], w)
  }

  /** The distinct ISO week numbers of the in-window timestamps. */
  function Weeks(ts: seq<int>, w: Window): set<int> {
    set t | t in ts && w.Contains(t) :: IsoWeek(t)
  }

  /** The rule itself: at least three distinct week numbers. */
  predicate WeeklyCheckins(t: Table<CheckinRow>, uid: string, w: Window) {
    |Weeks(CheckinTimes(t, uid), w)| >= MinWeeks
  }

  lemma {:induction false} UserTimesMembers(rows: seq<CheckinRow>, uid: string, t: int)
    ensures t in UserTimes(rows, uid) <==> CheckinRow(uid, t) in rows
  {
    if |rows| > 0 {
      var init := rows[..|rows| - 1];
      UserTimesMembers(init, uid, t);
      assert rows == init + [rows[|rows| - 1]];
    }
  }

  lemma {:induction false} InWindowMembers(ts: seq<int>, w: Window)
    ensures forall t :: t in InWindow(ts, w) <==> t in ts && w.Contains(t)
  {
    if |ts| > 0 {
      InWindowMembers(ts[1..], w);
      assert ts == [ts[0]] + ts[1..];
    }
  }

  /** A function takes no more distinct values on a sequence than it has elements. */
  lemma {:induction false} ImageAtMostLength(ts: seq<int>, f: int -> int)
    ensures |set t | t in ts :: f(t)| <= |ts|
  {
    if |ts| > 0 {
      var rest := ts[1..];
      ImageAtMostLength(rest, f);
      var all, tail := set t | t in ts :: f(t), set t | t in rest :: f(t);
      forall y | y in all
        ensures y in tail + {f(ts[0])}
      {
        var t :| t in ts && f(t) == y;
        if t != ts[0] {
          assert t in rest;
        }
      }
      assert all <= tail + {f(ts[0])};
      SubsetCard(all, tail + {f(ts[0])});
    }
  }

  /** There are never more distinct weeks than in-window check-ins. */
  lemma WeeksAtMostCheckins(ts: seq<int>, w: Window)
    ensures |Weeks(ts, w)| <= |InWindow(ts, w)|
  {
    InWindowMembers(ts, w);
    var f := IsoWeek;
    assert Weeks(ts, w) == set t | t in InWindow(ts, w) :: f(t);
    ImageAtMostLength(InWindow(ts, w), f);
  }

  /** With no check-in inside the window the rule fails. */
  lemma NoneInWindowFails(t: Table<CheckinRow>, uid: string, w: Window)
    requires forall x :: x in CheckinTimes(t, uid) ==> !w.Contains(x)
    ensures !WeeklyCheckins(t, uid, w)
  {
    assert Weeks(CheckinTimes(t, uid), w) == {};
  }

  /** Qualifying takes at least three check-ins inside the window. */
  lemma QualifyingNeedsThreeCheckins(t: Table<CheckinRow>, uid: string, w: Window)
    requires WeeklyCheckins(t, uid, w)
    ensures |InWindow(CheckinTimes(t, uid), w)| >= 3
  {
    WeeksAtMostCheckins(CheckinTimes(t, uid), w);
  }

  /** Three in-window check-ins with pairwise different week numbers qualify. */
  lemma ThreeWeeksQualify(t: Table<CheckinRow>, uid: string, w: Window, a: int, b: int, c: int)
    requires a in CheckinTimes(t, uid) && b in CheckinTimes(t, uid) && c in CheckinTimes(t, uid)
    requires w.Contains(a) && w.Contains(b) && w.Contains(c)
    requires IsoWeek(a) != IsoWeek(b) && IsoWeek(b) != IsoWeek(c) && IsoWeek(a) != IsoWeek(c)
    ensures WeeklyCheckins(t, uid, w)
  {
    var ts := CheckinTimes(t, uid);
    var wa, wb, wc := IsoWeek(a), IsoWeek(b), IsoWeek(c);
    assert wa in Weeks(ts, w) && wb in Weeks(ts, w) && wc in Weeks(ts, w);
    ThreeDistinct(wa, wb, wc);
    SubsetCard({wa, wb, wc}, Weeks(ts, w));
  }

  lemma ThreeDistinct(x: int, y: int, z: int)
    requires x != y && y != z && x != z
    ensures |{x, y, z}| == 3
  {
  }

  /** Check-ins confined to two week numbers never qualify, however many there are. */
  lemma TwoWeeksFail(t: Table<CheckinRow>, uid: string, w: Window, wk1: int, wk2: int)
    requires forall x :: x in CheckinTimes(t, uid) && w.Contains(x) ==> IsoWeek(x) in {wk1, wk2}
    ensures !WeeklyCheckins(t, uid, w)
  {
    var ws := Weeks(CheckinTimes(t, uid), w);
    assert ws <= {wk1, wk2};
    SubsetCard(ws, {wk1, wk2});
  }

  lemma SubsetCard(a: set<int>, b: set<int>)
    requires a <= b
    ensures |a| <= |b|
  {
    assert b == a + (b - a);
  }

  lemma {:induction false} UserTimesAppend(a: seq<CheckinRow>, b: seq<CheckinRow>, uid: string)
    ensures UserTimes(a + b, uid) == UserTimes(a, uid) + UserTimes(b, uid)
  {
    if |b| > 0 {
      var bi := b[..|b| - 1];
      UserTimesAppend(a, bi, uid);
      assert (a + b)[..|a + b| - 1] == a + bi;
    } else {
      assert a + b == a;
    }
  }

  /**
   * Rows of other users, and rows outside the window, never change the
   * outcome: inserting any number of them anywhere in the table leaves the
   * week set as it was.
   */
  lemma OutsideRowsIgnored(before: seq<CheckinRow>, extra: seq<CheckinRow>, after: seq<CheckinRow>, uid: string, w: Window)
    requires forall i :: 0 <= i < |extra| ==> extra[i].userId != uid || !w.Contains(extra[i].day)
    ensures Weeks(UserTimes(before + extra + after, uid), w) == Weeks(UserTimes(before + after, uid), w)
  {
    UserTimesAppend(before + extra, after, uid);
    UserTimesAppend(before, extra, uid);
    UserTimesAppend(before, after, uid);
    forall x | x in UserTimes(extra, uid)
      ensures !w.Contains(x)
    {
      UserTimesMembers(extra, uid, x);
    }
  }

  lemma OwnRowsInOrder(uid: string, a: int, b: int, c: int)
    ensures UserTimes([CheckinRow(uid, a), CheckinRow(uid, b), CheckinRow(uid, c)], uid) == [a, b, c]
  {
    var rows := [CheckinRow(uid, a), CheckinRow(uid, b), CheckinRow(uid, c)];
    var r1, r2 := [CheckinRow(uid, a)], [CheckinRow(uid, a), CheckinRow(uid, b)];
    assert rows[..2] == r2 && r2[..1] == r1 && r1[..0] == [];
    assert UserTimes(r1, uid) == [a];
    assert UserTimes(r2, uid) == [a, b];
  }

  /** Three check-ins of which two share a week number never qualify, whatever the window. */
  lemma {:induction false} SharedWeekNumberFails(uid: string, a: int, b: int, c: int, w: Window)
    requires IsoWeek(a) == IsoWeek(b)
    ensures !WeeklyCheckins(Table({"user_id", "day"}, [CheckinRow(uid, a), CheckinRow(uid, b), CheckinRow(uid, c)]), uid, w)
  {
    var rows := [CheckinRow(uid, a), CheckinRow(uid, b), CheckinRow(uid, c)];
    OwnRowsInOrder(uid, a, b, c);
    TwoWeeksFail(Table({"user_id", "day"}, rows), uid, w, IsoWeek(a), IsoWeek(c));
  }

  /**
   * The week number alone is the bucket: check-ins on 2024-01-10 (week 2 of
   * ISO year 2024), 2025-01-08 (week 2 of 2025) and 2025-01-15 (week 3 of
   * 2025) lie in three different weeks but count as two, so they do not
   * qualify for any window.
   */
  lemma WeekNumbersCollapseAcrossYears(t1: int, t2: int, t3: int, w: Window)
    requires t1 == 19732 * SecondsPerDay && t2 == 20096 * SecondsPerDay && t3 == 20103 * SecondsPerDay
    ensures IsoWeek(t1) == IsoWeek(t2) == 2 && IsoWeek(t3) == 3
    ensures !WeeklyCheckins(Table({"user_id", "day"}, [CheckinRow("u", t1), CheckinRow("u", t2), CheckinRow("u", t3)]), "u", w)
  {
    Week2Of2024();
    Week2Of2025();
    Week3Of2025();
    DayWeek(t1, 19732);
    DayWeek(t2, 20096);
    DayWeek(t3, 20103);
    SharedWeekNumberFails("u", t1, t2, t3, w);
  }

  lemma DayWeek(t: int, z: int)
    requires t == z * SecondsPerDay
    ensures IsoWeek(t) == IsoWeekOfDay(z)
  {
  }
}
