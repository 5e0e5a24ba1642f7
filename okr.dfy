/**
 * The `User` and `UserManager` classes of the OKR scoring engine: the
 * manager aggregates users from the account and key-result frames, then
 * updates each user's check-in flag, OKR movement and score in place.
 */
module Okr {
  import opened Records
  import opened Calendar
  import opened Scoring
  import opened Checkins
  import opened Goals
  import opened Snapshots

  const Months: set<int> := {1, 2, 3, 4, 5, 6, 7, 8, 9, 10, 11, 12}

  /** The OKR dictionary of a new user: months 1 to 12, all zero. */
  function ZeroOkr(): (okr: map<int, real>)
    ensures forall m :: m in okr <==> 1 <= m <= 12
    ensures forall m :: m in okr ==> okr[m] == 0.0
  {
    map m | m in Months :: 0.0
  }

  /** `self.user_name_map` built from the account rows: a later row for an id replaces an earlier one. */
  function NameMapOf(rows: seq<AccountRow>): map<string, string> {
    if |rows| == 0 then map[]
    else
      var last := rows[|rows| - 1];
      NameMapOf(rows[..|rows| - 1])[last.id := last.name]
  }

  /** The name map of `UserManager.__init__`: empty unless the frame has `id` and `name` columns. */
  function NameMap(accounts: Table<AccountRow>): map<string, string> {
    if !accounts.Empty() && "id" in accounts.columns && "name" in accounts.columns
    then NameMapOf(accounts.rows)
    else map[]
  }

  /** The name map's keys are exactly the account ids. */
  lemma {:induction false} NameMapKeys(rows: seq<AccountRow>, id: string)
    ensures id in NameMapOf(rows) <==> exists i :: 0 <= i < |rows| && rows[i].id == id
  {
    if |rows| > 0 {
      var init := rows[..|rows| - 1];
      NameMapKeys(init, id);
      if exists i :: 0 <= i < |rows| && rows[i].id == id {
        var i :| 0 <= i < |rows| && rows[i].id == id;
        if i < |init| {
          assert init[i] == rows[i];
        }
      }
    }
  }

  /** An id's name is the one on the last account row with that id. */
  lemma {:induction false} NameMapLastWins(rows: seq<AccountRow>, i: nat)
    requires i < |rows|
    requires forall j :: i < j < |rows| ==> rows[j].id != rows[i].id
    ensures rows[i].id in NameMapOf(rows) && NameMapOf(rows)[rows[i].id] == rows[i].name
  {
    if i < |rows| - 1 {
      var init := rows[..|rows| - 1];
      assert init[i] == rows[i];
      NameMapLastWins(init, i);
    }
  }

  /** Owners among `rows` that are non-empty and have an account, each once. */
  function OwnersAmong(rows: seq<KrRow>, names: map<string, string>): set<string> {
    set r | r in rows && r.userId != "" && r.userId in names :: r.userId
  }

  /** The user ids `create_users` produces: none unless the key-result frame has a `user_id` column. */
  function UserIds(krs: Table<KrRow>, names: map<string, string>): set<string> {
    if !krs.Empty() && "user_id" in krs.columns then OwnersAmong(krs.rows, names) else {}
  }

  /**
   * The users are exactly the key-result owners that have an account (the
   * empty id excepted): orphan key results and accounts without key
   * results are left out, and duplicate key results count once.
   */
  lemma UserIdsSpec(krs: Table<KrRow>, names: map<string, string>, uid: string)
    requires !krs.Empty() && "user_id" in krs.columns
    ensures uid in UserIds(krs, names) <==> uid != "" && uid in names && KrRow(uid) in krs.rows
  {
    if KrRow(uid) in krs.rows && uid != "" && uid in names {
      assert KrRow(uid).userId == uid;
    }
  }

  class User {
    const userId: string
    const name: string
    /** `co_OKR`: 1 when the user owns an OKR. */
    var coOkr: int
    /** `checkin`: 1 when the weekly check-in rule holds. */
    var checkin: int
    /** `dich_chuyen_OKR`: the OKR movement in percentage points. */
    var movement: real
    var score: real
    /** `OKR`: a value per month 1 to 12. */
    var okr: map<int, real>

    /** The state `create_users` gives every user. */
    ghost predicate Initial()
      reads this
    {
      coOkr == 1 && checkin == 0 && movement == 0.0 && score == 0.0 && okr == ZeroOkr()
    }

    constructor (userId: string, name: string, coOkr: int := 1, checkin: int := 0,
                 movement: real := 0.0, score: real := 0.0)
      ensures this.userId == userId && this.name == name
      ensures this.coOkr == coOkr && this.checkin == checkin
      ensures this.movement == movement && this.score == score
      ensures okr == ZeroOkr()
    {
      this.userId := userId;
      this.name := name;
      this.coOkr := coOkr;
      this.checkin := checkin;
      this.movement := movement;
      this.score := score;
      this.okr := ZeroOkr();
    }

    /** `update_okr`: sets one month's value; a month outside 1 to 12 is ignored. */
    method UpdateOkr(month: int, value: real)
      modifies this`okr
      ensures 1 <= month <= 12 ==> okr == old(okr)[month := value]
      ensures !(1 <= month <= 12) ==> okr == old(okr)
      ensures okr.Keys == old(okr.Keys) + (if 1 <= month <= 12 then {month} else {})
    {
      if 1 <= month <= 12 {
        okr := okr[month := value];
      }
    }

    /** `calculate_score`: stores the score of the three signals, which lies in [0.5, 4.5]. */
    method CalculateScore()
      modifies this`score
      ensures score == Score(coOkr, checkin, movement)
      ensures 0.5 <= score <= 4.5
    {
      var s := 0.5;
      if checkin == 1 {
        s := s + 0.5;
      }
      if coOkr == 1 {
        s := s + 1.0;
      }
      score := s + MovementBonus(movement);
    }
  }

  class UserManager {
    const accounts: Table<AccountRow>
    const krs: Table<KrRow>
    const checkins: Table<CheckinRow>
    const cycle: Option<Table<GoalRow>>
    var userNameMap: map<string, string>
    var users: map<string, User>

    /** Every user is filed under its own id, so distinct ids hold distinct objects. */
    ghost predicate Valid()
      reads this
    {
      forall k :: k in users ==> users[k].userId == k
    }

    /** `UserManager.__init__`: builds the name map, then the users. */
    constructor (accounts: Table<AccountRow>, krs: Table<KrRow>, checkins: Table<CheckinRow>,
                 cycle: Option<Table<GoalRow>> := None)
      ensures this.accounts == accounts && this.krs == krs
      ensures this.checkins == checkins && this.cycle == cycle
      ensures Valid()
      ensures userNameMap == NameMap(accounts)
      ensures users.Keys == UserIds(krs, userNameMap)
      ensures forall k :: k in users ==>
                fresh(users[k]) && users[k].name == userNameMap[k] && users[k].Initial()
    {
      this.accounts := accounts;
      this.krs := krs;
      this.checkins := checkins;
      this.cycle := cycle;
      var names: map<string, string> := map[];
      if !accounts.Empty() && "id" in accounts.columns && "name" in accounts.columns {
        var i := 0;
        while i < |accounts.rows|
          invariant 0 <= i <= |accounts.rows|
          invariant names == NameMapOf(accounts.rows[..i])
        {
          var row := accounts.rows[i];
          names := names[row.id := row.name];
          assert accounts.rows[..i + 1][..i] == accounts.rows[..i];
          i := i + 1;
        }
        assert accounts.rows[..|accounts.rows|] == accounts.rows;
      }
      userNameMap := names;
      new;
      users := CreateUsers();
    }

    /** `create_users`: one fresh, initial `User` per key-result owner with an account. */
    method CreateUsers() returns (result: map<string, User>)
      ensures result.Keys == UserIds(krs, userNameMap)
      ensures forall k :: k in result ==>
                fresh(result[k]) && result[k].userId == k && result[k].name == userNameMap[k] &&
                result[k].Initial()
    {
      result := map[];
      var unique: set<string> := {};
      if !krs.Empty() && "user_id" in krs.columns {
        var i := 0;
        while i < |krs.rows|
          invariant 0 <= i <= |krs.rows|
          invariant unique == result.Keys == OwnersAmong(krs.rows[..i], userNameMap)
          invariant forall k :: k in result ==>
                      fresh(result[k]) && result[k].userId == k && k in userNameMap &&
                      result[k].name == userNameMap[k] && result[k].Initial()
        {
          var uid := krs.rows[i].userId;
          if uid != "" && uid !in unique && uid in userNameMap {
            var name := userNameMap[uid];
            var user := new User(uid, name);
            result := result[uid := user];
            unique := unique + {uid};
          }
          assert krs.rows[..i + 1] == krs.rows[..i] + [krs.rows[i]];
          i := i + 1;
        }
        assert krs.rows[..|krs.rows|] == krs.rows;
      }
    }

    /**
     * `has_weekly_checkins`: collects the user's check-in timestamps, keeps
     * those in the window, and asks for three distinct ISO week numbers.
     */
    method HasWeeklyCheckins(uid: string, start: Option<Date>, end: Option<Date>, today: Date)
      returns (qualifies: bool)
      requires today.Valid()
      requires start.Some? ==> start.value.Valid()
      requires end.Some? ==> end.value.Valid()
      ensures qualifies == WeeklyCheckins(checkins, uid, CheckinWindow(start, end, today))
    {
      var window := CheckinWindow(start, end, today);
      var times: seq<int> := [];
      if !checkins.Empty() && "user_id" in checkins.columns && "day" in checkins.columns {
        var i := 0;
        while i < |checkins.rows|
          invariant 0 <= i <= |checkins.rows|
          invariant times == UserTimes(checkins.rows[..i], uid)
        {
          var entry := checkins.rows[i];
          if entry.userId == uid {
            times := times + [entry.day];
          }
          assert checkins.rows[..i + 1][..i] == checkins.rows[..i];
          i := i + 1;
        }
        assert checkins.rows[..|checkins.rows|] == checkins.rows;
      }
      var inRange := InWindow(times, window);
      InWindowMembers(times, window);
      if |inRange| == 0 {
        assert Weeks(times, window) == {};
        return false;
      }
      var weekOf := IsoWeek;
      var weeks := set t | t in inRange :: weekOf(t);
      assert weeks == Weeks(times, window);
      qualifies := |weeks| >= MinWeeks;
    }

    /** `update_checkins`: sets `checkin` to 1 for every user meeting the rule; nothing else changes. */
    method UpdateCheckins(start: Option<Date>, end: Option<Date>, today: Date)
      requires Valid()
      requires today.Valid()
      requires start.Some? ==> start.value.Valid()
      requires end.Some? ==> end.value.Valid()
      modifies users.Values`checkin
      ensures Valid()
      ensures forall k :: k in users ==>
                users[k].checkin ==
                  (if WeeklyCheckins(checkins, k, CheckinWindow(start, end, today)) then 1
                   else old(users[k].checkin))
    {
      var todo := users.Keys;
      while todo != {}
        invariant todo <= users.Keys
        invariant forall k :: k in users && k !in todo ==>
                    users[k].checkin ==
                      (if WeeklyCheckins(checkins, k, CheckinWindow(start, end, today)) then 1
                       else old(users[k].checkin))
        invariant forall k :: k in todo ==> users[k].checkin == old(users[k].checkin)
        decreases todo
      {
        var uid :| uid in todo;
        var user := users[uid];
        var ok := HasWeeklyCheckins(user.userId, start, end, today);
        if ok {
          user.checkin := 1;
        }
        todo := todo - {uid};
      }
    }

    /** `calculate_scores`: every user's score from their three signals; nothing else changes. */
    method CalculateScores()
      requires Valid()
      modifies users.Values`score
      ensures Valid()
      ensures forall k :: k in users ==>
                users[k].score == Score(users[k].coOkr, users[k].checkin, users[k].movement)
    {
      var todo := users.Keys;
      while todo != {}
        invariant todo <= users.Keys
        invariant forall k :: k in users && k !in todo ==>
                    users[k].score == Score(users[k].coOkr, users[k].checkin, users[k].movement)
        invariant forall k :: k in todo ==> users[k].score == old(users[k].score)
        decreases todo
      {
        var uid :| uid in todo;
        users[uid].CalculateScore();
        todo := todo - {uid};
      }
    }

    /** `calculate_avg_goals`: the per-user mean of the goal rows' values. */
    method CalculateAvgGoals() returns (avg: map<string, real>)
      requires cycle.Some?
      ensures avg == AvgGoals(cycle.value)
    {
      var frame := cycle.value;
      var goalsData: map<string, seq<real>> := map[];
      var hasValue := "current_value" in frame.columns;
      if !frame.Empty() && "type" in frame.columns && "user_id" in frame.columns {
        var i := 0;
        while i < |frame.rows|
          invariant 0 <= i <= |frame.rows|
          invariant goalsData == Grouped(frame.rows[..i], hasValue)
        {
          var goal := frame.rows[i];
          if goal.kind == "goals" {
            var value := if hasValue then goal.currentValue else 0.0;
            var sofar := if goal.userId in goalsData then goalsData[goal.userId] else [];
            goalsData := goalsData[goal.userId := sofar + [value]];
          }
          assert frame.rows[..i + 1][..i] == frame.rows[..i];
          i := i + 1;
        }
        assert frame.rows[..|frame.rows|] == frame.rows;
      }
      avg := map u | u in goalsData :: Mean(goalsData[u]);
    }

    /**
     * `update_okr_movement`: nothing happens without cycle data. Otherwise
     * each user's movement comes from their current value and the previous
     * month's snapshot (backfilled with 0 when missing), and the current
     * month's snapshot is set to the current value.
     */
    method UpdateOkrMovement(store: SnapshotStore, now: Date)
      requires Valid()
      requires now.Valid()
      modifies users.Values`movement, store
      ensures Valid()
      ensures cycle.None? || cycle.value.Empty() ==>
                store.data == old(store.data) &&
                forall k :: k in users ==> users[k].movement == old(users[k].movement)
      ensures cycle.Some? && !cycle.value.Empty() ==>
                var avg := AvgGoals(cycle.value);
                var ym := YearMonth(now.year, now.month);
                && store.data == AfterRun(old(store.data), users.Keys, avg, ym)
                && forall k :: k in users ==>
                     users[k].movement ==
                       MovementFor(CurrentOkr(avg, k), Lookup(old(store.data), KeyOf(k, PreviousMonth(ym))), now.month)
    {
      if cycle.None? || cycle.value.Empty() {
        return;
      }
      var avg := CalculateAvgGoals();
      MoveUsers(users, avg, store, now);
    }
  }

  /**
   * The loop of `update_okr_movement` over the users `all`, filed under
   * their ids, with the averages `avg` of the cycle data.
   */
  method MoveUsers(all: map<string, User>, avg: map<string, real>, store: SnapshotStore, now: Date)
    requires now.Valid()
    requires forall k :: k in all ==> all[k].userId == k
    modifies all.Values`movement, store
    ensures var ym := YearMonth(now.year, now.month);
      && store.data == AfterRun(old(store.data), all.Keys, avg, ym)
      && forall k :: k in all ==>
           all[k].movement == MovementFor(CurrentOkr(avg, k), Lookup(old(store.data), KeyOf(k, PreviousMonth(ym))), now.month)
  {
    var ym := YearMonth(now.year, now.month);
    ghost var s0 := store.data;
    var done: set<string> := {};
    while done != all.Keys
      invariant done <= all.Keys
      invariant store.data == AfterRun(s0, done, avg, ym)
      invariant forall k :: k in done && k in all ==>
                  all[k].movement == MovementFor(CurrentOkr(avg, k), Lookup(s0, KeyOf(k, PreviousMonth(ym))), now.month)
      decreases all.Keys - done
    {
      MissingMember(done, all.Keys);
      var uid :| uid in all && uid !in done;
      MoveOne(all, uid, all[uid], avg, store, now, s0, done);
      done := done + {uid};
    }
  }

  lemma MissingMember(part: set<string>, whole: set<string>)
    requires part <= whole && part != whole
    ensures exists x :: x in whole && x !in part
  {
  }

  /** One iteration of `MoveUsers`: moving user `uid` extends the run by them. */
  method MoveOne(all: map<string, User>, uid: string, user: User, avg: map<string, real>, store: SnapshotStore, now: Date,
                 ghost s0: Store, ghost done: set<string>)
    requires now.Valid()
    requires forall k :: k in all ==> all[k].userId == k
    requires uid in all && all[uid] == user && uid !in done
    requires store.data == AfterRun(s0, done, avg, YearMonth(now.year, now.month))
    requires forall k :: k in done && k in all ==>
               all[k].movement ==
                 MovementFor(CurrentOkr(avg, k), Lookup(s0, KeyOf(k, PreviousMonth(YearMonth(now.year, now.month)))), now.month)
    modifies user`movement, store
    ensures store.data == AfterRun(s0, done + {uid}, avg, YearMonth(now.year, now.month))
    ensures forall k :: k in done + {uid} && k in all ==>
              all[k].movement ==
                MovementFor(CurrentOkr(avg, k), Lookup(s0, KeyOf(k, PreviousMonth(YearMonth(now.year, now.month)))), now.month)
  {
    var current := if user.userId in avg then avg[user.userId] else 0.0;
    AfterRunStep(s0, done, avg, YearMonth(now.year, now.month), uid);
    MoveUser(user, current, store, now);
  }

  /**
   * The loop body of `update_okr_movement` for one user: read the previous
   * month's snapshot, backfill it with 0 when it is missing, set the
   * movement, and upsert the current month with the current value.
   */
  method MoveUser(user: User, current: real, store: SnapshotStore, now: Date)
    requires now.Valid()
    modifies user`movement, store
    ensures var ym := YearMonth(now.year, now.month);
      var pk := KeyOf(user.userId, PreviousMonth(ym));
      && user.movement == MovementFor(current, Lookup(old(store.data), pk), now.month)
      && store.data == (if pk in old(store.data) then old(store.data) else old(store.data)[pk := 0.0])
                         [KeyOf(user.userId, ym) := current]
  {
    var prev := PreviousMonth(YearMonth(now.year, now.month));
    var prevOkr := store.Get(user.userId, prev.year, prev.month);
    var baseline := 0.0;
    if prevOkr.None? {
      store.Insert(user.userId, prev.year, prev.month, 0.0);
    } else {
      baseline := prevOkr.value;
    }
    if IsQuarterStartMonth(now.month) {
      user.movement := current;
    } else {
      user.movement := Round2(current - baseline);
    }
    store.Upsert(user.userId, now.year, now.month, current);
  }

  /**
   * The worked example: one goal at 80, a stored baseline of 20 in May
   * (not a quarter start), a weekly check-in and a key result give
   * movement 60 and score 3.25.
   */
  lemma WorkedExample()
    ensures MovementFor(80.0, Some(20.0), 5) == 60.0
    ensures Score(1, 1, MovementFor(80.0, Some(20.0), 5)) == 3.25
  {
    assert (6000.0).Floor == 6000;
  }
}
