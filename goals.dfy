/**
 * `UserManager.calculate_avg_goals`: each user's current OKR value is the
 * arithmetic mean of the `current_value` of their `type == 'goals'` rows.
 */
module Goals {
  import opened Records

  /** `goal.get("current_value", 0)`: the value, or 0 when the frame has no such column. */
  function GoalValue(r: GoalRow, hasValue: bool): real {
    if hasValue then r.currentValue else 0.0
  }

  predicate IsGoal(r: GoalRow) {
    r.kind == "goals"
  }

  /** The values of `uid`'s goal rows, in row order. */
  function GoalValues(rows: seq<GoalRow>, hasValue: bool, uid: string): seq<real> {
    if |rows| == 0 then []
    else
      var last := rows[|rows| - 1];
      GoalValues(rows[..|rows| - 1], hasValue, uid)
        + (if IsGoal(last) && last.userId == uid then [GoalValue(last, hasValue)] else [])
  }

  /** The `defaultdict(list)` after the loop has appended the goal rows among `rows`. */
  function Grouped(rows: seq<GoalRow>, hasValue: bool): map<string, seq<real>> {
    if |rows| == 0 then map[]
    else
      var g := Grouped(rows[..|rows| - 1], hasValue);
      var last := rows[|rows| - 1];
      if IsGoal(last) then
        g[last.userId := (if last.userId in g then g[last.userId] else []) + [GoalValue(last, hasValue)]]
      else g
  }

  function Sum(s: seq<real>): real {
    if |s| == 0 then 0.0 else Sum(s[..|s| - 1]) + s[|s| - 1]
  }

  /** `sum(values) / len(values) if values else 0`. */
  function Mean(s: seq<real>): real {
    if |s| == 0 then 0.0 else Sum(s) / (|s| as real)
  }

  /** Whether the cycle frame can be read at all: non-empty, with `type` and `user_id` columns. */
  predicate Readable(t: Table<GoalRow>) {
    !t.Empty() && "type" in t.columns && "user_id" in t.columns
  }

  /** The map `calculate_avg_goals` returns. */
  function AvgGoals(t: Table<GoalRow>): map<string, real> {
    if Readable(t) then
      var g := Grouped(t.rows, "current_value" in t.columns);
      map u | u in g :: Mean(g[u])
    else map[]
  }

  /** `avg_goals.get(user_id, 0)`. */
  function CurrentOkr(avg: map<string, real>, uid: string): real {
    if uid in avg then avg[uid] else 0.0
  }

  /** The grouping holds exactly the users with a goal row, each with all their values in order. */
  lemma {:induction false} GroupedIsPerUserValues(rows: seq<GoalRow>, hasValue: bool, uid: string)
    ensures uid in Grouped(rows, hasValue) <==> |GoalValues(rows, hasValue, uid)| > 0
    ensures uid in Grouped(rows, hasValue) ==> Grouped(rows, hasValue)[uid] == GoalValues(rows, hasValue, uid)
  {
    if |rows| > 0 {
      GroupedIsPerUserValues(rows[..|rows| - 1], hasValue, uid);
    }
  }

  /** A user has goal values exactly when some goal row belongs to them. */
  lemma {:induction false} GoalValuesNonEmpty(rows: seq<GoalRow>, hasValue: bool, uid: string)
    ensures |GoalValues(rows, hasValue, uid)| > 0 <==>
            exists i :: 0 <= i < |rows| && IsGoal(rows[i]) && rows[i].userId == uid
  {
    if |rows| > 0 {
      var init := rows[..|rows| - 1];
      GoalValuesNonEmpty(init, hasValue, uid);
      if exists i :: 0 <= i < |rows| && IsGoal(rows[i]) && rows[i].userId == uid {
        var i :| 0 <= i < |rows| && IsGoal(rows[i]) && rows[i].userId == uid;
        if i < |init| {
          assert init[i] == rows[i];
        }
      }
    }
  }

  /**
   * The averages map: a user is a key exactly when the frame is readable and
   * holds a goal row of theirs, and the value is the mean of those rows' values.
   */
  lemma AvgGoalsSpec(t: Table<GoalRow>, uid: string)
    ensures uid in AvgGoals(t) <==>
            Readable(t) && exists i :: 0 <= i < |t.rows| && IsGoal(t.rows[i]) && t.rows[i].userId == uid
    ensures uid in AvgGoals(t) ==>
            AvgGoals(t)[uid] == Mean(GoalValues(t.rows, "current_value" in t.columns, uid))
  {
    var hasValue := "current_value" in t.columns;
    GroupedIsPerUserValues(t.rows, hasValue, uid);
    GoalValuesNonEmpty(t.rows, hasValue, uid);
  }

  lemma {:induction false} SumBounds(s: seq<real>, lo: real, hi: real)
    requires forall i :: 0 <= i < |s| ==> lo <= s[i] <= hi
    ensures (|s| as real) * lo <= Sum(s) <= (|s| as real) * hi
  {
    if |s| > 0 {
      var init := s[..|s| - 1];
      SumBounds(init, lo, hi);
      assert (|s| as real) * lo == (|init| as real) * lo + lo;
      assert (|s| as real) * hi == (|init| as real) * hi + hi;
    }
  }

  /** The mean of values in [lo, hi] lies in [lo, hi]; for 0-100 completions it stays a percentage. */
  lemma MeanBounds(s: seq<real>, lo: real, hi: real)
    requires |s| > 0
    requires forall i :: 0 <= i < |s| ==> lo <= s[i] <= hi
    ensures lo <= Mean(s) <= hi
  {
    SumBounds(s, lo, hi);
    var n := |s| as real;
    assert Mean(s) * n == Sum(s);
  }
}
