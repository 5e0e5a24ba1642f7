/**
 * The tabulated inputs of the scoring engine: the four record sets the
 * fetchers hand over as data frames, and an Option for absent values.
 */
module Records {

  datatype Option<T> = None | Some(value: T) {
    function GetOr(default: T): T {
      match this
      case Some(v) => v
      case None => default
    }
  }

  /**
   * A data frame: the names of the columns it has and its rows. A row type
   * carries every field the core reads; a field whose column is missing is
   * never consulted.
   */
  datatype Table<R> = Table(columns: set<string>, rows: seq<R>) {
    /** pandas' `DataFrame.empty`: no rows, or no columns. */
    predicate Empty() {
      |rows| == 0 || |columns| == 0
    }
  }

  /** An account: `str(id)` and its display name. */
  datatype AccountRow = AccountRow(id: string, name: string)

  /** A key result; only its owner, as `str(user_id)`, matters here. */
  datatype KrRow = KrRow(userId: string)

  /** A check-in event: owner, and `day` as whole epoch seconds. */
  datatype CheckinRow = CheckinRow(userId: string, day: int)

  /** A row of the cycle data: its `type`, owner and `current_value`. */
  datatype GoalRow = GoalRow(kind: string, userId: string, currentValue: real)
}
