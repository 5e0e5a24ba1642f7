/**
 * The two movement rule tables of the OKR report: the additive bonus that
 * `User.calculate_score` applies, and the gap-free point/row table that the
 * spreadsheet export writes. They disagree on five one-point-wide gaps.
 */
module Scoring {

  /** Movements that `calculate_score`'s branch chain leaves without a bonus. */
  predicate InScoreGap(movement: real) {
    || 25.0 <= movement < 26.0
    || 30.0 <= movement < 31.0
    || 50.0 <= movement < 51.0
    || 80.0 <= movement < 81.0
    || 99.0 <= movement < 100.0
  }

  /** Bonus for OKR movement (percentage points) in `calculate_score`. */
  function MovementBonus(movement: real): (bonus: real)
    ensures bonus == 0.0 <==> InScoreGap(movement)
    ensures 0.0 <= bonus <= 2.5
  {
    if movement < 10.0 then 0.15
    else if 10.0 <= movement < 25.0 then 0.25
    else if 26.0 <= movement < 30.0 then 0.5
    else if 31.0 <= movement < 50.0 then 0.75
    else if 51.0 <= movement < 80.0 then 1.25
    else if 81.0 <= movement < 99.0 then 1.5
    else if movement >= 100.0 then 2.5
    else 0.0
  }

  /**
   * The score of `calculate_score`: a base of 0.5, 0.5 for a weekly
   * check-in, 1 for owning an OKR, and the movement bonus. Every addend is
   * a multiple of 0.05, so the rounding to two decimals changes nothing.
   */
  function Score(coOkr: int, checkin: int, movement: real): (score: real)
    ensures 0.5 <= score <= 4.5
    ensures score - MovementBonus(movement) in {0.5, 1.0, 1.5, 2.0}
  {
    var s := 0.5;
    var s := if checkin == 1 then s + 0.5 else s;
    var s := if coOkr == 1 then s + 1.0 else s;
    s + MovementBonus(movement)
  }

  /** Setting either flag to 1 never lowers the score; each adds a fixed amount. */
  lemma ScoreMonotoneInFlags(coOkr: int, checkin: int, movement: real)
    ensures Score(coOkr, 1, movement) >= Score(coOkr, checkin, movement)
    ensures Score(1, checkin, movement) >= Score(coOkr, checkin, movement)
    ensures Score(coOkr, 1, movement) == Score(coOkr, 0, movement) + 0.5
    ensures Score(1, checkin, movement) == Score(0, checkin, movement) + 1.0
  {
  }

  /** Outside the gaps, a larger movement never earns a smaller bonus. */
  lemma BonusMonotoneOutsideGaps(m1: real, m2: real)
    requires m1 <= m2
    requires !InScoreGap(m1) && !InScoreGap(m2)
    ensures MovementBonus(m1) <= MovementBonus(m2)
  {
  }

  /** The full bonus table, read interval by interval. */
  lemma BonusTable(m: real)
    ensures m < 10.0 ==> MovementBonus(m) == 0.15
    ensures 10.0 <= m < 25.0 ==> MovementBonus(m) == 0.25
    ensures 26.0 <= m < 30.0 ==> MovementBonus(m) == 0.5
    ensures 31.0 <= m < 50.0 ==> MovementBonus(m) == 0.75
    ensures 51.0 <= m < 80.0 ==> MovementBonus(m) == 1.25
    ensures 81.0 <= m < 99.0 ==> MovementBonus(m) == 1.5
    ensures m >= 100.0 ==> MovementBonus(m) == 2.5
    ensures InScoreGap(m) ==> MovementBonus(m) == 0.0
  {
  }

  /** Points printed in the criteria column for report rows 7 to 13. */
  function RowPoints(row: int): real
    requires 7 <= row <= 13
  {
    match row
    case 7 => 0.15
    case 8 => 0.25
    case 9 => 0.5
    case 10 => 0.75
    case 11 => 1.25
    case 12 => 1.5
    case _ => 2.5
  }

  /** The cell the export writes for one user's movement: its points and its row. */
  datatype ReportCell = ReportCell(points: real, row: int)

  /** Lower movement bound of each report row (row 7 has none). */
  function RowFloor(row: int): real
    requires 8 <= row <= 13
  {
    match row
    case 8 => 10.0
    case 9 => 26.0
    case 10 => 31.0
    case 11 => 51.0
    case 12 => 81.0
    case _ => 100.0
  }

  /** Movement bucket of `export_to_excel`: thresholds 10/26/31/51/81/100, no gaps. */
  function ReportBucket(movement: real): (cell: ReportCell)
    ensures 7 <= cell.row <= 13
    ensures cell.points == RowPoints(cell.row)
    ensures cell.row > 7 ==> RowFloor(cell.row) <= movement
    ensures cell.row < 13 ==> movement < RowFloor(cell.row + 1)
  {
    if movement < 10.0 then ReportCell(0.15, 7)
    else if movement < 26.0 then ReportCell(0.25, 8)
    else if movement < 31.0 then ReportCell(0.5, 9)
    else if movement < 51.0 then ReportCell(0.75, 10)
    else if movement < 81.0 then ReportCell(1.25, 11)
    else if movement < 100.0 then ReportCell(1.5, 12)
    else ReportCell(2.5, 13)
  }

  /** The report row never moves up when the movement grows. */
  lemma ReportRowMonotone(m1: real, m2: real)
    requires m1 <= m2
    ensures ReportBucket(m1).row <= ReportBucket(m2).row
    ensures ReportBucket(m1).points <= ReportBucket(m2).points
  {
  }

  /**
   * The two tables agree everywhere except in the scoring gaps, where the
   * report awards points and the score awards none.
   */
  lemma BonusVersusReport(movement: real)
    ensures !InScoreGap(movement) <==> MovementBonus(movement) == ReportBucket(movement).points
    ensures InScoreGap(movement) ==> MovementBonus(movement) == 0.0 < ReportBucket(movement).points
  {
  }

  /** Two concrete disagreements: movement 25 and movement 99.5. */
  lemma GapWitnesses()
    ensures MovementBonus(25.0) == 0.0 && ReportBucket(25.0).points == 0.25
    ensures MovementBonus(99.5) == 0.0 && ReportBucket(99.5).points == 1.5
  {
  }

  /** The worked example: movement 60 with check-in and OKR scores 3.25. */
  lemma ScoreExample()
    ensures Score(1, 1, 60.0) == 3.25
  {
  }
}
