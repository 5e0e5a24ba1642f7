# OKR scoring engine — a verified Dafny model

The engine rates each employee once a month from four record sets: accounts,
key results, check-ins and the goals of the current OKR cycle. For each user it decides:

- whether they own an OKR (`co_OKR`);
- whether their check-ins inside a time window carry at least three distinct ISO week numbers (`checkin`). The window defaults to the start of the current quarter up to the end of today;
- how far their goals moved since last month (`dich_chuyen_OKR`). Snapshots of each month's value are kept in an external store, and the current month is written back to it.

It then turns those three signals into a score in [0.5, 4.5]. The spreadsheet export puts each movement in one of seven report rows (7 to 13). That table has no gaps. The scoring table does have gaps, so the two disagree on five one-point-wide intervals.

The modules follow the program's parts:

| file | module | models |
|---|---|---|
| `records.dfy` | `Records` | the tabulated inputs (a data frame = a column set + rows), `Option` |
| `calendar.dfy` | `Calendar` | dates, epoch days, ISO 8601 week numbers, `get_current_quarter_start`, the previous month |
| `scoring.dfy` | `Scoring` | the bonus and score rule of `calculate_score`, the movement bucket of `export_to_excel` |
| `checkins.dfy` | `Checkins` | the window and the three-distinct-weeks rule of `has_weekly_checkins` |
| `goals.dfy` | `Goals` | the per-user mean of goal values of `calculate_avg_goals` |
| `snapshots.dfy` | `Snapshots` | the movement formula, the snapshot store and the effect of one movement run on it |
| `okr.dfy` | `Okr` | the `User` and `UserManager` classes, whose methods update users in place |

`User` and `UserManager` are classes whose methods mutate fields, as in the source. Each loop in the source is a `while` loop, proved against a specification function:

- `create_users`, `has_weekly_checkins` and `calculate_avg_goals` loop over rows;
- `update_checkins`, `calculate_scores` and `update_okr_movement` loop over users.

Each specification function is characterised by lemmas of its own. The snapshot store is a class holding a `map<(string, int, int), real>`. The ISO week number is computed from epoch seconds with the proleptic Gregorian calendar that Python's `datetime` uses. The year of a day is estimated from the mean Gregorian year and then corrected, and lemmas prove that it is the one year whose January 1 and next January 1 bracket the day. From that, every week number lies in 1..53, January 4 is always in week 1, and consecutive weeks number consecutively until the next Thursday starts a new year.

Where the docstrings and the code differ, the model follows the code:

- The score tops out at 4.5, not 5.
- The check-in buckets are keyed by the ISO week number alone, so week 2 of one year and week 2 of the next are one bucket.
- Because the name column is guarded, a name is never the `'Unknown'` default.
- The zero backfill of a missing previous-month snapshot happens in quarter-start months too, even though those months do not use it.

## Model

| member | source | states |
|---|---|---|
| Calendar.QuarterStart | okr.py:60-75 | the result is day 1 of the same year, its month is one of 1/4/7/10, and it is at most `today`'s month and less than 3 months before it |
| Calendar.QuarterStartMonthIsOwnStart | okr.py:66-75 | a month is a quarter-start month exactly when the quarter start of a date in it falls in that same month |
| Calendar.PreviousMonth | okr.py:409-414 | the previous month lies in 1..12 and is exactly one month before (January wraps to December of the previous year) |
| Calendar.DayStart | okr.py:363 | the window's lower bound is midnight of the start date: a multiple of 86400 whose day is the date's epoch day |
| Calendar.DayEnd | okr.py:364 | the window's upper bound is the last whole second of the end date, one second before the next midnight |
| Calendar.WeekMonday | okr.py:383 | the Monday of a day's ISO week is at most 6 days before it and is a Monday |
| Calendar.SameWeekSameNumber | okr.py:383 | all days of one Monday-to-Sunday week have the same ISO week number |
| Calendar.NewYearClosedForm | okr.py:373 | the day-number algorithm puts January 1 of every year at 365 days a year plus one per Gregorian leap year since year 1 |
| Calendar.YearLength | okr.py:373 | a year has 366 days when divisible by 4 but not by 100 unless by 400, and 365 otherwise |
| Calendar.NewYearMonotone | okr.py:373 | a later year starts on a later day |
| Calendar.YearOfDay | okr.py:373 | the year of a day is one whose January 1 is at or before the day and whose next January 1 is after it |
| Calendar.YearOfDayUnique | okr.py:373 | that year is the only such year |
| Calendar.WeekOfThursday | okr.py:383 | the week number of a Thursday lies in 1..53 |
| Calendar.IsoWeekOfDay | okr.py:383 | the ISO week number of a day lies in 1..53 |
| Calendar.IsoWeek | okr.py:373-383 | the ISO week number of a timestamp lies in 1..53 |
| Calendar.JanuaryFourthInWeekOne | okr.py:383 | January 4 of every year is in week 1, as ISO 8601 defines week 1 |
| Calendar.NextWeek | okr.py:383 | the next week's number is one higher when both weeks' Thursdays are in the same year, and 1 otherwise |
| Calendar.WeekOfNewYear2021 | okr.py:383 | epoch day 18628 (2021-01-01, a Friday) is in week 53, and its week's Thursday is in 2020 |
| Calendar.Week2Of2024 | okr.py:383 | epoch day 19732 (2024-01-10) is in week 2, and its week's Thursday is in 2024 |
| Calendar.Week2Of2025 | okr.py:383 | epoch day 20096 (2025-01-08) is in week 2, and its week's Thursday is in 2025 |
| Calendar.Week3Of2025 | okr.py:383 | epoch day 20103 (2025-01-15) is in week 3 of 2025 |
| Scoring.MovementBonus | okr.py:293-306 | the bonus is 0 exactly in the five gaps [25,26), [30,31), [50,51), [80,81) and [99,100), and always lies in [0, 2.5] |
| Scoring.BonusTable | okr.py:293-306 | the bonus on each interval: 0.15, 0.25, 0.5, 0.75, 1.25, 1.5, 2.5, and 0 in the gaps |
| Scoring.BonusMonotoneOutsideGaps | okr.py:293-306 | outside the gaps, a larger movement never earns a smaller bonus |
| Scoring.Score | okr.py:278-308 | the score lies in [0.5, 4.5], and after removing the bonus it is one of 0.5, 1.0, 1.5, 2.0 |
| Scoring.ScoreMonotoneInFlags | okr.py:280-288 | a check-in adds exactly 0.5 and owning an OKR adds exactly 1, so raising either flag never lowers the score |
| Scoring.ScoreExample | okr.py:278-308 | check-in, OKR and movement 60 score 3.25 |
| Scoring.ReportBucket | okr.py:635-656 | every movement gets exactly one row in 7..13, that row's printed points, and lies between the row's lower threshold and the next row's |
| Scoring.ReportRowMonotone | okr.py:635-656 | row and points never decrease as movement grows |
| Scoring.BonusVersusReport | okr.py:635-656 | the report's points equal the score bonus exactly outside the scoring gaps; inside the gaps the report awards positive points where the score awards none |
| Scoring.GapWitnesses | okr.py:635-656 | movement 25 gets 0.25 in the report but no bonus; movement 99.5 gets 1.5 in the report but no bonus |
| Checkins.CheckinWindow | okr.py:356-364 | the window runs from midnight of the start date (default: the quarter start) to the last second of the end date (default: today) |
| Checkins.UserTimesMembers | okr.py:369-374 | a timestamp is collected exactly when the user has a check-in row with that timestamp |
| Checkins.InWindowMembers | okr.py:377 | a timestamp is kept exactly when it was collected and lies in the inclusive window |
| Checkins.NoneInWindowFails | okr.py:379-380 | with no check-in inside the window the rule fails |
| Checkins.WeeksAtMostCheckins | okr.py:383 | there are never more distinct week numbers than in-window check-ins |
| Checkins.QualifyingNeedsThreeCheckins | okr.py:383-386 | qualifying takes at least three in-window check-ins |
| Checkins.ThreeWeeksQualify | okr.py:383-386 | three in-window check-ins with pairwise different week numbers qualify |
| Checkins.TwoWeeksFail | okr.py:383-386 | in-window check-ins confined to two week numbers never qualify |
| Checkins.OutsideRowsIgnored | okr.py:369-377 | inserting rows of other users or rows outside the window anywhere in the table never changes the set of weeks |
| Checkins.SharedWeekNumberFails | okr.py:383-386 | three check-ins of which two share a week number never qualify |
| Checkins.WeekNumbersCollapseAcrossYears | okr.py:383 | check-ins in week 2 of 2024, week 2 of 2025 and week 3 of 2025 count as two weeks and do not qualify |
| Goals.GroupedIsPerUserValues | okr.py:441-448 | the grouping has a key exactly for users with a goal row, holding all their values in row order |
| Goals.GoalValuesNonEmpty | okr.py:444-448 | a user has goal values exactly when some `goals` row belongs to them |
| Goals.AvgGoalsSpec | okr.py:439-456 | a user is in the averages map exactly when the frame is readable and holds a goal row of theirs; the value is the mean of their values, with a missing `current_value` column read as 0 |
| Goals.MeanBounds | okr.py:451-454 | the mean of values in [lo, hi] lies in [lo, hi] |
| Snapshots.Round2 | okr.py:434 | the result is a whole number of hundredths within 0.005 of the input |
| Snapshots.MovementFor | okr.py:429-434 | in months 1/4/7/10 the movement is the current value; otherwise it is within 0.005 of the current value minus the baseline, with a missing baseline read as 0 |
| Snapshots.MissingBaselineIsZero | okr.py:424-425 | a missing baseline and a stored 0 give the same movement |
| Snapshots.QuarterStartIgnoresBaseline | okr.py:430-431 | in a quarter-start month the baseline plays no part |
| Snapshots.AfterRunSpec | okr.py:416-437 | after a run, each user's current month holds their current value, and each user has a previous-month entry (the old one, or 0). Other entries keep their value, and nothing else is added |
| Snapshots.ExistingBaselineKept | okr.py:423-427 | an existing previous-month snapshot is never overwritten |
| Snapshots.AfterRunStep | okr.py:416-437 | the previous-month entry a user reads is the one from before the run; backfilling it and then writing the current month extends the run by that user |
| Snapshots.SnapshotStore.Get | okr.py:458-477 | a read returns a value exactly when the key is stored, and then it is the stored value |
| Snapshots.SnapshotStore.Insert | okr.py:479-493 | the key then holds the value; nothing else changes |
| Snapshots.SnapshotStore.Upsert | okr.py:495-524 | read, then insert or update: either way the key then holds the value and nothing else changes |
| Okr.ZeroOkr | okr.py:272 | the OKR map has exactly the months 1..12, all 0 |
| Okr.NameMapKeys | okr.py:327-329 | the name map's keys are exactly the account ids |
| Okr.NameMapLastWins | okr.py:328-329 | an id maps to the name of its last account row |
| Okr.UserIdsSpec | okr.py:333-346 | the users are exactly the non-empty key-result owners that have an account, each once |
| Okr.User.constructor | okr.py:264-272 | the fields take the given values (defaults 1, 0, 0, 0) and the OKR map is all zero |
| Okr.User.UpdateOkr | okr.py:274-276 | months 1..12 are set to the value; any other month leaves the map unchanged |
| Okr.User.CalculateScore | okr.py:278-308 | the stored score is `Score` of the user's signals and lies in [0.5, 4.5] |
| Okr.UserManager.constructor | okr.py:317-331 | the name map is built from the account rows (last row wins), and the users are `create_users`' result |
| Okr.UserManager.CreateUsers | okr.py:333-346 | one fresh user per key-result owner with an account, filed under their id, with their account name and the initial state |
| Okr.UserManager.HasWeeklyCheckins | okr.py:354-386 | the result is the three-distinct-week-numbers rule over the user's check-ins in the window |
| Okr.UserManager.UpdateCheckins | okr.py:348-352 | qualifying users get `checkin = 1`; others keep their value; the frame lets only `checkin` change |
| Okr.UserManager.CalculateScores | okr.py:388-391 | every user's score is `Score` of their signals; the frame lets only `score` change |
| Okr.UserManager.CalculateAvgGoals | okr.py:439-456 | the result is the averages map `AvgGoals` of the cycle frame |
| Okr.UserManager.UpdateOkrMovement | okr.py:397-437 | no effect without cycle data. Otherwise every user's movement follows `MovementFor` from the snapshot read before the run, and the store becomes `AfterRun` of the old store. The frame lets only `movement` and the store change |
| Okr.MoveUsers | okr.py:416-437 | after the loop over all users, the store is `AfterRun` of the old store, and every user's movement follows `MovementFor` from the snapshot read before the loop |
| Okr.MoveUser | okr.py:416-437 | one user's step: their movement, and the store with a backfilled baseline and the upserted current month |
| Okr.WorkedExample | okr.py:429-434 | a goal at 80 against a May baseline of 20 gives movement 60 and, with check-in and OKR, score 3.25 |

## Left out

- The Streamlit UI, `display_user_metrics`, `generate_data_table` and `main`: presentation only.
- The HTTP fetchers, pagination and caching that build the data frames: network I/O. The model takes already-tabulated rows. A data frame is a column set plus rows, and a row field whose column is missing is never read.
- Snapshots.SnapshotStore.Get: the HTTP transport of the snapshot store is not modelled, and reads never fail: a stored key always reads back its value. In the source a failed request returns None, as an absent key does (okr.py:475-477). For a stored previous month that read fails, the run then uses baseline 0 and sends an insert of 0 for the existing key, and the movement becomes the current value. With a May baseline of 20 and a current value of 80 the source gives 80 where the model gives 60. Write failures and concurrent runs are not modelled either.
- The openpyxl workbook building and styling of `export_to_excel`. Only its movement-bucket branch is modelled.
- `get_users`: it only lists the users map's values.
- The wall clock. `today` and `now` are parameters.
- Dict iteration order. The users map is iterated in an arbitrary order. Each user's step touches only that user and that user's store keys, so the outcome does not depend on the order.
- NaN and non-numeric values in the frames, and the `str()` / `float()` conversions of ids and values. Ids arrive as strings and values as reals.
- Floating point: movements, values and scores are exact reals. `Round2` rounds half-even on exact reals.
- Okr.User.CalculateScore: the final `round(score, 2)` is not applied, because every addend is a multiple of 0.05 and the exact sum is already a whole number of hundredths.
- Checkins.CheckinWindow: timestamps are whole epoch seconds. A fractional-second check-in in the last second of the end date is not modelled.
- Okr.MoveUsers: the loop of `update_okr_movement` is split into its own method. `Okr.MoveUser` is its loop body, and `Okr.MoveOne` is that body with the loop invariant it preserves. None of the three is a separate operation in the source.
- Calendar: `Date.Valid` bounds the day by 31 and does not check month lengths. Every date the engine builds is a real date.
- Calendar.IsoWeek: Python's `datetime` covers only the years 1 to 9999, and `datetime.fromtimestamp` raises for a timestamp outside them (okr.py:373). The model gives every integer timestamp a week number.
