# Daily Fitness Log Manager: verified model of the workout log

This project models the in-memory workout log of the Daily Fitness Log Manager,
a console tool written in Kotlin. The log is the class `FitnessLog`. It holds an
ordered, mutable list of workout records and a weekly goal in minutes, where 0
means "unset". Records are a `WorkoutLog` base class with two subclasses:
`OutdoorWorkout` adds a weather condition and `GymWorkout` adds the equipment
used.

The model has four modules:

- `Numerals` (`numerals.dfy`) covers the Kotlin `Int` behaviour the log relies on:
  - 32-bit wrap-around of addition, which `sumOf` uses;
  - `String.toInt()` / `toIntOrNull()` in radix 10, written `ParseInt`;
  - `Int.toString()` in string templates, written `IntToString`.

  It also proves that every `Int` written by `IntToString` reads back unchanged through `ParseInt`.
- `Workouts` (`workouts.dfy`) holds the rest of the record code:
  - the record datatype: the shared fields plus a variant payload `Base | Outdoor(weather) | Gym(equipment)`;
  - `ReadEntry`, which reads a record's fields from console lines in prompt order;
  - the polymorphic one-line summaries.
- `LogSpec` (`log_spec.dfy`) gives what each operation computes, as functions over the list as a value:
  - the first-match lookup and the `removeIf` filter;
  - the weekly filter and the `Int` sum;
  - the goal rule.

  Its lemmas prove the properties the log promises.
- `FitnessLogs` (`fitness_log.dfy`) is the class `FitnessLog` itself:
  - a `seq` field `logs` and an `int` field `weeklyGoal`, which the methods change in place;
  - `Valid()`, the invariant the class keeps: every stored record has a positive id, is an
    Outdoor or a Gym record, and holds `Int` durations and calories.

Inputs are modelled as follows:
- Every console read (`safeRead`) becomes the parameter `input`: the lines the
  user types, in order. Running out of lines is end of input (`MissingInput`).
  A numeric line that does not parse is `InvalidNumber`.
- The current date is the parameter `today`. Dates are day numbers, so
  `date.isAfter(today.minusDays(7))` becomes `date > today - 7`.
- How a date is written (`LocalDate.toString()`) is the parameter `showDate`.

Behaviour of the code worth knowing when reading the model:
- **Delete removes every match.** `deleteLog` calls `removeIf`, which removes
  every record with the id, not only the first. `DeleteLog` does the same.
- **Ids can repeat.** A new record's id is `logs.size + 1`, so after a delete
  an add can hand out an id that a remaining record already has.
  `IdReuseAfterDelete` shows such a collision.
- **A goal is set once.** `setAndTrackGoal` asks for a goal only while it is
  0, and it accepts any number, including a negative one. A negative goal
  counts as set, so it can never be changed afterwards.
- **The update's `else` branch is dead.** That branch (`src/Main.kt:72`)
  would build a plain `WorkoutLog`, but `Valid()` shows that no plain
  `WorkoutLog` is ever stored. `ReadEntry` still models that branch as
  `BaseShape`, which reads no fifth line.

## Model

| member | source | states |
|---|---|---|
| `Numerals.ParseInt` | src/Main.kt:31-32 | A line parses exactly when it is a numeral (an optional '-' or '+', then at least one decimal digit) whose value fits in an `Int`. The result is that value, negated after a '-', so "+5" and "007" give 5 and 7. |
| `Numerals.NatToString` | src/Main.kt:121 | The text of a number is a non-empty string of digits whose decimal value is the number, with no leading zero: it starts with '0' only for 0 itself, which is written "0". |
| `Numerals.ParseIntToString` | src/Main.kt:121 | Every `Int` written into a summary reads back unchanged through `toInt()`. |
| `Numerals.WrapAdd` | src/Main.kt:88 | Wrapping after each `Int` addition gives the same result as wrapping the exact sum once. |
| `Workouts.ReadEntry` | src/Main.kt:29-39 | Reading succeeds exactly when all lines for the shape are present and both duration and calories parse. `InvalidNumber` comes exactly from the first numeric line that does not parse. The fields come from the lines in prompt order, and the variant has the requested shape. |
| `Workouts.OutdoorSummaryNamesWeather` | src/Main.kt:129-131 | An Outdoor summary contains `Weather: <weather>`, which ends the line. |
| `Workouts.GymSummaryNamesEquipment` | src/Main.kt:138-140 | A Gym summary contains `Equipment: <equipment>`, which ends the line. |
| `Workouts.SummaryShowsId` | src/Main.kt:120-122 | The id appears between `[` and `]` right after the date and parses back to the record's id. |
| `LogSpec.IndexOfFirst` | src/Main.kt:53 | The result is -1 exactly when no record has the id. Otherwise it is the index of a record with the id, and no earlier record has it. |
| `LogSpec.AddAllNumbers` | src/Main.kt:28-40 | A run of adds with no delete keeps the earlier records and appends records numbered on from the old length. From an empty log, N adds give ids 1..N. |
| `LogSpec.ReplaceKeepsNumbering` | src/Main.kt:63-73 | Replacing a record with one that has the same id keeps ids 1..N. |
| `LogSpec.ListingAt` | src/Main.kt:47-50 | Line i of the listing is the summary of record i, built by that record's own class. |
| `LogSpec.Without` | src/Main.kt:82 | After delete, a record remains exactly when it was in the log and has a different id. No record with the id is left. |
| `LogSpec.WithoutConcat` | src/Main.kt:82 | Delete works piecewise over a split list, so the surviving records keep their relative order. |
| `LogSpec.WithoutUnchanged` | src/Main.kt:82-83 | Delete leaves the list identical exactly when no record has the id. |
| `LogSpec.WithoutWellFormed` | src/Main.kt:82 | Delete keeps the log's record invariant. |
| `LogSpec.IdReuseAfterDelete` | src/Main.kt:28 | Add two records, delete id 1, then add again: the new record gets id 2, the same as a remaining record. Deleting id 2 then removes both. |
| `LogSpec.WeekLogs` | src/Main.kt:87 | This week's records are exactly the records dated after today minus 7 days. |
| `LogSpec.SumOfWraps` | src/Main.kt:88 | Kotlin's `sumOf` accumulator, wrapping on every addition, ends at the exact sum wrapped to an `Int`. |
| `LogSpec.WeeklyTotalIsSum` | src/Main.kt:106-107 | The weekly total is the sum of this week's durations wrapped to an `Int`. It equals the exact sum when that sum fits, and it is 0 for an empty log. |
| `LogSpec.WeekSumAppend` | src/Main.kt:87-88 | A new record raises this week's sum by its duration if it falls in the week, and otherwise leaves the sum unchanged. |
| `LogSpec.SameDayTotal` | src/Main.kt:87-88 | An Outdoor workout of 30 minutes plus a Gym workout of 45 minutes added to an empty log on the same day give a weekly total of 75. |
| `LogSpec.NextGoal` | src/Main.kt:93-95 | A goal other than 0 stays. An unset goal takes the number the line parses to, or 0 for a line that is not a number. The goal changes only from 0 to a parsed number. No line to read gives no result. |
| `LogSpec.GoalKept` | src/Main.kt:93-95 | A goal other than 0 survives any run of later calls. |
| `LogSpec.GoalScenario` | src/Main.kt:93-103 | From an unset goal, a call with the line "100" sets the goal to 100, and a later call with "200" leaves it at 100. |
| `LogSpec.GoalSetOnce` | src/Main.kt:93-95 | The first call that sets a non-zero goal fixes it: later calls leave it unchanged. |
| `FitnessLogs.FitnessLog.constructor` | src/Main.kt:22-24 | A new log is empty, its goal is 0, and it satisfies the invariant. |
| `FitnessLogs.FitnessLog.AddWorkout` | src/Main.kt:26-45 | On success, exactly one record is appended, with id = old length + 1, dated today and of the requested class. On any failed read or parse the list is unchanged. The goal and the invariant are kept. |
| `FitnessLogs.FitnessLog.DisplayLogs` | src/Main.kt:47-50 | The output is "No logs." for an empty log. Otherwise it is one summary per record, in list order. |
| `FitnessLogs.FitnessLog.UpdateLogByInput` | src/Main.kt:52-79 | If no record has the id, the result is `NotFound` and nothing changes. A failed read or parse also changes nothing. Otherwise only the first match's index changes: the new record keeps the id and its class, is dated today, and takes the typed fields. |
| `FitnessLogs.FitnessLog.DeleteLog` | src/Main.kt:81-84 | The new list is the old one without the id's records, and none with the id remains. The result is true exactly when some record had the id. |
| `FitnessLogs.FitnessLog.ShowWeeklySummary` | src/Main.kt:86-90 | The count is the number of records from the last seven days. The total is their summed duration, wrapped to an `Int`. |
| `FitnessLogs.FitnessLog.SetAndTrackGoal` | src/Main.kt:92-98 | The goal changes only when it was 0 and the typed line parses. A missing line changes nothing. Progress reports this week's total and the goal. |
| `FitnessLogs.FitnessLog.SetGoal` | src/Main.kt:100-103 | Overwrites the goal unconditionally and leaves the list unchanged. |
| `FitnessLogs.FitnessLog.TrackProgress` | src/Main.kt:105-109 | The achieved minutes are the wrapped sum of the given records' durations over the last seven days, reported beside the stored goal. |

## Left out

- `dailyReminder` and the `launch` / `cancelAndJoin` coordination (src/Main.kt:4-13): coroutine concurrency on a timer, sharing no state with the log.
- The `main` menu loop and its `readln().toInt()` dispatch (src/Main.kt:148-189): console glue. The id given to update and delete is a parameter.
- `safeRead`, every `print` / `println` and the prompt texts: console I/O, replaced by the `input` lines and the returned outcomes. The model does not say how many lines a failed operation has already consumed.
- The wording of the error messages (src/Main.kt:43, src/Main.kt:76): the model returns the error kind instead.
- `LocalDate.now()` and the ISO-8601 text of a date: library calls, replaced by `today` and `showDate`.
- `fitnessCategories` (src/Main.kt:15): only a prompt hint, never enforced.
- The `GoalTrackable` interface (src/Main.kt:17-20): its two methods are modelled as methods of the class.
- Numerals.ParseInt: accepts ASCII digits only. The JVM's `Character.digit` behind `toInt()` also accepts other Unicode decimal digits.
- AddWorkout: the id `size + 1` is an unbounded integer. A list of 2^31 - 1 records, which would make the Kotlin `Int` overflow, is not modelled.
- SetAndTrackGoal: when the goal line cannot be read, the exception is not caught and ends the session. The model reports this as `GoalInputMissing` with the state unchanged and does not model the program ending.
