/** The in-memory workout log: an ordered list of records and a weekly goal,
    changed in place by add, update, delete and goal setting. Every console
    read becomes the parameter `input`, the lines a user types in order; a
    missing line is end of input. "Today" is the parameter `today`. */
module FitnessLogs {
  import opened Numerals
  import opened Workouts
  import opened LogSpec

  /** What an update reports. A failed read or parse is caught inside the
      update; an unknown id is a normal negative answer. */
  datatype UpdateOutcome = Updated | UpdateFailed(error: InputError) | NotFound

  /** What `setAndTrackGoal` reports: the minutes achieved this week and the
      goal, or that the goal line could not be read (that exception is not
      caught by the log and ends the session). */
  datatype GoalOutcome = Progress(achieved: int, goal: int) | GoalInputMissing

  /** The class of an added record: Outdoor or Gym. */
  function AddShape(isOutdoor: bool): Shape {
    if isOutdoor then OutdoorShape else GymShape
  }

  class FitnessLog {
    var logs: seq<WorkoutLog>
    var weeklyGoal: int

    /** Every stored record has a positive id, is an Outdoor or a Gym record,
        and holds `Int` durations and calories. */
    ghost predicate Valid()
      reads this
    {
      WellFormed(logs)
    }

    constructor ()
      ensures Valid()
      ensures logs == [] && weeklyGoal == 0
    {
      logs := [];
      weeklyGoal := 0;
    }

    /** `addWorkout`: reads the fields, then appends a record with id
        `size + 1` dated today. On any failed read or parse the list is left
        as it was, since the append is the last step. */
    method AddWorkout(isOutdoor: bool, today: int, input: seq<string>) returns (r: Result<WorkoutLog>)
      requires Valid()
      modifies this
      ensures Valid() && weeklyGoal == old(weeklyGoal)
      ensures var e := ReadEntry(AddShape(isOutdoor), input);
        if e.Ok? then r == Ok(Stamp(|old(logs)| + 1, today, e.value)) && logs == Appended(old(logs), today, e.value)
        else r == Err(e.error) && logs == old(logs)
      ensures r.Ok? ==> r.value.id == |old(logs)| + 1 && r.value.date == today
      ensures r.Ok? ==> ShapeOf(r.value.variant) == AddShape(isOutdoor)
      ensures Numbered(old(logs)) ==> Numbered(logs)
    {
      var id := |logs| + 1;
      var e := ReadEntry(AddShape(isOutdoor), input);
      if e.Err? {
        r := Err(e.error);
        return;
      }
      var log := Stamp(id, today, e.value);
      logs := logs + [log];
      r := Ok(log);
    }

    /** `displayLogs`: the lines printed, "No logs." for an empty log and
        otherwise the summaries of the records in list order. */
    method DisplayLogs(showDate: int -> string) returns (lines: seq<string>)
      ensures logs == [] ==> lines == ["No logs."]
      ensures logs != [] ==> lines == Listing(logs, showDate) && |lines| == |logs|
    {
      if |logs| == 0 {
        lines := ["No logs."];
        return;
      }
      var entries := logs;
      lines := [];
      var i := 0;
      while i < |entries|
        invariant 0 <= i <= |entries|
        invariant lines == Listing(entries[..i], showDate)
      {
        ListingStep(entries, i, showDate);
        lines := lines + [Summary(entries[i], showDate)];
        i := i + 1;
      }
      assert entries[..i] == entries;
    }

    /** `updateLogByInput`: replaces the first record with the id by one read
        from `input`, keeping the id and the record's class and dating it
        today. Nothing changes when no record has the id or a read or parse
        fails. */
    method UpdateLogByInput(id: int, today: int, input: seq<string>) returns (r: UpdateOutcome)
      requires Valid()
      modifies this
      ensures Valid() && weeklyGoal == old(weeklyGoal)
      ensures r == NotFound <==> !HasId(old(logs), id)
      ensures !r.Updated? ==> logs == old(logs)
      ensures HasId(old(logs), id) ==>
        var i := IndexOfFirst(old(logs), id);
        var e := ReadEntry(ShapeOf(old(logs)[i].variant), input);
        && (e.Err? ==> r == UpdateFailed(e.error))
        && (e.Ok? ==> r == Updated && logs == old(logs)[i := Stamp(id, today, e.value)])
      ensures r.Updated? ==>
        var i := IndexOfFirst(old(logs), id);
        && |logs| == |old(logs)|
        && (forall j :: 0 <= j < |logs| && j != i ==> logs[j] == old(logs)[j])
        && logs[i].id == id && logs[i].date == today
        && ShapeOf(logs[i].variant) == ShapeOf(old(logs)[i].variant)
      ensures Numbered(old(logs)) ==> Numbered(logs)
    {
      var index := IndexOfFirst(logs, id);
      if index == -1 {
        r := NotFound;
        return;
      }
      var oldLog := logs[index];
      assert oldLog in logs;
      var e := ReadEntry(ShapeOf(oldLog.variant), input);
      if e.Err? {
        r := UpdateFailed(e.error);
        return;
      }
      var log := Stamp(id, today, e.value);
      assert GoodRecord(log);
      logs := logs[index := log];
      r := Updated;
      if Numbered(old(logs)) {
        ReplaceKeepsNumbering(old(logs), index, Stamp(id, today, e.value));
      }
    }

    /** `deleteLog`: removes every record with the id, as `removeIf` does,
        and reports whether any was removed. */
    method DeleteLog(id: int) returns (removed: bool)
      requires Valid()
      modifies this
      ensures Valid() && weeklyGoal == old(weeklyGoal)
      ensures logs == Without(old(logs), id)
      ensures removed == HasId(old(logs), id)
      ensures !HasId(logs, id)
    {
      var entries := logs;
      var kept: seq<WorkoutLog> := [];
      removed := false;
      var i := 0;
      while i < |entries|
        invariant 0 <= i <= |entries|
        invariant kept == Without(entries[..i], id)
        invariant removed == HasId(entries[..i], id)
        invariant logs == entries == old(logs) && weeklyGoal == old(weeklyGoal)
      {
        WithoutStep(entries, i, id);
        HasIdStep(entries, i, id);
        if entries[i].id == id {
          removed := true;
        } else {
          kept := kept + [entries[i]];
        }
        i := i + 1;
      }
      assert entries[..i] == entries;
      logs := kept;
      WithoutWellFormed(old(logs), id);
      assert forall w :: w in logs ==> w.id != id;
    }

    /** `showWeeklySummary`: how many records fall in the last seven days and
        their total minutes, summed as Kotlin `Int`. */
    method ShowWeeklySummary(today: int) returns (count: nat, total: int)
      ensures count == |WeekLogs(logs, today)|
      ensures total == ToInt32(SumDurations(WeekLogs(logs, today)))
      ensures IsInt32(SumDurations(WeekLogs(logs, today))) ==>
        total == SumDurations(WeekLogs(logs, today))
    {
      var weekLogs := WeekLogs(logs, today);
      count := |weekLogs|;
      total := SumOf(0, weekLogs);
      WeeklyTotalIsSum(logs, today);
    }

    /** `setAndTrackGoal`: asks for a goal only while it is 0 (a line that is
        not a number sets 0), then reports progress. */
    method SetAndTrackGoal(today: int, input: seq<string>) returns (r: GoalOutcome)
      modifies this
      ensures logs == old(logs)
      ensures r.GoalInputMissing? <==> old(weeklyGoal) == 0 && input == []
      ensures r.GoalInputMissing? ==> weeklyGoal == old(weeklyGoal)
      ensures r.Progress? ==> NextGoal(old(weeklyGoal), input) == Some(weeklyGoal)
      ensures r.Progress? ==> r.goal == weeklyGoal && r.achieved == WeeklyTotal(logs, today)
      ensures weeklyGoal != old(weeklyGoal) ==>
        old(weeklyGoal) == 0 && input != [] && ParseInt(input[0]) == Some(weeklyGoal)
    {
      if weeklyGoal == 0 {
        if input == [] {
          r := GoalInputMissing;
          return;
        }
        var goal := match ParseInt(input[0]) case Some(g) => g case None => 0;
        SetGoal(goal);
      }
      var achieved, goal := TrackProgress(logs, today);
      r := Progress(achieved, goal);
    }

    /** `setGoal`: overwrites the goal, whatever it was. */
    method SetGoal(minutes: int)
      modifies this
      ensures weeklyGoal == minutes && logs == old(logs)
    {
      weeklyGoal := minutes;
    }

    /** `trackProgress`: the minutes the given records log in the last seven
        days, beside the stored goal. */
    method TrackProgress(entries: seq<WorkoutLog>, today: int) returns (achieved: int, goal: int)
      ensures achieved == WeeklyTotal(entries, today)
      ensures achieved == ToInt32(SumDurations(WeekLogs(entries, today)))
      ensures goal == weeklyGoal
    {
      achieved := SumOf(0, WeekLogs(entries, today));
      goal := weeklyGoal;
      WeeklyTotalIsSum(entries, today);
    }
  }
}
