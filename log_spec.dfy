/** What the operations of `FitnessLog` compute, stated over the list of
    records as a value: the first-match lookup behind update, the filter
    behind delete, the weekly filter and sum, the goal rule, and the facts
    about ids and well-formed records that the operations keep. */
module LogSpec {
  import opened Numerals
  import opened Workouts

  // ---------------------------------------------------------------- ids

  predicate HasId(s: seq<WorkoutLog>, id: int) {
    exists i :: 0 <= i < |s| && s[i].id == id
  }

  /** `indexOfFirst { it.id == id }`: the position of the first record with
      the id, or -1 when there is none. */
  function IndexOfFirst(s: seq<WorkoutLog>, id: int): (r: int)
    ensures -1 <= r < |s|
    ensures r == -1 <==> !HasId(s, id)
    ensures r >= 0 ==> s[r].id == id && forall j :: 0 <= j < r ==> s[j].id != id
  {
    if s == [] then -1
    else if s[0].id == id then 0
    else
      var k := IndexOfFirst(s[1..], id);
      assert forall j :: 0 < j < |s| ==> s[j] == s[1..][j - 1];
      if k == -1 then -1 else k + 1
  }

  /** The ids run 1, 2, ..., |s| in list order. */
  predicate Numbered(s: seq<WorkoutLog>) {
    forall i :: 0 <= i < |s| ==> s[i].id == i + 1
  }

  /** The list after a successful add: the entry, dated `date`, with id
      `size + 1`, at the end. */
  function Appended(s: seq<WorkoutLog>, date: int, e: Entry): seq<WorkoutLog> {
    s + [Stamp(|s| + 1, date, e)]
  }

  /** A run of successful adds, each with its own date and entry, and no delete. */
  function AddAll(s: seq<WorkoutLog>, adds: seq<(int, Entry)>): seq<WorkoutLog>
    decreases |adds|
  {
    if adds == [] then s
    else AddAll(Appended(s, adds[0].0, adds[0].1), adds[1..])
  }

  /** Adds without deletes keep the earlier records and number the new ones
      on from the old length: from an empty log, N adds give ids 1..N. */
  lemma {:induction false} AddAllNumbers(s: seq<WorkoutLog>, adds: seq<(int, Entry)>)
    requires Numbered(s)
    ensures |AddAll(s, adds)| == |s| + |adds|
    ensures AddAll(s, adds)[..|s|] == s
    ensures Numbered(AddAll(s, adds))
    ensures forall i :: 0 <= i < |adds| ==>
      AddAll(s, adds)[|s| + i] == Stamp(|s| + i + 1, adds[i].0, adds[i].1)
    decreases |adds|
  {
    if adds != [] {
      var s' := Appended(s, adds[0].0, adds[0].1);
      AddAllNumbers(s', adds[1..]);
      var r := AddAll(s, adds);
      assert r == AddAll(s', adds[1..]);
      assert r[..|s|] == r[..|s'|][..|s|];
      forall i | 0 <= i < |adds|
        ensures r[|s| + i] == Stamp(|s| + i + 1, adds[i].0, adds[i].1)
      {
        if i > 0 {
          assert adds[1..][i - 1] == adds[i];
        }
      }
    }
  }

  /** Replacing a record by one with the same id keeps the numbering. */
  lemma ReplaceKeepsNumbering(s: seq<WorkoutLog>, i: int, w: WorkoutLog)
    requires 0 <= i < |s| && Numbered(s) && w.id == s[i].id
    ensures Numbered(s[i := w])
  {
  }

  /** The invariant the log keeps: ids are positive, every record is an
      Outdoor or a Gym record, and its numbers fit in an `Int`. */
  predicate GoodRecord(w: WorkoutLog) {
    w.id >= 1 && !w.variant.Base? && IsInt32(w.duration) && IsInt32(w.calories)
  }

  predicate WellFormed(s: seq<WorkoutLog>) {
    forall w :: w in s ==> GoodRecord(w)
  }

  // ------------------------------------------------------------ listing

  /** `logs.forEach { println(it.summary()) }`: one summary per record. */
  function Listing(s: seq<WorkoutLog>, showDate: int -> string): (r: seq<string>)
    ensures |r| == |s|
  {
    if s == [] then [] else Listing(s[..|s| - 1], showDate) + [Summary(s[|s| - 1], showDate)]
  }

  /** Listing one more record of a prefix adds its summary as the last line. */
  lemma ListingStep(s: seq<WorkoutLog>, i: int, showDate: int -> string)
    requires 0 <= i < |s|
    ensures Listing(s[..i + 1], showDate) == Listing(s[..i], showDate) + [Summary(s[i], showDate)]
  {
    assert s[..i + 1][..i] == s[..i];
  }

  /** Line i of the listing is the summary of record i, built by its own class. */
  lemma {:induction false} ListingAt(s: seq<WorkoutLog>, showDate: int -> string, i: int)
    requires 0 <= i < |s|
    ensures Listing(s, showDate)[i] == Summary(s[i], showDate)
    decreases |s|
  {
    if i < |s| - 1 {
      ListingAt(s[..|s| - 1], showDate, i);
    }
  }

  // ------------------------------------------------------------- delete

  /** `removeIf { it.id == id }`: the records without the id, in their order. */
  function Without(s: seq<WorkoutLog>, id: int): (r: seq<WorkoutLog>)
    ensures |r| <= |s|
    ensures forall w :: w in r <==> w in s && w.id != id
  {
    if s == [] then []
    else
      var init, last := s[..|s| - 1], s[|s| - 1];
      assert s == init + [last];
      var rest := Without(init, id);
      if last.id == id then rest else rest + [last]
  }

  /** Delete over one more record of a prefix: the record is dropped when it
      has the id and kept at the end otherwise. */
  lemma WithoutStep(s: seq<WorkoutLog>, i: int, id: int)
    requires 0 <= i < |s|
    ensures Without(s[..i + 1], id) ==
      if s[i].id == id then Without(s[..i], id) else Without(s[..i], id) + [s[i]]
  {
    assert s[..i + 1][..i] == s[..i];
  }

  /** One more record of a prefix has the id exactly when it or an earlier one does. */
  lemma HasIdStep(s: seq<WorkoutLog>, i: int, id: int)
    requires 0 <= i < |s|
    ensures HasId(s[..i + 1], id) <==> HasId(s[..i], id) || s[i].id == id
  {
    if HasId(s[..i], id) {
      var j :| 0 <= j < i && s[..i][j].id == id;
      assert s[..i + 1][j] == s[..i][j];
    }
    assert s[..i + 1][i] == s[i];
  }

  /** Delete works piecewise: the survivors keep their relative order. */
  lemma {:induction false} WithoutConcat(s: seq<WorkoutLog>, t: seq<WorkoutLog>, id: int)
    ensures Without(s + t, id) == Without(s, id) + Without(t, id)
    decreases |t|
  {
    if t == [] {
      assert s + t == s;
    } else {
      var t' := t[..|t| - 1];
      assert (s + t)[..|s + t| - 1] == s + t';
      assert (s + t)[|s + t| - 1] == t[|t| - 1];
      WithoutConcat(s, t', id);
    }
  }

  /** Delete leaves the list as it was exactly when no record has the id. */
  lemma {:induction false} WithoutUnchanged(s: seq<WorkoutLog>, id: int)
    ensures Without(s, id) == s <==> !HasId(s, id)
    decreases |s|
  {
    if s != [] {
      var init := s[..|s| - 1];
      WithoutUnchanged(init, id);
      if !HasId(s, id) {
        assert !HasId(init, id) by {
          forall i | 0 <= i < |init| ensures init[i].id != id {
            assert init[i] == s[i];
          }
        }
        assert s == init + [s[|s| - 1]];
      } else {
        var i :| 0 <= i < |s| && s[i].id == id;
        assert s[i] in s && s[i] !in Without(s, id);
      }
    }
  }

  /** Delete keeps the invariant of the log. */
  lemma WithoutWellFormed(s: seq<WorkoutLog>, id: int)
    requires WellFormed(s)
    ensures WellFormed(Without(s, id))
  {
  }

  /** Ids come from the list's size, so after a delete an add can hand out an
      id that a remaining record already has; a later delete of that id then
      removes both records. */
  lemma IdReuseAfterDelete(e1: Entry, e2: Entry, e3: Entry, day: int)
    ensures var s := Appended(Appended([], day, e1), day, e2);
      var afterDelete := Without(s, 1);
      var afterAdd := Appended(afterDelete, day, e3);
      && afterDelete == [Stamp(2, day, e2)]
      && afterAdd == [Stamp(2, day, e2), Stamp(2, day, e3)]
      && afterAdd[0].id == afterAdd[1].id
      && Without(afterAdd, 2) == []
  {
  }

  // -------------------------------------------------------------- weekly

  /** `date.isAfter(today.minusDays(7))`: the last seven days, today included. */
  predicate InWeek(w: WorkoutLog, today: int) {
    w.date > today - 7
  }

  /** `filter { it.date.isAfter(...) }`: this week's records, in their order. */
  function WeekLogs(s: seq<WorkoutLog>, today: int): (r: seq<WorkoutLog>)
    ensures |r| <= |s|
    ensures forall w :: w in r <==> w in s && InWeek(w, today)
  {
    if s == [] then []
    else
      assert s == [s[0]] + s[1..];
      (if InWeek(s[0], today) then [s[0]] else []) + WeekLogs(s[1..], today)
  }

  /** The exact sum of the durations. */
  function SumDurations(s: seq<WorkoutLog>): int {
    if s == [] then 0 else s[0].duration + SumDurations(s[1..])
  }

  /** `sumOf { it.duration }` over Kotlin `Int`: an accumulator that starts at
      `acc` and wraps on every addition. */
  function SumOf(acc: int, s: seq<WorkoutLog>): int
    decreases |s|
  {
    if s == [] then acc else SumOf(ToInt32(acc + s[0].duration), s[1..])
  }

  /** The minutes `showWeeklySummary` and `trackProgress` report. */
  function WeeklyTotal(s: seq<WorkoutLog>, today: int): int {
    SumOf(0, WeekLogs(s, today))
  }

  /** The wrapping accumulator ends at the exact sum wrapped once. */
  lemma {:induction false} SumOfWraps(acc: int, s: seq<WorkoutLog>)
    requires IsInt32(acc)
    ensures SumOf(acc, s) == ToInt32(acc + SumDurations(s))
    decreases |s|
  {
    if s != [] {
      SumOfWraps(ToInt32(acc + s[0].duration), s[1..]);
      WrapAdd(acc + s[0].duration, SumDurations(s[1..]));
    }
  }

  /** The weekly total is the exact sum of this week's durations, wrapped to
      an `Int`; when that sum fits in an `Int` it is the sum itself. */
  lemma WeeklyTotalIsSum(s: seq<WorkoutLog>, today: int)
    ensures WeeklyTotal(s, today) == ToInt32(SumDurations(WeekLogs(s, today)))
    ensures IsInt32(SumDurations(WeekLogs(s, today))) ==>
      WeeklyTotal(s, today) == SumDurations(WeekLogs(s, today))
    ensures s == [] ==> WeeklyTotal(s, today) == 0
  {
    SumOfWraps(0, WeekLogs(s, today));
  }

  lemma {:induction false} WeekLogsConcat(s: seq<WorkoutLog>, t: seq<WorkoutLog>, today: int)
    ensures WeekLogs(s + t, today) == WeekLogs(s, today) + WeekLogs(t, today)
    decreases |s|
  {
    if s == [] {
      assert s + t == t;
    } else {
      assert (s + t)[0] == s[0];
      assert (s + t)[1..] == s[1..] + t;
      WeekLogsConcat(s[1..], t, today);
    }
  }

  lemma {:induction false} SumDurationsConcat(s: seq<WorkoutLog>, t: seq<WorkoutLog>)
    ensures SumDurations(s + t) == SumDurations(s) + SumDurations(t)
    decreases |s|
  {
    if s == [] {
      assert s + t == t;
    } else {
      assert (s + t)[0] == s[0];
      assert (s + t)[1..] == s[1..] + t;
      SumDurationsConcat(s[1..], t);
    }
  }

  /** A record added to the log raises this week's exact sum by its duration
      when it falls in the week, and leaves it as it was otherwise. */
  lemma WeekSumAppend(s: seq<WorkoutLog>, w: WorkoutLog, today: int)
    ensures SumDurations(WeekLogs(s + [w], today)) ==
      SumDurations(WeekLogs(s, today)) + (if InWeek(w, today) then w.duration else 0)
  {
    WeekLogsConcat(s, [w], today);
    SumDurationsConcat(WeekLogs(s, today), WeekLogs([w], today));
    assert [w][1..] == [];
  }

  /** An Outdoor workout of 30 minutes and a Gym workout of 45 minutes added
      to an empty log on the same day make a weekly total of 75. */
  lemma SameDayTotal(today: int, outdoor: Entry, gym: Entry)
    requires outdoor.duration == 30 && outdoor.variant.Outdoor?
    requires gym.duration == 45 && gym.variant.Gym?
    ensures WeeklyTotal(Appended(Appended([], today, outdoor), today, gym), today) == 75
  {
    var s := Appended([], today, outdoor);
    WeekSumAppend([], Stamp(1, today, outdoor), today);
    WeekSumAppend(s, Stamp(2, today, gym), today);
    WeeklyTotalIsSum(Appended(s, today, gym), today);
  }

  // ---------------------------------------------------------------- goal

  /** The goal after `setAndTrackGoal`: a goal already set stays; an unset
      goal (0) takes the number typed, or 0 when the line is not a number.
      `None` when the goal was unset and no line could be read. */
  function NextGoal(current: int, input: seq<string>): (r: Option<int>)
    ensures current != 0 ==> r == Some(current)
    ensures r.None? <==> current == 0 && input == []
    ensures r.Some? && r.value != current ==> current == 0 && ParseInt(input[0]) == Some(r.value)
    ensures current == 0 && input != [] && ParseInt(input[0]).Some? ==> r == ParseInt(input[0])
    ensures current == 0 && input != [] && ParseInt(input[0]).None? ==> r == Some(0)
  {
    if current != 0 then Some(current)
    else if input == [] then None
    else match ParseInt(input[0])
      case Some(goal) => Some(goal)
      case None => Some(0)
  }

  /** A goal other than 0 survives any run of later calls. */
  lemma {:induction false} GoalKept(g: int, later: seq<seq<string>>)
    requires g != 0
    ensures GoalAfterAll(g, later) == Some(g)
    decreases |later|
  {
    if later != [] {
      GoalKept(g, later[1..]);
    }
  }

  /** The first call that sets a goal other than 0 fixes it for the session:
      whatever lines later calls read, the goal stays. */
  lemma GoalSetOnce(first: seq<string>, later: seq<seq<string>>, g: int)
    requires NextGoal(0, first) == Some(g) && g != 0
    ensures GoalAfterAll(0, [first] + later) == Some(g)
  {
    assert ([first] + later)[1..] == later;
    GoalKept(g, later);
  }

  /** The goal after a run of calls, `None` once a call could not read its line. */
  function GoalAfterAll(current: int, inputs: seq<seq<string>>): Option<int>
    decreases |inputs|
  {
    if inputs == [] then Some(current)
    else match NextGoal(current, inputs[0])
      case None => None
      case Some(g) => GoalAfterAll(g, inputs[1..])
  }

  /** Two calls in a row from an unset goal: the first types 100 and sets the
      goal, the second types 200 and is not asked for, so the goal stays 100. */
  lemma GoalScenario()
    ensures GoalAfterAll(0, [["100"], ["200"]]) == Some(100)
  {
    assert NextGoal(0, ["100"]) == Some(100) by {
      assert "100"[..2] == "10" && "10"[..1] == "1" && "1"[..0] == [];
      assert NumeralValue("100") == 100;
    }
    assert [["100"], ["200"]][1..] == [["200"]];
    GoalKept(100, [["200"]]);
  }
}
