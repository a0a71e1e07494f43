/** Workout records: the base record `WorkoutLog` and its two subclasses
    `OutdoorWorkout` and `GymWorkout`, written as one datatype whose shared
    fields are followed by a variant payload. Also the reading of a record's
    descriptive fields from console lines, and the one-line summaries. */
module Workouts {
  import opened Numerals

  /** The payload that tells the subclasses apart. `Base` is a plain
      `WorkoutLog`, which only the `else` branch of an update could build. */
  datatype Variant = Base | Outdoor(weather: string) | Gym(equipment: string)

  /** Which class a record is, without its payload. */
  datatype Shape = BaseShape | OutdoorShape | GymShape

  function ShapeOf(v: Variant): (k: Shape)
    ensures (k == BaseShape) == v.Base?
    ensures (k == OutdoorShape) == v.Outdoor?
    ensures (k == GymShape) == v.Gym?
  {
    match v
    case Base => BaseShape
    case Outdoor(_) => OutdoorShape
    case Gym(_) => GymShape
  }

  /** One logged activity. Dates are day numbers (`LocalDate` as a count of days). */
  datatype WorkoutLog = WorkoutLog(
    id: int,
    activityName: string,
    category: string,
    duration: int,
    calories: int,
    date: int,
    variant: Variant)

  /** The fields a user types for a record: everything except its id and date. */
  datatype Entry = Entry(
    activityName: string,
    category: string,
    duration: int,
    calories: int,
    variant: Variant)

  /** The record built from an entry, with the id and the date the log assigns. */
  function Stamp(id: int, date: int, e: Entry): WorkoutLog {
    WorkoutLog(id, e.activityName, e.category, e.duration, e.calories, date, e.variant)
  }

  /** Why reading a record failed: a console line was missing (`safeRead`
      throws on end of input) or a numeric field did not parse (`toInt` throws). */
  datatype InputError = MissingInput | InvalidNumber

  datatype Result<+T> = Ok(value: T) | Err(error: InputError)

  /** Console lines a record of the given shape asks for: name, category,
      duration and calories, then the weather or the equipment. */
  function LinesNeeded(shape: Shape): nat {
    if shape == BaseShape then 4 else 5
  }

  /** Reads one record's fields from the console lines `input`, in the order
      the log prompts for them: name, category, duration (parsed at once),
      calories (parsed at once), then the variant field for its shape. The
      first read or parse that fails ends the reading with its error. */
  function ReadEntry(shape: Shape, input: seq<string>): (r: Result<Entry>)
    ensures r.Ok? <==>
      |input| >= LinesNeeded(shape) && ParseInt(input[2]).Some? && ParseInt(input[3]).Some?
    ensures r == Err(InvalidNumber) <==>
      (|input| >= 3 && ParseInt(input[2]).None?) ||
      (|input| >= 4 && ParseInt(input[2]).Some? && ParseInt(input[3]).None?)
    ensures r.Ok? ==>
      && r.value.activityName == input[0]
      && r.value.category == input[1]
      && ParseInt(input[2]) == Some(r.value.duration)
      && ParseInt(input[3]) == Some(r.value.calories)
      && ShapeOf(r.value.variant) == shape
    ensures r.Ok? && shape == OutdoorShape ==> r.value.variant.weather == input[4]
    ensures r.Ok? && shape == GymShape ==> r.value.variant.equipment == input[4]
  {
    if |input| < 3 then Err(MissingInput)
    else match ParseInt(input[2])
      case None => Err(InvalidNumber)
      case Some(duration) =>
        if |input| < 4 then Err(MissingInput)
        else match ParseInt(input[3])
          case None => Err(InvalidNumber)
          case Some(calories) =>
            match shape
            case BaseShape => Ok(Entry(input[0], input[1], duration, calories, Base))
            case OutdoorShape =>
              if |input| < 5 then Err(MissingInput)
              else Ok(Entry(input[0], input[1], duration, calories, Outdoor(input[4])))
            case GymShape =>
              if |input| < 5 then Err(MissingInput)
              else Ok(Entry(input[0], input[1], duration, calories, Gym(input[4])))
  }

  /** `WorkoutLog.summary()`: `date | [id] name - category - duration minutes - calories kcal`.
      How a date is written (`LocalDate.toString()`) is the parameter `showDate`. */
  function BaseSummary(w: WorkoutLog, showDate: int -> string): string {
    showDate(w.date) + " | [" + IntToString(w.id) + BaseTail(w)
  }

  /** The part of the base summary after the id. */
  function BaseTail(w: WorkoutLog): string {
    "] " + w.activityName + " - " + w.category + " - " + IntToString(w.duration)
      + " minutes - " + IntToString(w.calories) + " kcal"
  }

  /** The text each subclass's `summary()` appends to the base summary. */
  function VariantSuffix(v: Variant): string {
    match v
    case Base => ""
    case Outdoor(weather) => " | " + ("Weather: " + weather)
    case Gym(equipment) => " | " + ("Equipment: " + equipment)
  }

  /** The summary a record's own class produces. */
  function Summary(w: WorkoutLog, showDate: int -> string): string {
    BaseSummary(w, showDate) + VariantSuffix(w.variant)
  }

  /** `t` occurs in `s` starting at index `k`. */
  predicate OccursAt(s: string, t: string, k: int) {
    0 <= k <= |s| - |t| && s[k..k + |t|] == t
  }

  lemma OccursAtEnd(a: string, t: string)
    ensures OccursAt(a + t, t, |a|)
  {
  }

  /** An Outdoor summary is the base line, ` | ` and `Weather: <weather>`. */
  lemma OutdoorSummaryShape(w: WorkoutLog, showDate: int -> string)
    requires w.variant.Outdoor?
    ensures Summary(w, showDate) == (BaseSummary(w, showDate) + " | ") + ("Weather: " + w.variant.weather)
  {
  }

  /** A Gym summary is the base line, ` | ` and `Equipment: <equipment>`. */
  lemma GymSummaryShape(w: WorkoutLog, showDate: int -> string)
    requires w.variant.Gym?
    ensures Summary(w, showDate) == (BaseSummary(w, showDate) + " | ") + ("Equipment: " + w.variant.equipment)
  {
  }

  /** A text appended last occurs at the end of the result. */
  lemma EndsWith(a: string, key: string, t: string)
    ensures OccursAt(a + (key + t), key + t, |a|)
    ensures |a| + |key| + |t| == |a + (key + t)|
  {
    OccursAtEnd(a, key + t);
  }

  /** An Outdoor summary carries `Weather:` followed by the record's own
      weather, which ends the line. */
  lemma OutdoorSummaryNamesWeather(w: WorkoutLog, showDate: int -> string)
    requires w.variant.Outdoor?
    ensures exists k ::
      && OccursAt(Summary(w, showDate), "Weather: " + w.variant.weather, k)
      && k + 9 + |w.variant.weather| == |Summary(w, showDate)|
  {
    var a := BaseSummary(w, showDate) + " | ";
    OutdoorSummaryShape(w, showDate);
    EndsWith(a, "Weather: ", w.variant.weather);
    assert OccursAt(Summary(w, showDate), "Weather: " + w.variant.weather, |a|);
  }

  /** A Gym summary carries `Equipment:` followed by the record's own
      equipment, which ends the line. */
  lemma GymSummaryNamesEquipment(w: WorkoutLog, showDate: int -> string)
    requires w.variant.Gym?
    ensures exists k ::
      && OccursAt(Summary(w, showDate), "Equipment: " + w.variant.equipment, k)
      && k + 11 + |w.variant.equipment| == |Summary(w, showDate)|
  {
    var a := BaseSummary(w, showDate) + " | ";
    GymSummaryShape(w, showDate);
    EndsWith(a, "Equipment: ", w.variant.equipment);
    assert OccursAt(Summary(w, showDate), "Equipment: " + w.variant.equipment, |a|);
  }

  /** A summary is the date and ` | [`, then the id, then the text that
      starts with `]`. */
  lemma SummaryAroundId(w: WorkoutLog, showDate: int -> string)
    ensures var tail := BaseTail(w) + VariantSuffix(w.variant);
      && Summary(w, showDate) == (showDate(w.date) + " | [") + IntToString(w.id) + tail
      && tail[0] == ']'
  {
  }

  /** A text placed between a string ending in `[` and one starting with `]`
      sits between those brackets. */
  lemma Bracketed(a: string, t: string, b: string)
    requires |a| >= 1 && a[|a| - 1] == '[' && |b| >= 1 && b[0] == ']'
    ensures var r := a + t + b;
      && OccursAt(r, t, |a|)
      && r[|a| - 1] == '['
      && r[|a| + |t|] == ']'
  {
    var r := a + t + b;
    assert r[|a|..|a| + |t|] == t;
  }

  /** The id shown between the brackets of any summary reads back as the
      record's id: it starts right after `date | [`. */
  lemma SummaryShowsId(w: WorkoutLog, showDate: int -> string)
    requires IsInt32(w.id)
    ensures var r, t, k := Summary(w, showDate), IntToString(w.id), |showDate(w.date)| + 4;
      && OccursAt(r, t, k)
      && r[k - 1] == '['
      && r[k + |t|] == ']'
      && ParseInt(r[k..k + |t|]) == Some(w.id)
  {
    SummaryAroundId(w, showDate);
    Bracketed(showDate(w.date) + " | [", IntToString(w.id), BaseTail(w) + VariantSuffix(w.variant));
    ParseIntToString(w.id);
  }
}
