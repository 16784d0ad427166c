/** The workout records (`Workout`, `Running`, `Cycling`), their derived
    metrics and description, and the form validator `_workoutObj` that
    decides whether a submitted form yields a workout. */
module Workouts {
  import opened Wrappers
  import opened Text

  /** The values of the `type` field and of the form's type selector. */
  const RUNNING: string := "running"
  const CYCLING: string := "cycling"

  /** The month names `_setDescription` indexes with `getMonth()`. */
  const Months: seq<string> :=
    ["January", "February", "March", "April", "May", "June", "July",
     "August", "September", "October", "November", "December"]

  /** `getMonth()` is zero-based; `getDate()` is the day of the month. */
  type Month = m: int | 0 <= m < 12
  type DayOfMonth = d: int | 1 <= d <= 31 witness 1

  /** The part of the creation `Date` the model needs. */
  datatype Date = Date(month: Month, day: DayOfMonth)

  datatype Coords = Coords(lat: real, lng: real)

  /** A workout as the application stores it. The two constructors are the
      `Running` and `Cycling` subclasses; the shared fields are those of
      `Workout`. Distances are in km, durations in minutes. */
  datatype Workout =
    | Running(id: string, date: Date, coords: Coords, distance: real, duration: real,
              cadence: real, pace: real, description: string)
    | Cycling(id: string, date: Date, coords: Coords, distance: real, duration: real,
              elevation: real, speed: real, description: string)
  {
    /** The `type` class field. */
    function Type(): (t: string)
      ensures t == RUNNING || t == CYCLING
      ensures Running? <==> t == RUNNING
    {
      if Running? then RUNNING else CYCLING
    }
  }

  /** `calcPace`: minutes per kilometre. */
  function Pace(distance: real, duration: real): (pace: real)
    requires distance != 0.0
    ensures pace * distance == duration
    ensures distance > 0.0 && duration > 0.0 ==> pace > 0.0
  {
    duration / distance
  }

  /** `calcSpeed`: kilometres per hour, the duration being in minutes. */
  function Speed(distance: real, duration: real): (speed: real)
    requires duration != 0.0
    ensures speed * duration == 60.0 * distance
    ensures distance > 0.0 && duration > 0.0 ==> speed > 0.0
  {
    var hours := duration / 60.0;
    assert hours * 60.0 == duration;
    distance / hours
  }

  /** `_setDescription`: the type with its first letter upper-cased, " on ",
      the month name and the day, e.g. "Cycling on March 7". */
  function Description(kind: string, date: Date): (r: string)
    requires |kind| > 0
    ensures |r| == |kind| + 5 + |Months[date.month]| + |DecimalDigits(date.day)|
    ensures r[..|kind|] == Capitalize(kind) && r[|kind|..|kind| + 4] == " on "
    ensures ParseNat(r[|r| - |DecimalDigits(date.day)|..]) == Some(date.day)
  {
    var title, month, day := Capitalize(kind), Months[date.month], DecimalDigits(date.day);
    var r := title + " on " + month + " " + day;
    assert r[|r| - |day|..] == day;
    ParseDecimalDigits(date.day);
    r
  }

  /** The inverse of `Description`: recovers the type, month and day from a
      description, or `None` if the text is not one. */
  function ParseDescription(s: string): Option<(string, Month, DayOfMonth)> {
    var words := Split(s, ' ');
    if |words| != 4 || words[1] != "on" then None
    else
      match (KindOfTitle(words[0]), MonthIndex(words[2]), ParseNat(words[3]))
      case (Some(k), Some(m), Some(d)) =>
        if 1 <= d <= 31 then Some((k, m, d)) else None
      case _ => None
  }

  function KindOfTitle(title: string): (k: Option<string>)
    ensures k.Some? ==> (k.value == RUNNING || k.value == CYCLING) && Capitalize(k.value) == title
  {
    if title == Capitalize(RUNNING) then Some(RUNNING)
    else if title == Capitalize(CYCLING) then Some(CYCLING)
    else None
  }

  /** The index of a month name in `Months`. */
  function MonthIndex(name: string): (m: Option<Month>)
    ensures m.Some? ==> Months[m.value] == name
  {
    FindMonth(name, 0)
  }

  function FindMonth(name: string, from: nat): (m: Option<Month>)
    requires from <= 12
    ensures m.Some? ==> from <= m.value && Months[m.value] == name
    decreases 12 - from
  {
    if from == 12 then None
    else if Months[from] == name then Some(from)
    else FindMonth(name, from + 1)
  }

  lemma MonthNamesHaveNoSpace(m: Month)
    ensures ' ' !in Months[m]
  {
  }

  lemma {:induction false} MonthIndexOfName(m: Month)
    ensures MonthIndex(Months[m]) == Some(m)
  {
    if m == 0 {} else if m == 1 {} else if m == 2 {} else if m == 3 {}
    else if m == 4 {} else if m == 5 {} else if m == 6 {} else if m == 7 {}
    else if m == 8 {} else if m == 9 {} else if m == 10 {} else {}
  }

  /** Text laid out as a description splits back into its four words when
      none of them holds a space. */
  lemma JoinedWords(title: string, month: string, day: string)
    requires ' ' !in title && ' ' !in month && ' ' !in day
    ensures Split(title + " on " + month + " " + day, ' ') == [title, "on", month, day]
  {
    assert title + " on " + month + " " + day == title + [' '] + ("on" + [' '] + (month + [' '] + day));
    SplitJoin(title, ' ', "on" + [' '] + (month + [' '] + day));
    SplitJoin("on", ' ', month + [' '] + day);
    SplitJoin(month, ' ', day);
    SplitWord(day, ' ');
  }

  /** A description splits into exactly four words: the capitalised type,
      "on", the month name and the day. */
  lemma DescriptionWords(kind: string, date: Date)
    requires kind == RUNNING || kind == CYCLING
    ensures Split(Description(kind, date), ' ') ==
      [Capitalize(kind), "on", Months[date.month], DecimalDigits(date.day)]
  {
    var title, month, day := Capitalize(kind), Months[date.month], DecimalDigits(date.day);
    MonthNamesHaveNoSpace(date.month);
    assert ' ' !in day;
    assert ' ' !in title;
    JoinedWords(title, month, day);
  }

  /** The description determines the type, month and day it was made from. */
  lemma DescriptionRoundTrip(kind: string, date: Date)
    requires kind == RUNNING || kind == CYCLING
    ensures ParseDescription(Description(kind, date)) == Some((kind, date.month, date.day))
  {
    DescriptionWords(kind, date);
    MonthIndexOfName(date.month);
    ParseDecimalDigits(date.day);
  }

  /** What a workout built from validated input satisfies: positive distance
      and duration, a positive cadence for a run, the derived metric
      consistent with them, and the description of its own type and date. */
  predicate WellFormed(w: Workout) {
    && w.distance > 0.0 && w.duration > 0.0
    && (w.Running? ==> w.cadence > 0.0 && w.pace * w.distance == w.duration && w.pace > 0.0)
    && (w.Cycling? ==> w.speed * w.duration == 60.0 * w.distance && w.speed > 0.0)
    && w.description == Description(w.Type(), w.date)
  }

  /** The id takes no part in well-formedness, so `_submitEdit` may
      overwrite it. */
  lemma WellFormedWithId(w: Workout, id: string)
    requires WellFormed(w)
    ensures WellFormed(w.(id := id))
  {
  }

  /** The `Running` constructor: stores its arguments, computes the pace and
      sets the description from the creation date. */
  function NewRunning(coords: Coords, distance: real, duration: real, cadence: real,
                      id: string, date: Date): (w: Workout)
    requires distance != 0.0
    ensures w.Running? && w.Type() == RUNNING
    ensures w.id == id && w.date == date && w.coords == coords
    ensures w.distance == distance && w.duration == duration && w.cadence == cadence
    ensures w.pace * distance == duration
    ensures distance > 0.0 && duration > 0.0 && cadence > 0.0 ==> WellFormed(w)
    ensures ParseDescription(w.description) == Some((RUNNING, date.month, date.day))
  {
    DescriptionRoundTrip(RUNNING, date);
    Running(id, date, coords, distance, duration, cadence, Pace(distance, duration),
            Description(RUNNING, date))
  }

  /** The `Cycling` constructor: stores its arguments, computes the speed and
      sets the description from the creation date. */
  function NewCycling(coords: Coords, distance: real, duration: real, elevation: real,
                      id: string, date: Date): (w: Workout)
    requires duration != 0.0
    ensures w.Cycling? && w.Type() == CYCLING
    ensures w.id == id && w.date == date && w.coords == coords
    ensures w.distance == distance && w.duration == duration && w.elevation == elevation
    ensures w.speed * duration == 60.0 * distance
    ensures distance > 0.0 && duration > 0.0 ==> WellFormed(w)
    ensures ParseDescription(w.description) == Some((CYCLING, date.month, date.day))
  {
    DescriptionRoundTrip(CYCLING, date);
    Cycling(id, date, coords, distance, duration, elevation, Speed(distance, duration),
            Description(CYCLING, date))
  }

  /** The submitted form, each number as `+input.value`: `None` stands for a
      value that is not finite (NaN or an infinity). An empty field reads as
      `Some(0.0)`. */
  datatype FormInput = FormInput(kind: string, distance: Option<real>, duration: Option<real>,
                                 cadence: Option<real>, elevation: Option<real>)

  /** `validInputs`: every value is finite, that is, no value is missing. */
  function ValidInputs(inputs: seq<Option<real>>): (valid: bool)
    ensures valid <==> None !in inputs
  {
    forall i :: 0 <= i < |inputs| ==> inputs[i].Some?
  }

  /** `allPositive`: every value is greater than zero. It is only evaluated
      once `ValidInputs` holds, so a non-finite value never reaches it. */
  function AllPositive(inputs: seq<Option<real>>): (positive: bool)
    ensures positive ==> ValidInputs(inputs)
    ensures positive <==> forall x :: x in inputs ==> x.Some? && x.value > 0.0
  {
    forall i :: 0 <= i < |inputs| ==> inputs[i].Some? && inputs[i].value > 0.0
  }

  /** `_workoutObj`: builds the workout the form describes, or `None` (the
      `undefined` that `alert` returns) when the inputs are rejected or the
      type is neither running nor cycling. A run needs distance, duration
      and cadence finite and positive; a ride needs distance, duration and
      elevation finite but only distance and duration positive. */
  function WorkoutObj(input: FormInput, coords: Coords, id: string, date: Date): (r: Option<Workout>)
    ensures input.kind == RUNNING ==>
      (r.Some? <==> && input.distance.Some? && input.duration.Some? && input.cadence.Some?
                    && input.distance.value > 0.0 && input.duration.value > 0.0
                    && input.cadence.value > 0.0)
    ensures input.kind == CYCLING ==>
      (r.Some? <==> && input.distance.Some? && input.duration.Some? && input.elevation.Some?
                    && input.distance.value > 0.0 && input.duration.value > 0.0)
    ensures input.kind != RUNNING && input.kind != CYCLING ==> r.None?
    ensures r.Some? ==>
      && r.value.Type() == input.kind && WellFormed(r.value)
      && r.value.id == id && r.value.coords == coords && r.value.date == date
      && r.value.distance == input.distance.value && r.value.duration == input.duration.value
      && (r.value.Running? ==> r.value.cadence == input.cadence.value)
      && (r.value.Cycling? ==> r.value.elevation == input.elevation.value)
  {
    if input.kind == RUNNING then
      var inputs := [input.distance, input.duration, input.cadence];
      if !ValidInputs(inputs) || !AllPositive(inputs) then None
      else
        assert inputs[0].Some? && inputs[1].Some? && inputs[2].Some?;
        Some(NewRunning(coords, input.distance.value, input.duration.value,
                        input.cadence.value, id, date))
    else if input.kind == CYCLING then
      var inputs := [input.distance, input.duration, input.elevation];
      if !ValidInputs(inputs) || !AllPositive(inputs[..2]) then None
      else
        assert inputs[0].Some? && inputs[1].Some? && inputs[2].Some?;
        Some(NewCycling(coords, input.distance.value, input.duration.value,
                        input.elevation.value, id, date))
    else None
  }

  /** A 5 km run in 25 minutes at cadence 150 is accepted with a pace of 5
      minutes per km; made on 15 October it reads "Running on October 15". */
  lemma RunningExample(id: string)
    ensures var r := WorkoutObj(FormInput(RUNNING, Some(5.0), Some(25.0), Some(150.0), None),
                                Coords(10.0, 20.0), id, Date(9, 15));
      r.Some? && r.value.pace == 5.0 && r.value.description == "Running on October 15"
  {
    OctoberDescription();
  }

  /** The description of a run on the 15th of October. */
  lemma OctoberDescription()
    ensures Description(RUNNING, Date(9, 15)) == "Running on October 15"
  {
    assert DecimalDigits(15) == "15";
    assert Capitalize(RUNNING) == "Running";
  }

  /** A 20 km ride in 60 minutes with an elevation of -10 m is accepted,
      with a speed of 20 km/h. */
  lemma CyclingExample(id: string, date: Date)
    ensures var r := WorkoutObj(FormInput(CYCLING, Some(20.0), Some(60.0), None, Some(-10.0)),
                                Coords(10.0, 20.0), id, date);
      r.Some? && r.value.speed == 20.0 && r.value.elevation == -10.0
  {
  }
}
