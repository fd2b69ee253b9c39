/** The calendar helpers of `src/utils/formatDate.ts`: projecting a clock
    string such as "9:30 AM" onto a year, a week number and a weekday, the
    integer hour and day differences, and the "not in the past" guard. */
module FormatDate {
  import opened Wrappers
  import opened Js
  import opened JsDate

  datatype DayOfWeek = SUNDAY | MONDAY | TUESDAY | WEDNESDAY | THURSDAY | FRIDAY | SATURDAY

  /** The `weeks` table: Sunday is 0 and Saturday is 6. */
  function WeekIndex(d: DayOfWeek): (r: nat)
    ensures r < 7
    ensures d == SUNDAY <==> r == 0
    ensures d == SATURDAY <==> r == 6
  {
    match d
    case SUNDAY => 0
    case MONDAY => 1
    case TUESDAY => 2
    case WEDNESDAY => 3
    case THURSDAY => 4
    case FRIDAY => 5
    case SATURDAY => 6
  }

  /** The table numbers the seven days one to one, in calendar order from Sunday. */
  lemma WeekIndexOrder()
    ensures forall d, e :: WeekIndex(d) == WeekIndex(e) ==> d == e
    ensures WeekIndex(SUNDAY) < WeekIndex(MONDAY) < WeekIndex(TUESDAY) < WeekIndex(WEDNESDAY)
            < WeekIndex(THURSDAY) < WeekIndex(FRIDAY) < WeekIndex(SATURDAY)
  {
  }

  /** What the code reads from the environment: `new Date()` (local
      milliseconds) and moment's locale week number and year. */
  datatype Clock = Clock(now: int, week: int, year: int)

  const InvalidDateError: Error := Error(BadRequest, "Invalid date")
  const PastDateError: Error := Error(BadRequest, "Cannot book a schedule for past date")

  /** The marker after the first space must be exactly "AM" or "PM". */
  predicate MarkerOk(date: string)
  {
    var parts := Split(date, " ");
    |parts| >= 2 && (parts[1] == "AM" || parts[1] == "PM")
  }

  /** The hour: `parseInt` of the text before the first colon, plus 12 after "PM". */
  function ProjectedHour(date: string): JsNumber
    requires MarkerOk(date)
  {
    var parts := Split(date, " ");
    var hour := ParseInt(Split(parts[0], ":")[0], true);
    if parts[1] == "PM" then Plus(hour, Num(12)) else hour
  }

  /** The minutes: `parseInt` of the text after the first colon (NaN when absent). */
  function ProjectedMinute(date: string): JsNumber
    requires MarkerOk(date)
  {
    var split := Split(Split(date, " ")[0], ":");
    if |split| >= 2 then ParseInt(split[1], true) else NaN
  }

  /** `x || 7` on a weekday number. */
  function OrSeven(x: JsNumber): (r: JsNumber)
    ensures Truthy(x) ==> r == x
    ensures !Truthy(x) ==> r == Num(7)
  {
    if Truthy(x) then x else Num(7)
  }

  /** The day-of-month argument `week * 7 - offset - 3`. */
  function DayArgument(jan4: TimeValue, week: JsNumber, weekDay: DayOfWeek): JsNumber
  {
    var offset := Minus(OrSeven(GetDayValue(jan4)), Num(WeekIndex(weekDay)));
    Minus(Minus(Times(week, 7), offset), Num(3))
  }

  /** The value `formatDate` returns, step by step as the Date object goes. */
  function Projection(date: string, year: JsNumber, week: JsNumber, weekDay: DayOfWeek): Result<TimeValue>
  {
    if !MarkerOk(date) then Err(InvalidDateError)
    else
      var jan4 := ConstructedValue(year, 0, 4);
      var t1 := SetDateValue(jan4, DayArgument(jan4, week, weekDay));
      var t2 := SetHoursValue(t1, ProjectedHour(date));
      var t3 := SetMinutesValue(t2, ProjectedMinute(date));
      Ok(SetSecondsValue(t3, ProjectedMinute(date)))
  }

  /** `formatDate(date, year, week, weekDay)`: a Date object built on 4 January
      and then moved with `setDate`, `setHours`, `setMinutes` and `setSeconds`. */
  method FormatDate(date: string, year: JsNumber, week: JsNumber, weekDay: DayOfWeek)
    returns (r: Result<TimeValue>)
    ensures r == Projection(date, year, week, weekDay)
  {
    var timeOfDay := Split(date, " ");
    if !(|timeOfDay| >= 2 && (timeOfDay[1] == "AM" || timeOfDay[1] == "PM")) {
      return Err(InvalidDateError);
    }
    var split := Split(timeOfDay[0], ":");
    var current := new LocalDate(year, 0, 4);
    var offset := Minus(OrSeven(current.GetDay()), Num(WeekIndex(weekDay)));
    current.SetDate(Minus(Minus(Times(week, 7), offset), Num(3)));
    var exactHour := if timeOfDay[1] == "PM" then Plus(ParseInt(split[0], true), Num(12))
                     else ParseInt(split[0], true);
    current.SetHours(exactHour);
    var minute := if |split| >= 2 then ParseInt(split[1], true) else NaN;
    current.SetMinutes(minute);
    current.SetSeconds(minute);
    return Ok(current.time);
  }

  // ------------------------------------------------------------ the projection, in closed form

  /** The year `new Date(year, 0, 4)` means. */
  function CalendarYear(year: int): int
  {
    if 0 <= year <= 99 then 1900 + year else year
  }

  /** Weekday of 4 January of a calendar year. */
  function Jan4WeekDay(y: int): (r: int)
    ensures 0 <= r < 7
  {
    WeekDay(MakeDate(DayFromYear(y) + 3, 0))
  }

  /** Day number of the projected day: 1 January plus `week*7 - offset - 3` - 1. */
  function ProjectedDay(y: int, week: int, weekDay: DayOfWeek): int
  {
    var wd := Jan4WeekDay(y);
    var offset := (if wd == 0 then 7 else wd) - WeekIndex(weekDay);
    DayFromYear(y) + (week * 7 - offset - 3) - 1
  }

  /** The Monday of ISO week 1: the Monday on or before 4 January. */
  function IsoWeekOneMonday(y: int): int
  {
    DayFromYear(y) + 3 - (Jan4WeekDay(y) + 6) % 7
  }

  /** The projected day is the requested weekday, counted from the Monday of
      ISO week 1: Monday..Saturday of week `w` fall in the ISO week `w`, while
      SUNDAY falls on the day before that week's Monday. */
  lemma ProjectedDayIsWeekday(y: int, week: int, weekDay: DayOfWeek)
    ensures ProjectedDay(y, week, weekDay) == IsoWeekOneMonday(y) + 7 * (week - 1) + WeekIndex(weekDay) - 1
    ensures WeekDay(MakeDate(ProjectedDay(y, week, weekDay), 0)) == WeekIndex(weekDay)
  {
    var j := DayFromYear(y) + 3;
    var wd := Jan4WeekDay(y);
    var p := ProjectedDay(y, week, weekDay);
    WholeDayFields(j);
    WholeDayFields(p);
    assert wd == (j + 4) % 7;
    var q := (j + 4) / 7;
    Div7(j + 4, q, wd);
    assert p == j + 7 * (week - 1) - (if wd == 0 then 7 else wd) + WeekIndex(weekDay);
    if wd == 0 {
      Div7(p + 4, q + week - 2, WeekIndex(weekDay));
    } else {
      Div7(p + 4, q + week - 1, WeekIndex(weekDay));
    }
    assert (wd + 6) % 7 == (if wd == 0 then 7 else wd) - 1;
  }

  /** Steps of the projection that only need the day: building 4 January and
      moving it with `setDate` lands on the projected day at midnight. */
  lemma DateStep(year: int, week: int, weekDay: DayOfWeek)
    requires ConstructedValue(Num(year), 0, 4).Time?
    ensures var jan4 := ConstructedValue(Num(year), 0, 4);
            SetDateValue(jan4, DayArgument(jan4, Num(week), weekDay))
              == TimeClip(ProjectedDay(CalendarYear(year), week, weekDay) * MsPerDay)
  {
    var y := CalendarYear(year);
    var jan4 := ConstructedValue(Num(year), 0, 4);
    var x := MakeDate(DayFromYear(y) + 3, 0);
    Jan4Value(year);
    assert jan4 == Time(x);
    Jan4GetDay(y, x);
    var wd := Jan4WeekDay(y);
    var n := week * 7 - ((if wd == 0 then 7 else wd) - WeekIndex(weekDay)) - 3;
    assert DayArgument(Time(x), Num(week), weekDay) == Num(n);
    SetDateInJanuary(y, 4, x, n);
    assert DayFromYear(y) + n - 1 == ProjectedDay(y, week, weekDay);
  }

  /** `new Date(year, 0, 4)` is midnight of 4 January of the calendar year. */
  lemma Jan4Value(year: int)
    ensures ConstructedValue(Num(year), 0, 4) == TimeClip(MakeDate(DayFromYear(CalendarYear(year)) + 3, 0))
  {
    var y := CalendarYear(year);
    assert MakeDay(y, 0, 4) == DayFromYear(y) + 3;
  }

  lemma Jan4GetDay(y: int, x: int)
    requires x == MakeDate(DayFromYear(y) + 3, 0)
    ensures GetDayValue(Time(x)) == Num(Jan4WeekDay(y))
  {
  }

  /** The instant `formatDate` builds: the projected day, plus the hour
      (12 more after "PM"), plus the parsed minutes used both as minutes and
      as seconds; any NaN part makes it an Invalid Date. */
  lemma ProjectionClosedForm(date: string, year: JsNumber, week: JsNumber, weekDay: DayOfWeek)
    requires MarkerOk(date)
    ensures var r := Projection(date, year, week, weekDay).value;
            r.Time? ==>
              year.Num? && week.Num? && ProjectedHour(date).Num? && ProjectedMinute(date).Num? &&
              r.ms == ProjectedDay(CalendarYear(year.v), week.v, weekDay) * MsPerDay
                      + ProjectedHour(date).v * MsPerHour
                      + ProjectedMinute(date).v * MsPerMinute + ProjectedMinute(date).v * MsPerSecond
    ensures year.NaN? || week.NaN? || ProjectedHour(date).NaN? || ProjectedMinute(date).NaN? ==>
              Projection(date, year, week, weekDay).value.Invalid?
  {
    var r := Projection(date, year, week, weekDay).value;
    if r.Time? {
      var h, m := ProjectedHour(date), ProjectedMinute(date);
      var jan4 := ConstructedValue(year, 0, 4);
      DateStep(year.v, week.v, weekDay);
      var b := ProjectedDay(CalendarYear(year.v), week.v, weekDay);
      var t1 := SetDateValue(jan4, DayArgument(jan4, week, weekDay));
      assert t1 == TimeClip(b * MsPerDay);
      assert r == SetSecondsValue(SetMinutesValue(SetHoursValue(t1, h), m), m);
      TimeSteps(b, h.v, m.v);
    }
  }

  /** `setHours(h)`, `setMinutes(m)`, `setSeconds(m)` from midnight of day `b`. */
  lemma TimeSteps(b: int, h: int, m: int)
    ensures var r := SetSecondsValue(SetMinutesValue(SetHoursValue(TimeClip(b * MsPerDay), Num(h)), Num(m)), Num(m));
            r.Time? ==> r.ms == b * MsPerDay + h * MsPerHour + m * MsPerMinute + m * MsPerSecond
  {
    var t1 := TimeClip(b * MsPerDay);
    if t1.Time? {
      WholeDayFields(b);
      SetHoursShift(b * MsPerDay, h);
      var x2 := b * MsPerDay + h * MsPerHour;
      var t2 := SetHoursValue(t1, Num(h));
      assert t2 == TimeClip(x2);
      if t2.Time? {
        assert x2 == (b * 24 + h) * MsPerHour;
        WholeHourFields(b * 24 + h);
        SetMinutesShift(x2, m);
        var x3 := x2 + m * MsPerMinute;
        var t3 := SetMinutesValue(t2, Num(m));
        assert t3 == TimeClip(x3);
        if t3.Time? {
          assert x3 == ((b * 24 + h) * 60 + m) * MsPerMinute;
          WholeMinuteFields((b * 24 + h) * 60 + m);
          SetSecondsShift(x3, m);
        }
      }
    }
  }

  /** "AM" keeps the parsed hour and "PM" adds 12 to it, so "12:xx PM" asks for hour 24. */
  lemma ProjectedHourMarker(date: string)
    requires MarkerOk(date)
    ensures var parts := Split(date, " ");
            var parsed := ParseInt(Split(parts[0], ":")[0], true);
            (parts[1] == "AM" ==> ProjectedHour(date) == parsed) &&
            (parts[1] == "PM" ==> ProjectedHour(date) == Plus(parsed, Num(12))) &&
            (parts[1] == "PM" && parsed == Num(12) ==> ProjectedHour(date) == Num(24))
  {
  }

  /** Hour 24 rolls over: a valid "12:xx PM" projection falls at `xx` minutes
      and `xx` seconds past midnight at the end of the projected day. */
  lemma TwelvePmIsNextDay(date: string, year: JsNumber, week: JsNumber, weekDay: DayOfWeek)
    requires MarkerOk(date) && Split(date, " ")[1] == "PM"
    requires ParseInt(Split(Split(date, " ")[0], ":")[0], true) == Num(12)
    requires Projection(date, year, week, weekDay).value.Time?
    ensures Day(Projection(date, year, week, weekDay).value.ms)
            == ProjectedDay(CalendarYear(year.v), week.v, weekDay) + 1
            + (ProjectedMinute(date).v * 61000) / MsPerDay
  {
    ProjectionClosedForm(date, year, week, weekDay);
    var b := ProjectedDay(CalendarYear(year.v), week.v, weekDay);
    var m := ProjectedMinute(date).v;
    var t := Projection(date, year, week, weekDay).value.ms;
    assert t == (b + 1) * MsPerDay + m * 61000;
  }

  /** Minutes and seconds of the result are both the parsed minute field. */
  lemma MinutesEqualSeconds(date: string, year: JsNumber, week: JsNumber, weekDay: DayOfWeek)
    requires MarkerOk(date)
    requires Projection(date, year, week, weekDay).value.Time?
    requires ProjectedMinute(date).Num? && 0 <= ProjectedMinute(date).v < 60
    ensures MinFromTime(Projection(date, year, week, weekDay).value.ms) == ProjectedMinute(date).v
    ensures SecFromTime(Projection(date, year, week, weekDay).value.ms) == ProjectedMinute(date).v
  {
    var t := Projection(date, year, week, weekDay).value.ms;
    ProjectionClosedForm(date, year, week, weekDay);
    MinuteAndSecondFields(t, ProjectedDay(CalendarYear(year.v), week.v, weekDay), ProjectedHour(date).v,
                          ProjectedMinute(date).v);
  }

  lemma MinuteAndSecondFields(t: int, b: int, h: int, m: int)
    requires 0 <= m < 60
    requires t == b * MsPerDay + h * MsPerHour + m * MsPerMinute + m * MsPerSecond
    ensures MinFromTime(t) == m && SecFromTime(t) == m
  {
    var q := b * 24 + h;
    var k := q * 60 + m;
    Div60000(t, k, m * 1000);
    Div60(k, q, m);
    Div1000(t, k * 60 + m, 0);
    Div60(k * 60 + m, k, m);
  }

  /** `formatDate` throws exactly when the AM/PM marker is wrong. */
  lemma ProjectionRejects(date: string, year: JsNumber, week: JsNumber, weekDay: DayOfWeek)
    ensures Projection(date, year, week, weekDay).Err? <==> !MarkerOk(date)
    ensures Projection(date, year, week, weekDay).Err? ==>
              Projection(date, year, week, weekDay).error == InvalidDateError
  {
  }

  // ------------------------------------------------------------ differences

  /** The hour, minute and second fields of "h:m:s": `parseInt(_, 10)` of the
      colon-separated parts, `undefined` (NaN in arithmetic) where a part is missing. */
  function ClockField(s: string, i: nat): JsNumber
  {
    var parts := Split(s, ":");
    if i < |parts| then ParseInt(parts[i], false) else NaN
  }

  /** `(h % 12) * 3600 + m * 60 + s`, with JavaScript's truncating `%`. */
  function SecondsOfDay(s: string): JsNumber
  {
    var h, m, sec := ClockField(s, 0), ClockField(s, 1), ClockField(s, 2);
    if h.Num? && m.Num? && sec.Num? then Num(JsRem(h.v, 12) * 3600 + m.v * 60 + sec.v) else NaN
  }

  /** `getHourStringDifference(date1, date2)`: whole hours between two clock strings. */
  function HourStringDifference(date1: string, date2: string): JsNumber
  {
    var t1, t2 := SecondsOfDay(date1), SecondsOfDay(date2);
    if t1.Num? && t2.Num? then Num(Abs(t2.v - t1.v) / 3600) else NaN
  }

  /** The difference does not depend on the order of its arguments. */
  lemma HourStringDifferenceSymmetric(date1: string, date2: string)
    ensures HourStringDifference(date1, date2) == HourStringDifference(date2, date1)
  {
  }

  /** With non-negative hours and minutes and seconds below 60, the difference
      is a whole number of hours in 0..11, as hours are taken modulo 12. */
  lemma HourStringDifferenceBound(date1: string, date2: string)
    requires forall i | 0 <= i < 3 :: ClockField(date1, i).Num? && ClockField(date2, i).Num?
    requires ClockField(date1, 0).v >= 0 && ClockField(date2, 0).v >= 0
    requires 0 <= ClockField(date1, 1).v < 60 && 0 <= ClockField(date1, 2).v < 60
    requires 0 <= ClockField(date2, 1).v < 60 && 0 <= ClockField(date2, 2).v < 60
    ensures HourStringDifference(date1, date2).Num?
    ensures 0 <= HourStringDifference(date1, date2).v <= 11
  {
    assert ClockField(date1, 0).Num? && ClockField(date1, 1).Num? && ClockField(date1, 2).Num?;
    assert ClockField(date2, 0).Num? && ClockField(date2, 1).Num? && ClockField(date2, 2).Num?;
  }

  datatype DayDiff = DayDiff(days: int, hour: int)

  /** `getDayDifference(date1, date2)`: the whole days from `date1` to `date2`
      (rounded down, also when negative) and the whole hours left over. */
  function DayDifference(date1: int, date2: int): (r: DayDiff)
    ensures 0 <= r.hour < 24
    ensures r.days * MsPerDay + r.hour * MsPerHour <= date2 - date1
    ensures date2 - date1 < r.days * MsPerDay + (r.hour + 1) * MsPerHour
  {
    var diff := date2 - date1;
    var days := diff / MsPerDay;
    var rest := diff - days * MsPerDay;
    DayDiff(days, rest / MsPerHour)
  }

  /** Those bounds pin the result down: no other pair of whole days and
      hours 0..23 satisfies them. */
  lemma DayDifferenceUnique(date1: int, date2: int, days: int, hour: int)
    requires 0 <= hour < 24
    requires days * MsPerDay + hour * MsPerHour <= date2 - date1 < days * MsPerDay + (hour + 1) * MsPerHour
    ensures DayDifference(date1, date2) == DayDiff(days, hour)
  {
  }

  // ------------------------------------------------------------ calculateIfValid

  /** `calculateIfValid` lets the booking go on: neither the year nor the week
      is behind the clock (a separate guard), the time string is well formed
      and the projected instant is not before now. */
  predicate Bookable(date: string, year: JsNumber, week: JsNumber, weekDay: DayOfWeek, clock: Clock)
  {
    !Greater(Num(clock.year), year) && !Greater(Num(clock.week), week) &&
    var p := Projection(date, year, week, weekDay);
    p.Ok? && !Later(Time(clock.now), p.value)
  }

  /** The guard sequence of `calculateIfValid`, and of `joinShift` before its
      booking, on numbers that may be `NaN`: a `NaN` year or week passes both
      comparisons, and a time string without "AM" or "PM" fails with the error
      of `formatDate`. */
  function DateGuard(date: string, year: JsNumber, week: JsNumber, weekDay: DayOfWeek, clock: Clock): (r: Outcome)
    ensures r.Pass? <==> Bookable(date, year, week, weekDay, clock)
    ensures Greater(Num(clock.year), year) || Greater(Num(clock.week), week) ==> r == Fail(PastDateError)
    ensures r.Fail? ==> r.error == (if Greater(Num(clock.year), year) || Greater(Num(clock.week), week) || MarkerOk(date)
                                    then PastDateError else InvalidDateError)
  {
    if Greater(Num(clock.year), year) then Fail(PastDateError)
    else if Greater(Num(clock.week), week) then Fail(PastDateError)
    else match Projection(date, year, week, weekDay)
      case Err(e) => Fail(e)
      case Ok(t) => if Later(Time(clock.now), t) then Fail(PastDateError) else Pass
  }

  /** `calculateIfValid(date, year, week, weekDay)`. */
  method CalculateIfValid(date: string, year: int, week: int, weekDay: DayOfWeek, clock: Clock)
    returns (r: Outcome)
    ensures r == DateGuard(date, Num(year), Num(week), weekDay, clock)
  {
    if clock.year > year {
      return Fail(PastDateError);
    }
    if clock.week > week {
      return Fail(PastDateError);
    }
    var newDate := FormatDate(date, Num(year), Num(week), weekDay);
    if newDate.Err? {
      return Fail(newDate.error);
    }
    if Later(Time(clock.now), newDate.value) {
      return Fail(PastDateError);
    }
    return Pass;
  }
}
