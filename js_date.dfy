/** The part of ECMAScript's Date object the core uses: time values, the
    `new Date(year, month, date)` constructor, `getDay` and the setters
    `setDate`, `setHours`, `setMinutes` and `setSeconds`. Times are local
    milliseconds (no time-zone offset or daylight saving is applied). */
module JsDate {
  import opened Js

  const MsPerSecond: int := 1000
  const MsPerMinute: int := 60000
  const MsPerHour: int := 3600000
  const MsPerDay: int := 86400000
  /** The largest magnitude a time value may have before it becomes NaN. */
  const MaxTime: int := 8640000000000000

  /** A time value: milliseconds since 1 January 1970, or NaN (an "Invalid Date"). */
  datatype TimeValue = Time(ms: int) | Invalid

  function TimeClip(t: int): (r: TimeValue)
    ensures r.Time? <==> -MaxTime <= t <= MaxTime
    ensures r.Time? ==> r.ms == t
  {
    if t < -MaxTime || t > MaxTime then Invalid else Time(t)
  }

  /** The relational comparison `a > b` of two Date objects (both compared as
      numbers, so an Invalid Date on either side makes it false). */
  predicate Later(a: TimeValue, b: TimeValue)
  {
    a.Time? && b.Time? && a.ms > b.ms
  }

  // ------------------------------------------------------------ fields of a time value

  function Day(t: int): int { t / 86400000 }
  function TimeWithinDay(t: int): int { t % 86400000 }
  function HourFromTime(t: int): int { (t / 3600000) % 24 }
  function MinFromTime(t: int): int { (t / 60000) % 60 }
  function SecFromTime(t: int): int { (t / 1000) % 60 }
  function MsFromTime(t: int): int { t % 1000 }

  /** Day 0 (1 January 1970) was a Thursday; 0 is Sunday. */
  function WeekDay(t: int): (r: int)
    ensures 0 <= r < 7
  {
    (Day(t) + 4) % 7
  }

  // Division with a known quotient and remainder, one divisor at a time.
  lemma Div7(x: int, q: int, r: int)
    requires x == q * 7 + r && 0 <= r < 7
    ensures x / 7 == q && x % 7 == r
  {
  }

  lemma Div24(x: int, q: int, r: int)
    requires x == q * 24 + r && 0 <= r < 24
    ensures x / 24 == q && x % 24 == r
  {
  }

  lemma Div60(x: int, q: int, r: int)
    requires x == q * 60 + r && 0 <= r < 60
    ensures x / 60 == q && x % 60 == r
  {
  }

  lemma Div1000(x: int, q: int, r: int)
    requires x == q * 1000 + r && 0 <= r < 1000
    ensures x / 1000 == q && x % 1000 == r
  {
  }

  lemma Div60000(x: int, q: int, r: int)
    requires x == q * 60000 + r && 0 <= r < 60000
    ensures x / 60000 == q && x % 60000 == r
  {
  }

  lemma Div3600000(x: int, q: int, r: int)
    requires x == q * 3600000 + r && 0 <= r < 3600000
    ensures x / 3600000 == q && x % 3600000 == r
  {
  }

  lemma Div86400000(x: int, q: int, r: int)
    requires x == q * 86400000 + r && 0 <= r < 86400000
    ensures x / 86400000 == q && x % 86400000 == r
  {
  }

  /** Every time value is the sum of its fields. */
  lemma Decompose(t: int)
    ensures t == Day(t) * MsPerDay + HourFromTime(t) * MsPerHour + MinFromTime(t) * MsPerMinute
                 + SecFromTime(t) * MsPerSecond + MsFromTime(t)
    ensures TimeWithinDay(t) == HourFromTime(t) * MsPerHour + MinFromTime(t) * MsPerMinute
                 + SecFromTime(t) * MsPerSecond + MsFromTime(t)
  {
    var ms := t % 1000;
    var s := t / 1000;
    var m := s / 60;
    var h := m / 60;
    var d := h / 24;
    Div1000(t, s, ms);
    Div60(s, m, s % 60);
    Div60(m, h, m % 60);
    Div24(h, d, h % 24);
    var withinMinute := (s % 60) * 1000 + ms;
    Div60000(t, m, withinMinute);
    var withinHour := (m % 60) * 60000 + withinMinute;
    Div3600000(t, h, withinHour);
    var withinDay := (h % 24) * 3600000 + withinHour;
    Div86400000(t, d, withinDay);
  }

  /** On a whole hour the minute, second and millisecond fields are zero. */
  lemma WholeHourFields(k: int)
    ensures MinFromTime(k * MsPerHour) == 0 && SecFromTime(k * MsPerHour) == 0
    ensures MsFromTime(k * MsPerHour) == 0
  {
    var x := k * 3600000;
    Div60000(x, k * 60, 0);
    Div60(k * 60, k, 0);
    Div1000(x, k * 3600, 0);
    Div60(k * 3600, k * 60, 0);
  }

  /** On a whole minute the second and millisecond fields are zero. */
  lemma WholeMinuteFields(k: int)
    ensures SecFromTime(k * MsPerMinute) == 0 && MsFromTime(k * MsPerMinute) == 0
  {
    var x := k * 60000;
    Div1000(x, k * 60, 0);
    Div60(k * 60, k, 0);
  }

  /** On a whole day the hour field is zero too. */
  lemma WholeDayFields(d: int)
    ensures Day(d * MsPerDay) == d && TimeWithinDay(d * MsPerDay) == 0
    ensures HourFromTime(d * MsPerDay) == 0
  {
    var x := d * 86400000;
    Div86400000(x, d, 0);
    Div3600000(x, d * 24, 0);
    Div24(d * 24, d, 0);
  }

  // ------------------------------------------------------------ years and months

  /** The day number of 1 January of year `y` (proleptic Gregorian calendar). */
  function DayFromYear(y: int): int
  {
    365 * (y - 1970) + (y - 1969) / 4 - (y - 1901) / 100 + (y - 1601) / 400
  }

  function DaysInYear(y: int): (r: int)
    ensures r == 365 || r == 366
  {
    if y % 4 != 0 then 365 else if y % 100 != 0 then 366 else if y % 400 != 0 then 365 else 366
  }

  predicate InLeapYear(y: int) { DaysInYear(y) == 366 }

  lemma FloorStep4(a: int)
    ensures (a + 1) / 4 == a / 4 + (if (a + 1) % 4 == 0 then 1 else 0)
  {
  }

  lemma FloorStep100(a: int)
    ensures (a + 1) / 100 == a / 100 + (if (a + 1) % 100 == 0 then 1 else 0)
  {
  }

  lemma FloorStep400(a: int)
    ensures (a + 1) / 400 == a / 400 + (if (a + 1) % 400 == 0 then 1 else 0)
  {
  }

  lemma Div4(x: int, q: int, r: int)
    requires x == q * 4 + r && 0 <= r < 4
    ensures x / 4 == q && x % 4 == r
  {
  }

  lemma Div100(x: int, q: int, r: int)
    requires x == q * 100 + r && 0 <= r < 100
    ensures x / 100 == q && x % 100 == r
  {
  }

  lemma Div400(x: int, q: int, r: int)
    requires x == q * 400 + r && 0 <= r < 400
    ensures x / 400 == q && x % 400 == r
  {
  }

  lemma ShiftMod(y: int)
    ensures (y - 1968) % 4 == y % 4
    ensures (y - 1900) % 100 == y % 100
    ensures (y - 1600) % 400 == y % 400
  {
    Div4(y, y / 4, y % 4);
    Div4(y - 1968, y / 4 - 492, y % 4);
    Div100(y, y / 100, y % 100);
    Div100(y - 1900, y / 100 - 19, y % 100);
    Div400(y, y / 400, y % 400);
    Div400(y - 1600, y / 400 - 4, y % 400);
  }

  lemma LeapDivisors(y: int)
    ensures y % 400 == 0 ==> y % 100 == 0
    ensures y % 100 == 0 ==> y % 4 == 0
  {
  }

  /** Consecutive new years are exactly one year's length apart. */
  lemma DayFromYearStep(y: int)
    ensures DayFromYear(y + 1) == DayFromYear(y) + DaysInYear(y)
  {
    var a := if y % 4 == 0 then 1 else 0;
    var b := if y % 100 == 0 then 1 else 0;
    var c := if y % 400 == 0 then 1 else 0;
    FloorStep4(y - 1969);
    FloorStep100(y - 1901);
    FloorStep400(y - 1601);
    ShiftMod(y);
    LeapDivisors(y);
    assert DaysInYear(y) == 365 + a - b + c;
  }

  lemma {:induction false} DayFromYearMonotone(a: int, b: int)
    requires a <= b
    ensures DayFromYear(a) + 365 * (b - a) <= DayFromYear(b)
    decreases b - a
  {
    if a < b {
      DayFromYearMonotone(a, b - 1);
      DayFromYearStep(b - 1);
    }
  }

  function YearUp(d: int, y: int): (r: int)
    requires DayFromYear(y) <= d
    ensures DayFromYear(r) <= d < DayFromYear(r + 1)
    decreases d - DayFromYear(y)
  {
    DayFromYearStep(y);
    if d < DayFromYear(y + 1) then y else YearUp(d, y + 1)
  }

  function YearDown(d: int, y: int): (r: int)
    requires d < DayFromYear(y + 1)
    ensures DayFromYear(r) <= d < DayFromYear(r + 1)
    decreases DayFromYear(y + 1) - d
  {
    DayFromYearStep(y);
    if DayFromYear(y) <= d then y else YearDown(d, y - 1)
  }

  /** The year a day number falls in: the largest `y` with DayFromYear(y) <= d. */
  function YearFromDay(d: int): (r: int)
    ensures DayFromYear(r) <= d < DayFromYear(r + 1)
  {
    if d >= 0 then YearUp(d, 1970) else YearDown(d, 1969)
  }

  /** Only one year contains a given day. */
  lemma YearFromDayUnique(y: int, d: int)
    requires DayFromYear(y) <= d < DayFromYear(y + 1)
    ensures YearFromDay(d) == y
  {
    var r := YearFromDay(d);
    if r < y {
      DayFromYearMonotone(r + 1, y);
    } else if r > y {
      DayFromYearMonotone(y + 1, r);
    }
  }

  /** Days of the year before the first of month `m` (0 is January). */
  function MonthStart(m: int, leap: bool): (r: int)
    requires 0 <= m < 12
    ensures 0 <= r <= 335
  {
    var base := [0, 31, 59, 90, 120, 151, 181, 212, 243, 273, 304, 334][m];
    if leap && m >= 2 then base + 1 else base
  }

  /** The month a day of the year falls in. */
  function MonthFromDayInYear(dwy: int, leap: bool): (r: int)
    requires dwy >= 0
    ensures 0 <= r < 12 && MonthStart(r, leap) <= dwy
    ensures r < 11 ==> dwy < MonthStart(r + 1, leap)
  {
    if dwy >= MonthStart(11, leap) then 11
    else if dwy >= MonthStart(10, leap) then 10
    else if dwy >= MonthStart(9, leap) then 9
    else if dwy >= MonthStart(8, leap) then 8
    else if dwy >= MonthStart(7, leap) then 7
    else if dwy >= MonthStart(6, leap) then 6
    else if dwy >= MonthStart(5, leap) then 5
    else if dwy >= MonthStart(4, leap) then 4
    else if dwy >= MonthStart(3, leap) then 3
    else if dwy >= MonthStart(2, leap) then 2
    else if dwy >= MonthStart(1, leap) then 1
    else 0
  }

  function YearFromTime(t: int): int { YearFromDay(Day(t)) }

  function MonthFromTime(t: int): (r: int)
    ensures 0 <= r < 12
  {
    var y := YearFromTime(t);
    MonthFromDayInYear(Day(t) - DayFromYear(y), InLeapYear(y))
  }

  // ------------------------------------------------------------ MakeTime, MakeDay, MakeDate

  function MakeTime(hour: int, min: int, sec: int, ms: int): int
  {
    hour * MsPerHour + min * MsPerMinute + sec * MsPerSecond + ms
  }

  /** The day number of date `date` of month `month` of `year`; months outside
      0..11 carry into the year. */
  function MakeDay(year: int, month: int, date: int): int
  {
    var ym := year + month / 12;
    var mn := month % 12;
    DayFromYear(ym) + MonthStart(mn, InLeapYear(ym)) + date - 1
  }

  function MakeDate(day: int, time: int): int
  {
    day * MsPerDay + time
  }

  // ------------------------------------------------------------ the Date operations

  /** `new Date(year, month, date)`: a two-digit year 0..99 means 1900..1999. */
  function ConstructedValue(year: JsNumber, month: int, date: int): (r: TimeValue)
    ensures year.NaN? ==> r.Invalid?
  {
    if year.NaN? then Invalid
    else
      var y := if 0 <= year.v <= 99 then 1900 + year.v else year.v;
      TimeClip(MakeDate(MakeDay(y, month, date), MakeTime(0, 0, 0, 0)))
  }

  /** `getDay()`: NaN on an Invalid Date. */
  function GetDayValue(t: TimeValue): (r: JsNumber)
    ensures r.Num? <==> t.Time?
    ensures r.Num? ==> 0 <= r.v < 7
  {
    if t.Invalid? then NaN else Num(WeekDay(t.ms))
  }

  /** `setDate(dt)`: same year, month and time of day, day of month `dt`. */
  function SetDateValue(t: TimeValue, dt: JsNumber): (r: TimeValue)
    ensures t.Invalid? || dt.NaN? ==> r.Invalid?
  {
    if t.Invalid? || dt.NaN? then Invalid
    else
      var day := MakeDay(YearFromTime(t.ms), MonthFromTime(t.ms), dt.v);
      TimeClip(MakeDate(day, TimeWithinDay(t.ms)))
  }

  /** `setHours(h)`: same day, minutes, seconds and milliseconds. */
  function SetHoursValue(t: TimeValue, h: JsNumber): (r: TimeValue)
    ensures t.Invalid? || h.NaN? ==> r.Invalid?
  {
    if t.Invalid? || h.NaN? then Invalid
    else
      var x := t.ms;
      TimeClip(MakeDate(Day(x), MakeTime(h.v, MinFromTime(x), SecFromTime(x), MsFromTime(x))))
  }

  /** `setMinutes(m)`: same day, hour, seconds and milliseconds. */
  function SetMinutesValue(t: TimeValue, m: JsNumber): (r: TimeValue)
    ensures t.Invalid? || m.NaN? ==> r.Invalid?
  {
    if t.Invalid? || m.NaN? then Invalid
    else
      var x := t.ms;
      TimeClip(MakeDate(Day(x), MakeTime(HourFromTime(x), m.v, SecFromTime(x), MsFromTime(x))))
  }

  /** `setSeconds(s)`: same day, hour, minutes and milliseconds. */
  function SetSecondsValue(t: TimeValue, s: JsNumber): (r: TimeValue)
    ensures t.Invalid? || s.NaN? ==> r.Invalid?
  {
    if t.Invalid? || s.NaN? then Invalid
    else
      var x := t.ms;
      TimeClip(MakeDate(Day(x), MakeTime(HourFromTime(x), MinFromTime(x), s.v, MsFromTime(x))))
  }

  // ------------------------------------------------------------ what the setters do

  /** Each time setter replaces one field and moves the time value by the
      difference, whatever the argument's range. */
  lemma SetHoursShift(x: int, h: int)
    ensures SetHoursValue(Time(x), Num(h)) == TimeClip(x + (h - HourFromTime(x)) * MsPerHour)
  {
    Decompose(x);
  }

  lemma SetMinutesShift(x: int, m: int)
    ensures SetMinutesValue(Time(x), Num(m)) == TimeClip(x + (m - MinFromTime(x)) * MsPerMinute)
  {
    Decompose(x);
  }

  lemma SetSecondsShift(x: int, s: int)
    ensures SetSecondsValue(Time(x), Num(s)) == TimeClip(x + (s - SecFromTime(x)) * MsPerSecond)
  {
    Decompose(x);
  }

  /** `setDate(n)` on a date in January of `y` (at midnight) gives day `n` of
      that January, counted on from 1 January, so values past 31 roll into
      later months and values below 1 into December of the year before. */
  lemma SetDateInJanuary(y: int, dayOfMonth: int, x: int, n: int)
    requires 1 <= dayOfMonth <= 31
    requires x == MakeDate(DayFromYear(y) + dayOfMonth - 1, 0)
    ensures SetDateValue(Time(x), Num(n)) == TimeClip((DayFromYear(y) + n - 1) * MsPerDay)
  {
    JanuaryFields(y, dayOfMonth, x);
    assert MakeDay(y, 0, n) == DayFromYear(y) + n - 1;
  }

  lemma JanuaryFields(y: int, dayOfMonth: int, x: int)
    requires 1 <= dayOfMonth <= 31
    requires x == MakeDate(DayFromYear(y) + dayOfMonth - 1, 0)
    ensures YearFromTime(x) == y && MonthFromTime(x) == 0 && TimeWithinDay(x) == 0
  {
    var d := DayFromYear(y) + dayOfMonth - 1;
    assert x == d * MsPerDay;
    WholeDayFields(d);
    DayFromYearStep(y);
    YearFromDayUnique(y, d);
  }

  // ------------------------------------------------------------ the object

  /** A Date object: its only state is its time value. */
  class LocalDate {
    var time: TimeValue

    /** `new Date(year, month, date)` at midnight. */
    constructor (year: JsNumber, month: int, date: int)
      ensures time == ConstructedValue(year, month, date)
    {
      time := ConstructedValue(year, month, date);
    }

    function GetDay(): (r: JsNumber)
      reads this
      ensures r.Num? <==> time.Time?
      ensures r.Num? ==> 0 <= r.v < 7 && r.v == WeekDay(time.ms)
    {
      GetDayValue(time)
    }

    method SetDate(dt: JsNumber)
      modifies this
      ensures time == SetDateValue(old(time), dt)
    {
      time := SetDateValue(time, dt);
    }

    method SetHours(h: JsNumber)
      modifies this
      ensures time == SetHoursValue(old(time), h)
    {
      time := SetHoursValue(time, h);
    }

    method SetMinutes(m: JsNumber)
      modifies this
      ensures time == SetMinutesValue(old(time), m)
    {
      time := SetMinutesValue(time, m);
    }

    method SetSeconds(s: JsNumber)
      modifies this
      ensures time == SetSecondsValue(old(time), s)
    {
      time := SetSecondsValue(time, s);
    }
  }
}
