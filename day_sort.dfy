/** `Array.prototype.sort` with the `sortByDay` comparator of
    `ScheduleService.ts` and `EmployeeService.ts`: the comparator subtracts the
    weekday indices, and the sort is stable, so the rows come out ordered from
    Sunday to Saturday with the rows of one day in their original order. */
module DaySort {
  import opened Seqs
  import opened FormatDate

  predicate SortedByDay<T>(s: seq<T>, day: T -> DayOfWeek)
  {
    forall i, j :: 0 <= i < j < |s| ==> WeekIndex(day(s[i])) <= WeekIndex(day(s[j]))
  }

  /** The test "falls on weekday `d`", one value per `day` and `d`. */
  function OnDay<T>(day: T -> DayOfWeek, d: DayOfWeek): T -> bool
  {
    (x: T) => day(x) == d
  }

  /** Places `x` after every element whose weekday is not later than its own. */
  function Insert<T>(x: T, s: seq<T>, day: T -> DayOfWeek): (r: seq<T>)
    ensures |r| == |s| + 1
  {
    if s == [] then [x]
    else if WeekIndex(day(s[|s| - 1])) <= WeekIndex(day(x)) then s + [x]
    else Insert(x, s[..|s| - 1], day) + [s[|s| - 1]]
  }

  /** A stable insertion sort by weekday index. */
  function SortByDay<T>(s: seq<T>, day: T -> DayOfWeek): (r: seq<T>)
    ensures |r| == |s|
  {
    if s == [] then [] else Insert(s[|s| - 1], SortByDay(s[..|s| - 1], day), day)
  }

  /** Every element of the insertion is `x` or an element of `s`. */
  lemma {:induction false} InsertElements<T>(x: T, s: seq<T>, day: T -> DayOfWeek)
    ensures forall y :: y in Insert(x, s, day) ==> y == x || y in s
  {
    if s != [] && WeekIndex(day(x)) < WeekIndex(day(s[|s| - 1])) {
      InsertElements(x, s[..|s| - 1], day);
      assert forall y :: y in s[..|s| - 1] ==> y in s;
    }
  }

  lemma SortedSnoc<T>(t: seq<T>, l: T, day: T -> DayOfWeek)
    requires SortedByDay(t, day)
    requires forall y :: y in t ==> WeekIndex(day(y)) <= WeekIndex(day(l))
    ensures SortedByDay(t + [l], day)
  {
    forall i, j | 0 <= i < j < |t| + 1
      ensures WeekIndex(day((t + [l])[i])) <= WeekIndex(day((t + [l])[j]))
    {
      if j == |t| {
        assert (t + [l])[i] == t[i] && t[i] in t;
      } else {
        assert (t + [l])[i] == t[i] && (t + [l])[j] == t[j];
      }
    }
  }

  lemma {:induction false} InsertSorted<T>(x: T, s: seq<T>, day: T -> DayOfWeek)
    requires SortedByDay(s, day)
    ensures SortedByDay(Insert(x, s, day), day)
  {
    if s == [] {
    } else if WeekIndex(day(s[|s| - 1])) <= WeekIndex(day(x)) {
      forall y | y in s
        ensures WeekIndex(day(y)) <= WeekIndex(day(x))
      {
        var m :| 0 <= m < |s| && s[m] == y;
        assert m == |s| - 1 || WeekIndex(day(s[m])) <= WeekIndex(day(s[|s| - 1]));
      }
      SortedSnoc(s, x, day);
    } else {
      var p, l := s[..|s| - 1], s[|s| - 1];
      assert SortedByDay(p, day);
      InsertSorted(x, p, day);
      InsertElements(x, p, day);
      forall y | y in Insert(x, p, day)
        ensures WeekIndex(day(y)) <= WeekIndex(day(l))
      {
        if y != x {
          var m :| 0 <= m < |p| && p[m] == y;
          assert s[m] == y;
        }
      }
      SortedSnoc(Insert(x, p, day), l, day);
    }
  }

  lemma {:induction false} InsertMultiset<T>(x: T, s: seq<T>, day: T -> DayOfWeek)
    ensures multiset(Insert(x, s, day)) == multiset(s) + multiset{x}
  {
    if s != [] && WeekIndex(day(x)) > WeekIndex(day(s[|s| - 1])) {
      InsertMultiset(x, s[..|s| - 1], day);
      assert s == s[..|s| - 1] + [s[|s| - 1]];
    } else if s != [] && WeekIndex(day(s[|s| - 1])) > WeekIndex(day(x)) {
      InsertMultiset(x, s[..|s| - 1], day);
      assert s == s[..|s| - 1] + [s[|s| - 1]];
    }
  }

  /** Inserting `x` appends it to the rows of its own weekday and leaves the
      rows of every other weekday as they were: the rows it is placed before
      all fall on a later weekday, so none of them shares its day. */
  lemma {:induction false} InsertOnDay<T(!new)>(x: T, s: seq<T>, day: T -> DayOfWeek, d: DayOfWeek)
    ensures Filter(Insert(x, s, day), OnDay(day, d)) ==
            if day(x) == d then Filter(s, OnDay(day, d)) + [x] else Filter(s, OnDay(day, d))
  {
    var p := OnDay(day, d);
    if s == [] {
      assert Insert(x, s, day) == s + [x];
      FilterAppend(s, [x], p);
      FilterSingle(x, p);
    } else {
      var l := s[|s| - 1];
      var pre := s[..|s| - 1];
      assert s == pre + [l];
      if WeekIndex(day(l)) <= WeekIndex(day(x)) {
        assert Insert(x, s, day) == s + [x];
        FilterAppend(s, [x], p);
        FilterSingle(x, p);
      } else {
        var ip := Insert(x, pre, day);
        assert Insert(x, s, day) == ip + [l];
        InsertOnDay(x, pre, day, d);
        FilterAppend(ip, [l], p);
        FilterAppend(pre, [l], p);
        FilterSingle(l, p);
        if day(x) == d {
          assert !p(l);
          assert Filter(ip, p) == Filter(pre, p) + [x];
        } else {
          assert Filter(ip, p) == Filter(pre, p);
        }
      }
    }
  }

  /** The weekday sort orders the rows from Sunday to Saturday. */
  lemma {:induction false} SortByDaySorted<T>(s: seq<T>, day: T -> DayOfWeek)
    ensures SortedByDay(SortByDay(s, day), day)
  {
    if s != [] {
      SortByDaySorted(s[..|s| - 1], day);
      InsertSorted(s[|s| - 1], SortByDay(s[..|s| - 1], day), day);
    }
  }

  /** The weekday sort rearranges the rows and neither drops nor adds any. */
  lemma {:induction false} SortByDayPermutes<T>(s: seq<T>, day: T -> DayOfWeek)
    ensures multiset(SortByDay(s, day)) == multiset(s)
  {
    if s != [] {
      SortByDayPermutes(s[..|s| - 1], day);
      InsertMultiset(s[|s| - 1], SortByDay(s[..|s| - 1], day), day);
      assert s == s[..|s| - 1] + [s[|s| - 1]];
    }
  }

  /** Stability: the rows of each weekday keep their original relative order. */
  lemma {:induction false} SortByDayStable<T(!new)>(s: seq<T>, day: T -> DayOfWeek, d: DayOfWeek)
    ensures Filter(SortByDay(s, day), OnDay(day, d)) == Filter(s, OnDay(day, d))
  {
    if s != [] {
      var p := OnDay(day, d);
      var pre, l := s[..|s| - 1], s[|s| - 1];
      var t := SortByDay(pre, day);
      assert SortByDay(s, day) == Insert(l, t, day);
      SortByDayStable(pre, day, d);
      InsertOnDay(l, t, day, d);
      assert s == pre + [l];
      FilterAppend(pre, [l], p);
      FilterSingle(l, p);
    }
  }

  /** Stability for every weekday at once. */
  lemma SortByDayStableAll<T(!new)>(s: seq<T>, day: T -> DayOfWeek)
    ensures forall d :: Filter(SortByDay(s, day), OnDay(day, d)) == Filter(s, OnDay(day, d))
  {
    forall d {
      SortByDayStable(s, day, d);
    }
  }
}
