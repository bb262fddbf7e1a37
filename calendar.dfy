/** Naive datetimes, one-month steps with day clamping, and the month walk
    that drives batch enumeration (`while cur < end: ...; cur += 1 month`). */
module Calendar {

  /** A naive `datetime`: a calendar date and the time of day, counted in
      microseconds since midnight. */
  datatype DateTime = DateTime(year: int, month: int, day: int, micros: nat)

  const MicrosPerDay: nat := 86_400_000_000

  /** Gregorian leap-year rule. */
  predicate IsLeapYear(y: int)
  {
    y % 4 == 0 && (y % 100 != 0 || y % 400 == 0)
  }

  function DaysInMonth(y: int, m: int): (n: int)
    requires 1 <= m <= 12
    ensures 28 <= n <= 31
    ensures n == 29 <==> m == 2 && IsLeapYear(y)
  {
    if m == 2 then (if IsLeapYear(y) then 29 else 28)
    else if m == 4 || m == 6 || m == 9 || m == 11 then 30
    else 31
  }

  predicate Valid(d: DateTime)
  {
    && 1 <= d.year
    && 1 <= d.month <= 12
    && 1 <= d.day <= DaysInMonth(d.year, d.month)
    && d.micros < MicrosPerDay
  }

  /** Chronological order `a < b` of naive datetimes. */
  predicate Before(a: DateTime, b: DateTime)
  {
    || a.year < b.year
    || (a.year == b.year && a.month < b.month)
    || (a.year == b.year && a.month == b.month && a.day < b.day)
    || (a.year == b.year && a.month == b.month && a.day == b.day && a.micros < b.micros)
  }

  /** Months elapsed since January of year 0: consecutive months have
      consecutive indices. */
  function MonthIndex(d: DateTime): int
  {
    d.year * 12 + (d.month - 1)
  }

  /** `d + relativedelta(months=1)`: the month advances by one, December
      rolls into January of the next year, the day is clamped to the length
      of the new month and the time of day is kept. */
  function NextMonth(d: DateTime): (r: DateTime)
    requires Valid(d)
    ensures Valid(r)
    ensures MonthIndex(r) == MonthIndex(d) + 1
    ensures d.month == 12 ==> r.year == d.year + 1 && r.month == 1
    ensures d.month < 12 ==> r.year == d.year && r.month == d.month + 1
    ensures r.micros == d.micros
    ensures r.day == d.day || (d.day > r.day == DaysInMonth(r.year, r.month))
  {
    var y := if d.month == 12 then d.year + 1 else d.year;
    var m := if d.month == 12 then 1 else d.month + 1;
    var last := DaysInMonth(y, m);
    DateTime(y, m, if d.day <= last then d.day else last, d.micros)
  }

  lemma BeforeBoundsMonth(a: DateTime, b: DateTime)
    requires Valid(a) && Valid(b)
    ensures Before(a, b) ==> MonthIndex(a) <= MonthIndex(b)
    ensures MonthIndex(a) < MonthIndex(b) ==> Before(a, b)
  {
  }

  /** The cursor values `cur` at which the loop body runs, starting from
      `cur` and stopping at the first value that is not before `end`. */
  function Visits(cur: DateTime, end: DateTime): (vs: seq<DateTime>)
    requires Valid(cur) && Valid(end)
    ensures forall i :: 0 <= i < |vs| ==> Valid(vs[i]) && Before(vs[i], end)
    decreases MonthIndex(end) - MonthIndex(cur) + 1
  {
    BeforeBoundsMonth(cur, end);
    if Before(cur, end) then [cur] + Visits(NextMonth(cur), end) else []
  }

  /** The walk visits one cursor per month, in consecutive months from the
      start month. */
  lemma {:induction false} VisitsAreConsecutiveMonths(start: DateTime, end: DateTime)
    requires Valid(start) && Valid(end)
    ensures forall i :: 0 <= i < |Visits(start, end)| ==>
              MonthIndex(Visits(start, end)[i]) == MonthIndex(start) + i
    decreases MonthIndex(end) - MonthIndex(start) + 1
  {
    BeforeBoundsMonth(start, end);
    if Before(start, end) {
      var next := NextMonth(start);
      VisitsAreConsecutiveMonths(next, end);
      var vs, rest := Visits(start, end), Visits(next, end);
      forall i | 0 <= i < |vs|
        ensures MonthIndex(vs[i]) == MonthIndex(start) + i
      {
        if i > 0 {
          assert vs[i] == rest[i - 1];
        }
      }
    }
  }

  /** The walk is empty exactly when `start` is not before `end`, and it
      stops at the first cursor that is not before `end`. */
  lemma {:induction false} VisitsStop(start: DateTime, end: DateTime)
    requires Valid(start) && Valid(end)
    ensures Visits(start, end) == [] <==> !Before(start, end)
    ensures Visits(start, end) != [] ==>
              !Before(NextMonth(Visits(start, end)[|Visits(start, end)| - 1]), end)
    decreases MonthIndex(end) - MonthIndex(start) + 1
  {
    BeforeBoundsMonth(start, end);
    if Before(start, end) {
      var next := NextMonth(start);
      VisitsStop(next, end);
      var vs, rest := Visits(start, end), Visits(next, end);
      if rest != [] {
        assert vs[|vs| - 1] == rest[|rest| - 1];
      }
    }
  }

  /** Every month strictly between the start month and the end month is
      visited, and at most the end month itself besides; when `end` is the
      first instant of its month, exactly the months from the start month
      up to (not including) the end month are visited. */
  lemma {:induction false} VisitsCount(start: DateTime, end: DateTime)
    requires Valid(start) && Valid(end)
    ensures |Visits(start, end)| >= MonthIndex(end) - MonthIndex(start)
    ensures |Visits(start, end)| <= if Before(start, end) then MonthIndex(end) - MonthIndex(start) + 1 else 0
    ensures end.day == 1 && end.micros == 0 ==>
              |Visits(start, end)| == if MonthIndex(start) < MonthIndex(end) then MonthIndex(end) - MonthIndex(start) else 0
    decreases MonthIndex(end) - MonthIndex(start) + 1
  {
    BeforeBoundsMonth(start, end);
    if Before(start, end) {
      var next := NextMonth(start);
      VisitsCount(next, end);
      BeforeBoundsMonth(next, end);
    }
  }
}
