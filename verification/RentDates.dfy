/** Calendar dates and the month arithmetic that moves a rent to its next period. */
module RentDates {
  /** `month` counts months since January of year 0; `day` is the day of the month. */
  datatype Date = Date(month: nat, day: nat)

  predicate Leap(year: nat) {
    year % 4 == 0 && (year % 100 != 0 || year % 400 == 0)
  }

  function DaysIn(month: nat): (days: nat)
    ensures 28 <= days <= 31
  {
    var m := month % 12;
    if m == 1 then (if Leap(month / 12) then 29 else 28)
    else if m == 3 || m == 5 || m == 8 || m == 10 then 30
    else 31
  }

  predicate Valid(d: Date) { 1 <= d.day <= DaysIn(d.month) }

  predicate Before(x: Date, y: Date) {
    x.month < y.month || (x.month == y.month && x.day < y.day)
  }

  function NextDay(d: Date): Date {
    if d.day < DaysIn(d.month) then Date(d.month, d.day + 1) else Date(d.month + 1, 1)
  }

  function DaysBefore(month: nat): nat {
    if month == 0 then 0 else DaysBefore(month - 1) + DaysIn(month - 1)
  }

  function DayNumber(d: Date): nat { DaysBefore(d.month) + d.day }

  /** The day after a date is a date, and one further along the calendar, over every month's and year's end. */
  lemma NextDayIsNext(d: Date)
    requires Valid(d)
    ensures Valid(NextDay(d)) && DayNumber(NextDay(d)) == DayNumber(d) + 1
  {
  }

  lemma {:induction false} LaterMonthsStartLater(m: nat, n: nat)
    requires m < n
    ensures DaysBefore(m) + DaysIn(m) <= DaysBefore(n)
  {
    if m < n - 1 { LaterMonthsStartLater(m, n - 1); }
  }

  /** Comparing dates month first compares them along the calendar. */
  lemma BeforeIsEarlier(x: Date, y: Date)
    requires Valid(x) && Valid(y)
    ensures Before(x, y) <==> DayNumber(x) < DayNumber(y)
  {
    if x.month < y.month { LaterMonthsStartLater(x.month, y.month); }
    if y.month < x.month { LaterMonthsStartLater(y.month, x.month); }
  }

  /** Days from the start of a year to the start of its month `m`, counted from zero. */
  function DaysIntoYear(m: nat): nat
    requires m <= 12
  {
    if m == 0 then 0 else if m == 1 then 31 else if m == 2 then 59 else if m == 3 then 90 else if m == 4 then 120
    else if m == 5 then 151 else if m == 6 then 181 else if m == 7 then 212 else if m == 8 then 243
    else if m == 9 then 273 else if m == 10 then 304 else if m == 11 then 334 else 365
  }

  function LeapDay(year: nat): nat { if year % 4 == 0 && (year % 100 != 0 || year % 400 == 0) then 1 else 0 }

  lemma MonthLengths(year: nat, m: nat)
    requires m < 12
    ensures DaysIntoYear(m) + DaysIn(12 * year + m)
      == DaysIntoYear(m + 1) + if m == 1 then LeapDay(year) else 0
  {
    assert (12 * year + m) % 12 == m && (12 * year + m) / 12 == year;
  }

  lemma OneMonthMore(year: nat, month: nat, m: nat)
    requires m < 12 && month == 12 * year + m
    ensures DaysIntoYear(m) + DaysBefore(month + 1)
      == DaysIntoYear(m + 1) + DaysBefore(month) + if m == 1 then LeapDay(year) else 0
  {
    MonthLengths(year, m);
  }

  lemma {:induction false} MonthsOfAYear(year: nat, m: nat)
    requires m <= 12
    ensures DaysBefore(12 * year + m) == DaysBefore(12 * year) + DaysIntoYear(m)
      + if m >= 2 then LeapDay(year) else 0
  {
    if m > 0 {
      MonthsOfAYear(year, m - 1);
      OneMonthMore(year, 12 * year + (m - 1), m - 1);
    }
  }

  lemma QuotientIsUnique(x: nat, n: nat, q: nat)
    requires n > 0 && n * q <= x < n * q + n
    ensures x / n == q
  {
    var p := x / n;
    assert n * p <= x < n * p + n;
    assert p < q ==> n * (p + 1) <= n * q;
    assert p > q ==> n * (q + 1) <= n * p;
  }

  /** How many multiples of `n` are less than a number, counted up by one. */
  lemma MultiplesCounted(x: nat, n: nat)
    requires n > 0
    ensures (x + n) / n == (x + n - 1) / n + if x % n == 0 then 1 else 0
  {
    var q, r := x / n, x % n;
    assert x == n * q + r;
    QuotientIsUnique(x + n, n, q + 1);
    QuotientIsUnique(x + n - 1, n, if r == 0 then q else q + 1);
  }

  lemma MultipleOfMultiple(x: nat, n: nat, k: nat)
    requires n > 0 && k > 0 && x % (n * k) == 0
    ensures x % n == 0
  {
    var q := x / (n * k);
    assert x == (n * k) * q == n * (k * q);
    QuotientIsUnique(x, n, k * q);
  }

  lemma LeapsOneMore(year: nat)
    ensures (year + 4) / 4 - (year + 100) / 100 + (year + 400) / 400
      == (year + 3) / 4 - (year + 99) / 100 + (year + 399) / 400 + LeapDay(year)
  {
    MultiplesCounted(year, 4);
    MultiplesCounted(year, 100);
    MultiplesCounted(year, 400);
    if year % 400 == 0 { MultipleOfMultiple(year, 100, 4); }
    if year % 100 == 0 { MultipleOfMultiple(year, 4, 25); }
  }

  /** The leap years before a year. */
  function LeapsBefore(year: nat): nat { if year == 0 then 0 else LeapsBefore(year - 1) + LeapDay(year - 1) }

  /** Every fourth year is a leap year, except every hundredth, except every four-hundredth. */
  lemma {:induction false} LeapsCounted(year: nat)
    ensures LeapsBefore(year) == (year + 3) / 4 - (year + 99) / 100 + (year + 399) / 400
  {
    if year > 0 {
      LeapsCounted(year - 1);
      LeapsOneMore(year - 1);
    }
  }

  lemma {:induction false} DaysOfYears(year: nat)
    ensures DaysBefore(12 * year) == 365 * year + LeapsBefore(year)
  {
    if year > 0 {
      DaysOfYears(year - 1);
      MonthsOfAYear(year - 1, 12);
      assert 12 * (year - 1) + 12 == 12 * year;
    }
  }

  /** Days up to the start of any month of any year, in closed form. */
  lemma CalendarIsGregorian(year: nat, m: nat)
    requires m <= 12
    ensures DaysBefore(12 * year + m)
      == 365 * year + (year + 3) / 4 - (year + 99) / 100 + (year + 399) / 400 + DaysIntoYear(m)
         + if m >= 2 then LeapDay(year) else 0
  {
    LeapsCounted(year);
    DaysOfYears(year);
    MonthsOfAYear(year, m);
  }

  /**
   * Adding months the way the platform's date object does: a day the target
   * month lacks spills into the following month, and a result that left the
   * expected month is pulled back to the last day of the month before.
   */
  function AdvanceMonths(d: Date, months: nat): Date {
    var target := d.month + months;
    var moved := if d.day <= DaysIn(target) then Date(target, d.day) else Date(target + 1, d.day - DaysIn(target));
    if moved.month % 12 != target % 12 && moved.month > 0 then Date(moved.month - 1, DaysIn(moved.month - 1)) else moved
  }

  /** The spill and pull-back never leave the target month: the day is clamped, nothing else. */
  lemma AdvanceClamps(d: Date, months: nat)
    requires Valid(d)
    ensures var target := d.month + months;
      && AdvanceMonths(d, months) == Date(target, if d.day <= DaysIn(target) then d.day else DaysIn(target))
      && Valid(AdvanceMonths(d, months))
      && (months > 0 ==> Before(d, AdvanceMonths(d, months)))
  {
    var target := d.month + months;
    if d.day > DaysIn(target) {
      assert (target + 1) % 12 != target % 12;
    }
  }

  /**
   * Whole months in a custom period: its length in days over an average month
   * of 30.4375 days, rounded, and at least one.
   */
  function CustomMonths(start: Date, end: Date): (months: nat)
    ensures months >= 1
  {
    var gap := DayNumber(end) - DayNumber(start);
    var days := if gap > 0 then gap else 0;
    var rounded := (32 * days + 487) / 974;
    if rounded > 1 then rounded else 1
  }

  /**
   * Above one month the length is the nearest whole number of average months; at one it
   * is less than one and a half.
   */
  lemma CustomMonthsIsNearest(start: Date, end: Date)
    ensures var months := CustomMonths(start, end);
      var days := DayNumber(end) - DayNumber(start);
      && (months > 1 ==> -487 <= 32 * days - 974 * months < 487)
      && (months == 1 ==> 32 * days < 974 + 487)
  {
  }
}
