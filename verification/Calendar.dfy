/** The proleptic Gregorian calendar that the recurrence and month code relies on.

    A date is an integer day number: day 0 is Monday, 1 January of year 1. Years are
    unbounded in both directions. A month is addressed either by year and month (1 to 12)
    or by its month index `12 * year + month - 1`, which orders all months linearly. */
module Calendar {

  /** Days counted from Monday: 0 is Monday, 6 is Sunday. */
  type Weekday = w: nat | w < 7

  const SATURDAY: Weekday := 5
  const SUNDAY: Weekday := 6

  /** The index of January of year 1. */
  const FIRST_MONTH := 12

  predicate IsLeap(year: int) {
    year % 4 == 0 && (year % 100 != 0 || year % 400 == 0)
  }

  function YearLength(year: int): int {
    if IsLeap(year) then 366 else 365
  }

  /** The number of days of a month by the Gregorian leap rule. */
  function MonthLength(year: int, month: int): (length: int)
    requires 1 <= month <= 12
    ensures 28 <= length <= 31
  {
    if month == 2 then (if IsLeap(year) then 29 else 28)
    else if month == 4 || month == 6 || month == 9 || month == 11 then 30
    else 31
  }

  function LengthOf(month: int): (length: int)
    ensures 28 <= length <= 31
  {
    MonthLength(month / 12, month % 12 + 1)
  }

  /** The first day of the month with index `month`: month lengths added up from day 0. */
  function MonthStart(month: int): int
    decreases if month < FIRST_MONTH then FIRST_MONTH - month else month - FIRST_MONTH
  {
    if month == FIRST_MONTH then 0
    else if month > FIRST_MONTH then MonthStart(month - 1) + LengthOf(month - 1)
    else MonthStart(month + 1) - LengthOf(month)
  }

  predicate IsDate(year: int, month: int, day: int) {
    1 <= month <= 12 && 1 <= day <= MonthLength(year, month)
  }

  function MonthIndex(year: int, month: int): (index: int)
    requires 1 <= month <= 12
    ensures index / 12 == year && index % 12 == month - 1
  {
    12 * year + (month - 1)
  }

  /** The day number of a calendar date. Reading its fields gives back the date. */
  function FromYmd(year: int, month: int, day: int): (date: int)
    requires IsDate(year, month, day)
    ensures MonthIndexOf(date) == MonthIndex(year, month)
    ensures DayOf(date) == day
  {
    MonthStartStep(MonthIndex(year, month));
    MonthIndexUnique(MonthStart(MonthIndex(year, month)) + (day - 1), MonthIndex(year, month));
    MonthStart(MonthIndex(year, month)) + (day - 1)
  }

  function WeekdayOf(date: int): Weekday {
    date % 7
  }

  function SearchForward(date: int, month: int): (found: int)
    requires MonthStart(month) <= date
    ensures MonthStart(found) <= date < MonthStart(found + 1)
    decreases date - MonthStart(month)
  {
    MonthStartStep(month);
    if date < MonthStart(month + 1) then month else SearchForward(date, month + 1)
  }

  function SearchBackward(date: int, month: int): (found: int)
    requires date < MonthStart(month + 1)
    ensures MonthStart(found) <= date < MonthStart(found + 1)
    decreases MonthStart(month + 1) - date
  {
    MonthStartStep(month);
    if MonthStart(month) <= date then month else SearchBackward(date, month - 1)
  }

  /** The index of the month a day falls in. */
  function MonthIndexOf(date: int): (month: int)
    ensures MonthStart(month) <= date < MonthStart(month + 1)
  {
    if 0 <= date then SearchForward(date, FIRST_MONTH) else SearchBackward(date, FIRST_MONTH - 1)
  }

  function YearOf(date: int): int {
    MonthIndexOf(date) / 12
  }

  function MonthOf(date: int): (month: int)
    ensures 1 <= month <= 12
  {
    MonthIndexOf(date) % 12 + 1
  }

  function DayOf(date: int): (day: int)
    ensures 1 <= day
  {
    date - MonthStart(MonthIndexOf(date)) + 1
  }

  // ----- proofs

  /** Consecutive month starts lie one month length apart. */
  lemma MonthStartStep(month: int)
    ensures MonthStart(month + 1) == MonthStart(month) + LengthOf(month)
  {
  }

  lemma {:induction false} MonthStartIncreases(month: int, later: int)
    requires month < later
    ensures MonthStart(month) + 28 <= MonthStart(month + 1) <= MonthStart(later)
    decreases later - month
  {
    MonthStartStep(month);
    if month + 1 < later {
      MonthStartIncreases(month + 1, later);
    }
  }

  /** A day belongs to exactly one month. */
  lemma MonthIndexUnique(date: int, month: int)
    requires MonthStart(month) <= date < MonthStart(month + 1)
    ensures MonthIndexOf(date) == month
  {
    var m := MonthIndexOf(date);
    if m < month {
      MonthStartIncreases(m, month);
    } else if month < m {
      MonthStartIncreases(month, m);
    }
  }

  /** Months keep the order of their days. */
  lemma MonthIndexMonotone(date: int, later: int)
    requires MonthIndexOf(date) < MonthIndexOf(later)
    ensures date < later
  {
    MonthStartIncreases(MonthIndexOf(date), MonthIndexOf(later));
  }

  /** Rebuilding a date from its fields gives back the date. */
  lemma BuiltFromFields(date: int)
    ensures IsDate(YearOf(date), MonthOf(date), DayOf(date))
    ensures FromYmd(YearOf(date), MonthOf(date), DayOf(date)) == date
  {
    MonthStartStep(MonthIndexOf(date));
    assert MonthIndex(YearOf(date), MonthOf(date)) == MonthIndexOf(date);
  }

  /** The closed form of 1 January: 365 days a year and the leap days before it. */
  function YearStart(year: int): int {
    var past := year - 1;
    365 * past + past / 4 - past / 100 + past / 400
  }

  lemma YearStartStep(year: int)
    ensures YearStart(year + 1) == YearStart(year) + YearLength(year)
  {
    StepBy4(year - 1);
    StepBy100(year - 1);
    StepBy400(year - 1);
    CenturiesAreFourths(year);
    QuadCenturiesAreCenturies(year);
  }

  lemma StepBy4(n: int)
    ensures (n + 1) / 4 == n / 4 + (if (n + 1) % 4 == 0 then 1 else 0)
  {
  }

  lemma StepBy100(n: int)
    ensures (n + 1) / 100 == n / 100 + (if (n + 1) % 100 == 0 then 1 else 0)
  {
  }

  lemma StepBy400(n: int)
    ensures (n + 1) / 400 == n / 400 + (if (n + 1) % 400 == 0 then 1 else 0)
  {
  }

  lemma CenturiesAreFourths(n: int)
    ensures n % 100 == 0 ==> n % 4 == 0
  {
  }

  lemma QuadCenturiesAreCenturies(n: int)
    ensures n % 400 == 0 ==> n % 100 == 0
  {
  }

  /** Twelve month lengths make a year. */
  lemma YearOfMonths(year: int)
    ensures MonthStart(12 * year + 12) == MonthStart(12 * year) + YearLength(year)
  {
    hide MonthStart;
    LengthsOf(year, 1);
    LengthsOf(year, 2);
    LengthsOf(year, 3);
    LengthsOf(year, 4);
    LengthsOf(year, 5);
    LengthsOf(year, 6);
    LengthsOf(year, 7);
    LengthsOf(year, 8);
    LengthsOf(year, 9);
    LengthsOf(year, 10);
    LengthsOf(year, 11);
    LengthsOf(year, 12);
  }

  lemma LengthsOf(year: int, month: int)
    requires 1 <= month <= 12
    ensures MonthStart(12 * year + month) == MonthStart(12 * year + month - 1) + MonthLength(year, month)
  {
    MonthStartStep(MonthIndex(year, month));
  }

  /** Month lengths added one by one agree with the closed leap-day formula, in every year. */
  lemma {:induction false} YearStartClosed(year: int)
    ensures MonthStart(12 * year) == YearStart(year)
    decreases if year < 1 then 1 - year else year - 1
  {
    if year > 1 {
      YearStartClosed(year - 1);
      YearOfMonths(year - 1);
      YearStartStep(year - 1);
    } else if year < 1 {
      YearStartClosed(year + 1);
      YearOfMonths(year);
      YearStartStep(year);
    }
  }

  /** The days before a month in its year, in closed form. */
  function DaysBeforeMonth(year: int, month: int): int {
    (367 * month - 362) / 12 - (if month <= 2 then 1 else if IsLeap(year) then 2 else 3)
  }

  lemma DaysBeforeStep(year: int, month: int)
    requires 1 <= month <= 11
    ensures DaysBeforeMonth(year, month + 1) == DaysBeforeMonth(year, month) + MonthLength(year, month)
  {
  }

  /** Every month starts where the closed calendar formulas say. */
  lemma {:induction false} MonthStartClosed(year: int, month: int)
    requires 1 <= month <= 12
    ensures MonthStart(MonthIndex(year, month)) == YearStart(year) + DaysBeforeMonth(year, month) + 1
  {
    hide MonthStart, YearStart, MonthLength;
    if month == 1 {
      YearStartClosed(year);
    } else {
      MonthStartClosed(year, month - 1);
      LengthsOf(year, month - 1);
      DaysBeforeStep(year, month - 1);
    }
  }

  /** Day numbers agree with the calendar on the wall: 29 February 2024 was a Thursday. */
  lemma LeapDay2024()
    ensures IsDate(2024, 2, 29) && WeekdayOf(FromYmd(2024, 2, 29)) == 3
  {
    hide MonthStart, MonthIndexOf;
    MonthStartClosed(2024, 2);
    assert YearStart(2024) == 738_885;
  }
}
