/** How many times a monthly schedule with patterns falls in a year, from below. */
module PatternCounts {
  import opened Common
  import opened Calendar
  import opened Numbers
  import opened Ordering
  import opened Recurrence
  import opened YearCounts

  /** Whether every month has a date for a pattern: only a fifth weekday may be missing. */
  predicate IsEveryMonth(pattern: Pattern) {
    pattern.DayOfMonth? || pattern.nth <= 4
  }

  /** The date a pattern names in a month, if any. */
  function DateOf(pattern: Pattern, year: int, month: int): (date: Option<int>)
    requires 1 <= month <= 12
  {
    match pattern
    case DayOfMonth(day) => Some(ClampDay(year, month, day))
    case NthWeekday(weekday, nth) => NthWeekdayOfMonth(year, month, weekday, nth)
  }

  lemma EveryMonthHasDate(pattern: Pattern, year: int, month: int)
    requires IsEveryMonth(pattern) && 1 <= month <= 12
    ensures DateOf(pattern, year, month).Some?
  {
    hide ClampDay, NthWeekdayOfMonth, CountWeekday, FromYmd, DaysInMonth;
    if pattern.NthWeekday? {
      NthWeekdayExact(year, month, pattern.weekday, pattern.nth);
    }
  }

  /** Whether some pattern names a date. */
  predicate IsNamed(patterns: seq<Pattern>, year: int, month: int, date: int)
    requires 1 <= month <= 12
  {
    exists p <- patterns :: DateOf(p, year, month) == Some(date)
  }

  lemma NamedFirstOrLater(patterns: seq<Pattern>, year: int, month: int, date: int)
    requires patterns != [] && 1 <= month <= 12
    ensures IsNamed(patterns, year, month, date) <==>
            DateOf(patterns[0], year, month) == Some(date) || IsNamed(patterns[1..], year, month, date)
  {
    hide DateOf;
    assert forall p :: p in patterns <==> p == patterns[0] || p in patterns[1..] by {
      assert patterns == [patterns[0]] + patterns[1..];
    }
  }

  /** The dates of a list of patterns are the dates of the patterns in it. */
  lemma {:induction false} DatesOfPatterns(patterns: seq<Pattern>, year: int, month: int, date: int)
    requires 1 <= month <= 12
    ensures date in PatternDates(patterns, year, month) <==> IsNamed(patterns, year, month, date)
  {
    hide ClampDay, NthWeekdayOfMonth;
    if patterns == [] {
      assert !IsNamed([], year, month, date);
    } else {
      NamedFirstOrLater(patterns, year, month, date);
      hide IsNamed;
      DatesOfPatterns(patterns[1..], year, month, date);
    }
  }

  /** With patterns, the dates of a month are those of the patterns. */
  lemma DatesOfMonth(config: Config, month: int, date: int)
    requires config.patterns != []
    ensures date in MonthlyDates(config, month) <==> IsNamed(config.patterns, month / 12, month % 12 + 1, date)
  {
    hide IsNamed, PatternDates, SortDedup;
    DatesOfPatterns(config.patterns, month / 12, month % 12 + 1, date);
  }

  lemma MonthHasDate(config: Config, month: int, pattern: Pattern)
    requires pattern in config.patterns && DateOf(pattern, month / 12, month % 12 + 1).Some?
    ensures |MonthlyDates(config, month)| >= 1
  {
    hide DateOf, MonthlyDates;
    DatesOfMonth(config, month, DateOf(pattern, month / 12, month % 12 + 1).value);
  }

  /** With a pattern that every month meets, at least 12 / k dates a year, rounded down. */
  lemma EveryMonthAtLeast(config: Config, year: int, pattern: Pattern)
    requires Plain(config) && config.frequency.Monthly? && Covers(config, year)
    requires pattern in config.patterns && IsEveryMonth(pattern)
    ensures YearCount(config, year) >= 12 / Step(config)
  {
    hide Occurrences, MonthlyDates, MonthStart, MonthIndexOf, Plain, Step, FromYmd, InStep, DateOf, IsEveryMonth, IsQuotient;
    var jan := MonthIndex(year, 1);
    YearRange(year);
    StartedByJanuary(config, year);
    forall m
      ensures 1 <= |MonthlyDates(config, m)| <= |config.patterns|
    {
      EveryMonthHasDate(pattern, m / 12, m % 12 + 1);
      MonthHasDate(config, m, pattern);
    }
    MonthsCount(config, jan, jan + 12, 1, |config.patterns|);
    InStepOfYear(config, jan);
    QuotientAtLeast(InStep(config, jan, jan + 12), 12, Step(config));
  }

  lemma QuotientAtLeast(q: int, n: nat, d: nat)
    requires d >= 1 && IsQuotient(q, n, d)
    ensures q >= n / d
  {
    if q < n / d {
      QuotientStepsUp(n, d, n + d - 1);
    }
  }

  lemma {:induction false} QuotientStepsUp(n: nat, d: nat, larger: nat)
    requires d >= 1 && n <= larger
    ensures n / d <= larger / d
    decreases larger - n
  {
    if n < larger {
      QuotientStepsUp(n, d, larger - 1);
      QuotientStep(larger, d);
    }
  }

  // ----- a fifth weekday every month

  lemma {:induction false} CountSplits(weekday: Weekday, from: int, mid: int, until: int)
    requires from <= mid <= until
    ensures CountWeekday(weekday, from, until) == CountWeekday(weekday, from, mid) + CountWeekday(weekday, mid, until)
    decreases until - mid
  {
    if mid < until {
      CountSplits(weekday, from, mid, until - 1);
    }
  }

  /** A stretch of `length` days holds length / 7 of a weekday, rounded down or up. */
  lemma CountInStretch(weekday: Weekday, first: int, length: nat)
    ensures length / 7 <= CountWeekday(weekday, first, first + length) <= (length + 6) / 7
  {
    var offset := FirstWeekdayOffset(first, weekday);
    CountWeekdayClosed(weekday, first, first + offset, first + length);
  }

  /** A month holds a weekday four times, and a fifth time exactly when it has a fifth one. */
  lemma FifthWeekdayCounted(config: Config, month: int, weekday: Weekday)
    requires NthWeekday(weekday, 5) in config.patterns
    ensures CountWeekday(weekday, MonthStart(month), MonthStart(month + 1)) <= 4 + |MonthlyDates(config, month)|
  {
    hide MonthStart, CountWeekday, MonthlyDates, NthWeekdayOfMonth;
    FifthExactly(month, weekday);
    if NthWeekdayOfMonth(month / 12, month % 12 + 1, weekday, 5).Some? {
      MonthHasDate(config, month, NthWeekday(weekday, 5));
    }
  }

  lemma FifthExactly(month: int, weekday: Weekday)
    ensures CountWeekday(weekday, MonthStart(month), MonthStart(month + 1)) <= 5
    ensures NthWeekdayOfMonth(month / 12, month % 12 + 1, weekday, 5).Some? <==>
            5 <= CountWeekday(weekday, MonthStart(month), MonthStart(month + 1))
  {
    hide MonthStart, CountWeekday, NthWeekdayOfMonth, FromYmd, DaysInMonth, LengthOf;
    MonthStartStep(month);
    CountInStretch(weekday, MonthStart(month), LengthOf(month));
    FirstOfMonth(month);
    NthWeekdayExact(month / 12, month % 12 + 1, weekday, 5);
  }

  lemma FirstOfMonth(month: int)
    ensures FromYmd(month / 12, month % 12 + 1, 1) == MonthStart(month)
    ensures DaysInMonth(month / 12, month % 12 + 1) == LengthOf(month)
  {
    hide MonthStart;
    assert MonthIndex(month / 12, month % 12 + 1) == month;
  }

  /** Month after month, each weekday beyond the fourth brings a date. */
  lemma {:induction false} WeekdaysBringDates(config: Config, weekday: Weekday, first: int, next: int)
    requires Plain(config) && config.frequency.Monthly? && Step(config) == 1
    requires NthWeekday(weekday, 5) in config.patterns
    requires MonthIndexOf(config.start) <= first <= next <= MonthIndexOf(config.start) + MAX_PERIODS + 1
    ensures CountWeekday(weekday, MonthStart(first), MonthStart(next)) - 4 * (next - first)
         <= |Occurrences(Recurring(config), MonthStart(first), MonthStart(next) - 1)|
    decreases next - first
  {
    hide FallsOn, Occurrences, MonthlyDates, MonthStart, MonthIndexOf, Plain;
    if first < next {
      WeekdaysBringDates(config, weekday, first, next - 1);
      MonthJoins(config, first, next - 1);
      OneMonth(config, next - 1);
      FifthWeekdayCounted(config, next - 1, weekday);
      MonthStartOrder(first, next - 1);
      MonthStartOrder(next - 1, next);
      CountSplits(weekday, MonthStart(first), MonthStart(next - 1), MonthStart(next));
    }
  }

  /** Every month taken, a fifth weekday comes at least four times a year: a year holds each
      weekday at least 52 times, and each month the first four. */
  lemma FifthWeekdayAtLeast(config: Config, year: int, weekday: Weekday)
    requires Plain(config) && config.frequency.Monthly? && Covers(config, year) && Step(config) == 1
    requires NthWeekday(weekday, 5) in config.patterns
    ensures YearCount(config, year) >= 4
  {
    hide Occurrences, MonthStart, MonthIndexOf, Plain, FromYmd, CountWeekday, YearLength;
    var jan := MonthIndex(year, 1);
    YearRange(year);
    StartedByJanuary(config, year);
    YearAtLeast(year);
    WeekdaysBringDates(config, weekday, jan, jan + 12);
    CountInStretch(weekday, MonthStart(jan), YearLength(year));
  }

  // ----- together

  /** A number of dates that every covered year has: 12 / k if some pattern is met every month, 4 if
      every month is taken, none for a fifth weekday in some months only. */
  function LeastCount(config: Config): nat {
    if exists p <- config.patterns :: IsEveryMonth(p) then 12 / Step(config)
    else if Step(config) == 1 then 4
    else 0
  }

  lemma PatternedAtLeast(config: Config, year: int)
    requires Plain(config) && config.frequency.Monthly? && Covers(config, year) && config.patterns != []
    ensures YearCount(config, year) >= LeastCount(config)
  {
    hide Plain, Covers, YearCount, Step;
    if pattern :| pattern in config.patterns && IsEveryMonth(pattern) {
      EveryMonthAtLeast(config, year, pattern);
    } else if Step(config) == 1 {
      assert config.patterns[0] in config.patterns;
      FifthWeekdayAtLeast(config, year, config.patterns[0].weekday);
    }
  }

  // ----- repeated patterns

  /** Whether a schedule names the same date in every month, however many times over. */
  predicate IsRepeated(config: Config) {
    && config.frequency.Monthly? && config.patterns != [] && IsEveryMonth(config.patterns[0])
    && forall p <- config.patterns :: p == config.patterns[0]
  }

  /** Copies of one pattern are one date a month, but the canonical estimate counts every copy. */
  lemma RepeatedPatterns(config: Config, year: int)
    requires Plain(config) && Covers(config, year) && IsRepeated(config) && 12 % Step(config) == 0
    ensures YearCount(config, year) * Step(config) == 12
    ensures CanonicalPerYear(config) == (|config.patterns| * YearCount(config, year)) as real
  {
    hide Plain, Covers, Step, YearCount, CanonicalPerYear;
    OnceAMonth(config, year);
    TwelfthTimes(Step(config));
    CanonicalMonthly(config, |config.patterns|, YearCount(config, year));
  }

  lemma TwelfthTimes(step: nat)
    requires step >= 1 && 12 % step == 0
    ensures (12 / step) * step == 12
  {
  }

  lemma OnceAMonth(config: Config, year: int)
    requires Plain(config) && Covers(config, year) && IsRepeated(config) && 12 % Step(config) == 0
    ensures YearCount(config, year) == 12 / Step(config)
  {
    hide Occurrences, MonthlyDates, MonthStart, MonthIndexOf, Plain, Step, FromYmd, InStep;
    var jan := MonthIndex(year, 1);
    InStepTwelve(config, jan);
    YearRange(year);
    StartedByJanuary(config, year);
    forall m
      ensures |MonthlyDates(config, m)| == 1
    {
      OneDateAMonth(config, m);
    }
    hide IsRepeated;
    MonthsCount(config, jan, jan + 12, 1, 1);
  }

  lemma InStepTwelve(config: Config, jan: int)
    requires 12 % Step(config) == 0
    ensures InStep(config, jan, jan + 12) == 12 / Step(config)
  {
    hide MonthIndexOf, Step;
    TwelveInStep(jan - 1 - MonthIndexOf(config.start), Step(config));
  }

  lemma OneDateAMonth(config: Config, month: int)
    requires IsRepeated(config)
    ensures |MonthlyDates(config, month)| == 1
  {
    hide MonthlyDates, DateOf, IsEveryMonth;
    EveryMonthHasDate(config.patterns[0], month / 12, month % 12 + 1);
    MonthHasDate(config, month, config.patterns[0]);
    var dates := MonthlyDates(config, month);
    if |dates| > 1 {
      DatesOfMonth(config, month, dates[0]);
      DatesOfMonth(config, month, dates[1]);
    }
  }
}
