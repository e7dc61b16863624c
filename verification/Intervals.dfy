/** On which days a schedule falls, in terms of its own interval, start, patterns and end, without
    periods or steps. */
module Intervals {
  import opened Common
  import opened Calendar
  import opened Ordering
  import opened Recurrence
  import opened YearCounts
  import opened PatternCounts

  /** An endless schedule that does not avoid weekends. */
  predicate IsEndless(config: Config) {
    config.end == End.Never && !config.skipWeekend
  }

  lemma MultipleReaches(p: nat, d: nat)
    requires d >= 1 && p <= 20_000
    ensures 0 <= p * d <= 20_000 * d && (p * d) % d == 0
  {
    MultipleOf(p, d);
    if p < 20_000 {
      StepsAdvance(p, 20_000, d);
    }
  }

  /** The period that is `n` away, in steps of `d`, from the first one. */
  lemma PeriodAt(n: int, d: nat) returns (p: nat)
    requires d >= 1 && 0 <= n <= 20_000 * d && n % d == 0
    ensures p <= 20_000 && n == p * d
  {
    p := ExactQuotient(n, d);
    QuotientBound(p, 20_000, d);
  }

  lemma StrideFallsOn(config: Config, date: int)
    requires IsEndless(config) && (config.frequency.Daily? || config.frequency.Weekly?)
    ensures var n, d := date - config.start, Stride(config);
            FallsOn(Recurring(config), date) <==> 0 <= n <= 20_000 * d && n % d == 0
  {
    hide FallsOn, RawDates, Stride;
    FallsOnRaw(config, date);
    var n, d := date - config.start, Stride(config);
    if InSomePeriod(config, MAX_PERIODS + 1, date) {
      var p: nat :| p < MAX_PERIODS + 1 && date in RawDates(config, p);
      StrideRaw(config, p, date);
      MultipleReaches(p, d);
    }
    if 0 <= n <= 20_000 * d && n % d == 0 {
      var p := PeriodAt(n, d);
      StrideRaw(config, p, date);
    }
  }

  /** Every `interval` days from the start, 20 000 times over. */
  lemma DailyExactly(config: Config, date: int)
    requires IsEndless(config) && config.frequency.Daily? && config.interval >= 1
    ensures FallsOn(Recurring(config), date) <==>
            && config.start <= date <= config.start + 20_000 * config.interval
            && (date - config.start) % config.interval == 0
  {
    hide FallsOn;
    StrideFallsOn(config, date);
  }

  /** Every `interval` weeks from the start, 20 000 times over. */
  lemma WeeklyExactly(config: Config, date: int)
    requires IsEndless(config) && config.frequency.Weekly? && config.interval >= 1
    ensures FallsOn(Recurring(config), date) <==>
            && config.start <= date <= config.start + 20_000 * (7 * config.interval)
            && (date - config.start) % (7 * config.interval) == 0
  {
    hide FallsOn;
    StrideFallsOn(config, date);
    assert Stride(config) == 7 * config.interval;
  }

  function Min(n: int, m: int): int {
    if n < m then n else m
  }

  /** Clamping gives the requested day of the month, or the last one. */
  lemma ClampedFields(year: int, month: int, day: int, date: int)
    requires 1 <= month <= 12 && day >= 1
    ensures date == ClampDay(year, month, day) <==>
            && YearOf(date) == year && MonthOf(date) == month
            && DayOf(date) == Min(day, MonthLength(year, month))
  {
    hide MonthStart, MonthIndexOf, FromYmd, DaysInMonth;
    BuiltFromFields(date);
    assert ClampDay(year, month, day) == FromYmd(year, month, Min(day, MonthLength(year, month)));
  }

  /** Whether a date is the one, or one of those, a monthly schedule names in the date's own month:
      the start's day, or the month's last day if there is no such day; with patterns, a date of some
      pattern. */
  predicate IsMonthlyDate(config: Config, date: int) {
    if config.patterns == [] then DayOf(date) == Min(DayOf(config.start), MonthLength(YearOf(date), MonthOf(date)))
    else exists p <- config.patterns :: DateOf(p, YearOf(date), MonthOf(date)) == Some(date)
  }

  lemma {:induction false} MonthlyDatesExactly(config: Config, date: int)
    ensures date in MonthlyDates(config, MonthIndexOf(date)) <==> IsMonthlyDate(config, date)
  {
    hide MonthIndexOf, MonthStart, ClampDay, DateOf, MonthlyDates, DayOf, YearOf, MonthOf;
    if config.patterns == [] {
      OneMonthlyDate(config, date);
      ClampedFields(YearOf(date), MonthOf(date), DayOf(config.start), date);
    } else {
      FieldsOfDate(date);
      DatesOfMonth(config, MonthIndexOf(date), date);
    }
  }

  lemma OneMonthlyDate(config: Config, date: int)
    requires config.patterns == []
    ensures MonthlyDates(config, MonthIndexOf(date)) == [ClampDay(YearOf(date), MonthOf(date), DayOf(config.start))]
  {
    hide MonthIndexOf, MonthStart, ClampDay, DayOf;
  }

  lemma FieldsOfDate(date: int)
    ensures YearOf(date) == MonthIndexOf(date) / 12 && MonthOf(date) == MonthIndexOf(date) % 12 + 1
  {
    hide MonthIndexOf;
  }

  /** Every `interval` months from the start month, 20 000 times over, on the dates of those months. */
  lemma MonthlyExactly(config: Config, date: int)
    requires IsEndless(config) && config.frequency.Monthly? && config.interval >= 1
    ensures var months := MonthIndexOf(date) - MonthIndexOf(config.start);
            FallsOn(Recurring(config), date) <==>
            0 <= months <= 20_000 * config.interval && months % config.interval == 0 && IsMonthlyDate(config, date)
  {
    hide FallsOn, MonthIndexOf, MonthStart, MonthlyDates, IsMonthlyDate;
    FallsOnRaw(config, date);
    MonthlyDatesExactly(config, date);
    var months := MonthIndexOf(date) - MonthIndexOf(config.start);
    if InSomePeriod(config, MAX_PERIODS + 1, date) {
      var p: nat :| p < MAX_PERIODS + 1 && date in RawDates(config, p);
      assert months == p * config.interval;
      MultipleReaches(p, config.interval);
    }
    if 0 <= months <= 20_000 * config.interval && months % config.interval == 0 && IsMonthlyDate(config, date) {
      var p := PeriodAt(months, config.interval);
      assert date in RawDates(config, p);
    }
  }

  /** Every `interval` years from the start year, 20 000 times over, in the start's month on the
      start's day, or on the last day of that month. */
  lemma YearlyExactly(config: Config, date: int)
    requires IsEndless(config) && config.frequency.Yearly? && config.interval >= 1
    ensures var years := YearOf(date) - YearOf(config.start);
            FallsOn(Recurring(config), date) <==>
            && 0 <= years <= 20_000 * config.interval && years % config.interval == 0
            && MonthOf(date) == MonthOf(config.start)
            && DayOf(date) == Min(DayOf(config.start), MonthLength(YearOf(date), MonthOf(date)))
  {
    hide FallsOn, MonthIndexOf, MonthStart, ClampDay, RawDates, YearOf, MonthOf, DayOf, MonthLength;
    FallsOnRaw(config, date);
    var years, d := YearOf(date) - YearOf(config.start), config.interval;
    ClampedFields(YearOf(date), MonthOf(config.start), DayOf(config.start), date);
    if InSomePeriod(config, MAX_PERIODS + 1, date) {
      var p: nat :| p < MAX_PERIODS + 1 && date in RawDates(config, p);
      YearlyPeriod(config, p, date);
      MultipleReaches(p, d);
    }
    if 0 <= years <= 20_000 * d && years % d == 0 && date == ClampDay(YearOf(date), MonthOf(config.start), DayOf(config.start)) {
      var p := PeriodAt(years, d);
      YearlyPeriod(config, p, date);
    }
  }

  /** An interval of 0 is one of 1, whatever else the schedule says. */
  lemma ZeroIsOne(config: Config, from: int, to: int)
    ensures Occurrences(Recurring(config.(interval := 0)), from, to) == Occurrences(Recurring(config.(interval := 1)), from, to)
  {
    hide FallsOn, Occurrences;
    var zero, one := config.(interval := 0), config.(interval := 1);
    forall d
      ensures FallsOn(Recurring(zero), d) <==> FallsOn(Recurring(one), d)
    {
      forall p: nat
        ensures RawDates(zero, p) == RawDates(one, p)
      {
        SameRawDates(zero, one, p);
      }
      SameStream(zero, one, MAX_PERIODS + 1);
      SameFalls(zero, one, d);
    }
    assert Elements(Occurrences(Recurring(zero), from, to)) == Elements(Occurrences(Recurring(one), from, to));
    IncreasingUnique(Occurrences(Recurring(zero), from, to), Occurrences(Recurring(one), from, to));
  }

  /** Streams depend on frequency, interval, patterns and start only. */
  lemma {:induction false} SameStream(config: Config, other: Config, periods: nat)
    requires forall p: nat :: RawDates(config, p) == RawDates(other, p)
    ensures Stream(config, periods) == Stream(other, periods)
  {
    hide RawDates;
    if periods > 0 {
      SameStream(config, other, periods - 1);
    }
  }

  lemma SameRawDates(config: Config, other: Config, period: nat)
    requires Step(config) == Step(other)
    requires other == config.(interval := other.interval, skipWeekend := other.skipWeekend, weekendMode := other.weekendMode, end := other.end)
    ensures RawDates(config, period) == RawDates(other, period)
  {
    hide Step, MonthIndexOf, ClampDay, PatternDates, SortDedup, YearOf, MonthOf, DayOf;
    match config.frequency
    case Daily =>
    case Weekly =>
    case Monthly => SameMonthly(config, other, MonthIndexOf(config.start) + period * Step(config));
    case Yearly =>
  }

  lemma SameMonthly(config: Config, other: Config, month: int)
    requires config.patterns == other.patterns && config.start == other.start
    ensures MonthlyDates(config, month) == MonthlyDates(other, month)
  {
    hide ClampDay, PatternDates, SortDedup, DayOf;
  }

  lemma SameFalls(zero: Config, one: Config, date: int)
    requires one == zero.(interval := one.interval)
    requires Stream(zero, MAX_PERIODS + 1) == Stream(one, MAX_PERIODS + 1)
    ensures FallsOn(Recurring(zero), date) <==> FallsOn(Recurring(one), date)
  {
    hide Stream;
    var stream := Stream(one, MAX_PERIODS + 1);
    assert forall k: nat | k < |stream| ::
        (Admitted(zero, stream, k) <==> Admitted(one, stream, k)) && AdjustWeekend(zero, stream[k]) == AdjustWeekend(one, stream[k]);
  }

  lemma {:induction false} EndlessStream(config: Config, other: Config)
    requires other == config.(skipWeekend := other.skipWeekend, end := other.end)
    ensures Stream(config, MAX_PERIODS + 1) == Stream(other, MAX_PERIODS + 1)
  {
    hide RawDates, Stream, Step;
    SameSteps(config, other);
    SameStream(config, other, MAX_PERIODS + 1);
  }

  lemma SameSteps(config: Config, other: Config)
    requires other == config.(skipWeekend := other.skipWeekend, end := other.end)
    ensures forall p: nat :: RawDates(config, p) == RawDates(other, p)
  {
    hide RawDates;
    forall p: nat
      ensures RawDates(config, p) == RawDates(other, p)
    {
      SameRawDates(config, other, p);
    }
  }

  // ----- weekends and ends

  /** A schedule falls on the weekend shifts of the days on which it would fall if it did not avoid
      weekends, and on no other. */
  lemma ShiftedExactly(config: Config, date: int)
    ensures FallsOn(Recurring(config), date) <==>
            exists raw :: FallsOn(Recurring(config.(skipWeekend := false)), raw) && AdjustWeekend(config, raw) == date
  {
    hide Stream;
    var unshifted := config.(skipWeekend := false);
    var stream := Stream(config, MAX_PERIODS + 1);
    EndlessStream(config, unshifted);
    if FallsOn(Recurring(config), date) {
      var k: nat :| k < |stream| && Admitted(config, stream, k) && AdjustWeekend(config, stream[k]) == date;
      assert Admitted(unshifted, stream, k) && AdjustWeekend(unshifted, stream[k]) == stream[k];
      assert FallsOn(Recurring(unshifted), stream[k]);
    }
    if raw :| FallsOn(Recurring(unshifted), raw) && AdjustWeekend(config, raw) == date {
      var k: nat :| k < |stream| && Admitted(unshifted, stream, k) && AdjustWeekend(unshifted, stream[k]) == raw;
      assert Admitted(config, stream, k);
    }
  }

  /** Which stream position a day of a schedule without weekend shifts has. */
  lemma UnshiftedFalls(config: Config, date: int)
    requires !config.skipWeekend
    ensures var stream := Stream(config, MAX_PERIODS + 1);
            FallsOn(Recurring(config), date) <==> exists k: nat :: k < |stream| && stream[k] == date && Admitted(config, stream, k)
  {
    hide Stream, Admitted;
    var stream := Stream(config, MAX_PERIODS + 1);
    forall k: nat | k < |stream|
      ensures IsOccurrence(config, stream, date) <== stream[k] == date && Admitted(config, stream, k)
    {
      assert AdjustWeekend(config, stream[k]) == stream[k];
    }
  }

  /** An end date cuts off the days after it. */
  lemma EndDateExactly(config: Config, date: int)
    requires !config.skipWeekend && config.end.OnDate?
    ensures FallsOn(Recurring(config), date) <==>
            FallsOn(Recurring(config.(end := End.Never)), date) && date <= config.end.date
  {
    hide Stream, FallsOn, Admitted, RawDates;
    var endless := config.(end := End.Never);
    var stream := Stream(config, MAX_PERIODS + 1);
    EndlessStream(config, endless);
    StreamIncreasing(config, MAX_PERIODS + 1);
    UnshiftedFalls(config, date);
    UnshiftedFalls(endless, date);
    forall k: nat | k < |stream|
      ensures Admitted(config, stream, k) <==> Admitted(endless, stream, k) && stream[k] <= config.end.date
    {
      AdmittedByTests(config, stream, k);
      AdmittedByTests(endless, stream, k);
    }
  }

  /** A number of occurrences keeps the first so many days: those before which the endless schedule
      falls fewer times. */
  lemma AfterExactly(config: Config, date: int)
    requires !config.skipWeekend && config.end.AfterOccurrences?
    ensures var endless := config.(end := End.Never);
            FallsOn(Recurring(config), date) <==>
            FallsOn(Recurring(endless), date)
            && |Occurrences(Recurring(endless), MonthStart(MonthIndexOf(config.start)), date - 1)| < config.end.count
  {
    hide Stream, FallsOn, Admitted, MonthStart, MonthIndexOf, Occurrences, RawDates;
    var endless := config.(end := End.Never);
    var stream := Stream(config, MAX_PERIODS + 1);
    EndlessStream(config, endless);
    StreamIncreasing(config, MAX_PERIODS + 1);
    UnshiftedFalls(config, date);
    UnshiftedFalls(endless, date);
    forall k: nat | k < |stream|
      ensures Admitted(endless, stream, k)
      ensures Admitted(config, stream, k) <==> k < config.end.count
      ensures |Occurrences(Recurring(endless), MonthStart(MonthIndexOf(config.start)), stream[k] - 1)| == k
    {
      AdmittedByTests(config, stream, k);
      AdmittedByTests(endless, stream, k);
      DaysBefore(endless, k);
    }
  }

  /** Before its `k`-th raw date, counted from 0, an endless schedule falls on `k` days. */
  lemma DaysBefore(config: Config, k: nat)
    requires IsEndless(config) && k < |Stream(config, MAX_PERIODS + 1)|
    ensures |Occurrences(Recurring(config), MonthStart(MonthIndexOf(config.start)), Stream(config, MAX_PERIODS + 1)[k] - 1)| == k
  {
    hide Stream, FallsOn, MonthStart, MonthIndexOf, Occurrences, RawDates, Admitted;
    var stream := Stream(config, MAX_PERIODS + 1);
    var days := Occurrences(Recurring(config), MonthStart(MonthIndexOf(config.start)), stream[k] - 1);
    StreamIncreasing(config, MAX_PERIODS + 1);
    forall d
      ensures d in days <==> d in stream[..k]
    {
      IsDayBefore(config, k, d);
    }
    IncreasingUnique(days, stream[..k]);
  }

  lemma IsDayBefore(config: Config, k: nat, d: int)
    requires IsEndless(config) && k < |Stream(config, MAX_PERIODS + 1)|
    ensures var stream := Stream(config, MAX_PERIODS + 1);
            d in Occurrences(Recurring(config), MonthStart(MonthIndexOf(config.start)), stream[k] - 1) <==> d in stream[..k]
  {
    hide Stream, FallsOn, MonthStart, MonthIndexOf, Occurrences, RawDates, Admitted;
    var stream := Stream(config, MAX_PERIODS + 1);
    StreamIncreasing(config, MAX_PERIODS + 1);
    UnshiftedFalls(config, d);
    EndlessAdmits(config, stream);
    var from := MonthStart(MonthIndexOf(config.start));
    if d in stream[..k] {
      var i: nat :| i < k && stream[..k][i] == d;
      assert stream[i] == d;
      NotBeforeMonth(config, i);
    }
    if from <= d < stream[k] && FallsOn(Recurring(config), d) {
      var i: nat :| i < |stream| && stream[i] == d;
      assert i < k;
      assert stream[..k][i] == d;
    }
  }

  lemma NotBeforeMonth(config: Config, i: nat)
    requires i < |Stream(config, MAX_PERIODS + 1)|
    ensures MonthStart(MonthIndexOf(config.start)) <= Stream(config, MAX_PERIODS + 1)[i]
  {
    hide Stream, MonthStart, MonthIndexOf, RawDates;
    var d := Stream(config, MAX_PERIODS + 1)[i];
    StreamIncreasing(config, MAX_PERIODS + 1);
    assert InSomePeriod(config, MAX_PERIODS + 1, d);
    var p: nat :| p < MAX_PERIODS + 1 && d in RawDates(config, p);
    RawNotBeforeStart(config, p, d);
  }

  lemma EndlessAdmits(config: Config, stream: seq<int>)
    requires IsEndless(config)
    ensures forall k: nat | k < |stream| :: Admitted(config, stream, k)
  {
  }

  // ----- the canonical estimate

  /** The canonical number of occurrences a year, by the interval itself. */
  lemma CanonicalExactly(config: Config)
    requires config.interval >= 1
    ensures config.frequency.Daily? ==> CanonicalPerYear(config) == 365.0 / config.interval as real
    ensures config.frequency.Weekly? ==> CanonicalPerYear(config) == 52.0 / config.interval as real
    ensures config.frequency.Monthly? && config.patterns == [] ==> CanonicalPerYear(config) == 12.0 / config.interval as real
    ensures config.frequency.Monthly? && config.patterns != [] ==>
              CanonicalPerYear(config) == 12.0 / config.interval as real * |config.patterns| as real
    ensures config.frequency.Yearly? ==> CanonicalPerYear(config) == 1.0 / config.interval as real
    ensures CanonicalPerYear(config.(interval := 0)) == CanonicalPerYear(config.(interval := 1))
  {
  }
}
