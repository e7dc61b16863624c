/** How many times a schedule falls in a year, against the canonical estimate.

    All counts are of schedules that never end and do not avoid weekends, over ranges that
    the period cap reaches. */
module YearCounts {
  import opened Calendar
  import opened Numbers
  import opened Ordering
  import opened Recurrence

  /** Occurrences per typical year, from frequency and interval alone. */
  function CanonicalPerYear(config: Config): real {
    var interval := Step(config) as real;
    match config.frequency
    case Daily => 365.0 / interval
    case Weekly => 52.0 / interval
    case Monthly =>
      var datesPerPeriod := if |config.patterns| < 1 then 1 else |config.patterns|;
      12.0 / interval * (datesPerPeriod as real)
    case Yearly => 1.0 / interval
  }

  predicate Plain(config: Config) {
    config.end.Never? && !config.skipWeekend
  }

  /** A plain schedule falls exactly on the raw dates of its periods. */
  lemma FallsOnRaw(config: Config, date: int)
    requires Plain(config)
    ensures FallsOn(Recurring(config), date) <==> InSomePeriod(config, MAX_PERIODS + 1, date)
  {
    hide RawDates;
    var stream := Stream(config, MAX_PERIODS + 1);
    StreamIncreasing(config, MAX_PERIODS + 1);
    if InSomePeriod(config, MAX_PERIODS + 1, date) {
      StreamMembers(config, MAX_PERIODS + 1, date);
      var k: nat :| k < |stream| && stream[k] == date;
      assert Admitted(config, stream, k) && AdjustWeekend(config, stream[k]) == date;
    }
  }

  // ----- daily and weekly schedules

  /** The number of days between occurrences of a daily or weekly schedule. */
  function Stride(config: Config): (days: nat)
    ensures days >= 1
  {
    if config.frequency.Weekly? then Step(config) * 7 else Step(config)
  }

  lemma FallsOnStride(config: Config, date: int)
    requires Plain(config) && (config.frequency.Daily? || config.frequency.Weekly?)
    requires config.start <= date <= config.start + MAX_PERIODS * Stride(config)
    ensures FallsOn(Recurring(config), date) <==> (date - config.start) % Stride(config) == 0
  {
    hide FallsOn, RawDates, Stride;
    FallsOnRaw(config, date);
    var n, d := date - config.start, Stride(config);
    if InSomePeriod(config, MAX_PERIODS + 1, date) {
      var p: nat :| p < MAX_PERIODS + 1 && date in RawDates(config, p);
      StrideRaw(config, p, date);
      MultipleOf(p, d);
    }
    if n % d == 0 {
      var p: nat := ExactQuotient(n, d);
      QuotientBound(p, MAX_PERIODS, d);
      StrideRaw(config, p, date);
    }
  }

  lemma StrideRaw(config: Config, period: nat, date: int)
    requires config.frequency.Daily? || config.frequency.Weekly?
    ensures date in RawDates(config, period) <==> date - config.start == period * Stride(config)
  {
    assert period * Step(config) * 7 == period * (Step(config) * 7);
  }

  function ExactQuotient(n: nat, d: nat): (q: nat)
    requires d >= 1 && n % d == 0
    ensures q * d == n
  {
    assert n == (n / d) * d + n % d;
    n / d
  }

  lemma MultipleOf(q: int, d: nat)
    requires d >= 1
    ensures (q * d) % d == 0 && (q * d) / d == q
  {
    DivisionUnique(q * d, d, q, 0);
  }

  lemma QuotientBound(p: nat, bound: nat, d: nat)
    requires p * d <= bound * d && d >= 1
    ensures p <= bound
  {
    if p > bound {
      StepsAdvance(bound, p, d);
    }
  }

  lemma DivisionUnique(n: int, d: int, q: int, r: int)
    requires d >= 1 && 0 <= r < d && n == q * d + r
    ensures n / d == q && n % d == r
  {
    assert n == (n / d) * d + n % d;
    SameDivision(d, q, r, n / d, n % d);
  }

  lemma SameDivision(d: int, q: int, r: int, q': int, r': int)
    requires 0 <= r < d && 0 <= r' < d && q * d + r == q' * d + r'
    ensures q == q' && r == r'
  {
    if q < q' {
      MultiplesApart(q, q', d);
    } else if q' < q {
      MultiplesApart(q', q, d);
    }
  }

  lemma {:induction false} MultiplesApart(q: int, larger: int, d: int)
    requires q < larger && d >= 0
    ensures q * d + d <= larger * d
    decreases larger - q
  {
    assert larger * d == (larger - 1) * d + d;
    if q + 1 < larger {
      MultiplesApart(q, larger - 1, d);
    }
  }

  lemma QuotientStep(n: int, d: int)
    requires d >= 1
    ensures n / d == (n - 1) / d + (if n % d == 0 then 1 else 0)
  {
    var q, r := n / d, n % d;
    assert n == q * d + r;
    if r == 0 {
      assert n - 1 == (q - 1) * d + (d - 1);
      DivisionUnique(n - 1, d, q - 1, d - 1);
    } else {
      DivisionUnique(n - 1, d, q, r - 1);
    }
  }

  /** The exact number of occurrences of a daily or weekly schedule in any range after its start. */
  lemma {:induction false} StrideCount(config: Config, from: int, last: int)
    requires Plain(config) && (config.frequency.Daily? || config.frequency.Weekly?)
    requires config.start <= from <= last + 1
    requires last <= config.start + MAX_PERIODS * Stride(config)
    ensures |Occurrences(Recurring(config), from, last)|
         == (last - config.start) / Stride(config) - (from - 1 - config.start) / Stride(config)
    decreases last - from + 1
  {
    hide FallsOn;
    if from <= last {
      StrideCount(config, from, last - 1);
      FallsOnStride(config, last);
      QuotientStep(last - config.start, Stride(config));
    }
  }

  /** A difference of quotients is the quotient of the difference, rounded down or up. */
  lemma QuotientDifference(x: int, y: int, d: int)
    requires d >= 1
    ensures IsQuotient(x / d - y / d, x - y, d)
  {
    var q, r := x / d - y / d, x % d - y % d;
    assert x == (x / d) * d + x % d && y == (y / d) * d + y % d;
    assert (x / d) * d - (y / d) * d == q * d;
    assert x - y == q * d + r;
    if r >= 0 {
      DivisionUnique(x - y, d, q, r);
    } else {
      DivisionUnique(x - y + d - 1, d, q, r + d - 1);
    }
  }

  /** Whether `q` is the quotient of `n` by `d`, rounded down or up. */
  predicate IsQuotient(q: int, n: int, d: int)
    requires d >= 1
  {
    q == n / d || q == (n + d - 1) / d
  }

  function Ratio(n: int, d: int): real
    requires d >= 1
  {
    n as real / d as real
  }

  /** A daily or weekly schedule that falls every D days falls N / D times in a year of N
      days, rounded down or up. */
  lemma StrideYearCount(config: Config, year: int)
    requires Plain(config) && (config.frequency.Daily? || config.frequency.Weekly?)
    requires config.start <= FromYmd(year, 1, 1)
    requires FromYmd(year, 12, 31) <= config.start + MAX_PERIODS * Stride(config)
    ensures var count := |Occurrences(Recurring(config), FromYmd(year, 1, 1), FromYmd(year, 12, 31))|;
            IsQuotient(count, YearLength(year), Stride(config))
  {
    hide Occurrences, FromYmd, Stride, YearLength, MonthStart, Plain, FallsOn;
    var first, last := FromYmd(year, 1, 1), FromYmd(year, 12, 31);
    YearRange(year);
    assert first <= last + 1 by {
      assert YearLength(year) >= 0 by { YearAtLeast(year); }
    }
    StrideCount(config, first, last);
    QuotientDifference(last - config.start, first - 1 - config.start, Stride(config));
    assert last - config.start - (first - 1 - config.start) == YearLength(year);
  }

  lemma YearAtLeast(year: int)
    ensures 365 <= YearLength(year) <= 366
  {
  }

  /** Whether a schedule has begun by the start of a year and its period cap reaches the end. */
  predicate Covers(config: Config, year: int) {
    && config.start <= FromYmd(year, 1, 1)
    && match config.frequency
       case Daily => FromYmd(year, 12, 31) <= config.start + MAX_PERIODS * Stride(config)
       case Weekly => FromYmd(year, 12, 31) <= config.start + MAX_PERIODS * Stride(config)
       case Monthly => MonthIndex(year, 12) <= MonthIndexOf(config.start) + MAX_PERIODS * Step(config)
       case Yearly => year <= YearOf(config.start) + MAX_PERIODS * Step(config)
  }

  /** How far a year's count may be from the canonical one. */
  function Slack(config: Config): real {
    match config.frequency
    case Daily => 1.0 + Ratio(1, Step(config))
    case Weekly => 1.0 + Ratio(2, 7 * Step(config))
    case _ => 1.0
  }

  /** The number of occurrences in a year. */
  ghost function YearCount(config: Config, year: int): nat {
    |Occurrences(Recurring(config), FromYmd(year, 1, 1), FromYmd(year, 12, 31))|
  }

  /** In a year, a weekly schedule with interval k stays within 1 + 2/7k of the canonical 52 / k. */
  lemma WeeklyNearCanonical(config: Config, year: int)
    requires Plain(config) && config.frequency.Weekly? && Covers(config, year)
    ensures -1.0 < YearCount(config, year) as real - CanonicalPerYear(config) < 1.0 + Ratio(2, 7 * Step(config))
  {
    hide Occurrences, FromYmd, YearLength, CanonicalPerYear, Stride, Step, Plain, IsQuotient, Ratio;
    StrideYearCount(config, year);
    YearAtLeast(year);
    CanonicalWeekly(config, YearLength(year));
    NearCanonical(YearLength(year), Stride(config), YearCount(config, year), CanonicalPerYear(config), Ratio(2, 7 * Step(config)));
  }

  lemma CanonicalWeekly(config: Config, days: int)
    requires config.frequency.Weekly? && 365 <= days <= 366
    ensures CanonicalPerYear(config) <= Ratio(days, Stride(config)) <= CanonicalPerYear(config) + Ratio(2, 7 * Step(config))
  {
    WeeksOf(Step(config));
  }

  /** In a year, a daily schedule with interval k stays within 1 + 1/k of the canonical 365 / k. */
  lemma DailyNearCanonical(config: Config, year: int)
    requires Plain(config) && config.frequency.Daily? && Covers(config, year)
    ensures -1.0 < YearCount(config, year) as real - CanonicalPerYear(config) < 1.0 + Ratio(1, Step(config))
  {
    hide Occurrences, FromYmd, YearLength, CanonicalPerYear, Stride, Step, Plain, IsQuotient, Ratio;
    StrideYearCount(config, year);
    YearAtLeast(year);
    CanonicalDaily(config, YearLength(year));
    NearCanonical(YearLength(year), Stride(config), YearCount(config, year), CanonicalPerYear(config), Ratio(1, Step(config)));
  }

  lemma CanonicalDaily(config: Config, days: int)
    requires config.frequency.Daily? && 365 <= days <= 366
    ensures CanonicalPerYear(config) <= Ratio(days, Stride(config)) <= CanonicalPerYear(config) + Ratio(1, Step(config))
  {
    var k := Step(config) as real;
    assert 366.0 / k == 365.0 / k + 1.0 / k;
  }

  lemma YearRange(year: int)
    ensures FromYmd(year, 12, 31) == FromYmd(year, 1, 1) + YearLength(year) - 1
    ensures FromYmd(year, 1, 1) == MonthStart(MonthIndex(year, 1))
    ensures FromYmd(year, 12, 31) == MonthStart(MonthIndex(year, 1) + 12) - 1
  {
    hide MonthStart, MonthIndexOf;
    YearOfMonths(year);
    MonthStartStep(MonthIndex(year, 12));
  }

  lemma NearCanonical(n: int, d: int, q: int, canonical: real, slack: real)
    requires d >= 1
    requires IsQuotient(q, n, d) && canonical <= Ratio(n, d) <= canonical + slack
    ensures -1.0 < q as real - canonical < 1.0 + slack
  {
    NearQuotient(n, d, q);
  }

  lemma NearQuotient(n: int, d: int, q: int)
    requires d >= 1
    requires IsQuotient(q, n, d)
    ensures n as real / d as real - 1.0 < q as real < n as real / d as real + 1.0
  {
    QuotientWindow(n, d, q);
    RealWindow(n as real, d as real, q as real);
    assert (q * d) as real == q as real * d as real;
  }

  lemma QuotientWindow(n: int, d: int, q: int)
    requires d >= 1
    requires IsQuotient(q, n, d)
    ensures n - d < q * d < n + d
  {
    if q == n / d {
      assert n == q * d + n % d;
    } else {
      assert n + d - 1 == q * d + (n + d - 1) % d;
    }
  }

  lemma RealWindow(n: real, d: real, q: real)
    requires d > 0.0
    ensures n - d < q * d < n + d ==> n / d - 1.0 < q < n / d + 1.0
  {
    var x := n / d;
    assert x * d == n;
    assert (x + 1.0) * d == n + d && (x - 1.0) * d == n - d;
    if q >= x + 1.0 {
      ScaleUp(x + 1.0, q, d);
    }
    if q <= x - 1.0 {
      ScaleUp(q, x - 1.0, d);
    }
  }

  lemma ScaleUp(x: real, y: real, factor: real)
    requires x <= y && factor >= 0.0
    ensures x * factor <= y * factor
  {
  }

  lemma WeeksOf(step: nat)
    requires step >= 1
    ensures 365.0 / (7 * step) as real == 52.0 / step as real + 1.0 / (7 * step) as real
    ensures 366.0 / (7 * step) as real == 52.0 / step as real + 2.0 / (7 * step) as real
  {
    var k := step as real;
    assert (7 * step) as real == 7.0 * k;
    assert 52.0 / k == 364.0 / (7.0 * k);
  }

  // ----- monthly and yearly schedules

  lemma FallsOnMonthly(config: Config, date: int)
    requires Plain(config) && config.frequency.Monthly?
    requires MonthIndexOf(config.start) <= MonthIndexOf(date) <= MonthIndexOf(config.start) + MAX_PERIODS * Step(config)
    ensures var month := MonthIndexOf(date);
            FallsOn(Recurring(config), date) <==>
            (month - MonthIndexOf(config.start)) % Step(config) == 0 && date in MonthlyDates(config, month)
  {
    hide FallsOn, MonthIndexOf, MonthlyDates, MonthStart, Plain;
    FallsOnRaw(config, date);
    var n, d := MonthIndexOf(date) - MonthIndexOf(config.start), Step(config);
    if InSomePeriod(config, MAX_PERIODS + 1, date) {
      var p: nat :| p < MAX_PERIODS + 1 && date in RawDates(config, p);
      assert n == p * d;
      MultipleOf(p, d);
    }
    if n % d == 0 && date in MonthlyDates(config, MonthIndexOf(date)) {
      var p: nat := ExactQuotient(n, d);
      QuotientBound(p, MAX_PERIODS, d);
      assert date in RawDates(config, p);
    }
  }

  /** A plain monthly schedule falls, in a month it reaches, on the dates of that month or not at all. */
  lemma OneMonth(config: Config, month: int)
    requires Plain(config) && config.frequency.Monthly?
    requires MonthIndexOf(config.start) <= month <= MonthIndexOf(config.start) + MAX_PERIODS * Step(config)
    ensures Occurrences(Recurring(config), MonthStart(month), MonthStart(month + 1) - 1)
         == if (month - MonthIndexOf(config.start)) % Step(config) == 0 then MonthlyDates(config, month) else []
  {
    hide FallsOn, Occurrences, MonthlyDates, MonthStart, MonthIndexOf, Plain;
    var found := Occurrences(Recurring(config), MonthStart(month), MonthStart(month + 1) - 1);
    var expected := if (month - MonthIndexOf(config.start)) % Step(config) == 0 then MonthlyDates(config, month) else [];
    forall d
      ensures d in found <==> d in expected
    {
      if MonthStart(month) <= d < MonthStart(month + 1) {
        MonthIndexUnique(d, month);
        FallsOnMonthly(config, d);
      }
    }
    IncreasingUnique(found, expected);
  }

  /** How many months in `[first, next)` are in step with the start month. */
  function InStep(config: Config, first: int, next: int): int {
    (next - 1 - MonthIndexOf(config.start)) / Step(config) - (first - 1 - MonthIndexOf(config.start)) / Step(config)
  }

  lemma InStepNext(config: Config, first: int, month: int)
    ensures InStep(config, first, month + 1)
         == InStep(config, first, month) + (if (month - MonthIndexOf(config.start)) % Step(config) == 0 then 1 else 0)
    ensures InStep(config, month, month) == 0
  {
    hide MonthIndexOf, Step;
    QuotientStep(month - MonthIndexOf(config.start), Step(config));
  }

  /** Over whole months, the occurrences are the dates of the months in step. */
  lemma {:induction false} MonthsCount(config: Config, first: int, next: int, least: nat, most: nat)
    requires Plain(config) && config.frequency.Monthly?
    requires MonthIndexOf(config.start) <= first <= next
    requires next - 1 <= MonthIndexOf(config.start) + MAX_PERIODS * Step(config)
    requires forall m :: least <= |MonthlyDates(config, m)| <= most
    ensures least * InStep(config, first, next)
         <= |Occurrences(Recurring(config), MonthStart(first), MonthStart(next) - 1)|
         <= most * InStep(config, first, next)
    decreases next - first
  {
    hide FallsOn, Occurrences, MonthlyDates, MonthStart, MonthIndexOf, Plain, Step, InStep;
    InStepNext(config, first, next - 1);
    InStepNext(config, first, first);
    if first < next {
      MonthsCount(config, first, next - 1, least, most);
      MonthJoins(config, first, next - 1);
      OneMonth(config, next - 1);
      Distribute(least, InStep(config, first, next - 1), 1);
      Distribute(most, InStep(config, first, next - 1), 1);
    } else {
      NoDays(Recurring(config), MonthStart(first));
    }
  }

  lemma MonthJoins(config: Config, first: int, month: int)
    requires first <= month
    ensures |Occurrences(Recurring(config), MonthStart(first), MonthStart(month + 1) - 1)|
         == |Occurrences(Recurring(config), MonthStart(first), MonthStart(month) - 1)|
          + |Occurrences(Recurring(config), MonthStart(month), MonthStart(month + 1) - 1)|
  {
    hide FallsOn, Occurrences, MonthStart;
    MonthStartOrder(first, month);
    MonthStartStep(month);
    SplitRange(Recurring(config), MonthStart(first), MonthStart(month) - 1, MonthStart(month + 1) - 1);
  }

  lemma TwelveInStep(n: int, step: nat)
    requires step >= 1 && 12 % step == 0
    ensures (n + 12) / step - n / step == 12 / step
  {
    assert n == (n / step) * step + n % step;
    assert 12 == (12 / step) * step;
    assert (n / step + 12 / step) * step == (n / step) * step + (12 / step) * step;
    DivisionUnique(n + 12, step, n / step + 12 / step, n % step);
  }

  /** When the interval divides 12, a monthly schedule falls exactly 12 / k times in a year
      without patterns, and with patterns at most the canonical number of times. */
  lemma MonthlyYearCount(config: Config, year: int)
    requires Plain(config) && config.frequency.Monthly? && 12 % Step(config) == 0
    requires config.start <= FromYmd(year, 1, 1)
    requires MonthIndex(year, 12) <= MonthIndexOf(config.start) + MAX_PERIODS * Step(config)
    ensures var count := |Occurrences(Recurring(config), FromYmd(year, 1, 1), FromYmd(year, 12, 31))|;
            && (config.patterns == [] ==> count == 12 / Step(config) && count as real == CanonicalPerYear(config))
            && count as real <= CanonicalPerYear(config)
  {
    hide Occurrences, MonthlyDates, MonthStart, MonthIndexOf, Plain, Step, FromYmd, CanonicalPerYear;
    var jan := MonthIndex(year, 1);
    YearRange(year);
    StartedByJanuary(config, year);
    var least, most := if config.patterns == [] then 1 else 0, if config.patterns == [] then 1 else |config.patterns|;
    MonthsCount(config, jan, jan + 12, least, most);
    TwelveInStep(jan - 1 - MonthIndexOf(config.start), Step(config));
    CanonicalMonthly(config, most, 12 / Step(config));
  }

  lemma StartedByJanuary(config: Config, year: int)
    requires config.start <= FromYmd(year, 1, 1)
    ensures MonthIndexOf(config.start) <= MonthIndex(year, 1)
  {
    hide MonthStart, MonthIndexOf, FromYmd;
    var jan := MonthIndex(year, 1);
    YearRange(year);
    MonthStartStep(jan);
    if MonthIndexOf(config.start) > jan {
      MonthStartOrder(jan + 1, MonthIndexOf(config.start));
    }
  }

  /** For any interval, without patterns: 12 / k times, rounded down or up. */
  lemma MonthlyYearCountAnyInterval(config: Config, year: int)
    requires Plain(config) && config.frequency.Monthly? && config.patterns == []
    requires config.start <= FromYmd(year, 1, 1)
    requires MonthIndex(year, 12) <= MonthIndexOf(config.start) + MAX_PERIODS * Step(config)
    ensures var count := |Occurrences(Recurring(config), FromYmd(year, 1, 1), FromYmd(year, 12, 31))|;
            IsQuotient(count, 12, Step(config))
  {
    hide Occurrences, MonthlyDates, MonthStart, MonthIndexOf, Plain, Step, FromYmd;
    var jan := MonthIndex(year, 1);
    YearRange(year);
    StartedByJanuary(config, year);
    MonthsCount(config, jan, jan + 12, 1, 1);
    QuotientDifference(jan + 11 - MonthIndexOf(config.start), jan - 1 - MonthIndexOf(config.start), Step(config));
  }

  /** With patterns and any interval the count exceeds the canonical one by less than one date
      per pattern. */
  lemma PatternedYearCount(config: Config, year: int)
    requires Plain(config) && config.frequency.Monthly? && config.patterns != [] && Covers(config, year)
    ensures YearCount(config, year) as real < CanonicalPerYear(config) + |config.patterns| as real
  {
    hide Occurrences, MonthlyDates, MonthStart, MonthIndexOf, Plain, Step, FromYmd, CanonicalPerYear, IsQuotient, InStep;
    var jan, most := MonthIndex(year, 1), |config.patterns|;
    YearRange(year);
    StartedByJanuary(config, year);
    MonthsCount(config, jan, jan + 12, 0, most);
    InStepOfYear(config, jan);
    PatternedCanonical(config, most, InStep(config, jan, jan + 12));
  }

  lemma InStepOfYear(config: Config, jan: int)
    ensures IsQuotient(InStep(config, jan, jan + 12), 12, Step(config))
  {
    hide MonthIndexOf, Step, IsQuotient;
    QuotientDifference(jan + 11 - MonthIndexOf(config.start), jan - 1 - MonthIndexOf(config.start), Step(config));
  }

  lemma PatternedCanonical(config: Config, most: nat, inStep: int)
    requires config.frequency.Monthly? && most == |config.patterns| >= 1
    requires IsQuotient(inStep, 12, Step(config))
    ensures (most * inStep) as real < CanonicalPerYear(config) + most as real
  {
    hide Step, Ratio, CanonicalPerYear, IsQuotient;
    BelowRatio(inStep, 12, Step(config));
    CanonicalRatio(config);
    ProductAsReal(most, inStep);
    StretchReal(most as real, inStep as real, Ratio(12, Step(config)), CanonicalPerYear(config), (most * inStep) as real);
  }

  lemma BelowRatio(q: int, n: int, d: int)
    requires d >= 1 && IsQuotient(q, n, d)
    ensures q as real < Ratio(n, d) + 1.0
  {
    NearQuotient(n, d, q);
  }

  lemma CanonicalRatio(config: Config)
    requires config.frequency.Monthly? && config.patterns != []
    ensures CanonicalPerYear(config) == Ratio(12, Step(config)) * |config.patterns| as real
  {
  }

  lemma ProductAsReal(n: int, m: int)
    ensures (n * m) as real == n as real * m as real
  {
  }

  lemma StretchReal(factor: real, q: real, ratio: real, stretched: real, product: real)
    requires factor > 0.0 && q < ratio + 1.0
    requires stretched == ratio * factor && product == factor * q
    ensures product < stretched + factor
  {
    var room := ratio + 1.0 - q;
    PositiveProduct(factor, room);
    assert factor * q == factor * (ratio + 1.0 - room);
    assert factor * (ratio + 1.0 - room) == factor * ratio + factor - factor * room;
  }

  lemma PositiveProduct(x: real, y: real)
    requires x > 0.0 && y > 0.0
    ensures x * y > 0.0
  {
  }

  /** Any plain schedule without monthly patterns falls nearly the canonical number of times. */
  lemma YearCountNearCanonical(config: Config, year: int)
    requires Plain(config) && Covers(config, year) && (!config.frequency.Monthly? || config.patterns == [])
    ensures -Slack(config) <= YearCount(config, year) as real - CanonicalPerYear(config) <= Slack(config)
  {
    hide Occurrences, FromYmd, Plain, MonthIndexOf, Step, Stride, CanonicalPerYear, Ratio, IsQuotient;
    match config.frequency
    case Daily =>
      SlackAtLeastOne(config);
      DailyNearCanonical(config, year);
    case Weekly =>
      SlackAtLeastOne(config);
      WeeklyNearCanonical(config, year);
    case Monthly =>
      MonthlyYearCountAnyInterval(config, year);
      MonthlyCanonical(config, YearCount(config, year));
    case Yearly =>
      StartedByJanuary(config, year);
      YearlyCanonical(config);
      YearlyYearCount(config, year);
  }

  lemma SlackAtLeastOne(config: Config)
    ensures Slack(config) >= 1.0
  {
  }

  lemma MonthlyCanonical(config: Config, count: nat)
    requires config.frequency.Monthly? && config.patterns == [] && IsQuotient(count, 12, Step(config))
    ensures -1.0 <= count as real - CanonicalPerYear(config) <= 1.0
  {
    NearQuotient(12, Step(config), count);
  }

  lemma YearlyCanonical(config: Config)
    requires config.frequency.Yearly?
    ensures 0.0 <= CanonicalPerYear(config) <= 1.0
  {
  }

  lemma MonthStartOrder(month: int, later: int)
    requires month <= later
    ensures MonthStart(month) <= MonthStart(later)
  {
    if month < later {
      MonthStartIncreases(month, later);
    }
  }

  lemma CanonicalMonthly(config: Config, most: nat, inStep: nat)
    requires config.frequency.Monthly? && 12 % Step(config) == 0
    requires most == if config.patterns == [] then 1 else |config.patterns|
    requires inStep == 12 / Step(config)
    ensures CanonicalPerYear(config) == (most * inStep) as real
  {
    assert inStep * Step(config) == 12;
    assert (inStep * Step(config)) as real == inStep as real * Step(config) as real;
    assert 12.0 / Step(config) as real == inStep as real;
  }

  /** A yearly schedule falls exactly once in every year in step with its start year, and not
      at all in the others. */
  lemma YearlyYearCount(config: Config, year: int)
    requires Plain(config) && config.frequency.Yearly?
    requires YearOf(config.start) <= year <= YearOf(config.start) + MAX_PERIODS * Step(config)
    ensures Occurrences(Recurring(config), FromYmd(year, 1, 1), FromYmd(year, 12, 31))
         == if (year - YearOf(config.start)) % Step(config) == 0
            then [ClampDay(year, MonthOf(config.start), DayOf(config.start))] else []
  {
    hide Occurrences, FallsOn, MonthStart, MonthIndexOf, Plain, Step, FromYmd, ClampDay;
    var found := Occurrences(Recurring(config), FromYmd(year, 1, 1), FromYmd(year, 12, 31));
    var only := ClampDay(year, MonthOf(config.start), DayOf(config.start));
    var expected := if (year - YearOf(config.start)) % Step(config) == 0 then [only] else [];
    YearRange(year);
    forall d
      ensures d in found <==> d in expected
    {
      InYear(year, d);
      InYear(year, only);
      FallsOnRaw(config, d);
      if YearOf(d) == year {
        YearlyRaw(config, year, d);
      }
    }
    IncreasingUnique(found, expected);
  }

  lemma InYear(year: int, date: int)
    ensures FromYmd(year, 1, 1) <= date <= FromYmd(year, 12, 31) <==> YearOf(date) == year
  {
    hide MonthStart, MonthIndexOf, FromYmd;
    YearRange(year);
    var jan, m := MonthIndex(year, 1), MonthIndexOf(date);
    MonthOfYear(year, m);
    hide YearOf, MonthIndex;
    if m < jan {
      MonthStartOrder(m + 1, jan);
    } else if jan + 12 <= m {
      MonthStartOrder(jan + 12, m);
    } else {
      MonthStartOrder(jan, m);
      MonthStartOrder(m + 1, jan + 12);
    }
  }

  lemma MonthOfYear(year: int, month: int)
    ensures MonthIndex(year, 1) <= month < MonthIndex(year, 1) + 12 <==> month / 12 == year
  {
  }

  lemma YearlyPeriod(config: Config, period: nat, date: int)
    requires config.frequency.Yearly?
    ensures date in RawDates(config, period) <==>
            date == ClampDay(YearOf(config.start) + period * Step(config), MonthOf(config.start), DayOf(config.start))
    ensures date in RawDates(config, period) ==> YearOf(date) == YearOf(config.start) + period * Step(config)
  {
    hide MonthStart, MonthIndexOf, FromYmd, ClampDay, Step;
  }

  lemma YearlyRaw(config: Config, year: int, date: int)
    requires config.frequency.Yearly?
    requires YearOf(config.start) <= year <= YearOf(config.start) + MAX_PERIODS * Step(config)
    requires YearOf(date) == year
    ensures InSomePeriod(config, MAX_PERIODS + 1, date) <==>
            (year - YearOf(config.start)) % Step(config) == 0
            && date == ClampDay(year, MonthOf(config.start), DayOf(config.start))
  {
    hide MonthStart, MonthIndexOf, FromYmd, ClampDay, RawDates, Step;
    var n, d := year - YearOf(config.start), Step(config);
    if InSomePeriod(config, MAX_PERIODS + 1, date) {
      var p: nat :| p < MAX_PERIODS + 1 && date in RawDates(config, p);
      YearlyPeriod(config, p, date);
      MultipleOf(p, d);
    }
    if n % d == 0 && date == ClampDay(year, MonthOf(config.start), DayOf(config.start)) {
      var p: nat := ExactQuotient(n, d);
      QuotientBound(p, MAX_PERIODS, d);
      YearlyPeriod(config, p, date);
    }
  }
}
