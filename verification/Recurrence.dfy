/** Recurring schedules and their expansion into concrete dates.

    `ExpandRecurring` walks the periods of a schedule with its early exits, exactly as the
    program does. The reference it is proved against, `Occurrences`, knows nothing of
    periods or exits: it inspects the days of the range one by one and keeps those on which
    the schedule falls. */
module Recurrence {
  import opened Common
  import opened Calendar
  import opened Ordering

  type DayNumber = d: nat | 1 <= d <= 31 witness 1
  type NthOccurrence = n: nat | 1 <= n <= 5 witness 1

  datatype Pattern =
    | DayOfMonth(day: DayNumber)
    | NthWeekday(weekday: Weekday, nth: NthOccurrence)

  datatype WeekendMode = Before | After

  datatype End =
    | Never
    | AfterOccurrences(count: nat)
    | OnDate(date: int)

  datatype Frequency = Daily | Weekly | Monthly | Yearly

  datatype Config = Config(
    frequency: Frequency,
    interval: nat,
    patterns: seq<Pattern>,
    skipWeekend: bool,
    weekendMode: WeekendMode,
    start: int,
    end: End)

  datatype Timing = Recurring(config: Config) | OneOff(date: int)

  /** The cap on periods walked from the start of a schedule. */
  const MAX_PERIODS: nat := 20_000

  // ----- dates of one period

  /** The length of a month as the distance between two firsts of month: it follows the
      Gregorian leap rule. */
  function DaysInMonth(year: int, month: int): (length: int)
    requires 1 <= month <= 12
    ensures length == MonthLength(year, month)
  {
    var nextMonthFirst := if month == 12 then FromYmd(year + 1, 1, 1) else FromYmd(year, month + 1, 1);
    var thisMonthFirst := FromYmd(year, month, 1);
    MonthStartStep(MonthIndex(year, month));
    nextMonthFirst - thisMonthFirst
  }

  /** The requested day of a month, or the month's last day when there is no such day. */
  function ClampDay(year: int, month: int, day: int): (date: int)
    requires 1 <= month <= 12
    ensures MonthIndexOf(date) == MonthIndex(year, month)
    ensures IsDate(year, month, day) ==> DayOf(date) == day
    ensures day > MonthLength(year, month) ==> MonthIndexOf(date + 1) == MonthIndex(year, month) + 1
  {
    var length := DaysInMonth(year, month);
    var clamped := if day < 1 then 1 else if day > length then length else day;
    LastDayOfMonth(year, month);
    FromYmd(year, month, clamped)
  }

  /** Day 1 is always the first of the month. */
  lemma ClampFirst(month: int)
    ensures ClampDay(month / 12, month % 12 + 1, 1) == MonthStart(month)
  {
    hide MonthStart;
    assert MonthIndex(month / 12, month % 12 + 1) == month;
  }

  lemma LastDayOfMonth(year: int, month: int)
    requires 1 <= month <= 12
    ensures MonthIndexOf(FromYmd(year, month, MonthLength(year, month)) + 1) == MonthIndex(year, month) + 1
  {
    var index := MonthIndex(year, month);
    MonthStartStep(index);
    MonthStartStep(index + 1);
    MonthIndexUnique(MonthStart(index + 1), index + 1);
  }

  /** How many days in `[from, until)` fall on `weekday`. */
  function CountWeekday(weekday: Weekday, from: int, until: int): nat
    decreases until - from
  {
    if until <= from then 0
    else CountWeekday(weekday, from, until - 1) + (if WeekdayOf(until - 1) == weekday then 1 else 0)
  }

  /** The nth given weekday of a month, if the month has that many. */
  function NthWeekdayOfMonth(year: int, month: int, weekday: Weekday, nth: NthOccurrence): (date: Option<int>)
    requires 1 <= month <= 12
    ensures date.Some? ==> MonthIndexOf(date.value) == MonthIndex(year, month)
  {
    var firstOfMonth := FromYmd(year, month, 1);
    var day := 1 + FirstWeekdayOffset(firstOfMonth, weekday) + (nth - 1) * 7;
    if day > DaysInMonth(year, month) then None
    else Some(FromYmd(year, month, day))
  }

  /** There is an nth weekday exactly when the month holds n of them; it is such a weekday and
      exactly n - 1 come before it; the first four always exist. */
  lemma NthWeekdayExact(year: int, month: int, weekday: Weekday, nth: NthOccurrence)
    requires 1 <= month <= 12
    ensures var first := FromYmd(year, month, 1);
            var date := NthWeekdayOfMonth(year, month, weekday, nth);
            && (date.Some? <==> nth <= CountWeekday(weekday, first, first + DaysInMonth(year, month)))
            && (date.Some? ==> WeekdayOf(date.value) == weekday && CountWeekday(weekday, first, date.value) == nth - 1)
            && (nth <= 4 ==> date.Some?)
  {
    hide MonthIndexOf, MonthLength, DaysInMonth, CountWeekday, FirstWeekdayOffset, MonthStart, FromYmd;
    NthWeekdayCounts(FromYmd(year, month, 1), DaysInMonth(year, month), weekday, nth);
    FromYmdOffset(year, month);
  }

  lemma FromYmdOffset(year: int, month: int)
    requires 1 <= month <= 12
    ensures forall day :: 1 <= day <= MonthLength(year, month) ==> FromYmd(year, month, day) == FromYmd(year, month, 1) + (day - 1)
  {
  }

  function FirstWeekdayOffset(first: int, weekday: Weekday): (offset: nat)
    ensures offset < 7 && WeekdayOf(first + offset) == weekday
  {
    (7 + weekday - WeekdayOf(first)) % 7
  }

  /** Counting a weekday from `first`: it first comes after the offset, then once every 7 days. */
  lemma NthWeekdayCounts(first: int, length: int, weekday: Weekday, nth: NthOccurrence)
    requires 28 <= length <= 31
    ensures var date := first + FirstWeekdayOffset(first, weekday) + (nth - 1) * 7;
            && WeekdayOf(date) == weekday
            && (date < first + length <==> nth <= CountWeekday(weekday, first, first + length))
            && CountWeekday(weekday, first, date) == nth - 1
            && (nth <= 4 ==> date < first + length)
  {
    var match0 := first + FirstWeekdayOffset(first, weekday);
    SameWeekday(match0 + (nth - 1) * 7, match0);
    CountWeekdayClosed(weekday, first, match0, first + length);
    CountWeekdayClosed(weekday, first, match0, match0 + (nth - 1) * 7);
    SevensUpTo(first + length - 1 - match0, nth);
    SevensUpTo((nth - 1) * 7 - 1, nth);
  }

  lemma SevensUpTo(n: int, nth: int)
    ensures nth <= n / 7 + 1 <==> (nth - 1) * 7 <= n
    ensures n == (nth - 1) * 7 - 1 ==> n / 7 + 1 == nth - 1
  {
  }

  lemma {:induction false} CountWeekdayClosed(weekday: Weekday, from: int, match0: int, until: int)
    requires from <= match0 < from + 7 && from <= until
    requires WeekdayOf(match0) == weekday
    ensures CountWeekday(weekday, from, until) == if until <= match0 then 0 else (until - 1 - match0) / 7 + 1
    decreases until - from
  {
    if from < until {
      CountWeekdayClosed(weekday, from, match0, until - 1);
      SameWeekday(until - 1, match0);
    }
  }

  lemma SameWeekday(date: int, other: int)
    ensures WeekdayOf(date) == WeekdayOf(other) <==> (date - other) % 7 == 0
  {
  }

  /** The step between periods; 0 is read as 1. */
  function Step(config: Config): (step: nat)
    ensures step >= 1
  {
    if config.interval < 1 then 1 else config.interval
  }

  /** The month a monthly or yearly period falls in. */
  function PeriodMonth(config: Config, period: nat): int {
    if config.frequency.Yearly? then MonthIndex(YearOf(config.start) + period * Step(config), MonthOf(config.start))
    else MonthIndexOf(config.start) + period * Step(config)
  }

  /** The dates the patterns of a schedule name in one month, in pattern order. */
  function PatternDates(patterns: seq<Pattern>, year: int, month: int): (dates: seq<int>)
    requires 1 <= month <= 12
    ensures |dates| <= |patterns|
    ensures forall d <- dates :: MonthIndexOf(d) == MonthIndex(year, month)
  {
    if patterns == [] then []
    else
      var rest := PatternDates(patterns[1..], year, month);
      match patterns[0]
      case DayOfMonth(day) => [ClampDay(year, month, day)] + rest
      case NthWeekday(weekday, nth) =>
        match NthWeekdayOfMonth(year, month, weekday, nth)
        case None => rest
        case Some(date) => [date] + rest
  }

  /** The dates of a monthly schedule in one month, in increasing order. */
  function MonthlyDates(config: Config, month: int): (dates: seq<int>)
    ensures Increasing(dates)
    ensures forall d <- dates :: MonthIndexOf(d) == month
    ensures config.patterns == [] ==> |dates| == 1
    ensures config.patterns != [] ==> |dates| <= |config.patterns|
  {
    hide ClampDay, PatternDates, SortDedup;
    if config.patterns == [] then [ClampDay(month / 12, month % 12 + 1, DayOf(config.start))]
    else
      assert MonthIndex(month / 12, month % 12 + 1) == month;
      SortDedup(PatternDates(config.patterns, month / 12, month % 12 + 1))
  }

  /** The dates of one period before any weekend shift, in increasing order. */
  function RawDates(config: Config, period: nat): (dates: seq<int>)
    ensures Increasing(dates)
    ensures config.frequency.Monthly? || config.frequency.Yearly? ==>
      forall d <- dates :: MonthIndexOf(d) == PeriodMonth(config, period)
  {
    var step := Step(config);
    match config.frequency
    case Daily => [config.start + period * step]
    case Weekly => [config.start + period * step * 7]
    case Monthly => MonthlyDates(config, MonthIndexOf(config.start) + period * step)
    case Yearly => [ClampDay(YearOf(config.start) + period * step, MonthOf(config.start), DayOf(config.start))]
  }

  // ----- the raw stream

  /** All raw dates of the first `periods` periods, one period after the other. */
  function Stream(config: Config, periods: nat): seq<int> {
    if periods == 0 then [] else Stream(config, periods - 1) + RawDates(config, periods - 1)
  }

  /** Every date of a period comes before every date of a later period. */
  lemma PeriodsInOrder(config: Config, period: nat, later: nat, d: int, e: int)
    requires period < later
    requires d in RawDates(config, period) && e in RawDates(config, later)
    ensures d < e
  {
    StepsAdvance(period, later, Step(config));
    if config.frequency.Monthly? || config.frequency.Yearly? {
      assert MonthIndexOf(d) == PeriodMonth(config, period) < PeriodMonth(config, later) == MonthIndexOf(e);
      MonthIndexMonotone(d, e);
    }
  }

  lemma StepsAdvance(period: nat, later: nat, step: nat)
    requires period < later && 1 <= step
    ensures period * step < later * step
  {
    assert later * step == period * step + (later - period) * step;
  }

  /** The raw dates of a whole schedule are strictly increasing, within and across periods. */
  lemma {:induction false} StreamIncreasing(config: Config, periods: nat)
    ensures Increasing(Stream(config, periods))
    ensures forall i :: 0 <= i < |Stream(config, periods)| ==> InSomePeriod(config, periods, Stream(config, periods)[i])
  {
    if periods > 0 {
      var before, dates := Stream(config, periods - 1), RawDates(config, periods - 1);
      StreamIncreasing(config, periods - 1);
      forall i, j | 0 <= i < |before| && 0 <= j < |dates|
        ensures before[i] < dates[j]
      {
        assert InSomePeriod(config, periods - 1, before[i]);
        var p: nat :| p < periods - 1 && before[i] in RawDates(config, p);
        PeriodsInOrder(config, p, periods - 1, before[i], dates[j]);
      }
      forall i | 0 <= i < |before|
        ensures InSomePeriod(config, periods, before[i])
      {
        assert InSomePeriod(config, periods - 1, before[i]);
        var p: nat :| p < periods - 1 && before[i] in RawDates(config, p);
      }
    }
  }

  predicate InSomePeriod(config: Config, periods: nat, date: int) {
    exists p: nat | p < periods :: date in RawDates(config, p)
  }

  lemma {:induction false} StreamPrefix(config: Config, periods: nat, more: nat)
    requires periods <= more
    ensures Stream(config, periods) <= Stream(config, more)
    decreases more - periods
  {
    hide RawDates;
    if periods < more {
      StreamPrefix(config, periods, more - 1);
    }
  }

  lemma {:induction false} StreamHolds(config: Config, periods: nat, period: nat, date: int)
    requires period < periods
    requires date in RawDates(config, period)
    ensures date in Stream(config, periods)
  {
    if period < periods - 1 {
      StreamHolds(config, periods - 1, period, date);
    }
  }

  /** A stream is made of the raw dates of its periods and nothing else. */
  lemma StreamMembers(config: Config, periods: nat, date: int)
    ensures date in Stream(config, periods) <==> InSomePeriod(config, periods, date)
  {
    hide RawDates, Stream;
    StreamIncreasing(config, periods);
    if InSomePeriod(config, periods, date) {
      var p: nat :| p < periods && date in RawDates(config, p);
      StreamHolds(config, periods, p, date);
    }
  }

  // ----- weekends

  /** Moves a weekend date to the Friday before or the Monday after, when the schedule asks for it. */
  function AdjustWeekend(config: Config, date: int): (adjusted: int)
    ensures date - 2 <= adjusted <= date + 2
    ensures config.skipWeekend ==> WeekdayOf(adjusted) != SATURDAY && WeekdayOf(adjusted) != SUNDAY
    ensures !config.skipWeekend || (WeekdayOf(date) != SATURDAY && WeekdayOf(date) != SUNDAY) ==> adjusted == date
    ensures adjusted != date ==> (adjusted < date <==> config.weekendMode.Before?)
    ensures config.skipWeekend ==> adjusted % 7 <= 4
    ensures date % 7 <= 4 || !config.skipWeekend ==> adjusted == date
  {
    if !config.skipWeekend then date
    else if WeekdayOf(date) == SATURDAY then
      match config.weekendMode
      case Before => date - 1
      case After => date + 2
    else if WeekdayOf(date) == SUNDAY then
      match config.weekendMode
      case Before => date - 2
      case After => date + 1
    else date
  }

  /** Shifting keeps the order of dates (though two may meet), and shifting twice is shifting once. */
  lemma AdjustWeekendMonotone(config: Config, date: int, later: int)
    requires date <= later
    ensures AdjustWeekend(config, date) <= AdjustWeekend(config, later)
    ensures AdjustWeekend(config, AdjustWeekend(config, date)) == AdjustWeekend(config, date)
  {
    var gap := later - date;
    assert (date + gap) % 7 == (date % 7 + gap % 7) % 7;
  }

  // ----- the reference

  /** Whether the end rule still admits the raw date at position `k` (0-based) of a stream:
      no date up to and including it lies past the end date, or it is among the first n. */
  predicate Admitted(config: Config, stream: seq<int>, k: nat)
    requires k < |stream|
  {
    match config.end
    case Never => true
    case AfterOccurrences(n) => k + 1 <= n
    case OnDate(end) => forall j :: 0 <= j <= k ==> stream[j] <= end
  }

  predicate IsOccurrence(config: Config, stream: seq<int>, date: int) {
    exists k: nat | k < |stream| :: Admitted(config, stream, k) && AdjustWeekend(config, stream[k]) == date
  }

  /** Whether a schedule falls on a day. */
  predicate FallsOn(timing: Timing, date: int) {
    match timing
    case OneOff(only) => date == only
    case Recurring(config) => IsOccurrence(config, Stream(config, MAX_PERIODS + 1), date)
  }

  /** The days of `[from, to]` on which a schedule falls, found by looking at every day. */
  ghost function Occurrences(timing: Timing, from: int, to: int): (dates: seq<int>)
    ensures Increasing(dates)
    ensures forall i :: 0 <= i < |dates| ==> from <= dates[i] <= to
    ensures forall d :: d in dates ==> FallsOn(timing, d)
    ensures forall d :: (from <= d <= to && FallsOn(timing, d)) ==> d in dates
    decreases if to < from then 0 else to - from + 1
  {
    if to < from then []
    else
      hide FallsOn;
      Occurrences(timing, from, to - 1) + (if FallsOn(timing, to) then [to] else [])
  }

  // ----- the program

  /** The shifted dates in range of the first raw dates, in walking order. */
  function Hits(config: Config, from: int, to: int, raw: seq<int>): seq<int> {
    if raw == [] then []
    else
      var last := AdjustWeekend(config, raw[|raw| - 1]);
      Hits(config, from, to, raw[..|raw| - 1]) + (if from <= last <= to then [last] else [])
  }

  lemma NoHits(config: Config, from: int, to: int)
    ensures Hits(config, from, to, []) == []
  {
  }

  lemma HitsStep(config: Config, from: int, to: int, raw: seq<int>, k: nat)
    requires k < |raw|
    ensures var adjusted := AdjustWeekend(config, raw[k]);
            Hits(config, from, to, raw[..k + 1]) ==
            Hits(config, from, to, raw[..k]) + (if from <= adjusted <= to then [adjusted] else [])
  {
    assert raw[..k + 1][..k] == raw[..k];
  }

  lemma {:induction false} HitsMembers(config: Config, from: int, to: int, raw: seq<int>, d: int)
    ensures d in Hits(config, from, to, raw) <==>
            from <= d <= to && exists k: nat | k < |raw| :: AdjustWeekend(config, raw[k]) == d
  {
    if raw != [] {
      var front := raw[..|raw| - 1];
      HitsMembers(config, from, to, front, d);
      assert raw == front + [raw[|raw| - 1]];
    }
  }

  /** Shifting weekends never puts hits out of order: the final sort moves nothing. */
  lemma {:induction false} HitsSorted(config: Config, from: int, to: int, raw: seq<int>)
    requires Increasing(raw)
    ensures Sorted(Hits(config, from, to, raw))
    ensures Sort(Hits(config, from, to, raw)) == Hits(config, from, to, raw)
  {
    hide AdjustWeekend, Sort;
    if raw != [] {
      var front := raw[..|raw| - 1];
      HitsSorted(config, from, to, front);
      forall i | 0 <= i < |Hits(config, from, to, front)|
        ensures Hits(config, from, to, front)[i] <= AdjustWeekend(config, raw[|raw| - 1])
      {
        HitBefore(config, from, to, raw, Hits(config, from, to, front)[i]);
      }
    }
    SortKeepsSorted(Hits(config, from, to, raw));
  }

  lemma HitBefore(config: Config, from: int, to: int, raw: seq<int>, hit: int)
    requires Increasing(raw) && |raw| > 0
    requires hit in Hits(config, from, to, raw[..|raw| - 1])
    ensures hit <= AdjustWeekend(config, raw[|raw| - 1])
  {
    hide AdjustWeekend, Hits;
    var front := raw[..|raw| - 1];
    HitsMembers(config, from, to, front, hit);
    var k: nat :| k < |front| && AdjustWeekend(config, front[k]) == hit;
    AdjustWeekendMonotone(config, front[k], raw[|raw| - 1]);
  }

  /** Once a raw date is refused by the end rule or lies more than 3 days past the range, no
      later raw date can contribute: the dates collected so far are all there are. */
  lemma NothingLost(config: Config, from: int, to: int, full: seq<int>, taken: nat)
    requires full == Stream(config, MAX_PERIODS + 1)
    requires taken <= |full|
    requires forall k: nat | k < taken :: Admitted(config, full, k)
    requires taken == |full| || full[taken] > to + 3 || !Admitted(config, full, taken)
    ensures Dedup(Sort(Hits(config, from, to, full[..taken]))) == Occurrences(Recurring(config), from, to)
  {
    hide AdjustWeekend, Stream, Hits, Admitted, IsOccurrence;
    StreamIncreasing(config, MAX_PERIODS + 1);
    forall d
      ensures d in SortDedup(Hits(config, from, to, full[..taken])) <==> d in Occurrences(Recurring(config), from, to)
    {
      HitsMembers(config, from, to, full[..taken], d);
      if from <= d <= to {
        OccursEarly(config, full, taken, to, d);
      }
    }
    IncreasingUnique(SortDedup(Hits(config, from, to, full[..taken])), Occurrences(Recurring(config), from, to));
  }

  lemma OccursEarly(config: Config, full: seq<int>, taken: nat, to: int, d: int)
    requires Increasing(full) && taken <= |full|
    requires forall k: nat | k < taken :: Admitted(config, full, k)
    requires taken == |full| || full[taken] > to + 3 || !Admitted(config, full, taken)
    requires d <= to
    ensures IsOccurrence(config, full, d) <==> exists k: nat | k < taken :: AdjustWeekend(config, full[..taken][k]) == d
  {
    hide AdjustWeekend, Admitted;
    if IsOccurrence(config, full, d) {
      var k: nat :| k < |full| && Admitted(config, full, k) && AdjustWeekend(config, full[k]) == d;
      if taken <= k {
        AdmittedPrefix(config, full, taken, k);
      }
      assert full[..taken][k] == full[k];
    }
    if k: nat :| k < taken && AdjustWeekend(config, full[..taken][k]) == d {
      assert Admitted(config, full, k) && full[..taken][k] == full[k];
    }
  }

  /** On an increasing stream the end rule comes down to the two tests of the walk. */
  lemma AdmittedByTests(config: Config, stream: seq<int>, k: nat)
    requires Increasing(stream) && k < |stream|
    ensures Admitted(config, stream, k) <==>
            && (config.end.OnDate? ==> stream[k] <= config.end.date)
            && (config.end.AfterOccurrences? ==> k + 1 <= config.end.count)
  {
  }

  lemma AdmittedPrefix(config: Config, stream: seq<int>, k: nat, later: nat)
    requires k <= later < |stream|
    requires Admitted(config, stream, later)
    ensures Admitted(config, stream, k)
  {
  }

  function Least(s: seq<int>): (least: int)
    requires s != []
    ensures least in s && forall x <- s :: least <= x
  {
    if |s| == 1 then s[0]
    else
      var rest := Least(s[1..]);
      assert s == [s[0]] + s[1..];
      if s[0] <= rest then s[0] else rest
  }

  method ExpandRecurring(config: Config, from: int, to: int) returns (results: seq<int>)
    ensures results == Occurrences(Recurring(config), from, to)
  {
    hide AdjustWeekend, RawDates, Least, Admitted, Occurrences, Sort, Dedup, Hits;
    NoHits(config, from, to);
    ghost var full := Stream(config, MAX_PERIODS + 1);
    ghost var taken: nat := 0;
    results := [];
    var occurrenceNumber := 0;
    StreamIncreasing(config, MAX_PERIODS + 1);

    label Periods:
    for period: nat := 0 to MAX_PERIODS + 1
      invariant taken == occurrenceNumber == |Stream(config, period)|
      invariant taken <= |full|
      invariant results == Hits(config, from, to, full[..taken])
      invariant forall k: nat | k < taken :: Admitted(config, full, k)
    {
      StreamPrefix(config, period + 1, MAX_PERIODS + 1);
      var dates := RawDates(config, period);
      if dates == [] {
        continue;
      }
      var periodMin := Least(dates);
      assert full[taken] == dates[0];
      assert dates[0] in dates && periodMin <= dates[0];
      if periodMin > to + 3 {
        break;
      }
      for i := 0 to |dates|
        invariant taken == occurrenceNumber == |Stream(config, period)| + i
        invariant taken <= |full|
        invariant results == Hits(config, from, to, full[..taken])
        invariant forall k: nat | k < taken :: Admitted(config, full, k)
      {
        var raw := dates[i];
        assert raw == full[taken];
        AdmittedByTests(config, full, taken);
        occurrenceNumber := occurrenceNumber + 1;
        if config.end.OnDate? && raw > config.end.date {
          break Periods;
        }
        if config.end.AfterOccurrences? && occurrenceNumber > config.end.count {
          break Periods;
        }
        var adjusted := AdjustWeekend(config, raw);
        if from <= adjusted <= to {
          results := results + [adjusted];
        }
        HitsStep(config, from, to, full, taken);
        taken := taken + 1;
      }
    }
    NothingLost(config, from, to, full, taken);
    results := Dedup(Sort(results));
  }

  method ExpandOccurrences(timing: Timing, from: int, to: int) returns (dates: seq<int>)
    ensures dates == Occurrences(timing, from, to)
  {
    if to < from {
      return [];
    }
    match timing
    case OneOff(date) =>
      dates := if from <= date <= to then [date] else [];
      IncreasingUnique(dates, Occurrences(timing, from, to));
    case Recurring(config) =>
      dates := ExpandRecurring(config, from, to);
  }

  // ----- consequences

  /** Splitting a range at any day loses nothing and repeats nothing. */
  lemma {:induction false} SplitRange(timing: Timing, from: int, mid: int, to: int)
    requires from - 1 <= mid <= to
    ensures Occurrences(timing, from, to) == Occurrences(timing, from, mid) + Occurrences(timing, mid + 1, to)
    decreases (to - mid)
  {
    hide FallsOn, Occurrences;
    NoDays(timing, mid + 1);
    if mid < to {
      SplitRange(timing, from, mid, to - 1);
      OneMoreDay(timing, from, to);
      OneMoreDay(timing, mid + 1, to);
    }
  }

  lemma OneMoreDay(timing: Timing, from: int, to: int)
    requires from <= to
    ensures Occurrences(timing, from, to) == Occurrences(timing, from, to - 1) + (if FallsOn(timing, to) then [to] else [])
  {
    hide FallsOn;
  }

  lemma NoDays(timing: Timing, from: int)
    ensures Occurrences(timing, from, from - 1) == []
  {
  }

  /** No period holds more than 31 dates, so the 32-bit occurrence counter cannot overflow. */
  lemma {:induction false} OccurrenceNumberFits(config: Config, periods: nat)
    ensures |Stream(config, periods)| <= 31 * periods
    ensures periods <= MAX_PERIODS + 1 ==> |Stream(config, periods)| < 0x1_0000_0000
  {
    hide MonthlyDates, MonthStart, MonthIndexOf;
    if periods > 0 {
      OccurrenceNumberFits(config, periods - 1);
      var dates := RawDates(config, periods - 1);
      if config.frequency.Monthly? {
        var month := PeriodMonth(config, periods - 1);
        MonthStartStep(month);
        IncreasingLength(dates, MonthStart(month), MonthStart(month + 1));
      }
    }
  }

  /** Whether the end rule admits a schedule's first raw date. */
  predicate AdmitsFirst(end: End, first: int) {
    match end
    case Never => true
    case AfterOccurrences(n) => 1 <= n
    case OnDate(last) => first <= last
  }

  /** A schedule falls before its start exactly when its first raw date, shifted off the weekend,
      lies before the start and the end rule admits it. */
  lemma FallsBeforeStartExactly(config: Config)
    ensures var stream := Stream(config, MAX_PERIODS + 1);
            (exists d :: d < config.start && FallsOn(Recurring(config), d)) <==>
            stream != [] && AdmitsFirst(config.end, stream[0]) && AdjustWeekend(config, stream[0]) < config.start
  {
    hide Stream, AdjustWeekend, Admitted, AdmitsFirst;
    var stream := Stream(config, MAX_PERIODS + 1);
    StreamIncreasing(config, MAX_PERIODS + 1);
    if stream != [] {
      FirstAdmitted(config, stream);
      if AdmitsFirst(config.end, stream[0]) && AdjustWeekend(config, stream[0]) < config.start {
        assert FallsOn(Recurring(config), AdjustWeekend(config, stream[0]));
      }
    }
    if d :| d < config.start && FallsOn(Recurring(config), d) {
      var k: nat :| k < |stream| && Admitted(config, stream, k) && AdjustWeekend(config, stream[k]) == d;
      AdmittedPrefix(config, stream, 0, k);
      AdjustWeekendMonotone(config, stream[0], stream[k]);
    }
  }

  lemma FirstAdmitted(config: Config, stream: seq<int>)
    requires stream != []
    ensures Admitted(config, stream, 0) <==> AdmitsFirst(config.end, stream[0])
  {
  }

  /** Without patterns only a weekend start moved to the Friday before it falls before the start. */
  lemma PlainFallsBeforeStartExactly(config: Config)
    requires !config.frequency.Monthly? || config.patterns == []
    ensures (exists d :: d < config.start && FallsOn(Recurring(config), d)) <==>
            && config.skipWeekend && config.weekendMode.Before? && AdmitsFirst(config.end, config.start)
            && (WeekdayOf(config.start) == SATURDAY || WeekdayOf(config.start) == SUNDAY)
  {
    hide Stream, FallsOn, RawDates;
    FallsBeforeStartExactly(config);
    FirstRawDate(config);
    FirstPeriod(config);
    StreamPrefix(config, 1, MAX_PERIODS + 1);
    assert Stream(config, MAX_PERIODS + 1)[0] == Stream(config, 1)[0];
  }

  lemma FirstPeriod(config: Config)
    ensures Stream(config, 1) == RawDates(config, 0)
  {
    hide RawDates;
    assert Stream(config, 0) == [];
  }

  /** Starting on 15 January with a pattern for the first of the month: it falls on 1 January. */
  const FIRST_OF_MONTH: Config := Config(Monthly, 1, [DayOfMonth(1)], false, WeekendMode.Before, 14, End.Never)

  lemma FallsBeforeStartExample()
    ensures 0 < FIRST_OF_MONTH.start && FallsOn(Recurring(FIRST_OF_MONTH), 0)
  {
    var config := FIRST_OF_MONTH;
    var stream := Stream(config, MAX_PERIODS + 1);
    FirstDates();
    StreamHolds(config, MAX_PERIODS + 1, 0, 0);
    hide Stream, RawDates;
    var k: nat :| k < |stream| && stream[k] == 0;
    assert Admitted(config, stream, k) && AdjustWeekend(config, stream[k]) == 0;
  }

  lemma FirstDates()
    ensures 0 in RawDates(FIRST_OF_MONTH, 0)
  {
    var config := FIRST_OF_MONTH;
    hide MonthStart, MonthIndexOf, FromYmd, ClampDay, RawDates, PatternDates;
    January();
    PatternDayFalls(config, 0);
  }

  lemma January()
    ensures MonthIndexOf(14) == FIRST_MONTH && ClampDay(1, 1, 1) == 0
  {
    hide MonthIndexOf, ClampDay;
    ClampFirst(FIRST_MONTH);
    assert MonthStart(FIRST_MONTH) == 0;
    hide MonthStart;
    MonthStartIncreases(FIRST_MONTH, FIRST_MONTH + 1);
    MonthIndexUnique(14, FIRST_MONTH);
  }

  /** A pattern for a day of the month is met in the start month, wherever the start lies in it. */
  lemma PatternDayFalls(config: Config, i: nat)
    requires config.frequency.Monthly? && i < |config.patterns| && config.patterns[i].DayOfMonth?
    ensures ClampDay(YearOf(config.start), MonthOf(config.start), config.patterns[i].day) in RawDates(config, 0)
  {
    hide MonthStart, MonthIndexOf, FromYmd, ClampDay, PatternDates, SortDedup;
    PatternDayListed(config.patterns, i, YearOf(config.start), MonthOf(config.start));
  }

  lemma {:induction false} PatternDayListed(patterns: seq<Pattern>, i: nat, year: int, month: int)
    requires i < |patterns| && patterns[i].DayOfMonth? && 1 <= month <= 12
    ensures ClampDay(year, month, patterns[i].day) in PatternDates(patterns, year, month)
  {
    hide ClampDay, NthWeekdayOfMonth;
    if i > 0 {
      PatternDayListed(patterns[1..], i - 1, year, month);
    }
  }

  /** Without patterns the first raw date is the start itself, so nothing falls before the
      start except by a weekend shift. With patterns the first period is the whole start month. */
  lemma EarliestOccurrence(config: Config, date: int)
    requires FallsOn(Recurring(config), date)
    ensures !config.frequency.Monthly? || config.patterns == [] ==> config.start - 2 <= date
    ensures MonthStart(MonthIndexOf(config.start)) - 2 <= date
  {
    hide MonthStart, MonthIndexOf, RawDates, AdjustWeekend, Admitted, Stream;
    var stream := Stream(config, MAX_PERIODS + 1);
    var k: nat :| k < |stream| && AdjustWeekend(config, stream[k]) == date;
    StreamIncreasing(config, MAX_PERIODS + 1);
    assert InSomePeriod(config, MAX_PERIODS + 1, stream[k]);
    var p: nat :| p < MAX_PERIODS + 1 && stream[k] in RawDates(config, p);
    RawNotBeforeStart(config, p, stream[k]);
    assert AdjustWeekend(config, stream[k]) <= stream[k] + 2;
  }

  lemma RawNotBeforeStart(config: Config, period: nat, date: int)
    requires date in RawDates(config, period)
    ensures !config.frequency.Monthly? || config.patterns == [] ==> config.start <= date
    ensures MonthStart(MonthIndexOf(config.start)) <= date
  {
    hide MonthStart, ClampDay, FromYmd;
    assert 0 <= period * Step(config);
    if !config.frequency.Monthly? || config.patterns == [] {
      FirstRawDate(config);
      if period > 0 {
        PeriodsInOrder(config, 0, period, config.start, date);
      }
    } else if period > 0 {
      assert PeriodMonth(config, period) == MonthIndexOf(date);
      if MonthIndexOf(date) > MonthIndexOf(config.start) {
        MonthIndexMonotone(config.start, date);
      }
    }
  }

  lemma FirstRawDate(config: Config)
    requires !config.frequency.Monthly? || config.patterns == []
    ensures RawDates(config, 0) == [config.start]
  {
    hide MonthStart, FromYmd;
    BuiltFromFields(config.start);
    ClampExisting(YearOf(config.start), MonthOf(config.start), DayOf(config.start));
  }

  lemma ClampExisting(year: int, month: int, day: int)
    requires IsDate(year, month, day)
    ensures ClampDay(year, month, day) == FromYmd(year, month, day)
  {
  }
}
