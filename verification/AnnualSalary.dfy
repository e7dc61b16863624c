/** What a salary is worth in annualized mode, and how twelve of them compare with the year. */
module AnnualSalary {
  import opened Common
  import opened Calendar
  import opened Numbers
  import opened Recurrence
  import opened YearMonths
  import opened YearCounts
  import opened Salary

  /** What a schedule adds to an annualized salary: a one-off its occurrences in the month, a
      recurring one a twelfth of its canonical year, if it falls in the calendar year at all. */
  ghost function AnnualPart(schedule: IncomeSchedule, from: int, last: int): int {
    match schedule.timing
    case OneOff(_) => schedule.amount * |Occurrences(schedule.timing, from, last)|
    case Recurring(config) => if YearCount(config, YearOf(from)) == 0 then 0 else AnnualizedCents(schedule)
  }

  ghost function ScheduleAnnual(schedules: seq<IncomeSchedule>, from: int, last: int): int {
    if schedules == [] then 0
    else ScheduleAnnual(schedules[..|schedules| - 1], from, last) + AnnualPart(schedules[|schedules| - 1], from, last)
  }

  ghost function PayeesAnnual(payeeIds: seq<string>, schedules: seq<IncomeSchedule>, from: int, last: int): int {
    if payeeIds == [] then 0
    else
      PayeesAnnual(payeeIds[..|payeeIds| - 1], schedules, from, last)
        + ScheduleAnnual(SchedulesOf(schedules, payeeIds[|payeeIds| - 1]), from, last)
  }

  lemma FragmentIsPart(schedule: IncomeSchedule, from: int, last: int)
    ensures var fragment := FragmentOf(schedule, from, last, Annualized);
            AnnualPart(schedule, from, last) == if fragment.Some? then fragment.value.total else 0
  {
    hide Occurrences, FromYmd, YearOf, AnnualizedCents;
  }

  /** The days of a calendar year on which a schedule falls. */
  ghost function DaysOfYear(timing: Timing, year: int): seq<int> {
    Occurrences(timing, FromYmd(year, 1, 1), FromYmd(year, 12, 31))
  }

  /** An annualized fragment lists the occurrences of the whole calendar year, and there is one only
      if there are any. */
  lemma AnnualFragmentFields(schedule: IncomeSchedule, from: int, last: int)
    requires schedule.timing.Recurring?
    ensures var fragment := FragmentOf(schedule, from, last, Annualized);
            var occurrences := DaysOfYear(schedule.timing, YearOf(from));
            && (fragment.None? <==> occurrences == [])
            && (fragment.Some? ==>
                  && fragment.value.payeeId == schedule.payeeId && fragment.value.occurrences == occurrences
                  && fragment.value.amountPerOccurrence == schedule.amount && fragment.value.source == SalarySource.Schedule)
  {
    hide Occurrences, FromYmd, YearOf, AnnualizedCents;
  }

  lemma TotalOfOne(fragment: Option<SalaryFragment>)
    ensures TotalOf(if fragment.Some? then [fragment.value] else []) == if fragment.Some? then fragment.value.total else 0
  {
    if fragment.Some? {
      assert [fragment.value][..0] == [];
    }
  }

  lemma {:induction false} AnnualSchedulesTotal(schedules: seq<IncomeSchedule>, from: int, last: int)
    ensures TotalOf(ScheduleFragments(schedules, from, last, Annualized)) == ScheduleAnnual(schedules, from, last)
  {
    hide FragmentOf, AnnualPart, TotalOf;
    if schedules != [] {
      var front, schedule := schedules[..|schedules| - 1], schedules[|schedules| - 1];
      var fragment := FragmentOf(schedule, from, last, Annualized);
      AnnualSchedulesTotal(front, from, last);
      TotalOfConcat(ScheduleFragments(front, from, last, Annualized), if fragment.Some? then [fragment.value] else []);
      TotalOfOne(fragment);
      FragmentIsPart(schedule, from, last);
    } else {
      NoFragments([], map[], from, last, Annualized);
    }
  }

  /** In annualized mode a salary is the annual parts of all schedules of its payees plus the history
      of the payees no schedule covers. */
  lemma {:induction false} AnnualizedTotal(payeeIds: seq<string>, schedules: seq<IncomeSchedule>, totals: map<string, int>, from: int, last: int)
    ensures TotalOf(AllFragments(payeeIds, schedules, totals, from, last, Annualized))
         == PayeesAnnual(payeeIds, schedules, from, last) + HistoryIncome(payeeIds, schedules, totals)
  {
    hide ScheduleFragments, ScheduleAnnual, SchedulesOf, TotalOf;
    if payeeIds != [] {
      var front, payeeId := payeeIds[..|payeeIds| - 1], payeeIds[|payeeIds| - 1];
      AnnualizedTotal(front, schedules, totals, from, last);
      TotalOfConcat(AllFragments(front, schedules, totals, from, last, Annualized),
                    PayeeFragments(payeeId, schedules, totals, from, last, Annualized));
      AnnualSchedulesTotal(SchedulesOf(schedules, payeeId), from, last);
      FallbackTotal(payeeId, totals);
      NoAnnual(from, last);
    } else {
      NoFragments(schedules, totals, from, last, Annualized);
    }
  }

  lemma NoAnnual(from: int, last: int)
    ensures ScheduleAnnual([], from, last) == 0
  {
  }

  lemma FallbackTotal(payeeId: string, totals: map<string, int>)
    ensures TotalOf(FallbackFragments(payeeId, totals)) == if payeeId in totals then totals[payeeId] else 0
  {
    if payeeId in totals {
      assert FallbackFragments(payeeId, totals)[..0] == [];
    }
  }

  // ----- a year of annualized salaries

  ghost function YearParts(schedule: IncomeSchedule, year: nat, months: nat): int
    requires months <= 12
  {
    if months == 0 then 0
    else
      var ym := YearMonth(year, months);
      YearParts(schedule, year, months - 1) + AnnualPart(schedule, ym.StartDate(), ym.EndDate())
  }

  ghost function ScheduleYear(schedules: seq<IncomeSchedule>, year: nat, months: nat): int
    requires months <= 12
  {
    if months == 0 then 0
    else
      var ym := YearMonth(year, months);
      ScheduleYear(schedules, year, months - 1) + ScheduleAnnual(schedules, ym.StartDate(), ym.EndDate())
  }

  ghost function PayeesYear(payeeIds: seq<string>, schedules: seq<IncomeSchedule>, year: nat, months: nat): int
    requires months <= 12
  {
    if months == 0 then 0
    else
      var ym := YearMonth(year, months);
      PayeesYear(payeeIds, schedules, year, months - 1) + PayeesAnnual(payeeIds, schedules, ym.StartDate(), ym.EndDate())
  }

  lemma {:induction false} ScheduleYearSplits(schedules: seq<IncomeSchedule>, year: nat, months: nat)
    requires months <= 12
    ensures schedules == [] ==> ScheduleYear(schedules, year, months) == 0
    ensures schedules != [] ==>
              ScheduleYear(schedules, year, months)
              == ScheduleYear(schedules[..|schedules| - 1], year, months) + YearParts(schedules[|schedules| - 1], year, months)
  {
    hide AnnualPart, YearMonth.StartDate, YearMonth.EndDate;
    if months > 0 {
      ScheduleYearSplits(schedules, year, months - 1);
    }
  }

  lemma {:induction false} PayeesYearSplits(payeeIds: seq<string>, schedules: seq<IncomeSchedule>, year: nat, months: nat)
    requires months <= 12
    ensures payeeIds == [] ==> PayeesYear(payeeIds, schedules, year, months) == 0
    ensures payeeIds != [] ==>
              PayeesYear(payeeIds, schedules, year, months)
              == PayeesYear(payeeIds[..|payeeIds| - 1], schedules, year, months)
               + ScheduleYear(SchedulesOf(schedules, payeeIds[|payeeIds| - 1]), year, months)
  {
    hide ScheduleAnnual, SchedulesOf, YearMonth.StartDate, YearMonth.EndDate;
    if months > 0 {
      PayeesYearSplits(payeeIds, schedules, year, months - 1);
    }
  }

  lemma MonthInYear(year: nat, month: nat)
    requires 1 <= month <= 12
    ensures YearOf(YearMonth(year, month).StartDate()) == year
  {
    hide MonthStart, MonthIndexOf;
    NextFirst(MonthIndex(year, month));
  }

  /** The first and the last day of a year. */
  function FirstDay(year: int): int {
    FromYmd(year, 1, 1)
  }

  function LastDay(year: int): int {
    FromYmd(year, 12, 31)
  }

  lemma WholeYear(year: nat)
    ensures YearMonth(year, 1).StartDate() == FirstDay(year) && YearMonth(year, 12).EndDate() == LastDay(year)
  {
    hide MonthStart, MonthIndexOf, FromYmd, YearMonth.StartDate, YearMonth.EndDate;
    YearRange(year);
  }

  /** The parts of a recurring schedule are the same in every month of a year. */
  lemma {:induction false} RecurringYear(schedule: IncomeSchedule, year: nat, months: nat)
    requires schedule.timing.Recurring? && months <= 12
    ensures YearParts(schedule, year, months) == months * RecurringPart(schedule, year)
  {
    hide YearParts, RecurringPart;
    RecurringStep(schedule, year, months);
    if months > 0 {
      RecurringYear(schedule, year, months - 1);
      Distribute(RecurringPart(schedule, year), months - 1, 1);
    }
  }

  lemma RecurringStep(schedule: IncomeSchedule, year: nat, months: nat)
    requires schedule.timing.Recurring? && months <= 12
    ensures YearParts(schedule, year, months)
         == if months == 0 then 0 else YearParts(schedule, year, months - 1) + RecurringPart(schedule, year)
  {
    hide AnnualPart, RecurringPart, YearMonth.StartDate, YearMonth.EndDate;
    if months > 0 {
      MonthOfRecurring(schedule, year, months);
    }
  }

  ghost function RecurringPart(schedule: IncomeSchedule, year: int): int
    requires schedule.timing.Recurring?
  {
    if YearCount(schedule.timing.config, year) == 0 then 0 else AnnualizedCents(schedule)
  }

  lemma MonthOfRecurring(schedule: IncomeSchedule, year: nat, month: nat)
    requires schedule.timing.Recurring? && 1 <= month <= 12
    ensures AnnualPart(schedule, YearMonth(year, month).StartDate(), YearMonth(year, month).EndDate()) == RecurringPart(schedule, year)
  {
    hide YearCount, AnnualizedCents, YearMonth.StartDate, YearMonth.EndDate, YearOf;
    MonthInYear(year, month);
  }

  /** The parts of a one-off add up to what it brings. */
  lemma {:induction false} OneOffYear(schedule: IncomeSchedule, year: nat, months: nat)
    requires schedule.timing.OneOff? && 1 <= months <= 12
    ensures YearParts(schedule, year, months)
         == schedule.amount * |Occurrences(schedule.timing, YearMonth(year, 1).StartDate(), YearMonth(year, months).EndDate())|
  {
    hide Occurrences, FallsOn, YearMonth.StartDate, YearMonth.EndDate, AnnualPart;
    OneOffPart(schedule, YearMonth(year, months).StartDate(), YearMonth(year, months).EndDate());
    if months > 1 {
      OneOffYear(schedule, year, months - 1);
      OneOffMonth(schedule, year, months);
    } else {
      assert YearParts(schedule, year, 0) == 0;
    }
  }

  lemma OneOffPart(schedule: IncomeSchedule, from: int, last: int)
    requires schedule.timing.OneOff?
    ensures AnnualPart(schedule, from, last) == schedule.amount * |Occurrences(schedule.timing, from, last)|
  {
    hide Occurrences;
  }

  lemma OneOffMonth(schedule: IncomeSchedule, year: nat, months: nat)
    requires schedule.timing.OneOff? && 2 <= months <= 12
    ensures var first, before, last := YearMonth(year, 1).StartDate(), YearMonth(year, months - 1).EndDate(), YearMonth(year, months).EndDate();
            schedule.amount * |Occurrences(schedule.timing, first, last)|
            == schedule.amount * |Occurrences(schedule.timing, first, before)|
             + schedule.amount * |Occurrences(schedule.timing, YearMonth(year, months).StartDate(), last)|
  {
    hide Occurrences, FallsOn, YearMonth.StartDate, YearMonth.EndDate;
    var first, before, last := YearMonth(year, 1).StartDate(), YearMonth(year, months - 1).EndDate(), YearMonth(year, months).EndDate();
    MonthEdges(year, months);
    SplitRange(schedule.timing, first, before, last);
    Distribute(schedule.amount, |Occurrences(schedule.timing, first, before)|, |Occurrences(schedule.timing, before + 1, last)|);
  }

  /** How far a schedule's year of annualized parts may be from what it brings. */
  function Margin(schedule: IncomeSchedule): real {
    if schedule.timing.OneOff? then 0.0 else Tolerance(schedule)
  }

  function ScheduleMargin(schedules: seq<IncomeSchedule>): real {
    if schedules == [] then 0.0 else ScheduleMargin(schedules[..|schedules| - 1]) + Margin(schedules[|schedules| - 1])
  }

  function PayeesMargin(payeeIds: seq<string>, schedules: seq<IncomeSchedule>): real {
    if payeeIds == [] then 0.0
    else
      PayeesMargin(payeeIds[..|payeeIds| - 1], schedules) + ScheduleMargin(SchedulesOf(schedules, payeeIds[|payeeIds| - 1]))
  }

  /** A one-off, or a recurring schedule without weekend shifts, end or monthly patterns whose cap
      covers the year. */
  predicate IsEstimable(schedule: IncomeSchedule, year: int) {
    match schedule.timing
    case OneOff(_) => true
    case Recurring(config) => Plain(config) && Covers(config, year) && (!config.frequency.Monthly? || config.patterns == [])
  }

  lemma ToleranceNotNegative(schedule: IncomeSchedule)
    requires schedule.timing.Recurring?
    ensures Tolerance(schedule) >= 0.0
  {
    hide Slack;
    SlackAtLeastOne(schedule.timing.config);
  }

  lemma PartsNearIncome(schedule: IncomeSchedule, year: nat)
    requires IsEstimable(schedule, year)
    ensures var brought := schedule.amount * |Occurrences(schedule.timing, FirstDay(year), LastDay(year))|;
            -Margin(schedule) <= (YearParts(schedule, year, 12) - brought) as real <= Margin(schedule)
  {
    hide Occurrences, FromYmd, YearParts, Tolerance, AnnualizedCents, Plain, Covers, YearMonth.StartDate, YearMonth.EndDate;
    match schedule.timing
    case OneOff(_) =>
      OneOffYear(schedule, year, 12);
      WholeYear(year);
    case Recurring(config) =>
      RecurringYear(schedule, year, 12);
      AnnualizedWindow(schedule, year);
      ToleranceNotNegative(schedule);
  }

  lemma {:induction false} ScheduleYearNear(schedules: seq<IncomeSchedule>, year: nat)
    requires forall s <- schedules :: IsEstimable(s, year)
    ensures var income := ScheduleIncome(schedules, FirstDay(year), LastDay(year));
            -ScheduleMargin(schedules) <= (ScheduleYear(schedules, year, 12) - income) as real <= ScheduleMargin(schedules)
  {
    hide Occurrences, FirstDay, LastDay, IsEstimable, Margin, YearParts, ScheduleYear;
    ScheduleYearSplits(schedules, year, 12);
    if schedules != [] {
      assert schedules[|schedules| - 1] in schedules;
      ScheduleYearNear(schedules[..|schedules| - 1], year);
      PartsNearIncome(schedules[|schedules| - 1], year);
    }
  }

  lemma {:induction false} PayeesYearNear(payeeIds: seq<string>, schedules: seq<IncomeSchedule>, year: nat)
    requires forall s <- schedules :: IsEstimable(s, year)
    ensures var income := PayeesIncome(payeeIds, schedules, FirstDay(year), LastDay(year));
            -PayeesMargin(payeeIds, schedules) <= (PayeesYear(payeeIds, schedules, year, 12) - income) as real <= PayeesMargin(payeeIds, schedules)
  {
    hide FirstDay, LastDay, IsEstimable, ScheduleMargin, ScheduleIncome, ScheduleYear, PayeesYear, SchedulesOf;
    PayeesYearSplits(payeeIds, schedules, year, 12);
    if payeeIds != [] {
      PayeesYearNear(payeeIds[..|payeeIds| - 1], schedules, year);
      ScheduleYearNear(SchedulesOf(schedules, payeeIds[|payeeIds| - 1]), year);
    }
  }

  /** The salaries of the first months of a year, each computed in annualized mode, added up. */
  ghost function AnnualizedSalaries(payeeIds: seq<string>, schedules: seq<IncomeSchedule>, totals: nat -> map<string, int>,
                                    year: nat, months: nat): int
    requires months <= 12
  {
    if months == 0 then 0
    else
      var ym := YearMonth(year, months);
      AnnualizedSalaries(payeeIds, schedules, totals, year, months - 1)
        + TotalOf(AllFragments(payeeIds, schedules, totals(months), ym.StartDate(), ym.EndDate(), Annualized))
  }

  lemma {:induction false} AnnualizedSalariesSplit(payeeIds: seq<string>, schedules: seq<IncomeSchedule>, totals: nat -> map<string, int>,
                                                   year: nat, months: nat)
    requires months <= 12
    ensures AnnualizedSalaries(payeeIds, schedules, totals, year, months)
         == PayeesYear(payeeIds, schedules, year, months) + MonthlyHistory(payeeIds, schedules, totals, months)
  {
    hide AllFragments, TotalOf, PayeesAnnual, HistoryIncome, YearMonth.StartDate, YearMonth.EndDate;
    if months > 0 {
      AnnualizedSalariesSplit(payeeIds, schedules, totals, year, months - 1);
      var ym := YearMonth(year, months);
      AnnualizedTotal(payeeIds, schedules, totals(months), ym.StartDate(), ym.EndDate());
    }
  }

  /** Twelve annualized salaries are, up to the schedules' margins, the schedule income of the whole
      year plus the history of the twelve months. */
  lemma AnnualizedYear(payeeIds: seq<string>, schedules: seq<IncomeSchedule>, totals: nat -> map<string, int>, year: nat)
    requires forall s <- schedules :: IsEstimable(s, year)
    ensures var exact := PayeesIncome(payeeIds, schedules, FirstDay(year), LastDay(year))
                       + MonthlyHistory(payeeIds, schedules, totals, 12);
            var margin := PayeesMargin(payeeIds, schedules);
            -margin <= (AnnualizedSalaries(payeeIds, schedules, totals, year, 12) - exact) as real <= margin
  {
    hide FirstDay, LastDay, IsEstimable, PayeesMargin, PayeesIncome, PayeesYear, MonthlyHistory, AnnualizedSalaries;
    AnnualizedSalariesSplit(payeeIds, schedules, totals, year, 12);
    PayeesYearNear(payeeIds, schedules, year);
  }
}
