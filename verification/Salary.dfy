/** A person's monthly income from schedules and, for payees without one, from history. */
module Salary {
  import opened Common
  import opened Calendar
  import opened Numbers
  import opened Recurrence
  import opened YearMonths
  import opened YearCounts
  import opened PatternCounts

  /** `amount` is in cents per occurrence. */
  datatype IncomeSchedule = IncomeSchedule(payeeId: string, amount: int, timing: Timing)

  datatype SalarySource = Schedule | TransactionHistoryFallback

  datatype BudgetMode = Annualized | Actual

  datatype SalaryFragment = SalaryFragment(
    payeeId: string,
    occurrences: seq<int>,
    amountPerOccurrence: int,
    total: int,
    source: SalarySource)

  datatype Configured = Configured(name: string, salaryPayeeId: string, allocationPayeeIds: seq<string>) {
    function AllPayeeIds(): seq<string> {
      [salaryPayeeId] + allocationPayeeIds
    }
  }

  // ----- fragments

  ghost function ActualFragment(schedule: IncomeSchedule, from: int, last: int): Option<SalaryFragment> {
    var occurrences := Occurrences(schedule.timing, from, last);
    if occurrences == [] then None
    else Some(SalaryFragment(schedule.payeeId, occurrences, schedule.amount, schedule.amount * |occurrences|, Schedule))
  }

  /** A twelfth of the canonical yearly income, to the nearest cent. */
  function AnnualizedCents(schedule: IncomeSchedule): int
    requires schedule.timing.Recurring?
  {
    Round(schedule.amount as real * CanonicalPerYear(schedule.timing.config) / 12.0)
  }

  ghost function AnnualizedFragment(schedule: IncomeSchedule, monthStart: int): Option<SalaryFragment>
    requires schedule.timing.Recurring?
  {
    var year := YearOf(monthStart);
    var occurrences := Occurrences(schedule.timing, FromYmd(year, 1, 1), FromYmd(year, 12, 31));
    if occurrences == [] then None
    else Some(SalaryFragment(schedule.payeeId, occurrences, schedule.amount, AnnualizedCents(schedule), Schedule))
  }

  ghost function FragmentOf(schedule: IncomeSchedule, from: int, last: int, mode: BudgetMode): Option<SalaryFragment> {
    if mode.Annualized? && schedule.timing.Recurring? then AnnualizedFragment(schedule, from)
    else ActualFragment(schedule, from, last)
  }

  method ActualMonthFragment(schedule: IncomeSchedule, from: int, last: int) returns (fragment: Option<SalaryFragment>)
    ensures fragment == ActualFragment(schedule, from, last)
    ensures var occurrences := Occurrences(schedule.timing, from, last);
            fragment == if occurrences == [] then None
                        else Some(SalaryFragment(schedule.payeeId, occurrences, schedule.amount, schedule.amount * |occurrences|, Schedule))
  {
    var occurrences := ExpandOccurrences(schedule.timing, from, last);
    if occurrences == [] {
      return None;
    }
    var total := schedule.amount * |occurrences|;
    return Some(SalaryFragment(schedule.payeeId, occurrences, schedule.amount, total, Schedule));
  }

  method AnnualizedMonthFragment(schedule: IncomeSchedule, monthStart: int) returns (fragment: Option<SalaryFragment>)
    requires schedule.timing.Recurring?
    ensures fragment == AnnualizedFragment(schedule, monthStart)
  {
    hide FromYmd, MonthIndexOf, Occurrences, CanonicalPerYear, Round;
    var year := YearOf(monthStart);
    var occurrences := ExpandOccurrences(schedule.timing, FromYmd(year, 1, 1), FromYmd(year, 12, 31));
    if occurrences == [] {
      return None;
    }
    return Some(SalaryFragment(schedule.payeeId, occurrences, schedule.amount, AnnualizedCents(schedule), Schedule));
  }

  // ----- the whole salary

  function SchedulesOf(schedules: seq<IncomeSchedule>, payeeId: string): (found: seq<IncomeSchedule>)
    ensures forall s <- found :: s in schedules && s.payeeId == payeeId
    ensures found == [] ==> forall s <- schedules :: s.payeeId != payeeId
    ensures forall s :: multiset(found)[s] == if s.payeeId == payeeId then multiset(schedules)[s] else 0
  {
    if schedules == [] then []
    else
      assert schedules == [schedules[0]] + schedules[1..];
      (if schedules[0].payeeId == payeeId then [schedules[0]] else []) + SchedulesOf(schedules[1..], payeeId)
  }

  ghost function ScheduleFragments(schedules: seq<IncomeSchedule>, from: int, last: int, mode: BudgetMode): seq<SalaryFragment> {
    if schedules == [] then []
    else
      var fragment := FragmentOf(schedules[|schedules| - 1], from, last, mode);
      ScheduleFragments(schedules[..|schedules| - 1], from, last, mode)
        + (if fragment.Some? then [fragment.value] else [])
  }

  function FallbackFragments(payeeId: string, totals: map<string, int>): seq<SalaryFragment> {
    if payeeId !in totals then []
    else [SalaryFragment(payeeId, [], totals[payeeId], totals[payeeId], TransactionHistoryFallback)]
  }

  ghost function PayeeFragments(payeeId: string, schedules: seq<IncomeSchedule>, totals: map<string, int>,
                                from: int, last: int, mode: BudgetMode): seq<SalaryFragment> {
    var own := SchedulesOf(schedules, payeeId);
    if own == [] then FallbackFragments(payeeId, totals) else ScheduleFragments(own, from, last, mode)
  }

  ghost function AllFragments(payeeIds: seq<string>, schedules: seq<IncomeSchedule>, totals: map<string, int>,
                              from: int, last: int, mode: BudgetMode): seq<SalaryFragment> {
    if payeeIds == [] then []
    else
      AllFragments(payeeIds[..|payeeIds| - 1], schedules, totals, from, last, mode)
        + PayeeFragments(payeeIds[|payeeIds| - 1], schedules, totals, from, last, mode)
  }

  function TotalOf(fragments: seq<SalaryFragment>): int {
    if fragments == [] then 0 else TotalOf(fragments[..|fragments| - 1]) + fragments[|fragments| - 1].total
  }

  method ComputeSalary(budgeter: Configured, schedules: seq<IncomeSchedule>, totals: map<string, int>,
                       from: int, last: int, mode: BudgetMode)
    returns (fragments: seq<SalaryFragment>, salaryMonth: int)
    ensures fragments == AllFragments([budgeter.salaryPayeeId] + budgeter.allocationPayeeIds, schedules, totals, from, last, mode)
    ensures salaryMonth == TotalOf(fragments)
  {
    hide FragmentOf, ScheduleFragments, AllFragments, TotalOf, SchedulesOf;
    fragments := [];
    salaryMonth := 0;
    var payeeIds := budgeter.AllPayeeIds();
    NoFragments(schedules, totals, from, last, mode);
    for i := 0 to |payeeIds|
      invariant fragments == AllFragments(payeeIds[..i], schedules, totals, from, last, mode)
      invariant salaryMonth == TotalOf(fragments)
    {
      AllFragmentsStep(payeeIds, i, schedules, totals, from, last, mode);
      var own := SchedulesOf(schedules, payeeIds[i]);
      if own == [] {
        if payeeIds[i] in totals {
          var total := totals[payeeIds[i]];
          salaryMonth := salaryMonth + total;
          var fragment := SalaryFragment(payeeIds[i], [], total, total, TransactionHistoryFallback);
          TotalOfPush(fragments, fragment);
          fragments := fragments + [fragment];
        }
        continue;
      }
      ghost var before := fragments;
      for j := 0 to |own|
        invariant fragments == before + ScheduleFragments(own[..j], from, last, mode)
        invariant salaryMonth == TotalOf(fragments)
      {
        var fragment := ComputeFragment(own[j], from, last, mode);
        ScheduleFragmentsStep(own, j, from, last, mode);
        if fragment.Some? {
          salaryMonth := salaryMonth + fragment.value.total;
          TotalOfPush(fragments, fragment.value);
          fragments := fragments + [fragment.value];
        }
      }
      assert own[..|own|] == own;
    }
    assert payeeIds[..|payeeIds|] == payeeIds;
  }

  lemma NoFragments(schedules: seq<IncomeSchedule>, totals: map<string, int>, from: int, last: int, mode: BudgetMode)
    ensures AllFragments([], schedules, totals, from, last, mode) == [] && TotalOf([]) == 0
    ensures ScheduleFragments([], from, last, mode) == []
  {
  }

  lemma AllFragmentsStep(payeeIds: seq<string>, i: nat, schedules: seq<IncomeSchedule>, totals: map<string, int>,
                         from: int, last: int, mode: BudgetMode)
    requires i < |payeeIds|
    ensures AllFragments(payeeIds[..i + 1], schedules, totals, from, last, mode)
         == AllFragments(payeeIds[..i], schedules, totals, from, last, mode)
          + PayeeFragments(payeeIds[i], schedules, totals, from, last, mode)
  {
    assert payeeIds[..i + 1][..i] == payeeIds[..i];
  }

  lemma ScheduleFragmentsStep(schedules: seq<IncomeSchedule>, j: nat, from: int, last: int, mode: BudgetMode)
    requires j < |schedules|
    ensures var fragment := FragmentOf(schedules[j], from, last, mode);
            ScheduleFragments(schedules[..j + 1], from, last, mode)
              == ScheduleFragments(schedules[..j], from, last, mode) + (if fragment.Some? then [fragment.value] else [])
  {
    hide FragmentOf;
    assert schedules[..j + 1][..j] == schedules[..j];
  }

  lemma TotalOfPush(fragments: seq<SalaryFragment>, fragment: SalaryFragment)
    ensures TotalOf(fragments + [fragment]) == TotalOf(fragments) + fragment.total
  {
    assert (fragments + [fragment])[..|fragments|] == fragments;
  }

  method ComputeFragment(schedule: IncomeSchedule, from: int, last: int, mode: BudgetMode) returns (fragment: Option<SalaryFragment>)
    ensures fragment == FragmentOf(schedule, from, last, mode)
  {
    if mode.Annualized? && schedule.timing.Recurring? {
      fragment := AnnualizedMonthFragment(schedule, from);
    } else {
      fragment := ActualMonthFragment(schedule, from, last);
    }
  }

  // ----- what the salary is worth

  /** Each schedule's amount times the number of its occurrences in the range. */
  ghost function ScheduleIncome(schedules: seq<IncomeSchedule>, from: int, last: int): int {
    if schedules == [] then 0
    else
      var schedule := schedules[|schedules| - 1];
      ScheduleIncome(schedules[..|schedules| - 1], from, last)
        + schedule.amount * |Occurrences(schedule.timing, from, last)|
  }

  /** The schedule income of every payee, a payee listed twice counting twice. */
  ghost function PayeesIncome(payeeIds: seq<string>, schedules: seq<IncomeSchedule>, from: int, last: int): int {
    if payeeIds == [] then 0
    else
      PayeesIncome(payeeIds[..|payeeIds| - 1], schedules, from, last)
        + ScheduleIncome(SchedulesOf(schedules, payeeIds[|payeeIds| - 1]), from, last)
  }

  /** The history totals of the payees that no schedule covers. */
  function HistoryIncome(payeeIds: seq<string>, schedules: seq<IncomeSchedule>, totals: map<string, int>): int {
    if payeeIds == [] then 0
    else
      var payeeId := payeeIds[|payeeIds| - 1];
      HistoryIncome(payeeIds[..|payeeIds| - 1], schedules, totals)
        + (if SchedulesOf(schedules, payeeId) == [] && payeeId in totals then totals[payeeId] else 0)
  }

  lemma {:induction false} TotalOfConcat(a: seq<SalaryFragment>, b: seq<SalaryFragment>)
    ensures TotalOf(a + b) == TotalOf(a) + TotalOf(b)
  {
    if b == [] {
      assert a + b == a;
    } else {
      assert (a + b)[..|a + b| - 1] == a + b[..|b| - 1];
      TotalOfConcat(a, b[..|b| - 1]);
    }
  }

  lemma {:induction false} ActualSchedulesTotal(schedules: seq<IncomeSchedule>, from: int, last: int)
    ensures TotalOf(ScheduleFragments(schedules, from, last, Actual)) == ScheduleIncome(schedules, from, last)
  {
    hide Occurrences;
    if schedules != [] {
      var front, fragment := schedules[..|schedules| - 1], FragmentOf(schedules[|schedules| - 1], from, last, Actual);
      ActualSchedulesTotal(front, from, last);
      TotalOfConcat(ScheduleFragments(front, from, last, Actual), if fragment.Some? then [fragment.value] else []);
      assert fragment.Some? ==> TotalOf([fragment.value]) == fragment.value.total;
    }
  }

  /** In actual mode a salary is the schedule income of the month plus the history of the
      payees no schedule covers. */
  lemma {:induction false} ActualTotal(payeeIds: seq<string>, schedules: seq<IncomeSchedule>, totals: map<string, int>, from: int, last: int)
    ensures TotalOf(AllFragments(payeeIds, schedules, totals, from, last, Actual))
         == PayeesIncome(payeeIds, schedules, from, last) + HistoryIncome(payeeIds, schedules, totals)
  {
    hide ScheduleFragments, ScheduleIncome, SchedulesOf;
    if payeeIds != [] {
      var front, payeeId := payeeIds[..|payeeIds| - 1], payeeIds[|payeeIds| - 1];
      ActualTotal(front, schedules, totals, from, last);
      TotalOfConcat(AllFragments(front, schedules, totals, from, last, Actual),
                    PayeeFragments(payeeId, schedules, totals, from, last, Actual));
      ActualSchedulesTotal(SchedulesOf(schedules, payeeId), from, last);
      NoScheduleIncome(from, last);
      assert forall f: SalaryFragment :: TotalOf([f]) == f.total;
    }
  }

  lemma NoScheduleIncome(from: int, last: int)
    ensures ScheduleIncome([], from, last) == 0
  {
  }

  lemma {:induction false} ScheduleIncomeSplits(schedules: seq<IncomeSchedule>, from: int, mid: int, last: int)
    requires from - 1 <= mid <= last
    ensures ScheduleIncome(schedules, from, last) == ScheduleIncome(schedules, from, mid) + ScheduleIncome(schedules, mid + 1, last)
  {
    hide Occurrences, FallsOn;
    if schedules != [] {
      var schedule := schedules[|schedules| - 1];
      ScheduleIncomeSplits(schedules[..|schedules| - 1], from, mid, last);
      SplitRange(schedule.timing, from, mid, last);
      Distribute(schedule.amount, |Occurrences(schedule.timing, from, mid)|, |Occurrences(schedule.timing, mid + 1, last)|);
    }
  }

  /** Schedule income is additive over adjacent ranges. */
  lemma {:induction false} IncomeSplits(payeeIds: seq<string>, schedules: seq<IncomeSchedule>, from: int, mid: int, last: int)
    requires from - 1 <= mid <= last
    ensures PayeesIncome(payeeIds, schedules, from, last)
         == PayeesIncome(payeeIds, schedules, from, mid) + PayeesIncome(payeeIds, schedules, mid + 1, last)
  {
    hide ScheduleIncome;
    if payeeIds != [] {
      IncomeSplits(payeeIds[..|payeeIds| - 1], schedules, from, mid, last);
      ScheduleIncomeSplits(SchedulesOf(schedules, payeeIds[|payeeIds| - 1]), from, mid, last);
    }
  }

  /** The salaries of the first `months` months of a year, each computed in actual mode for its
      own month, added up. */
  ghost function MonthlySalaries(payeeIds: seq<string>, schedules: seq<IncomeSchedule>, totals: nat -> map<string, int>,
                                 year: nat, months: nat): int
    requires months <= 12
  {
    if months == 0 then 0
    else
      var ym := YearMonth(year, months);
      MonthlySalaries(payeeIds, schedules, totals, year, months - 1)
        + TotalOf(AllFragments(payeeIds, schedules, totals(months), ym.StartDate(), ym.EndDate(), Actual))
  }

  ghost function MonthlyHistory(payeeIds: seq<string>, schedules: seq<IncomeSchedule>, totals: nat -> map<string, int>, months: nat): int {
    if months == 0 then 0
    else MonthlyHistory(payeeIds, schedules, totals, months - 1) + HistoryIncome(payeeIds, schedules, totals(months))
  }

  /** Twelve actual-mode salaries add up to the schedule income of the whole year plus the
      history of the twelve months: no occurrence is lost or counted twice at a month's edge. */
  lemma {:induction false} SalariesOfYear(payeeIds: seq<string>, schedules: seq<IncomeSchedule>, totals: nat -> map<string, int>,
                                          year: nat, months: nat)
    requires 1 <= months <= 12
    ensures MonthlySalaries(payeeIds, schedules, totals, year, months)
         == PayeesIncome(payeeIds, schedules, YearMonth(year, 1).StartDate(), YearMonth(year, months).EndDate())
          + MonthlyHistory(payeeIds, schedules, totals, months)
  {
    hide PayeesIncome, HistoryIncome, AllFragments, TotalOf, MonthStart, MonthIndexOf, YearMonth.StartDate, YearMonth.EndDate;
    var ym := YearMonth(year, months);
    ActualTotal(payeeIds, schedules, totals(months), ym.StartDate(), ym.EndDate());
    if months > 1 {
      SalariesOfYear(payeeIds, schedules, totals, year, months - 1);
      MonthEdges(year, months);
      IncomeSplits(payeeIds, schedules, YearMonth(year, 1).StartDate(), YearMonth(year, months - 1).EndDate(), ym.EndDate());
    } else {
      assert MonthlySalaries(payeeIds, schedules, totals, year, 0) == 0;
      assert MonthlyHistory(payeeIds, schedules, totals, 0) == 0;
    }
  }

  /** For a plain monthly schedule without patterns whose interval divides 12, twelve annualized
      amounts are within 6 cents of what the year actually brings. */
  lemma AnnualizedNearActual(schedule: IncomeSchedule, year: int)
    requires schedule.timing.Recurring?
    requires var config := schedule.timing.config;
             && Plain(config) && config.frequency.Monthly? && config.patterns == [] && 12 % Step(config) == 0
             && config.start <= FromYmd(year, 1, 1)
             && MonthIndex(year, 12) <= MonthIndexOf(config.start) + MAX_PERIODS * Step(config)
    ensures var actual := schedule.amount * |Occurrences(schedule.timing, FromYmd(year, 1, 1), FromYmd(year, 12, 31))|;
            actual - 6 <= 12 * AnnualizedCents(schedule) <= actual + 6
  {
    hide Occurrences, MonthStart, MonthIndexOf, FromYmd, Plain, CanonicalPerYear, Step;
    MonthlyYearCount(schedule.timing.config, year);
    var count := |Occurrences(schedule.timing, FromYmd(year, 1, 1), FromYmd(year, 12, 31))|;
    assert schedule.amount as real * count as real == (schedule.amount * count) as real;
  }

  /** What a schedule brings in a calendar year. */
  ghost function ActualYear(schedule: IncomeSchedule, year: int): int
    requires schedule.timing.Recurring?
  {
    schedule.amount * YearCount(schedule.timing.config, year)
  }

  function Tolerance(schedule: IncomeSchedule): real
    requires schedule.timing.Recurring?
  {
    6.0 + Abs(schedule.amount) as real * Slack(schedule.timing.config)
  }

  /** For any plain schedule without monthly patterns, twelve annualized amounts are within 6 cents
      plus the amount times the slack of the yearly count of what the year actually brings. */
  lemma AnnualizedWindow(schedule: IncomeSchedule, year: int)
    requires schedule.timing.Recurring? && Plain(schedule.timing.config) && Covers(schedule.timing.config, year)
    requires !schedule.timing.config.frequency.Monthly? || schedule.timing.config.patterns == []
    ensures -Tolerance(schedule) <= (12 * AnnualizedCents(schedule) - ActualYear(schedule, year)) as real <= Tolerance(schedule)
  {
    hide Plain, Covers, CanonicalPerYear, Slack, YearCount, AnnualizedCents;
    YearCountNearCanonical(schedule.timing.config, year);
    AnnualizedCanonical(schedule);
    ScaledGap(schedule.amount, YearCount(schedule.timing.config, year), CanonicalPerYear(schedule.timing.config),
              Slack(schedule.timing.config));
  }

  /** With monthly patterns an income is never annualized much too low: twelve annualized amounts
      fall short of the year by at most 6 cents and one amount per pattern. */
  lemma AnnualizedPatterns(schedule: IncomeSchedule, year: int)
    requires schedule.timing.Recurring? && schedule.amount >= 0
    requires Plain(schedule.timing.config) && Covers(schedule.timing.config, year)
    requires schedule.timing.config.frequency.Monthly? && schedule.timing.config.patterns != []
    ensures ActualYear(schedule, year) <= 12 * AnnualizedCents(schedule) + 6 + schedule.amount * |schedule.timing.config.patterns|
  {
    hide Plain, Covers, CanonicalPerYear, YearCount, AnnualizedCents;
    var config := schedule.timing.config;
    PatternedYearCount(config, year);
    AnnualizedCanonical(schedule);
    ScaledExcess(schedule.amount, YearCount(config, year), CanonicalPerYear(config), |config.patterns|);
  }

  /** Nor is it annualized too high by more than what the canonical count has over the least one. */
  lemma AnnualizedPatternsAbove(schedule: IncomeSchedule, year: int)
    requires schedule.timing.Recurring? && schedule.amount >= 0
    requires Plain(schedule.timing.config) && Covers(schedule.timing.config, year)
    requires schedule.timing.config.frequency.Monthly? && schedule.timing.config.patterns != []
    ensures var config := schedule.timing.config;
            var margin := schedule.amount as real * (CanonicalPerYear(config) - LeastCount(config) as real);
            (12 * AnnualizedCents(schedule)) as real <= ActualYear(schedule, year) as real + 6.0 + margin
  {
    hide Plain, Covers, CanonicalPerYear, YearCount, AnnualizedCents, LeastCount;
    var config := schedule.timing.config;
    PatternedAtLeast(config, year);
    AnnualizedCanonical(schedule);
    ScaledShortfall(schedule.amount, YearCount(config, year), LeastCount(config), CanonicalPerYear(config));
  }

  lemma ScaledShortfall(amount: nat, count: nat, least: nat, canonical: real)
    requires count >= least
    ensures amount as real * canonical <= (amount * count) as real + amount as real * (canonical - least as real)
  {
    var a := amount as real;
    ProductAsReal(amount, count);
    assert a * (count - least) as real >= 0.0;
    assert a * (count - least) as real == a * count as real - a * least as real;
    assert a * (canonical - least as real) == a * canonical - a * least as real;
  }

  /** Twelve annualized amounts miss the canonical yearly income by at most 6 cents. */
  lemma AnnualizedCanonical(schedule: IncomeSchedule)
    requires schedule.timing.Recurring?
    ensures var yearly := schedule.amount as real * CanonicalPerYear(schedule.timing.config);
            yearly - 6.0 <= (12 * AnnualizedCents(schedule)) as real <= yearly + 6.0
  {
    hide CanonicalPerYear;
  }

  lemma ScaledGap(amount: int, count: nat, canonical: real, slack: real)
    requires -slack <= count as real - canonical <= slack
    ensures var gap := (amount * count) as real - amount as real * canonical;
            -(Abs(amount) as real * slack) <= gap <= Abs(amount) as real * slack
  {
    var gap := count as real - canonical;
    assert (amount * count) as real - amount as real * canonical == amount as real * gap;
    var size := Abs(amount) as real;
    assert size * (slack - gap) >= 0.0 && size * (slack + gap) >= 0.0;
    assert size * (slack - gap) == size * slack - size * gap;
    assert size * (slack + gap) == size * slack + size * gap;
  }

  lemma ScaledExcess(amount: nat, count: nat, canonical: real, extra: nat)
    requires count as real < canonical + extra as real
    ensures (amount * count) as real <= amount as real * canonical + (amount * extra) as real
  {
    var room := canonical + extra as real - count as real;
    assert amount as real * room >= 0.0;
    assert amount as real * room == amount as real * canonical + amount as real * extra as real - amount as real * count as real;
    assert (amount * count) as real == amount as real * count as real;
    assert (amount * extra) as real == amount as real * extra as real;
  }
}
