# Verified model of ab-helpers

A Dafny model of the parts of ab-helpers whose behaviour is hardest to see from any one body:
how schedules are expanded into dates and counted, how a household's money is split, how
interest is computed and applied, and how the Rust client, the Node bridge and the Actual
server stay in agreement.

Dates are day numbers: day 0 is Monday 1 January of year 1, and `Calendar` converts between day
numbers and year, month, day by the proleptic Gregorian rule. Amounts are whole cents. Floating
point numbers are exact reals; `round` goes half away from zero.

| file | what it models |
|---|---|
| `Calendar`, `Ordering`, `Numbers`, `Text`, `Common` | dates, sorting, rounding, string operations, result types |
| `Recurrence`, `Intervals` | expansion of recurring schedules into dates; on which days a schedule falls, by its own interval, start and end |
| `YearMonths`, `YearCounts`, `PatternCounts` | months tiling a year; yearly occurrence counts against the canonical estimate |
| `Salary`, `AnnualSalary`, `BudgetSummary`, `BudgetDetails` | income in both modes, proportional shares, nested breakdown |
| `Money` | printing and parsing of amounts |
| `Interest`, `Ledger`, `InterestRuns`, `Lock` | payments on a balance; one run against a ledger; runs of many processes; waiting for the lock |
| `Session`, `Serve` | the client session and the serving loop, each against its specification |
| `Protocol`, `ProtocolRuns`, `ProtocolServer`, `ProtocolAnswers`, `ProtocolLockstep`, `ProtocolStrays`, `ProtocolDepartures` | client, pipe, server, replica and remote as one state machine, and what holds of all its runs |

Code that works by changing things step by step (the walk over periods, the salary and expense
loops, the nested grouping, the serving loop, the lock's polling loop, the session and the
budget objects) is modelled by methods and classes proved against a specification: a
day-by-day listing, a comprehension, a fold, a state machine step. What the code promises is
then proved of the specification. The random and outside parts (what the pipe yields, what the
budget library does, what a try of the lock finds, what the clock shows) are inputs.

The two state machines, `Protocol` and `InterestRuns`, take any sequence of steps; a step that is
not possible leaves the state as it is, so a statement about all sequences is one about all
interleavings.

## What the proofs found

- **Errors can reach the wrong caller.** The client looks at an error frame before it compares
  ids. As long as no caller goes away with something left on the pipe, every error is about its
  own call or the whole process (`ErrorsAreOwn`). `GoesWrongExactly` says when a departure can
  break this, without anything else going astray: if and only if it leaves something on the pipe,
  and that is its own reply, an error other than a failure of the whole process, or else something
  that a serving bridge has yet to answer. So the next caller can be handed any error of an
  unanswered request (`AbandonedErrorIsMisdelivered`: refusals, failed final syncs, timeouts), an
  error already on the pipe, fatal or not (`AnsweredErrorIsMisdelivered`), or the rejection of a
  line the departed caller left unfinished (`UnfinishedLineIsMisdelivered`). Only an ok reply at
  the head of the pipe, a process failure there, or a bridge that serves no more is harmless. Ok
  payloads are never misdelivered: a stale one poisons the session (`OwnAnswerOnly`,
  `StaleAnswersPoison`).
- **A killed host can apply interest twice.** The lock is the host process's, so it is free the
  moment the host is killed, while the Node child may still be importing. `KilledHostDoubles`
  gives the double application for every ledger on which a run would apply interest;
  `OncePlusExtras` bounds duplicates over all runs, and `AtMostOnce` holds when no run is forced,
  no orphaned import lands and no user enters the payee's transactions by hand.
- **The day before the payment does not count.** The cutoff is documented as the day before the
  last transaction and a snapshot at that point, but the balance query is strictly before it, so
  transactions on the cutoff day are left out. `ReportedBalance` says exactly when the reported
  new balance is the account's balance after the run, and `ReportedBalanceExample` is a ledger on
  which it is not. For a positive balance the last transaction is also taken as a withdrawal,
  whatever its sign.
- **Principal is wrong for a payment that overshoots.** It is short by twice the excess, so payment
  equals interest plus principal exactly when the payment does not exceed the balance and its
  interest (`PaymentSplits`); paying 3.00 on a debt of 1.00 gives a principal of -1.00
  (`OvershootExample`).
- **A category can be charged twice.** A category whose name contains two budgeters' names is
  individual to both (`DoubleOwnershipExample`); `LeftOverLaw` states the exact correction.
- **A checked build panics on the least 64-bit amount.** Printing and parsing gives back every other
  amount in any build. With overflow checks the least one panics while it is reassembled; in a
  build without them, as the release profile is (`Cargo.toml:17-20`, `Dockerfile:10`), the
  arithmetic wraps twice and returns it intact (`PrintedParses`).
- **The yearly estimate counts copies.** Of a schedule whose patterns all name the same day, the
  canonical estimate counts every copy where one date a month falls (`RepeatedPatterns`).
- **A schedule can fall before its start**, exactly when its first raw date, shifted off the weekend,
  lies before the start and the end rule admits it (`FallsBeforeStartExactly`). Without monthly
  patterns that takes a weekend start moved to the Friday before (`PlainFallsBeforeStartExactly`).
  With a pattern for the first of the month, starting on the 15th falls on the first as well
  (`FallsBeforeStartExample`).

## Model

| member | source | states |
|---|---|---|
| Recurrence.ExpandRecurring | crates/ab-helpers-domain/src/models/recurrence.rs:135-175 | The walk with its period cap, empty-period skip, look-ahead break and both end-rule exits returns exactly the days of the range on which the whole capped stream, cut by the end rule and shifted off weekends, falls |
| Recurrence.ExpandOccurrences | crates/ab-helpers-domain/src/models/recurrence.rs:117-132 | The same for any timing, one-off dates and inverted ranges included |
| Recurrence.Occurrences | crates/ab-helpers-domain/src/models/recurrence.rs:115-132 | The reference: a strictly increasing list holding exactly the days in the range on which the schedule falls |
| Recurrence.SplitRange | crates/ab-helpers-domain/src/models/recurrence.rs:117-132 | Expanding two adjacent ranges is expanding their union, for every timing, end mode, weekend mode and pattern list |
| Recurrence.NothingLost | crates/ab-helpers-domain/src/models/recurrence.rs:146-163 | After a raw date refused by the end rule or more than 3 days past the range, no later raw date can contribute |
| Recurrence.HitsSorted | crates/ab-helpers-domain/src/models/recurrence.rs:165-173 | The collected dates are already in order before the final sort |
| Recurrence.StreamIncreasing | crates/ab-helpers-domain/src/models/recurrence.rs:180-217 | Raw dates are strictly increasing within and across periods, for every frequency, interval and pattern list |
| Recurrence.PeriodsInOrder | crates/ab-helpers-domain/src/models/recurrence.rs:180-217 | Every date of a period precedes every date of any later period |
| Recurrence.StreamMembers | crates/ab-helpers-domain/src/models/recurrence.rs:140-141 | A date is in the stream if and only if it is a raw date of one of its periods |
| Recurrence.AdmittedByTests | crates/ab-helpers-domain/src/models/recurrence.rs:154-163 | On an increasing stream the end rule, stated over all earlier dates, is the walk's two tests on the current date and counter |
| Recurrence.AdjustWeekend | crates/ab-helpers-domain/src/models/recurrence.rs:250-266 | The shifted date is within 2 days, is a weekday when shifting is on, and weekdays stay put |
| Recurrence.AdjustWeekendMonotone | crates/ab-helpers-domain/src/models/recurrence.rs:250-266 | Shifting keeps order and shifting twice is shifting once |
| Recurrence.DaysInMonth | crates/ab-helpers-domain/src/models/recurrence.rs:219-228 | The distance between two firsts of month is the month's length by the Gregorian leap rule |
| Recurrence.ClampDay | crates/ab-helpers-domain/src/models/recurrence.rs:230-237 | The result is a real date of that month with the requested day or the month's last day; the `expect` cannot fail |
| Recurrence.NthWeekdayExact | crates/ab-helpers-domain/src/models/recurrence.rs:239-248 | There is a result exactly when the month holds n such weekdays; it has that weekday with exactly n - 1 before it in the month; n <= 4 always succeeds |
| Recurrence.OccurrenceNumberFits | crates/ab-helpers-domain/src/models/recurrence.rs:138-152 | No period holds more than 31 dates, so the 32-bit counter cannot overflow within the cap |
| Recurrence.FallsBeforeStartExactly | crates/ab-helpers-domain/src/models/recurrence.rs:135-217 | A schedule falls before its start if and only if its first raw date, shifted off the weekend, lies before the start and the end rule admits it |
| Recurrence.PlainFallsBeforeStartExactly | crates/ab-helpers-domain/src/models/recurrence.rs:180-215 | Without monthly patterns: if and only if the start is a weekend day, weekends move to the Friday before, and the end rule admits the start |
| Recurrence.FallsBeforeStartExample | crates/ab-helpers-domain/src/models/recurrence.rs:196-209 | Starting on 15 January with a pattern for the first of the month, a schedule falls on 1 January |
| Recurrence.PatternDayFalls | crates/ab-helpers-domain/src/models/recurrence.rs:196-209 | Every day-of-month pattern has its date among the raw dates of the start month, wherever the start lies in it |
| Recurrence.EarliestOccurrence | crates/ab-helpers-domain/src/models/recurrence.rs:180-217 | How early it can be: without patterns at most 2 days before the start, with patterns at most 2 days before the start month |
| Intervals.DailyExactly | crates/ab-helpers-domain/src/models/recurrence.rs:135-187 | An endless daily schedule without weekend shifts falls on a date if and only if it is a multiple of `interval` days, at most 20 000 of them, after the start |
| Intervals.WeeklyExactly | crates/ab-helpers-domain/src/models/recurrence.rs:135-187 | The same in weeks: multiples of 7 times `interval` days |
| Intervals.MonthlyExactly | crates/ab-helpers-domain/src/models/recurrence.rs:188-211 | An endless monthly schedule falls on a date if and only if its month is a multiple of `interval` months, at most 20 000 of them, after the start month, and the date has the start's day, or is the last of a shorter month, or, with patterns, is named by one |
| Intervals.YearlyExactly | crates/ab-helpers-domain/src/models/recurrence.rs:212-215 | An endless yearly schedule falls on a date if and only if its year is a multiple of `interval` years, at most 20 000 of them, after the start year, and it is the start's day and month, or the last of a shorter month |
| Intervals.ZeroIsOne | crates/ab-helpers-domain/src/models/recurrence.rs:136 | An interval of 0 expands as one of 1, whatever else the schedule says |
| Intervals.ShiftedExactly | crates/ab-helpers-domain/src/models/recurrence.rs:165-173 | A schedule that avoids weekends falls exactly on the shifts of the days on which it would fall otherwise |
| Intervals.EndDateExactly | crates/ab-helpers-domain/src/models/recurrence.rs:154-158 | An end date keeps exactly the days up to and including it |
| Intervals.AfterExactly | crates/ab-helpers-domain/src/models/recurrence.rs:151-163 | An end after n occurrences keeps exactly the days before which the endless schedule falls fewer than n times |
| Intervals.CanonicalExactly | crates/ab-helpers-domain/src/models/budget_summary.rs:350-361 | The canonical number, literally: 365, 52, 12 or 1 over the interval, and for a monthly schedule with patterns as often as there are patterns |
| Calendar.YearStartClosed | crates/ab-helpers-domain/src/models/recurrence.rs:219-228 | Month lengths added one by one agree with the closed leap-day formula, in every year |
| Calendar.MonthStartClosed | crates/ab-helpers-domain/src/models/recurrence.rs:219-228 | Every month starts where a closed formula in year and month puts it |
| Calendar.LeapDay2024 | crates/ab-helpers-domain/src/models/recurrence.rs:239-248 | Day numbers agree with the calendar: 29 February 2024 exists and is a Thursday |
| Calendar.BuiltFromFields | crates/ab-helpers-domain/src/models/recurrence.rs:189-195 | Year, month and day of a date rebuild that date |
| Calendar.MonthIndexUnique | crates/ab-helpers-domain/src/models/recurrence.rs:189-192 | Every day lies in exactly one month |
| Ordering.SortDedup | crates/ab-helpers-domain/src/models/recurrence.rs:207-209 | Sorting and dropping equal neighbours gives a strictly increasing list with the same elements |
| YearMonths.YearMonth.New | crates/ab-helpers-domain/src/models/year_month.rs:14-20 | Succeeds exactly for months 1 to 12 |
| YearMonths.YearMonth.EndDate | crates/ab-helpers-domain/src/models/year_month.rs:44-50 | One month later minus one day is the day before the next month starts |
| YearMonths.RangeIsMonth | crates/ab-helpers-domain/src/models/year_month.rs:38-50 | The range from start to end date holds exactly the month's days |
| YearMonths.MonthsAdjoin | crates/ab-helpers-domain/src/models/year_month.rs:38-50 | The day after a month's end is the next month's start, across years too |
| YearMonths.MonthsTileYear | crates/ab-helpers-domain/src/models/year_month.rs:38-50 | Expanding a schedule month by month is expanding it over the whole year |
| YearCounts.StrideCount | crates/ab-helpers-domain/src/models/recurrence.rs:182-187 | The exact number of occurrences of a daily or weekly schedule in any range after its start |
| YearCounts.StrideYearCount | crates/ab-helpers-domain/src/models/budget_summary.rs:350-354 | A schedule that falls every D days falls N / D times in a year of N days, rounded down or up |
| YearCounts.WeeklyNearCanonical | crates/ab-helpers-domain/src/models/budget_summary.rs:354 | Weekly counts stay within 1 + 2/7k of the canonical 52 / k |
| YearCounts.DailyNearCanonical | crates/ab-helpers-domain/src/models/budget_summary.rs:353 | Daily counts stay within 1 + 1/k of the canonical 365 / k |
| YearCounts.MonthlyYearCount | crates/ab-helpers-domain/src/models/budget_summary.rs:355-358 | With k dividing 12: exactly 12 / k and the canonical number without patterns, at most the canonical number with them |
| YearCounts.MonthlyYearCountAnyInterval | crates/ab-helpers-domain/src/models/budget_summary.rs:355-358 | For any k without patterns: 12 / k rounded down or up |
| YearCounts.YearlyYearCount | crates/ab-helpers-domain/src/models/recurrence.rs:212-215 | A yearly schedule falls once, on the clamped start day, in every year in step with its start year and never in the others |
| YearCounts.YearCountNearCanonical | crates/ab-helpers-domain/src/models/budget_summary.rs:350-361 | Any frequency and interval without patterns: the yearly count is within the slack (1, plus 1/k daily, plus 2/7k weekly) of the canonical number |
| YearCounts.PatternedYearCount | crates/ab-helpers-domain/src/models/budget_summary.rs:355-358 | Any interval with patterns, from above: the count exceeds the canonical number by less than one date per pattern |
| PatternCounts.PatternedAtLeast | crates/ab-helpers-domain/src/models/recurrence.rs:196-209 | From below: at least 12 / k dates, rounded down, if some pattern is a day of the month or an nth weekday with n <= 4; at least 4 if every month is taken, whatever the patterns |
| PatternCounts.FifthWeekdayAtLeast | crates/ab-helpers-domain/src/models/recurrence.rs:239-248 | Taking every month, a fifth weekday comes at least four times in every year |
| PatternCounts.DatesOfMonth | crates/ab-helpers-domain/src/models/recurrence.rs:194-209 | With patterns, a date is one of a month's if and only if some pattern names it there |
| PatternCounts.RepeatedPatterns | crates/ab-helpers-domain/src/models/budget_summary.rs:355-358 | With n copies of one pattern met every month and k dividing 12, the year has 12 / k dates and the canonical number is n times that |
| Salary.ComputeSalary | crates/ab-helpers-domain/src/models/budget_summary.rs:235-290 | The loops collect exactly the fragments of the salary payee and every allocation payee in order, by the mode and each schedule's timing, and the salary is the sum of their totals; in annualized mode its worth is `AnnualizedTotal`, in actual mode `ActualTotal` |
| Salary.SchedulesOf | crates/ab-helpers-domain/src/models/budget_summary.rs:248-251 | Every schedule of the payee is selected as often as it is listed, and no other |
| Salary.ActualMonthFragment | crates/ab-helpers-domain/src/models/budget_summary.rs:294-314 | Amount times the number of occurrences, none when there is no occurrence |
| Salary.AnnualizedMonthFragment | crates/ab-helpers-domain/src/models/budget_summary.rs:318-346 | A twelfth of the canonical yearly income, rounded, with the year's occurrences; none when the year has none |
| Salary.ActualTotal | crates/ab-helpers-domain/src/models/budget_summary.rs:243-281 | In actual mode the salary is the schedule income of the range plus the history of payees no schedule covers |
| AnnualSalary.AnnualizedTotal | crates/ab-helpers-domain/src/models/budget_summary.rs:243-281 | In annualized mode the salary is, over all payees and their schedules, a rounded twelfth of the canonical year for each recurring one that falls in the calendar year of the range's start, plus amount times occurrences for each one-off, plus the history of payees no schedule covers |
| AnnualSalary.AnnualFragmentFields | crates/ab-helpers-domain/src/models/budget_summary.rs:318-346 | An annualized fragment exists exactly when the schedule falls in the calendar year, and lists all its dates of that year at its amount |
| Salary.IncomeSplits | crates/ab-helpers-domain/src/models/budget_summary.rs:294-314 | Schedule income is additive over adjacent ranges |
| Salary.SalariesOfYear | crates/ab-helpers-domain/src/models/budget_summary.rs:235-290 | Twelve monthly salaries add up to the schedule income of the whole year plus the twelve histories |
| AnnualSalary.AnnualizedYear | crates/ab-helpers-domain/src/models/budget_summary.rs:235-346 | Twelve annualized salaries miss the schedule income of the year plus the twelve histories by at most the margins of their schedules: none for a one-off, 6 cents plus the amount times the slack for a recurring one without patterns |
| Salary.AnnualizedWindow | crates/ab-helpers-domain/src/models/budget_summary.rs:316-346 | For daily, weekly, yearly and pattern-free monthly schedules of any interval, twelve annualized amounts are within 6 cents plus the amount times the slack of the year's actual income |
| Salary.AnnualizedPatterns | crates/ab-helpers-domain/src/models/budget_summary.rs:316-346 | With patterns and any interval, twelve annualized amounts of an income fall short of the year by at most 6 cents and one amount per pattern |
| Salary.AnnualizedPatternsAbove | crates/ab-helpers-domain/src/models/budget_summary.rs:316-346 | They exceed the year by at most 6 cents and the amount times what the canonical number has over the least number of dates |
| Salary.AnnualizedNearActual | crates/ab-helpers-domain/src/models/budget_summary.rs:316-346 | The tight case: pattern-free monthly schedules with k dividing 12 are within 6 cents of the year's actual income |
| BudgetSummary.ComputeTotalExpenses | crates/ab-helpers-domain/src/models/budget_summary.rs:428-464 | Every cent of every category is in exactly one of common and individual; the subset returned is the matching categories in order |
| BudgetSummary.Build | crates/ab-helpers-domain/src/models/budget_summary.rs:635-649 | The summary is every budgeter's share of those totals, in order; each share charges the budgeter's own categories and leaves over salary less common and individual expenses |
| BudgetSummary.ShareFields | crates/ab-helpers-domain/src/models/budget_summary.rs:384-400 | Individual expenses are the sum of all categories that belong to the budgeter, and the left-over is salary less common share less that sum |
| BudgetSummary.ShareIsProportional | crates/ab-helpers-domain/src/models/budget_summary.rs:371-382 | A share of the common expenses is the budgeter's part of the total salary, to half a cent, and nothing of no total salary |
| BudgetSummary.IndividualExactly | crates/ab-helpers-domain/src/models/budget_summary.rs:440-447 | The individual categories are exactly those that match some budgeter, as often as they are listed |
| BudgetSummary.OwnedExactly | crates/ab-helpers-domain/src/models/budget_summary.rs:384-387 | The categories charged to a budgeter are exactly those that belong to the name, as often as they are listed |
| BudgetSummary.FoldedAlike | crates/ab-helpers-domain/src/models/budget_summary.rs:60-70 | Categories and budgeters whose names fold alike have the same ownership |
| BudgetSummary.BlankOwnsNothing | crates/ab-helpers-domain/src/models/budget_summary.rs:60-70 | A blank name owns nothing; any other owns the categories called so, up to folding |
| BudgetSummary.SharesTrackSalaries | crates/ab-helpers-domain/src/models/budget_summary.rs:375-382 | For any budgeters, proportions sum to their part of the total salary and rounded shares miss the exact ones by at most n / 2 cents |
| BudgetSummary.CommonSharesAddUp | crates/ab-helpers-domain/src/models/budget_summary.rs:367-400 | With nonzero total salary, proportions sum to 1 and common shares to within n / 2 cents of the common expenses |
| BudgetSummary.NoSalaryNoShares | crates/ab-helpers-domain/src/models/budget_summary.rs:375-382 | With zero total salary every share is zero |
| BudgetSummary.IndividualCharges | crates/ab-helpers-domain/src/models/budget_summary.rs:384-387 | Charging each budgeter is charging each individual category once per owner |
| BudgetSummary.LeftOverLaw | crates/ab-helpers-domain/src/models/budget_summary.rs:389-400 | For all inputs the left-overs sum to the household's, corrected by share rounding and double ownership |
| BudgetSummary.LeftOverAddsUp | crates/ab-helpers-domain/src/models/budget_summary.rs:367-464 | Without double ownership and with nonzero total salary the left-overs sum to within n / 2 cents of the household's |
| BudgetSummary.DoubleOwnershipExample | crates/ab-helpers-domain/src/models/budget_summary.rs:60-70 | Of two names of which one contains the other, each budgeter is charged the full 30 cents of the one category, 30 more than it costs |
| BudgetSummary.RefilterIsFilter | crates/ab-helpers-domain/src/models/budget_summary.rs:384-387 | Filtering the individual subset by a budgeter's name is filtering the full list by it |
| BudgetDetails.Build | crates/ab-helpers-domain/src/models/budget_details.rs:35-87 | Find-or-push, then named groups before unnamed ones, gives the reference comprehension; its rows are exactly one row per category and its total their sum; no group with a named sub-group follows one without, and among each kind groups stand in the order in which their names are first seen |
| BudgetDetails.EveryCategoryPlaced | crates/ab-helpers-domain/src/models/budget_details.rs:38-80 | Every category has its row in the sub-group, under the group, whose names its group name splits into |
| BudgetDetails.EveryRowPlaced | crates/ab-helpers-domain/src/models/budget_details.rs:38-80 | Every row of every sub-group is that of a category whose group name splits into just those names |
| BudgetDetails.NamedFirst | crates/ab-helpers-domain/src/models/budget_details.rs:76-80 | The order of the parted groups, for every list of categories |
| BudgetDetails.RowPercentage | crates/ab-helpers-domain/src/models/budget_details.rs:63-73 | A row's percentage of the income is the category's amount, and nothing of no income |
| BudgetDetails.NestedShape | crates/ab-helpers-domain/src/models/budget_details.rs:38-74 | Group names are distinct, sub-group names are distinct in a group, none is empty, and each sub-group holds exactly the rows of its key in input order |
| BudgetDetails.NestedGrows | crates/ab-helpers-domain/src/models/budget_details.rs:38-74 | Placing one more row by find-or-push turns the comprehension of a list into that of the list with one more category |
| BudgetDetails.PlaceAddsRow | crates/ab-helpers-domain/src/models/budget_details.rs:41-73 | Placing a row adds that row and disturbs no other |
| BudgetDetails.PartitionKeepsRows | crates/ab-helpers-domain/src/models/budget_details.rs:76-80 | Moving unnamed groups to the end loses no row |
| BudgetDetails.PartsTrimmed | crates/ab-helpers-domain/src/models/budget_details.rs:90-103 | Both parts of a key are trimmed and a sub part is never empty |
| BudgetDetails.SplitAtFirst | crates/ab-helpers-domain/src/models/budget_details.rs:91-100 | The parts are the trimmed text before and behind the first separator, an empty one behind it being none |
| BudgetDetails.SplitUnseparated | crates/ab-helpers-domain/src/models/budget_details.rs:101 | A name without the separator is all top part |
| BudgetDetails.SplitAssembled | crates/ab-helpers-domain/src/models/budget_details.rs:90-103 | A name assembled from a top part, the separator and a sub part with any padding splits into those parts |
| BudgetDetails.FirstSeen | crates/ab-helpers-domain/src/models/budget_details.rs:41-50 | The distinct elements, each one occurring before any later one first does |
| Money.UngroupChunks | crates/ab-helpers-domain/src/models/money.rs:42-51 | Removing the spaces of a grouped number gives back its digits |
| Money.SpacesEveryThreeDigits | crates/ab-helpers-domain/src/models/money.rs:41-51 | Spaces stand exactly between groups of three digits counted from the right, never in front |
| Money.DisplayShape | crates/ab-helpers-domain/src/models/money.rs:134-143 | Where every character of a printed amount stands: a minus sign in front of negative ones only, one dollar sign behind it, one point before the last two digits, a space at every fourth place to the left of the point and never behind the dollar sign, and digits elsewhere |
| Money.WellFormedParses | crates/ab-helpers-domain/src/models/money.rs:90-132 | An optional sign, digits and optionally a point with up to two digits: rejected if the whole part exceeds 64 bits, else exactly that amount if its magnitude in cents fits, else a panic in a checked build and the wrapped amount in a wrapping one |
| Money.PaddedParses | crates/ab-helpers-domain/src/models/money.rs:93-96 | Whitespace around a text does not change what it parses to |
| Money.BlankIsEmpty | crates/ab-helpers-domain/src/models/money.rs:93-96 | Whitespace alone is rejected as empty |
| Money.SignAloneIsEmpty | crates/ab-helpers-domain/src/models/money.rs:97-106 | So is a sign alone |
| Money.SecondPoint | crates/ab-helpers-domain/src/models/money.rs:108-113 | A second point is rejected, whatever stands around the two |
| Money.TooManyDigits | crates/ab-helpers-domain/src/models/money.rs:121-125 | Three or more digits after the point are rejected |
| Money.NoWholeNumber | crates/ab-helpers-domain/src/models/money.rs:115-119 | Without a point, anything but digits after at most one more sign is rejected |
| Money.TenthsAndCents | crates/ab-helpers-domain/src/models/money.rs:121-129 | One digit after the point counts tenths, two count cents, none counts nothing |
| Money.PrintedParses | crates/ab-helpers-domain/src/models/money.rs:92-143 | Printing, dropping the dollar sign and spaces, and parsing gives back the amount if and only if the build wraps or the amount is not the least 64-bit integer |
| Interest.PaymentSplits | crates/ab-helpers-domain/src/models/interest.rs:98-109 | Payment is interest plus principal plus twice the excess over balance and interest, so it splits if and only if it does not exceed them |
| Interest.OvershootExample | crates/ab-helpers-domain/src/models/interest.rs:98-109 | Paying 3.00 on a debt of 1.00 reports a principal of -1.00 |
| Interest.DebtShrinks | crates/ab-helpers-domain/src/models/interest.rs:82-116 | If the first payment exceeds the first interest the debt shrinks by at least a cent at each payment until it is paid off |
| Interest.PaidOff | crates/ab-helpers-domain/src/models/interest.rs:82-116 | It is then paid off after at most as many payments as its initial cents |
| Interest.DebtPersists | crates/ab-helpers-domain/src/models/interest.rs:82-116 | Otherwise it never shrinks |
| Interest.PaidOffExactly | crates/ab-helpers-domain/src/models/interest.rs:82-116 | Equal payments pay a debt off if and only if the first payment exceeds the first interest |
| Interest.RoundingDrift | crates/ab-helpers-domain/src/models/interest.rs:89-91 | Until payoff, rounding keeps the n-payment balance within half the sum of the powers of 1 + r of the exact one |
| Interest.FloorDrift | crates/ab-helpers-domain/src/models/interest.rs:91-93 | Rounding down favours the debtor, by at most the whole sum |
| Ledger.Budget.NamePayee | crates/actual/bridge/index.js:798-807 | Afterwards the id returned is that of the first payee of the name; one is added, behind the others with an id of its own, only if there was none; no other name's lookup and no transaction changes |
| Ledger.Budget.ImportTransaction | crates/actual/bridge/index.js:809-845 | The count of its account, date and payee rises by one and no other; its account's balance moves by the amount and no other |
| Ledger.Budget.MakePlan | crates/ab-helpers-server/src/services/actual/interest.rs:91-162 | The straight-line reads with their early returns give the plan, and each outcome has its exact condition: unlisted or closed account, no last transaction, no payee name, a transaction of that payee on that day already, and otherwise ready if and only if the interest is nonzero, with its figures spelt out |
| Ledger.Budget.RunLive | crates/ab-helpers-server/src/services/actual/interest.rs:18-38 | A run changes the ledger only when its plan is ready; then one transaction is added for its account, date and payee, the only one of that kind unless forced, and the balance moves by the planned interest. Forced or not, an unlisted or closed account is reported as such and nothing changes |
| Ledger.FirstPayee | crates/actual/bridge/index.js:659-661 | Nothing found exactly when no payee has the name; otherwise the first payee of that name |
| Ledger.FirstWithKey | crates/actual/bridge/index.js:663-673 | Nothing found exactly when no transaction has that account, date and payee |
| Ledger.ApplyAddsOne | crates/ab-helpers-server/src/services/actual/interest.rs:18-38 | Applying adds exactly one transaction of the plan's account, date and payee, which can then be found |
| Ledger.SecondRunSkips | crates/ab-helpers-server/src/services/actual/interest.rs:115-129 | A second unforced run right after an applied one reports exactly that transaction as already applied and changes nothing |
| Ledger.PlannedKeyIsNew | crates/ab-helpers-server/src/services/actual/interest.rs:117-129 | An unforced plan is ready only if no transaction has the account, date and payee its application will use |
| Ledger.ReportedBalance | crates/ab-helpers-server/src/services/actual/interest.rs:131-161 | Forced or not, the reported new balance is the account's balance after the run if and only if the transactions from the day before the last one on sum to the payment, taken as lowering a debt or a balance by the sign of what was there before that day |
| Ledger.ReportedBalanceExample | crates/actual/bridge/index.js:630-641 | With a charge of 20.00 on the cutoff day a run reports -51.00 where the account has -71.00 |
| InterestRuns.MutualExclusion | crates/actual/src/lock.rs:19-23 | An invariant of the machine, given that the system's lock is exclusive: in every reachable state, kills and failures included, at most one process is inside, and it holds the lock |
| InterestRuns.OncePlusExtras | crates/ab-helpers-server/src/services/actual/interest.rs:91-162 | Over all interleavings of runs, kills, orphaned imports and users, an account, date and payee occurs at most once, or as often as at the start, plus the transactions that reached the ledger by force, by an orphan or by hand |
| InterestRuns.AtMostOnce | crates/ab-helpers-server/src/services/actual/interest.rs:117-129 | Over every orderly run, interest is applied at most once for an account, date and payee |
| InterestRuns.KilledHostDoubles | crates/actual/src/lock.rs:7-9 | From every ledger on which a run would apply interest, killing the host during its import and running again can apply it twice |
| InterestRuns.PlanSessionIsPlan | crates/ab-helpers-server/src/services/actual/interest.rs:91-162 | The plan's requests, made one by one and undisturbed, reach what the plan computes at once |
| InterestRuns.SessionIsRun | crates/ab-helpers-server/src/services/actual/interest.rs:18-38 | A whole undisturbed session does to the ledger what one run does, and gives the lock back |
| InterestRuns.StepKeepsInv | crates/ab-helpers-server/src/services/actual/interest.rs:91-162 | Every step keeps exclusion, known payees, the holder's clear check and the bound on duplicates |
| Lock.AcquireBlocking | crates/actual/src/lock.rs:57-96 | The result is that of the first try that finds the lock free or broken, or held at or past the deadline: acquired exactly if it is free, an error exactly if broken, a time-out exactly if held; no try follows it, and at most the wait and two polls of 250 ms are slept |
| Lock.SomeTrySettles | crates/actual/src/lock.rs:71-94 | Such a try always comes, at the latest the first one after the wait has been slept |
| Session.BridgeSession.constructor | crates/actual/src/session.rs:97-109 | A session starts open, with id 1 |
| Session.BridgeSession.Invoke | crates/actual/src/session.rs:217-320 | The exact result, state and process for every answer: a value exactly when the session was open and the response has no error and this request's id; time-out, broken pipe, end of file, unparsable, API, undecodable and mismatched answers each their own; a session that is not open is left alone; an open one uses exactly one id |
| Session.BridgeSession.Close | crates/actual/src/session.rs:178-212 | Whatever other callers do in between, the session ends closed with its process waited for; closing again changes nothing; closing an open one succeeds if and only if its request finds it still open and is answered without error and with its own id, and otherwise gives exactly the error of that request |
| Session.CancelledExactly | crates/actual/src/session.rs:217-242 | A call dropped while it waits has used up an id of an open session and changed nothing else |
| Session.SectionsKeep | crates/actual/src/session.rs:178-320 | Over any sections of any callers, closed is final, poisoned leads only to closed and uses no id, and ids only grow |
| Serve.Serve | crates/actual/bridge/index.js:184-246 | The loop is the fold of its turns; every line taken that is not blank got one frame with its own id; an opened budget is shut down, exactly once after a clean close, and an unopened one never |
| Serve.LoopTellsRight | crates/actual/bridge/index.js:162-370 | Over all lists of lines, the request on each line taken gets, in its place and with its id, exactly what its attempt came to: the value returned, the handler's own refusal, `unhandled`, `sync-failed`, a time-out, or why nothing was attempted, each with its fatality |
| Serve.OkIsReturned | crates/actual/bridge/index.js:316-346 | An ok frame carries exactly the value the attempt returned, for the three writing operations only after their sync; a refusal or throw of a handler keeps its code and fatality |
| Serve.OperationsByName | crates/actual/bridge/index.js:133-154 | The fourteen operations with a handler and the three of them that write, by name |
| Serve.CleanlyExactly | crates/actual/bridge/index.js:220-222 | The loop knows of a clean close exactly if a line taken was a close of an opened budget that synced and shut down |
| Serve.ShutdownsExactly | crates/actual/bridge/index.js:184-246 | Inside the loop shutdown is called once if some close gets that far, and otherwise never |
| Serve.StoppedByLast | crates/actual/bridge/index.js:224-230 | The loop is left only by a close or a fatal answer, on the last line taken |
| Serve.OpenedMeansOpen | crates/actual/bridge/index.js:184-230 | While the loop runs, `opened` is true exactly when an earlier open succeeded |
| Serve.NoHandlerUnopened | crates/actual/bridge/index.js:248-277 | No handler runs before an open has succeeded |
| Serve.LoopFrames | crates/actual/bridge/index.js:197-218 | Frames correspond one to one, in order, to the lines taken that are not blank |
| Serve.LoopShutdowns | crates/actual/bridge/index.js:220-243 | No shutdown before the loop is left by a close, exactly one for a clean close, never two in the loop |
| Serve.FatalFrameIsLast | crates/actual/bridge/index.js:224-230 | A fatal frame is the last frame |
| Serve.WriteAcknowledgedAfterSync | crates/actual/bridge/index.js:316-334 | A write is acknowledged exactly when the handler returned and the sync succeeded; a failed sync gives a fatal frame |
| Protocol.StepKeepsInv | crates/actual/src/session.rs:217-320 | Every step of client, pipe and server keeps ids in order, requests in order, replies and results true, and closed sessions over |
| Protocol.InvAlways | crates/actual/src/session.rs:178-320 | So does every interleaving from the start |
| ProtocolRuns.RunFollows | crates/actual/src/session.rs:178-320 | Issued requests, replies, results, the remote and failed syncs only ever grow, over every run |
| ProtocolRuns.OwnAnswerOnly | crates/actual/src/session.rs:301-319 | A call that returned a value was given the server's ok reply to its own request, for good |
| ProtocolRuns.StaleAnswersPoison | crates/actual/src/session.rs:309-317 | In any run, an ok frame ahead of a call that is not its own answers an earlier request; reading it poisons the session with the mismatch and fails the call |
| ProtocolRuns.StaysOpenReading | crates/actual/src/session.rs:289-320 | In any run a session stays open after a read if and only if it read the ok reply to the reading call's own request, or anyone's error that is not fatal |
| ProtocolRuns.AcknowledgedIsRemote | crates/actual/bridge/index.js:316-335 | A write whose caller was told it succeeded is on the remote, then and ever after |
| ProtocolRuns.IdsAreFresh | crates/actual/src/session.rs:230 | An id is given to one request only |
| ProtocolRuns.ShutForGood | crates/actual/src/session.rs:178-228 | From a session that is not open nothing is sent or read, no id is used, and the only change is to closed, with the process ended |
| ProtocolRuns.ReturnedCloseClosed | crates/actual/src/session.rs:178-212 | Once any close has returned, the session is closed |
| ProtocolRuns.FailedSyncEndsSession | crates/actual/bridge/index.js:320-332 | After a failed sync only earlier requests are ever answered ok, its fatal frame stays in the pipe while the session is open, and reading it poisons the session |
| ProtocolServer.ServerRunsLoop | crates/actual/bridge/index.js:184-246 | In every interleaving the server's half is a run of the serving loop, and the pipe holds the unread end of what it has written |
| ProtocolServer.OpenMeansOpened | crates/actual/bridge/index.js:184-230 | In every interleaving the server counts its budget as open exactly when an open has succeeded |
| ProtocolServer.NothingAfterFatal | crates/actual/bridge/index.js:224-230 | In every interleaving nothing but a dying process's last word follows a fatal frame |
| ProtocolAnswers.RepliesAlwaysTold | crates/actual/bridge/index.js:162-370 | In every interleaving, every reply answers the served request of its own id with exactly what that request came to |
| ProtocolAnswers.DeliveredIsReturned | crates/actual/src/session.rs:301-319 | In every interleaving, a value delivered to a call is what the budget library returned when the server served that call's own request, after the sync for the three writes |
| ProtocolAnswers.FailedAsServed | crates/actual/src/session.rs:301-307 | While no caller has left anything on the pipe, an error delivered to a call is what its own request came to, or a failure of the whole process |
| ProtocolAnswers.NamedWriteIsRemote | crates/actual/bridge/index.js:316-335 | Whoever was told that adding or importing a transaction or ensuring a payee succeeded finds it on the remote, then and ever after |
| ProtocolLockstep.AlwaysInStep | crates/actual/src/session.rs:217-320 | While no caller has left anything on the pipe, at most one request is outstanding and it is in exactly one place |
| ProtocolLockstep.ErrorsAreOwn | crates/actual/src/session.rs:301-317 | Then no id mismatch ever happens, and every error delivered is the reply to that call or the last word of a process that died or could not load |
| ProtocolDepartures.GoesWrongExactly | crates/actual/src/session.rs:217-320 | From every run with nothing astray, an open session and a call in progress: its departure can lead, with nothing else left behind, to an error that is neither the failed call's own nor the process's, if and only if it leaves its written line or part of it behind and either the reply at the head of the pipe is such an error, or there is none and the bridge still serves |
| ProtocolDepartures.StepKeepsSafe | crates/actual/src/session.rs:217-320 | Every step keeps results own, and keeps a harmless reply ahead of an open session or the bridge out of service |
| ProtocolDepartures.StaysSafe | crates/actual/src/session.rs:217-320 | So does every continuation, even with more departures |
| ProtocolDepartures.InStepUnanswered | crates/actual/src/session.rs:217-320 | While nothing has strayed, a call waiting on a serving bridge with no answer on the pipe has its request on its way to an idle server or in the server's hands |
| ProtocolStrays.AbandonedErrorIsMisdelivered | crates/actual/src/session.rs:301-307 | From every run in which a call waits on an unanswered request of any kind: if its caller goes away, the next call, whatever it asks, can be failed with any error the server may give to that request, unseen by the server; the session stays open unless the error is fatal |
| ProtocolStrays.WaysToFail | crates/actual/bridge/index.js:162-182 | Such errors always exist: any refusal of a handler, a failed final sync of a close, and a timeout of any request |
| ProtocolStrays.AnsweredErrorIsMisdelivered | crates/actual/src/session.rs:301-307 | The same from every run in which an error, fatal or not, is already on the pipe |
| ProtocolStrays.UnfinishedLineIsMisdelivered | crates/actual/bridge/index.js:200-213 | A caller that goes away in the middle of its line: the next caller is told that its request was malformed, neither request gets a reply, and the session stays open |
| ProtocolStrays.StrayErrorIsMisdelivered | crates/actual/src/session.rs:301-307 | One such run: a listing of accounts fails with the refusal of an abandoned request for a balance |

## Left out

- Year arithmetic in 32 bits, the supported range of the date library, and the overflow of date
  additions: years and day numbers are unbounded.
- Wrap-around of the 64-bit request id.
- 64-bit overflow of sums of amounts and of interest, which panics or wraps like the parser's
  arithmetic: amounts outside `Money` are unbounded.
- Floating-point bits: proportions, rates, interest and canonical counts are exact reals, so
  statements within half a cent are about those.
- AnnualSalary.AnnualizedYear: its recurring schedules are those of AnnualizedWindow; schedules with
  patterns have their own bounds, AnnualizedPatterns and AnnualizedPatternsAbove.
- Salary.AnnualizedWindow: assumes an endless schedule without weekend shifts that started by
  January and a year within the period cap, because the canonical estimate ignores all four; the
  same holds of AnnualizedPatterns, AnnualizedNearActual and the yearly counts. A fifth weekday in
  some months only may be missing all year, so there the least number of dates is none.
- YearCounts.MonthlyYearCount: assumes an endless schedule without weekend shifts that started by
  January and a year within the period cap, because the canonical estimate ignores all four.
- Unicode lower-casing: a parameter of the budget summary, so its laws hold for any folding.
- Salary per occurrence, allocation totals and payee display in the summary: further plain sums.
- Parsing and printing of `YYYY-MM`, and the current month.
- Money parsing of malformed text: the parser is modelled with its inner signs and error cases.
  Results are stated for printed and well-formed text, and for blank text, a sign alone, a second
  point, too many digits after the point and text without a point that is no number.
- The budget library: its handlers, sync and shutdown return, fail or stall at will. Importing
  appends one transaction; its duplicate matching is not part of this model. Split transactions,
  merged and deleted payees are not either.
- Operation names that happen to be properties of every JavaScript object, which the bridge would
  find in its handler table.
- Request serialization errors after an id has been taken, and the wording of errors and reasons.
- Writing a frame to the pipe in several pieces; reads see whole lines or, after a crash, a broken one.
- The bridge's single-shot mode, process spawning, environment variables, npm installation, and
  the stderr tail.
- The lock file cannot be created or opened: only the tries on an open file are modelled. The
  lock's exclusion itself is the operating system's, a step of the machine.
- The daemon's clock and catch-up: ticks and restarts are any runs of any processes. Dry runs only
  read and are left out of the machine.
- The account note's rate, which only changes the note's text; the computation uses the configured
  rate, as the code does.
- Several data directories or machines writing to one server: the lock is per directory, and so is
  `InterestRuns`.
- HTTP routes, telemetry, tables, pickers, account and payee name matching, reconciliation.
