/** Calendar months as date ranges. */
module YearMonths {
  import opened Common
  import opened Calendar
  import opened Recurrence

  datatype YearMonthError = InvalidMonth(month: nat)

  datatype YearMonth = YearMonth(year: nat, month: nat) {
    predicate Valid() {
      1 <= month <= 12
    }

    static function New(year: nat, month: nat): (r: Result<YearMonth, YearMonthError>)
      ensures r.Ok? <==> 1 <= month <= 12
      ensures r.Ok? ==> r.value.Valid() && r.value.year == year && r.value.month == month
    {
      if 1 <= month <= 12 then Ok(YearMonth(year, month)) else Err(InvalidMonth(month))
    }

    function StartDate(): (date: int)
      requires Valid()
      ensures date == MonthStart(MonthIndex(year, month))
    {
      FromYmd(year, month, 1)
    }

    /** The day before the same day of the next month, which is the month's last day. */
    function EndDate(): (date: int)
      requires Valid()
      ensures date + 1 == MonthStart(MonthIndex(year, month) + 1)
    {
      hide MonthStart, MonthIndexOf;
      NextFirst(MonthIndex(year, month));
      AddMonths(StartDate(), 1) - 1
    }
  }

  /** The same day `months` months later, or that month's last day if it has no such day. */
  function AddMonths(date: int, months: nat): int {
    var month := MonthIndexOf(date) + months;
    ClampDay(month / 12, month % 12 + 1, DayOf(date))
  }

  lemma NextFirst(month: int)
    ensures MonthIndexOf(MonthStart(month)) == month
    ensures AddMonths(MonthStart(month), 1) == MonthStart(month + 1)
  {
    hide MonthStart, MonthIndexOf, ClampDay;
    MonthStartIncreases(month, month + 1);
    MonthIndexUnique(MonthStart(month), month);
    ClampFirst(month + 1);
  }

  /** A month's range holds exactly the days of that month. */
  lemma RangeIsMonth(ym: YearMonth, date: int)
    requires ym.Valid()
    ensures ym.StartDate() <= date <= ym.EndDate() <==> MonthIndexOf(date) == MonthIndex(ym.year, ym.month)
  {
    hide MonthStart, MonthIndexOf, YearMonth.StartDate, YearMonth.EndDate;
    if ym.StartDate() <= date <= ym.EndDate() {
      MonthIndexUnique(date, MonthIndex(ym.year, ym.month));
    }
  }

  /** The day after a month's end is the next month's start. */
  lemma MonthsAdjoin(ym: YearMonth)
    requires ym.Valid()
    ensures ym.month < 12 ==> YearMonth(ym.year, ym.month + 1).StartDate() == ym.EndDate() + 1
    ensures ym.month == 12 ==> YearMonth(ym.year + 1, 1).StartDate() == ym.EndDate() + 1
  {
    hide MonthStart, MonthIndexOf, YearMonth.StartDate, YearMonth.EndDate;
    assert ym.month == 12 ==> MonthIndex(ym.year + 1, 1) == MonthIndex(ym.year, 12) + 1;
  }

  /** The first months of a year and the next one are adjacent ranges. */
  lemma MonthEdges(year: nat, months: nat)
    requires 2 <= months <= 12
    ensures YearMonth(year, 1).StartDate() <= YearMonth(year, months - 1).EndDate() + 1
    ensures YearMonth(year, months - 1).EndDate() + 1 == YearMonth(year, months).StartDate() <= YearMonth(year, months).EndDate()
  {
    hide MonthStart, MonthIndexOf, YearMonth.StartDate, YearMonth.EndDate;
    MonthsAdjoin(YearMonth(year, months - 1));
    MonthStartIncreases(MonthIndex(year, 1), MonthIndex(year, months));
    MonthStartIncreases(MonthIndex(year, months), MonthIndex(year, months) + 1);
  }

  /** The occurrences of the first `months` months of a year, month by month. */
  ghost function MonthByMonth(timing: Timing, year: nat, months: nat): seq<int>
    requires months <= 12
  {
    if months == 0 then []
    else
      var ym := YearMonth(year, months);
      MonthByMonth(timing, year, months - 1) + Occurrences(timing, ym.StartDate(), ym.EndDate())
  }

  /** The months of a year tile it: expanding them one by one is expanding the year. */
  lemma {:induction false} MonthsTileYear(timing: Timing, year: nat, months: nat)
    requires 1 <= months <= 12
    ensures MonthByMonth(timing, year, months)
         == Occurrences(timing, YearMonth(year, 1).StartDate(), YearMonth(year, months).EndDate())
  {
    hide Occurrences, MonthStart, MonthIndexOf, FallsOn, YearMonth.StartDate, YearMonth.EndDate;
    if months > 1 {
      MonthsTileYear(timing, year, months - 1);
      MonthEdges(year, months);
      SplitRange(timing, YearMonth(year, 1).StartDate(), YearMonth(year, months - 1).EndDate(), YearMonth(year, months).EndDate());
    } else {
      assert MonthByMonth(timing, year, 0) == [];
    }
  }
}
