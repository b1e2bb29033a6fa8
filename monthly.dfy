/** The month-by-month statistics of getMonthlyAppointments and
    getMonthlyEvents: the rows of a year grouped by MONTH(date) and
    counted, then spread over twelve entries with 0 for months that have
    no group. */
module Monthly {
  import opened Base
  import opened Seqs

  /** One row of `SELECT MONTH(date), COUNT(*) ... GROUP BY MONTH(date)`. */
  datatype Group = Group(month: nat, count: nat)

  /** How many of the rows fall in month m. */
  function MonthTotal(months: seq<nat>, m: nat): nat {
    Count(months, (x: nat) => x == m)
  }

  function GroupsFrom(months: seq<nat>, m: nat): (r: seq<Group>)
    ensures forall g :: g in r ==>
      m <= g.month <= 12 && g.count == MonthTotal(months, g.month) && g.count > 0
    ensures forall k :: m <= k <= 12 && MonthTotal(months, k) > 0 ==>
      Group(k, MonthTotal(months, k)) in r
    decreases 13 - m
  {
    if m > 12 then []
    else
      (if MonthTotal(months, m) > 0 then [Group(m, MonthTotal(months, m))] else [])
      + GroupsFrom(months, m + 1)
  }

  /** The grouped query ordered by month: one group per month that has rows. */
  function GroupByMonth(months: seq<nat>): (r: seq<Group>)
    ensures forall g :: g in r ==>
      1 <= g.month <= 12 && g.count == MonthTotal(months, g.month) && g.count > 0
    ensures forall k :: 1 <= k <= 12 && MonthTotal(months, k) > 0 ==>
      Group(k, MonthTotal(months, k)) in r
  {
    GroupsFrom(months, 1)
  }

  /** `results.find(r => r.month === m)`. */
  function FindMonth(groups: seq<Group>, m: nat): (r: Option<Group>)
    ensures r.Some? ==> r.value in groups && r.value.month == m
    ensures r.None? ==> forall g :: g in groups ==> g.month != m
  {
    if groups == [] then None
    else if groups[0].month == m then Some(groups[0])
    else FindMonth(groups[1..], m)
  }

  /** `Array.from({ length: 12 }, ...)`: entry i is the count of the group
      for month i + 1, or 0 when there is none. */
  function ZeroFill(groups: seq<Group>): (r: seq<nat>)
    ensures |r| == 12
    ensures forall i :: 0 <= i < 12 && r[i] != 0 ==>
      exists g :: g in groups && g.month == i + 1 && g.count == r[i]
    ensures forall i :: 0 <= i < 12 && (forall g :: g in groups ==> g.month != i + 1) ==> r[i] == 0
  {
    seq(12, i requires 0 <= i < 12 =>
      match FindMonth(groups, i + 1)
      case Some(g) => g.count
      case None => 0)
  }

  function Sum(s: seq<nat>): nat {
    if s == [] then 0 else Sum(s[..|s| - 1]) + s[|s| - 1]
  }

  /** Entry i of the twelve is the number of rows in month i + 1. */
  lemma ZeroFillCountsEachMonth(months: seq<nat>)
    ensures forall i :: 0 <= i < 12 ==> ZeroFill(GroupByMonth(months))[i] == MonthTotal(months, i + 1)
  {
    var groups := GroupByMonth(months);
    forall i | 0 <= i < 12
      ensures ZeroFill(groups)[i] == MonthTotal(months, i + 1)
    {
      ZeroFillEntry(groups, months, i + 1);
    }
  }

  /** One entry of ZeroFill over groups that count the rows of their month
      and include every month that has rows. */
  lemma ZeroFillEntry(groups: seq<Group>, months: seq<nat>, m: nat)
    requires 1 <= m <= 12
    requires forall g :: g in groups ==> g.count == MonthTotal(months, g.month)
    requires MonthTotal(months, m) > 0 ==> Group(m, MonthTotal(months, m)) in groups
    ensures ZeroFill(groups)[m - 1] == MonthTotal(months, m)
  {
    match FindMonth(groups, m)
    case Some(g) =>
      assert ZeroFill(groups)[m - 1] == g.count;
    case None =>
      assert ZeroFill(groups)[m - 1] == 0;
      assert Group(m, MonthTotal(months, m)) !in groups;
  }

  /** Counts per month, month 1 first. */
  function Totals(months: seq<nat>, n: nat): (r: seq<nat>)
    ensures |r| == n
    ensures forall i :: 0 <= i < n ==> r[i] == MonthTotal(months, i + 1)
  {
    seq(n, i requires 0 <= i < n => MonthTotal(months, i + 1))
  }

  /** How many of the rows fall in months 1..n. */
  function InFirstMonths(months: seq<nat>, n: nat): nat {
    Count(months, (x: nat) => 1 <= x <= n)
  }

  lemma {:induction false} CountSplit(months: seq<nat>, n: nat)
    requires n >= 1
    ensures InFirstMonths(months, n) == InFirstMonths(months, n - 1) + MonthTotal(months, n)
  {
    if months != [] {
      CountSplit(months[1..], n);
    }
  }

  /** The first n totals add up to the rows in months 1..n. */
  lemma {:induction false} SumTotals(months: seq<nat>, n: nat)
    ensures Sum(Totals(months, n)) == InFirstMonths(months, n)
  {
    if n > 0 {
      assert Totals(months, n)[..n - 1] == Totals(months, n - 1);
      SumTotals(months, n - 1);
      CountSplit(months, n);
    } else {
      assert Count(months, (x: nat) => 1 <= x <= 0) == 0 by {
        CountNone(months, (x: nat) => 1 <= x <= 0);
      }
    }
  }

  /** The twelve entries always add up to the rows grouped, which are all
      the rows when every month is a calendar month. */
  lemma ZeroFillSum(months: seq<nat>)
    ensures |ZeroFill(GroupByMonth(months))| == 12
    ensures Sum(ZeroFill(GroupByMonth(months))) == InFirstMonths(months, 12)
    ensures (forall m :: m in months ==> 1 <= m <= 12) ==>
      Sum(ZeroFill(GroupByMonth(months))) == |months|
  {
    ZeroFillCountsEachMonth(months);
    assert ZeroFill(GroupByMonth(months)) == Totals(months, 12);
    SumTotals(months, 12);
    if forall m :: m in months ==> 1 <= m <= 12 {
      WhereAll(months, (x: nat) => 1 <= x <= 12);
    }
  }

  /** The DATEONLY column of each row, in table order. */
  function DatesOf<T>(rows: seq<T>, date: T -> Date): (r: seq<Date>)
    ensures |r| == |rows|
    ensures forall k :: 0 <= k < |rows| ==> r[k] == date(rows[k])
  {
    seq(|rows|, k requires 0 <= k < |rows| => date(rows[k]))
  }

  /** The rows dated in month m of year y. */
  function InMonth(dates: seq<Date>, y: nat, m: nat): nat {
    |Where(dates, (d: Date) => d.year == y && d.month == m)|
  }

  /** The reply of the monthly handlers: 400 without a year, else the
      year's rows counted per month. */
  function MonthlyReply(dates: seq<Date>, year: Option<nat>): (r: Option<seq<nat>>)
    ensures year.None? <==> r.None?
    ensures year.Some? ==>
      && |r.value| == 12
      && forall i :: 0 <= i < 12 ==>
           r.value[i] == InMonth(dates, year.value, i + 1)
  {
    match year
    case None => None
    case Some(y) =>
      YearCounts(dates, y);
      Some(ZeroFill(GroupByMonth(YearMonths(dates, y))))
  }

  /** MONTH(date) of the rows dated in year y. */
  function YearMonths(dates: seq<Date>, y: nat): seq<nat> {
    MonthsOf(Where(dates, (d: Date) => d.year == y))
  }

  /** Grouping a year's months and spreading them over twelve entries
      counts, in entry i, the rows dated in month i + 1 of that year. */
  lemma YearCounts(dates: seq<Date>, y: nat)
    ensures forall i :: 0 <= i < 12 ==>
      ZeroFill(GroupByMonth(YearMonths(dates, y)))[i] == InMonth(dates, y, i + 1)
  {
    var months := YearMonths(dates, y);
    ZeroFillCountsEachMonth(months);
    forall i | 0 <= i < 12
      ensures ZeroFill(GroupByMonth(months))[i] == InMonth(dates, y, i + 1)
    {
      MonthOfYear(dates, y, i + 1);
    }
  }

  /** MONTH(date) of each row. */
  function MonthsOf(dates: seq<Date>): (r: seq<nat>)
    ensures |r| == |dates|
    ensures forall k :: 0 <= k < |dates| ==> r[k] == dates[k].month
  {
    seq(|dates|, k requires 0 <= k < |dates| => dates[k].month)
  }

  lemma {:induction false} MonthOfYear(dates: seq<Date>, y: nat, m: nat)
    ensures MonthTotal(YearMonths(dates, y), m) == InMonth(dates, y, m)
  {
    if dates != [] {
      MonthOfYear(dates[1..], y, m);
      var inYear := Where(dates, (d: Date) => d.year == y);
      var rest := Where(dates[1..], (d: Date) => d.year == y);
      assert InMonth(dates, y, m) == (if dates[0].year == y && dates[0].month == m then 1 else 0)
                                     + InMonth(dates[1..], y, m);
      if dates[0].year == y {
        var months := MonthsOf(inYear);
        assert inYear == [dates[0]] + rest;
        assert months[0] == dates[0].month && months[1..] == MonthsOf(rest);
        assert MonthTotal(months, m) == (if dates[0].month == m then 1 else 0) + MonthTotal(months[1..], m);
      } else {
        assert inYear == rest;
      }
    }
  }
}
