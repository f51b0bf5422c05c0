/** The month scaffold of the bottom-pages and referral trend reports:
    `pd.date_range(start=start_date, end=now, freq='M')`, one entry per
    month-end date between the two, used only for its (year, month). */
module MonthEnds {
  import opened Months

  datatype Date = Date(year: nat, month: nat, day: nat)

  predicate ValidMonth(m: Month) { 1 <= m.month <= 12 }

  predicate LeapYear(y: nat) { y % 4 == 0 && (y % 100 != 0 || y % 400 == 0) }

  function DaysInMonth(m: Month): (d: nat)
    requires ValidMonth(m)
    ensures 28 <= d <= 31
  {
    if m.month == 2 then (if LeapYear(m.year) then 29 else 28)
    else if m.month in {4, 6, 9, 11} then 30
    else 31
  }

  predicate ValidDate(d: Date) {
    ValidMonth(Month(d.year, d.month)) && 1 <= d.day <= DaysInMonth(Month(d.year, d.month))
  }

  /** Calendar order on dates. */
  predicate NotAfter(a: Date, b: Date) {
    a.year < b.year
    || (a.year == b.year && a.month < b.month)
    || (a.year == b.year && a.month == b.month && a.day <= b.day)
  }

  /** The last day of a month: the timestamp freq='M' produces for it. */
  function MonthEndDate(m: Month): Date
    requires ValidMonth(m)
  {
    Date(m.year, m.month, DaysInMonth(m))
  }

  function MonthOf(d: Date): Month { Month(d.year, d.month) }

  /** Months counted from year 0, so that consecutive months differ by one. */
  function Index(m: Month): int { m.year * 12 + m.month }

  function Next(m: Month): (n: Month)
    requires ValidMonth(m)
    ensures ValidMonth(n) && Index(n) == Index(m) + 1
  {
    if m.month == 12 then Month(m.year + 1, 1) else Month(m.year, m.month + 1)
  }

  /** The month-end dates from month cur through the month of end that are
      not after end. */
  function MonthsFrom(cur: Month, end: Date): (r: seq<Month>)
    requires ValidMonth(cur) && ValidDate(end)
    ensures forall m :: m in r <==> ValidMonth(m) && Index(cur) <= Index(m) && NotAfter(MonthEndDate(m), end)
    ensures |r| > 0 ==> r[0] == cur
    ensures forall i :: 0 <= i < |r| - 1 ==> r[i + 1] == Next(r[i])
    decreases Index(MonthOf(end)) - Index(cur)
  {
    if Index(cur) > Index(MonthOf(end)) then
      assert forall m :: ValidMonth(m) && Index(cur) <= Index(m) ==> !NotAfter(MonthEndDate(m), end);
      []
    else
      var rest := MonthsFrom(Next(cur), end);
      assert forall m :: ValidMonth(m) && Index(cur) <= Index(m) && m != cur ==> Index(Next(cur)) <= Index(m);
      if NotAfter(MonthEndDate(cur), end) then
        [cur] + rest
      else
        assert MonthOf(end) == cur;
        rest
  }

  /** The scaffold: every month whose last day lies between start and end,
      oldest first, one calendar month apart. */
  function Scaffold(start: Date, end: Date): (r: seq<Month>)
    requires ValidDate(start) && ValidDate(end)
    ensures forall m :: m in r <==>
      ValidMonth(m) && NotAfter(start, MonthEndDate(m)) && NotAfter(MonthEndDate(m), end)
    ensures forall i :: 0 <= i < |r| - 1 ==> r[i + 1] == Next(r[i])
  {
    var first := MonthOf(start);
    assert forall m :: ValidMonth(m) ==> (NotAfter(start, MonthEndDate(m)) <==> Index(first) <= Index(m));
    MonthsFrom(first, end)
  }

  /** First scaffold months of the three reports that build one. */
  const TopReferralsStart := Date(2023, 4, 1)
  const BottomPagesStart := Date(2023, 12, 1)
  const AllDomainsReferralsStart := Date(2020, 1, 1)

  /** Months one calendar month apart are strictly increasing. */
  lemma {:induction false} ChainIncreasing(r: seq<Month>)
    requires forall m :: m in r ==> ValidMonth(m)
    requires forall i :: 0 <= i < |r| - 1 ==> r[i + 1] == Next(r[i])
    ensures forall i, j :: 0 <= i < j < |r| ==> Index(r[i]) < Index(r[j])
  {
    if |r| > 1 {
      var n := |r| - 1;
      ChainIncreasing(r[..n]);
      assert forall i :: 0 <= i < n ==> Index(r[i]) <= Index(r[n - 1]) by {
        assert forall i :: 0 <= i < n ==> r[..n][i] == r[i];
      }
    }
  }

  /** The scaffold has no repeated month, so its labels key distinct rows. */
  lemma ScaffoldDistinct(start: Date, end: Date)
    requires ValidDate(start) && ValidDate(end)
    ensures var r := Scaffold(start, end); forall i, j :: 0 <= i < j < |r| ==> r[i] != r[j]
  {
    ChainIncreasing(Scaffold(start, end));
  }
}
