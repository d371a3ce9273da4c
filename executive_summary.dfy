/**
 * `DataProcessor.get_executive_summary`: scalar KPIs computed from the
 * financial, security, R&D and HR tables by filters, sums, means and guarded
 * ratios. Rounding to one decimal is not modelled.
 */
module ExecutiveSummaryReport {
  import opened Wrappers
  import opened Numbers
  import opened Aggregate
  import opened Schema
  import opened Tables
  import opened Ordering

  const ReportYear := 2024
  const BaseYear := 2023
  const FourthQuarter := "Q4"
  /** 2024-06-01: security and HR rows from this date on are the recent period. */
  const RecentSince: Date := 20240601

  predicate InReportYear(r: FinancialRow) { r.year == ReportYear }

  /** `last()` of one group, for a column without missing values. */
  function LastRow(quarter: string, group: seq<FinancialRow>): FinancialRow
    requires |group| > 0
  {
    group[|group| - 1]
  }

  /** The 2024 rows grouped by quarter, quarters in ascending order, keeping the last row of each. */
  function LatestQuarters(fin: seq<FinancialRow>): seq<FinancialRow> {
    GroupBy(Where(fin, InReportYear), FinQuarter, StringBefore, LastRow)
  }

  function TotalRevenue(fin: seq<FinancialRow>): real { Sum(LatestQuarters(fin), FinRevenue) }

  function TotalProfit(fin: seq<FinancialRow>): real { Sum(LatestQuarters(fin), FinNetProfit) }

  /** Profit margin over the latest quarters, 0 when their revenue is not positive. */
  function ProfitMargin(fin: seq<FinancialRow>): (r: real)
    ensures TotalRevenue(fin) > 0.0 ==> r * TotalRevenue(fin) == TotalProfit(fin) * 100.0
    ensures TotalRevenue(fin) <= 0.0 ==> r == 0.0
  {
    GuardedPercent(TotalProfit(fin), TotalRevenue(fin))
  }

  /** The revenue of every row of the given year's fourth quarter. */
  function FourthQuarterRevenue(fin: seq<FinancialRow>, year: int): real {
    Sum(Select(fin, FinPeriod, Period(year, FourthQuarter)), FinRevenue)
  }

  /** Growth of Q4 2024 revenue over Q4 2023, 0 when the 2023 base is not positive. */
  function RevenueGrowth(fin: seq<FinancialRow>): (r: real)
    ensures var base := FourthQuarterRevenue(fin, BaseYear);
      && (base > 0.0 ==> r * base == (FourthQuarterRevenue(fin, ReportYear) - base) * 100.0)
      && (base <= 0.0 ==> r == 0.0)
  {
    var current := FourthQuarterRevenue(fin, ReportYear);
    var base := FourthQuarterRevenue(fin, BaseYear);
    GuardedPercent(current - base, base)
  }

  predicate IsRecentSecurity(r: SecurityRow) { r.date >= RecentSince }

  function AvgResponseTime(sec: seq<SecurityRow>): Number {
    Mean(Where(sec, IsRecentSecurity), SecResponseTime)
  }

  function SecurityIncidents(sec: seq<SecurityRow>): int {
    SumInt(Where(sec, IsRecentSecurity), SecIncidents)
  }

  const ActiveStatus := "Active"
  const HighPotentials := ["High", "Very High"]

  /** The number of projects whose status is "Active". */
  function ActiveProjects(rd: seq<RdRow>): (n: nat)
    ensures n <= |rd|
  {
    |Select(rd, RdStatusOf, ActiveStatus)|
  }

  /** The number of projects whose commercialization potential is "High" or "Very High". */
  function HighPotentialProjects(rd: seq<RdRow>): (n: nat)
    ensures n <= |rd|
  {
    |SelectIn(rd, RdPotential, HighPotentials)|
  }

  predicate IsRecentHr(r: HrRow) { r.date >= RecentSince }

  function AvgRetention(hr: seq<HrRow>): Number { Mean(Where(hr, IsRecentHr), HrRetention) }

  function AvgSatisfaction(hr: seq<HrRow>): Number { Mean(Where(hr, IsRecentHr), HrSatisfaction) }

  /**
   * The head count as the code computes it: the emptiness guard looks at the
   * whole financial table, but the index `iloc[-1]` is taken on its 2024 rows.
   */
  function TotalEmployeesAsWritten(fin: seq<FinancialRow>): Result<int> {
    if |fin| == 0 then Ok(0)
    else
      var current := Where(fin, InReportYear);
      if |current| == 0 then Raised("IndexError: single positional indexer is out-of-bounds")
      else Ok(current[|current| - 1].employeeCount)
  }

  /** The head count with the guard on the rows it indexes: the last 2024 row's count, or 0. */
  function TotalEmployees(fin: seq<FinancialRow>): int {
    var current := Where(fin, InReportYear);
    if |current| == 0 then 0 else current[|current| - 1].employeeCount
  }

  function ExecutiveSummaryOf(fin: seq<FinancialRow>, sec: seq<SecurityRow>, rd: seq<RdRow>, hr: seq<HrRow>): (s: ExecutiveSummary)
    ensures 0 <= s.activeProjects <= |rd| && 0 <= s.highPotentialProjects <= |rd|
    ensures TotalRevenue(fin) <= 0.0 ==> s.profitMargin == 0.0
    ensures s.avgResponseTime == NaN <==> Where(sec, IsRecentSecurity) == []
    ensures s.employeeRetention == NaN <==> Where(hr, IsRecentHr) == []
  {
    ExecutiveSummary(
      totalRevenue := TotalRevenue(fin),
      revenueGrowth := RevenueGrowth(fin),
      profitMargin := ProfitMargin(fin),
      totalEmployees := TotalEmployees(fin),
      activeProjects := ActiveProjects(rd),
      highPotentialProjects := HighPotentialProjects(rd),
      avgResponseTime := AvgResponseTime(sec),
      securityIncidents := SecurityIncidents(sec),
      employeeRetention := AvgRetention(hr),
      employeeSatisfaction := AvgSatisfaction(hr))
  }

  // ---------------------------------------------------------------------------

  /**
   * `latest_quarter` holds one row per quarter that has 2024 rows, quarters
   * in ascending order, and each of its rows is a 2024 row of the table.
   */
  lemma LatestQuartersSorted(fin: seq<FinancialRow>)
    ensures var quarters := Keys(LatestQuarters(fin), FinQuarter);
      && ListsKeys(Where(fin, InReportYear), FinQuarter, quarters)
      && Increasing(quarters, StringBefore)
    ensures forall i :: 0 <= i < |LatestQuarters(fin)| ==>
      LatestQuarters(fin)[i].year == ReportYear && LatestQuarters(fin)[i] in fin
  {
    var current := Where(fin, InReportYear);
    LatestQuarterKeys(fin);
    StringOrder();
    SortedKeysIncreasing(current, FinQuarter, StringBefore);
    forall i | 0 <= i < |LatestQuarters(fin)| ensures LatestQuarters(fin)[i].year == ReportYear && LatestQuarters(fin)[i] in fin {
      assert LatestQuarters(fin)[i] in current;
    }
  }

  /** The quarters of `latest_quarter` are the sorted quarters of the 2024 rows, and its rows are 2024 rows. */
  lemma LatestQuarterKeys(fin: seq<FinancialRow>)
    ensures Keys(LatestQuarters(fin), FinQuarter) == SortedKeys(Where(fin, InReportYear), FinQuarter, StringBefore)
    ensures forall i :: 0 <= i < |LatestQuarters(fin)| ==> LatestQuarters(fin)[i] in Where(fin, InReportYear)
  {
    var current := Where(fin, InReportYear);
    var ks := SortedKeys(current, FinQuarter, StringBefore);
    assert LatestQuarters(fin) == ForEach(current, FinQuarter, ks, LastRow);
    ForEachLastKeys(current, FinQuarter, ks, LastRow);
  }

  /** Each row of `latest_quarter` is the last 2024 row of its quarter. */
  lemma LatestQuarterIsLastRow(fin: seq<FinancialRow>, i: nat) returns (n: nat)
    requires i < |LatestQuarters(fin)|
    ensures LastOfKey(Where(fin, InReportYear), FinQuarter, LatestQuarters(fin)[i].quarter, n)
    ensures LatestQuarters(fin)[i] == Where(fin, InReportYear)[n]
  {
    var current := Where(fin, InReportYear);
    var ks := SortedKeys(current, FinQuarter, StringBefore);
    assert LatestQuarters(fin) == ForEach(current, FinQuarter, ks, LastRow);
    ForEachLastKeys(current, FinQuarter, ks, LastRow);
    n := ForEachLast(current, FinQuarter, ks, LastRow, i);
  }

  /** Security rows dated before 2024-06-01 change neither the incident sum nor the mean response time. */
  lemma EarlierSecurityRowsIgnored(a: seq<SecurityRow>, r: SecurityRow, b: seq<SecurityRow>)
    requires r.date < RecentSince
    ensures SecurityIncidents(a + [r] + b) == SecurityIncidents(a + b)
    ensures AvgResponseTime(a + [r] + b) == AvgResponseTime(a + b)
  {
    WhereSkips(a, r, b, IsRecentSecurity);
  }

  /** HR rows dated before 2024-06-01 change neither mean. */
  lemma EarlierHrRowsIgnored(a: seq<HrRow>, r: HrRow, b: seq<HrRow>)
    requires r.date < RecentSince
    ensures AvgRetention(a + [r] + b) == AvgRetention(a + b)
    ensures AvgSatisfaction(a + [r] + b) == AvgSatisfaction(a + b)
  {
    WhereSkips(a, r, b, IsRecentHr);
  }

  /** The high-potential count is the number of "High" rows plus the number of "Very High" rows. */
  lemma HighPotentialIsTwoCounts(rd: seq<RdRow>)
    ensures HighPotentialProjects(rd) == |Select(rd, RdPotential, "High")| + |Select(rd, RdPotential, "Very High")|
  {
    assert [] + ["High"] == ["High"];
    assert ["High"] + ["Very High"] == HighPotentials;
    SplitSumInt(rd, RdPotential, One, [], "High");
    SplitSumInt(rd, RdPotential, One, ["High"], "Very High");
    SelectInNone(rd, RdPotential);
    SumIntOne(SelectIn(rd, RdPotential, ["High"]));
    SumIntOne(SelectIn(rd, RdPotential, HighPotentials));
    SumIntOne(Select(rd, RdPotential, "High"));
    SumIntOne(Select(rd, RdPotential, "Very High"));
  }

  /** A financial table with rows but none from 2024 makes the code as written raise. */
  lemma TotalEmployeesAsWrittenRaises()
    ensures TotalEmployeesAsWritten([FinancialRow("Wayne Aerospace", 2023, "Q4", 10.0, 1.0, 2.0, Some(5.0), 1200)]).Raised?
  {
    var row := FinancialRow("Wayne Aerospace", 2023, "Q4", 10.0, 1.0, 2.0, Some(5.0), 1200);
    assert [row][..0] == [];
  }

  /** The corrected head count never raises and agrees with the code wherever the code does not raise. */
  lemma TotalEmployeesAgrees(fin: seq<FinancialRow>)
    ensures TotalEmployeesAsWritten(fin).Ok? ==> TotalEmployeesAsWritten(fin).value == TotalEmployees(fin)
    ensures TotalEmployeesAsWritten(fin).Raised? <==> |fin| > 0 && Where(fin, InReportYear) == []
  {
    if |fin| == 0 {
      assert Where(fin, InReportYear) == [];
    }
  }

  /** The corrected head count against the table: 0 without 2024 rows, otherwise the count of the table's last 2024 row. */
  lemma TotalEmployeesOfTable(fin: seq<FinancialRow>)
    ensures (forall r :: r in fin ==> r.year != ReportYear) ==> TotalEmployees(fin) == 0
    ensures forall n: nat ::
              n < |fin| && fin[n].year == ReportYear && (forall m :: n < m < |fin| ==> fin[m].year != ReportYear)
              ==> TotalEmployees(fin) == fin[n].employeeCount
  {
    var current := Where(fin, InReportYear);
    EmptyOrHasFirst(current);
    forall n: nat | n < |fin| && fin[n].year == ReportYear && (forall m :: n < m < |fin| ==> fin[m].year != ReportYear)
      ensures TotalEmployees(fin) == fin[n].employeeCount
    {
      WhereLast(fin, InReportYear, n);
    }
  }
}
