/**
 * The figures the finance panel (frontend/components/finance.tsx) derives
 * from the financial overview: the revenue bar per division, the colour of
 * each market-share slice and the width of each profit-margin bar. Currency
 * formatting and chart layout are not modelled.
 */
module FinanceView {
  import opened Aggregate
  import opened Schema
  import opened Tables
  import opened Ordering
  import FinancialReport

  /** A bar of the "Revenue by Division" chart. */
  datatype RevenueBar = RevenueBar(division: string, revenue: real)

  function BarRevenue(b: RevenueBar): real { b.revenue }

  /** Each division's trend reduced to the sum of its points, in the trends' order. */
  function RevenueData(o: FinancialOverview): (bars: seq<RevenueBar>)
    ensures |bars| == |o.revenueTrends|
    ensures forall i :: 0 <= i < |bars| ==>
      bars[i].division == o.revenueTrends[i].division && bars[i].revenue == Sum(o.revenueTrends[i].data, FinancialReport.PointValue)
  {
    seq(|o.revenueTrends|, i requires 0 <= i < |o.revenueTrends| =>
      RevenueBar(o.revenueTrends[i].division, FinancialReport.TrendTotal(o.revenueTrends[i])))
  }

  /** A point of the "R&D Investment Trends" chart. */
  datatype RdBar = RdBar(period: Period, investment: real)

  function BarInvestment(b: RdBar): real { b.investment }

  function BarPeriod(b: RdBar): Period { b.period }

  /** A field-for-field copy of the R&D investment trends. */
  function RdTrendData(o: FinancialOverview): (bars: seq<RdBar>)
    ensures |bars| == |o.rdInvestmentTrends|
    ensures forall i :: 0 <= i < |bars| ==>
      bars[i].period == o.rdInvestmentTrends[i].period && bars[i].investment == o.rdInvestmentTrends[i].investment
  {
    seq(|o.rdInvestmentTrends|, i requires 0 <= i < |o.rdInvestmentTrends| =>
      RdBar(o.rdInvestmentTrends[i].period, o.rdInvestmentTrends[i].investment))
  }

  /** The pie chart's palette. */
  const Colors: seq<string> := ["#3B82F6", "#10B981", "#F59E0B", "#EF4444", "#8B5CF6", "#06B6D4"]

  /** `COLORS[index % COLORS.length]` */
  function CellColor(index: nat): (c: string)
    ensures c in Colors
  {
    Colors[index % |Colors|]
  }

  /** The colour of every market-share slice, in slice order. */
  function SliceColors(o: FinancialOverview): (cs: seq<string>)
    ensures |cs| == |o.marketShare|
    ensures forall i :: 0 <= i < |cs| ==> cs[i] in Colors
  {
    seq(|o.marketShare|, i requires 0 <= i < |o.marketShare| => CellColor(i))
  }

  /** Slice `i` gets `CellColor(i)`, so slices six apart share a colour and nearer ones differ. */
  lemma SliceColorAt(o: FinancialOverview, i: nat, j: nat)
    requires i < |o.marketShare| && j < |o.marketShare|
    ensures SliceColors(o)[i] == CellColor(i)
    ensures i % 6 == j % 6 <==> SliceColors(o)[i] == SliceColors(o)[j]
  {
    CellColorsCycle(i, j);
  }

  /** `Math.min(margin, 100)`: a margin bar never overflows its track. */
  function MarginBarWidth(margin: real): (w: real)
    ensures w <= 100.0
    ensures w == margin <==> margin <= 100.0
  {
    if margin <= 100.0 then margin else 100.0
  }

  // ---------------------------------------------------------------------------

  /** Each division's bar is that division's revenue in the financial table. */
  lemma RevenueBarIsDivisionRevenue(fin: seq<FinancialRow>, i: nat)
    requires i < |FinancialReport.RevenueTrends(fin)|
    ensures var bar := RevenueData(FinancialReport.FinancialOverviewOf(fin))[i];
      bar.revenue == Sum(Select(fin, FinDivision, bar.division), FinRevenue)
  {
    var ks := SortedKeys(fin, FinDivision, StringBefore);
    assert ks[i] in Keys(fin, FinDivision);
    var group := Select(fin, FinDivision, ks[i]);
    var wrap := Nested(FinPeriod, PeriodBefore, FinancialReport.RevenuePoint, FinancialReport.DivisionTrendOf);
    assert FinancialReport.RevenueTrends(fin) == ForEach(fin, FinDivision, ks, wrap);
    assert FinancialReport.RevenueTrends(fin)[i] == wrap(ks[i], group);
    ForEachSum(group, FinPeriod, SortedKeys(group, FinPeriod, PeriodBefore), FinancialReport.RevenuePoint, FinancialReport.PointValue, FinRevenue);
  }

  /** The bars together show the table's whole revenue. */
  lemma RevenueDataIsTableTotal(fin: seq<FinancialRow>)
    ensures Sum(RevenueData(FinancialReport.FinancialOverviewOf(fin)), BarRevenue) == Sum(fin, FinRevenue)
  {
    var trends := FinancialReport.RevenueTrends(fin);
    BarsSumTrends(trends);
    FinancialReport.RevenueTrendsTotal(fin);
  }

  lemma {:induction false} BarsSumTrends(trends: seq<DivisionTrend>)
    ensures Sum(RevenueData(FinancialOverview(trends, [], [], [])), BarRevenue) == Sum(trends, FinancialReport.TrendTotal)
  {
    if trends != [] {
      var init := trends[..|trends| - 1];
      BarsSumTrends(init);
      var bars := RevenueData(FinancialOverview(trends, [], [], []));
      assert bars[..|bars| - 1] == RevenueData(FinancialOverview(init, [], [], []));
    }
  }

  /**
   * The R&D chart has one point per period of the financial table, the
   * periods in strictly increasing order, and its points add up to the
   * table's whole R&D investment.
   */
  lemma RdTrendDataIsTableTotal(fin: seq<FinancialRow>)
    ensures ListsKeys(fin, FinPeriod, Keys(RdTrendData(FinancialReport.FinancialOverviewOf(fin)), BarPeriod))
    ensures Increasing(Keys(RdTrendData(FinancialReport.FinancialOverviewOf(fin)), BarPeriod), PeriodBefore)
    ensures Sum(RdTrendData(FinancialReport.FinancialOverviewOf(fin)), BarInvestment) == Sum(fin, FinRdInvestment)
  {
    FinancialReport.RdInvestmentTrendsPartition(fin);
    var trends := FinancialReport.RdInvestmentTrends(fin);
    var bars := RdTrendData(FinancialOverview([], [], trends, []));
    assert RdTrendData(FinancialReport.FinancialOverviewOf(fin)) == bars;
    RdBarsCopyTrends(trends);
    RdBarPeriods(trends);
  }

  /** The chart's periods are those of the trends, position by position. */
  lemma RdBarPeriods(trends: seq<RdInvestmentTrend>)
    ensures Keys(RdTrendData(FinancialOverview([], [], trends, [])), BarPeriod) == Keys(trends, FinancialReport.RdPeriod)
  {
    var bars := RdTrendData(FinancialOverview([], [], trends, []));
    var a, b := Keys(bars, BarPeriod), Keys(trends, FinancialReport.RdPeriod);
    assert |a| == |bars| == |trends| == |b|;
    forall i | 0 <= i < |a| ensures a[i] == b[i] {
      assert a[i] == bars[i].period == trends[i].period == b[i];
    }
  }

  lemma {:induction false} RdBarsCopyTrends(trends: seq<RdInvestmentTrend>)
    ensures Sum(RdTrendData(FinancialOverview([], [], trends, [])), BarInvestment) == Sum(trends, FinancialReport.RdInvestment)
  {
    if trends != [] {
      var init := trends[..|trends| - 1];
      RdBarsCopyTrends(init);
      var bars := RdTrendData(FinancialOverview([], [], trends, []));
      assert bars[..|bars| - 1] == RdTrendData(FinancialOverview([], [], init, []));
    }
  }

  /** Slices whose positions differ by less than six never share a colour; the palette repeats every six. */
  lemma CellColorsCycle(i: nat, j: nat)
    ensures CellColor(i + |Colors|) == CellColor(i)
    ensures i % |Colors| != j % |Colors| ==> CellColor(i) != CellColor(j)
  {
    assert (i + |Colors|) % |Colors| == i % |Colors|;
  }

  /** When no row of a division has a net profit above its revenue, that division's margin bar is not clipped. */
  lemma MarginBarNotClipped(fin: seq<FinancialRow>, i: nat)
    requires i < |FinancialReport.ProfitMargins(fin)|
    requires forall r :: r in fin ==> r.netProfit <= r.revenue
    ensures var m := FinancialReport.ProfitMargins(fin)[i]; MarginBarWidth(m.margin) == m.margin
  {
    var ks := Distinct(Keys(fin, FinDivision));
    assert ks[i] in Keys(fin, FinDivision);
    var group := Select(fin, FinDivision, ks[i]);
    assert FinancialReport.ProfitMargins(fin)[i] == FinancialReport.MarginEntry(ks[i], group);
    forall x | x in group ensures FinNetProfit(x) <= FinRevenue(x) {
      assert x in fin;
    }
    SumMonotone(group, FinNetProfit, FinRevenue);
  }
}
