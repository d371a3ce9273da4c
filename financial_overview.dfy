/**
 * `DataProcessor.get_financial_overview`: revenue per division and period,
 * profit margin per division, R&D investment per period, and the latest
 * market share per division.
 */
module FinancialReport {
  import opened Wrappers
  import opened Ordering
  import opened Aggregate
  import opened Schema
  import opened Tables

  /** One point of a division's revenue trend: the revenue of its rows in one period. */
  function RevenuePoint(period: Period, group: seq<FinancialRow>): TrendPoint {
    TrendPoint(period, Sum(group, FinRevenue))
  }

  function DivisionTrendOf(division: string, points: seq<TrendPoint>): DivisionTrend {
    DivisionTrend(division, points)
  }

  function PointValue(p: TrendPoint): real { p.value }

  function PointPeriod(p: TrendPoint): Period { p.period }

  function TrendTotal(t: DivisionTrend): real { Sum(t.data, PointValue) }

  function TrendDivision(t: DivisionTrend): string { t.division }

  /**
   * Revenue summed per division, year and quarter, then one trend per
   * division. The three-column grouping sorts its result, so the divisions come
   * in string order and each division's periods by year, then quarter.
   */
  function RevenueTrends(fin: seq<FinancialRow>): seq<DivisionTrend> {
    GroupBy(fin, FinDivision, StringBefore, Nested(FinPeriod, PeriodBefore, RevenuePoint, DivisionTrendOf))
  }

  /** The margin of one division: its net profit over its revenue, 0 when that revenue is not positive. */
  function MarginEntry(division: string, group: seq<FinancialRow>): (m: ProfitMargin)
    ensures m.division == division
    ensures GuardedMarginOf(m, group)
  {
    ProfitMargin(division, GuardedPercent(Sum(group, FinNetProfit), Sum(group, FinRevenue)))
  }

  function MarginDivision(m: ProfitMargin): string { m.division }

  function ProfitMargins(fin: seq<FinancialRow>): seq<ProfitMargin> {
    ForEachKey(fin, FinDivision, MarginEntry)
  }

  function RdPoint(period: Period, group: seq<FinancialRow>): RdInvestmentTrend {
    RdInvestmentTrend(period, Sum(group, FinRdInvestment))
  }

  function RdInvestment(t: RdInvestmentTrend): real { t.investment }

  function RdPeriod(t: RdInvestmentTrend): Period { t.period }

  /** R&D investment summed per year and quarter, the periods in sorted order. */
  function RdInvestmentTrends(fin: seq<FinancialRow>): seq<RdInvestmentTrend> {
    GroupBy(fin, FinPeriod, PeriodBefore, RdPoint)
  }

  /** The share column's `last()` over a group: the last share present, missing when none is. */
  function LastPresent(group: seq<FinancialRow>): (r: Option<real>)
    ensures r.Some? <==> exists i :: 0 <= i < |group| && group[i].marketShare.Some?
    ensures r.Some? ==> exists i :: 0 <= i < |group| && group[i].marketShare == r && NoneAfter(group, i)
  {
    if group == [] then None
    else if group[|group| - 1].marketShare.Some? then group[|group| - 1].marketShare
    else
      var r := LastPresent(group[..|group| - 1]);
      assert forall i :: 0 <= i < |group| - 1 ==> group[..|group| - 1][i] == group[i];
      r
  }

  /** No row after position `i` of the group has a share. */
  predicate NoneAfter(group: seq<FinancialRow>, i: nat) {
    forall j :: i < j < |group| ==> group[j].marketShare.None?
  }

  function ShareEntry(division: string, group: seq<FinancialRow>): (string, Option<real>) {
    (division, LastPresent(group))
  }

  /** `if pd.notna(share)`: the divisions whose latest share is present, with that share. */
  function KeepPresent(latest: seq<(string, Option<real>)>): (r: seq<MarketShareData>)
    ensures |r| <= |latest|
    ensures forall m :: m in r <==> (m.division, Some(m.share)) in latest
  {
    if latest == [] then []
    else
      var init := KeepPresent(latest[..|latest| - 1]);
      var last := latest[|latest| - 1];
      assert latest == latest[..|latest| - 1] + [last];
      if last.1.Some? then init + [MarketShareData(last.0, last.1.value)] else init
  }

  /** The latest present share of each division, the divisions in sorted order. */
  function MarketShare(fin: seq<FinancialRow>): seq<MarketShareData> {
    KeepPresent(LatestShares(fin))
  }

  /** `groupby('Division')` then the share column's `last()`: one entry per division, in sorted order. */
  function LatestShares(fin: seq<FinancialRow>): seq<(string, Option<real>)> {
    GroupBy(fin, FinDivision, StringBefore, ShareEntry)
  }

  function LatestDivision(e: (string, Option<real>)): string { e.0 }

  function ShareDivision(m: MarketShareData): string { m.division }

  function FinancialOverviewOf(fin: seq<FinancialRow>): FinancialOverview {
    FinancialOverview(RevenueTrends(fin), ProfitMargins(fin), RdInvestmentTrends(fin), MarketShare(fin))
  }

  /** The loop over the latest shares that appends only the present ones. */
  method CollectPresentShares(latest: seq<(string, Option<real>)>) returns (out: seq<MarketShareData>)
    ensures out == KeepPresent(latest)
  {
    out := [];
    for i := 0 to |latest|
      invariant out == KeepPresent(latest[..i])
    {
      assert latest[..i + 1][..i] == latest[..i];
      var (division, share) := latest[i];
      if share.Some? {
        out := out + [MarketShareData(division, share.value)];
      }
    }
    assert latest[..|latest|] == latest;
  }

  method GetFinancialOverview(fin: seq<FinancialRow>) returns (r: FinancialOverview)
    ensures r == FinancialOverviewOf(fin)
  {
    var revenueTrends := CollectNested(fin, FinDivision, SortedKeys(fin, FinDivision, StringBefore),
                                       FinPeriod, PeriodBefore, RevenuePoint, DivisionTrendOf);
    var profitMargins := CollectPerKey(fin, FinDivision, Distinct(Keys(fin, FinDivision)), MarginEntry);
    var rdTrends := CollectGroups(fin, FinPeriod, PeriodBefore, RdPoint);
    var latest := CollectGroups(fin, FinDivision, StringBefore, ShareEntry);
    var marketShare := CollectPresentShares(latest);
    r := FinancialOverview(revenueTrends, profitMargins, rdTrends, marketShare);
  }

  // ---------------------------------------------------------------------------

  /** The revenue trends split the table's revenue: all their points together add up to it. */
  lemma RevenueTrendsTotal(fin: seq<FinancialRow>)
    ensures Sum(RevenueTrends(fin), TrendTotal) == Sum(fin, FinRevenue)
  {
    var wrap := Nested(FinPeriod, PeriodBefore, RevenuePoint, DivisionTrendOf);
    forall k, g | |g| > 0 ensures TrendTotal(wrap(k, g)) == Sum(g, FinRevenue) {
      ForEachSum(g, FinPeriod, SortedKeys(g, FinPeriod, PeriodBefore), RevenuePoint, PointValue, FinRevenue);
    }
    ForEachSum(fin, FinDivision, SortedKeys(fin, FinDivision, StringBefore), wrap, TrendTotal, FinRevenue);
  }

  /** One revenue trend per division of the table, the divisions in strictly increasing string order. */
  lemma RevenueTrendsSorted(fin: seq<FinancialRow>)
    ensures ListsKeys(fin, FinDivision, Keys(RevenueTrends(fin), TrendDivision))
    ensures Increasing(Keys(RevenueTrends(fin), TrendDivision), StringBefore)
  {
    ForEachLabels(fin, FinDivision, SortedKeys(fin, FinDivision, StringBefore),
                  Nested(FinPeriod, PeriodBefore, RevenuePoint, DivisionTrendOf), TrendDivision);
    StringOrder();
    SortedKeysIncreasing(fin, FinDivision, StringBefore);
  }

  /**
   * Trend `i` belongs to the `i`-th division in sorted order; its points are
   * one per period of that division's rows, in increasing period order, each
   * the revenue of that division in that period.
   */
  lemma TrendPoints(fin: seq<FinancialRow>, i: nat)
    requires i < |RevenueTrends(fin)|
    ensures var t := RevenueTrends(fin)[i];
      var group := Select(fin, FinDivision, t.division);
      && t.division == SortedKeys(fin, FinDivision, StringBefore)[i]
      && ListsKeys(group, FinPeriod, Keys(t.data, PointPeriod))
      && Increasing(Keys(t.data, PointPeriod), PeriodBefore)
      && forall j :: 0 <= j < |t.data| ==> t.data[j].value == Sum(Select(group, FinPeriod, t.data[j].period), FinRevenue)
  {
    var ks := SortedKeys(fin, FinDivision, StringBefore);
    NestedAt(fin, FinDivision, ks, FinPeriod, PeriodBefore, RevenuePoint, DivisionTrendOf);
    PeriodOrder();
    GroupBySorted(Select(fin, FinDivision, ks[i]), FinPeriod, PeriodBefore, RevenuePoint, PointPeriod);
  }

  /** One margin per distinct division, in order of first appearance. */
  lemma OnePerDivision(fin: seq<FinancialRow>)
    ensures Keys(ProfitMargins(fin), MarginDivision) == Distinct(Keys(fin, FinDivision))
  {
    ForEachLabels(fin, FinDivision, Distinct(Keys(fin, FinDivision)), MarginEntry, MarginDivision);
  }

  /** `m` is the guarded margin of `group`: its net profit over its revenue in percent, 0 when that revenue is not positive. */
  predicate GuardedMarginOf(m: ProfitMargin, group: seq<FinancialRow>) {
    && (Sum(group, FinRevenue) > 0.0 ==> m.margin * Sum(group, FinRevenue) == Sum(group, FinNetProfit) * 100.0)
    && (Sum(group, FinRevenue) <= 0.0 ==> m.margin == 0.0)
  }

  /** The `i`-th margin is that of the `i`-th distinct division, over only that division's rows, with the zero guard. */
  lemma MarginOverDivisionRows(fin: seq<FinancialRow>, i: nat)
    requires i < |ProfitMargins(fin)|
    ensures ProfitMargins(fin)[i].division == Distinct(Keys(fin, FinDivision))[i]
    ensures GuardedMarginOf(ProfitMargins(fin)[i], Select(fin, FinDivision, ProfitMargins(fin)[i].division))
  {
    var ks := Distinct(Keys(fin, FinDivision));
    assert ks[i] in Keys(fin, FinDivision);
    var group := Select(fin, FinDivision, ks[i]);
    var m := MarginEntry(ks[i], group);
    assert ProfitMargins(fin)[i] == m;
    assert GuardedMarginOf(m, group);
  }

  /**
   * One R&D point per period of the table, in strictly increasing period
   * order, and together they add up to the table's R&D investment.
   */
  lemma RdInvestmentTrendsPartition(fin: seq<FinancialRow>)
    ensures ListsKeys(fin, FinPeriod, Keys(RdInvestmentTrends(fin), RdPeriod))
    ensures Increasing(Keys(RdInvestmentTrends(fin), RdPeriod), PeriodBefore)
    ensures Sum(RdInvestmentTrends(fin), RdInvestment) == Sum(fin, FinRdInvestment)
  {
    var ks := SortedKeys(fin, FinPeriod, PeriodBefore);
    ForEachLabels(fin, FinPeriod, ks, RdPoint, RdPeriod);
    ForEachSum(fin, FinPeriod, ks, RdPoint, RdInvestment, FinRdInvestment);
    PeriodOrder();
    SortedKeysIncreasing(fin, FinPeriod, PeriodBefore);
  }

  /** Filtering a concatenation filters each part: the kept records stay in their order. */
  lemma {:induction false} KeepPresentConcat(a: seq<(string, Option<real>)>, b: seq<(string, Option<real>)>)
    ensures KeepPresent(a + b) == KeepPresent(a) + KeepPresent(b)
    decreases |b|
  {
    if b == [] {
      assert a + b == a;
    } else {
      var init := b[..|b| - 1];
      assert a + b == (a + init) + [b[|b| - 1]];
      assert (a + b)[..|a + b| - 1] == a + init;
      KeepPresentConcat(a, init);
    }
  }

  /** Keeping only some records of a list in increasing division order leaves them in increasing order. */
  lemma {:induction false} KeepPresentIncreasing(latest: seq<(string, Option<real>)>)
    requires Increasing(Keys(latest, LatestDivision), StringBefore)
    ensures Increasing(Keys(KeepPresent(latest), ShareDivision), StringBefore)
  {
    if latest != [] {
      var init, last := latest[..|latest| - 1], latest[|latest| - 1];
      var ks := Keys(latest, LatestDivision);
      assert Keys(init, LatestDivision) == ks[..|latest| - 1];
      KeepPresentIncreasing(init);
      var kept := KeepPresent(init);
      forall m | m in kept ensures StringBefore(m.division, last.0) {
        var n :| 0 <= n < |init| && init[n] == (m.division, Some(m.share));
        assert ks[n] == LatestDivision(latest[n]) == m.division;
        assert ks[|latest| - 1] == LatestDivision(last);
      }
      if last.1.Some? {
        AppendIncreasing(kept, MarketShareData(last.0, last.1.value));
      }
    }
  }

  lemma AppendIncreasing(kept: seq<MarketShareData>, m: MarketShareData)
    requires Increasing(Keys(kept, ShareDivision), StringBefore)
    requires forall x :: x in kept ==> StringBefore(x.division, m.division)
    ensures Increasing(Keys(kept + [m], ShareDivision), StringBefore)
  {
    var r := kept + [m];
    var ks := Keys(kept, ShareDivision);
    forall i, j | 0 <= i < j < |r| ensures StringBefore(r[i].division, r[j].division) {
      assert r[i] == kept[i];
      if j == |r| - 1 {
        assert r[i] in kept;
      } else {
        assert r[j] == kept[j];
        assert ks[i] == ShareDivision(kept[i]) && ks[j] == ShareDivision(kept[j]);
      }
    }
    assert forall i :: 0 <= i < |r| ==> Keys(r, ShareDivision)[i] == r[i].division;
  }

  /** The market share lists its divisions in strictly increasing string order. */
  lemma MarketShareSorted(fin: seq<FinancialRow>)
    ensures Increasing(Keys(MarketShare(fin), ShareDivision), StringBefore)
  {
    ForEachLabels(fin, FinDivision, SortedKeys(fin, FinDivision, StringBefore), ShareEntry, LatestDivision);
    StringOrder();
    SortedKeysIncreasing(fin, FinDivision, StringBefore);
    KeepPresentIncreasing(LatestShares(fin));
  }

  /** A division is listed in the market share exactly when one of its rows has a share. */
  lemma MarketShareListsDivision(fin: seq<FinancialRow>, division: string)
    ensures (exists m :: m in MarketShare(fin) && m.division == division) <==>
            (exists r :: r in fin && r.division == division && r.marketShare.Some?)
  {
    if m :| m in MarketShare(fin) && m.division == division {
      ListedHasShare(fin, m);
    }
    if r :| r in fin && r.division == division && r.marketShare.Some? {
      ShareIsListed(fin, r);
    }
  }

  /** A listed division's share is the last present share among that division's rows, as `last()` picks it. */
  lemma MarketShareIsLastPresent(fin: seq<FinancialRow>, m: MarketShareData)
    requires m in MarketShare(fin)
    ensures LastPresent(Select(fin, FinDivision, m.division)) == Some(m.share)
  {
    var ks := SortedKeys(fin, FinDivision, StringBefore);
    var latest := LatestShares(fin);
    assert (m.division, Some(m.share)) in latest;
    var i :| 0 <= i < |latest| && latest[i] == (m.division, Some(m.share));
    assert ks[i] in ks;
    assert latest[i] == ShareEntry(ks[i], Select(fin, FinDivision, ks[i]));
  }

  lemma ListedHasShare(fin: seq<FinancialRow>, m: MarketShareData)
    requires m in MarketShare(fin)
    ensures exists r :: r in fin && r.division == m.division && r.marketShare.Some?
  {
    var ks := SortedKeys(fin, FinDivision, StringBefore);
    var latest := LatestShares(fin);
    assert (m.division, Some(m.share)) in latest;
    var i :| 0 <= i < |latest| && latest[i] == (m.division, Some(m.share));
    assert ks[i] in ks;
    var group := Select(fin, FinDivision, ks[i]);
    assert latest[i] == ShareEntry(ks[i], group);
    assert LastPresent(group).Some?;
    var j :| 0 <= j < |group| && group[j].marketShare.Some?;
    assert group[j] in group;
  }

  lemma ShareIsListed(fin: seq<FinancialRow>, r: FinancialRow)
    requires r in fin && r.marketShare.Some?
    ensures exists m :: m in MarketShare(fin) && m.division == r.division
  {
    var ks := SortedKeys(fin, FinDivision, StringBefore);
    var latest := LatestShares(fin);
    var n :| 0 <= n < |fin| && fin[n] == r;
    assert Keys(fin, FinDivision)[n] == FinDivision(fin[n]) == r.division;
    assert r.division in ks;
    var i := FirstIndex(ks, r.division);
    var group := Select(fin, FinDivision, r.division);
    assert r in group;
    var j :| 0 <= j < |group| && group[j] == r;
    var share := LastPresent(group);
    assert share.Some?;
    assert latest[i] == ShareEntry(ks[i], Select(fin, FinDivision, ks[i])) == (r.division, share);
    assert MarketShareData(r.division, share.value) in MarketShare(fin);
  }
}
