/**
 * `DataProcessor.get_supply_chain_performance`: monthly production per
 * facility, mean quality per product line, disruptions per facility, and the
 * latest sustainability rating per facility and product line.
 */
module SupplyChainReport {
  import opened Aggregate
  import opened Schema
  import opened Tables
  import opened Ordering

  function ProductionPointOf(month: Month, group: seq<SupplyRow>): ProductionPoint {
    ProductionPoint(month, SumInt(group, SupVolume))
  }

  function FacilityTrendOf(facility: string, points: seq<ProductionPoint>): ProductionTrendData {
    ProductionTrendData(facility, points)
  }

  function PointVolume(p: ProductionPoint): int { p.volume }

  function PointMonth(p: ProductionPoint): Month { p.month }

  function TrendVolume(t: ProductionTrendData): int { SumInt(t.data, PointVolume) }

  function TrendFacility(t: ProductionTrendData): string { t.facility }

  function ProductionTrends(sup: seq<SupplyRow>): seq<ProductionTrendData> {
    ForEachKey(sup, SupFacility, Nested(SupMonth, MonthBefore, ProductionPointOf, FacilityTrendOf))
  }

  function QualityEntry(productLine: string, group: seq<SupplyRow>): (q: QualityScoreData)
    requires |group| > 0
    ensures q.productLine == productLine
    ensures q.qualityScore * |group| as real == Sum(group, SupQuality)
  {
    QualityScoreData(productLine, MeanOf(group, SupQuality))
  }

  function QualityLine(q: QualityScoreData): string { q.productLine }

  function QualityScores(sup: seq<SupplyRow>): seq<QualityScoreData> {
    ForEachKey(sup, SupProductLine, QualityEntry)
  }

  function DisruptionEntry(facility: string, group: seq<SupplyRow>): DisruptionAnalysisData {
    DisruptionAnalysisData(facility, SumInt(group, SupDisruptions))
  }

  function DisruptionFacility(d: DisruptionAnalysisData): string { d.facility }

  function DisruptionCount(d: DisruptionAnalysisData): int { d.disruptions }

  function DisruptionAnalysis(sup: seq<SupplyRow>): seq<DisruptionAnalysisData> {
    ForEachKey(sup, SupFacility, DisruptionEntry)
  }

  /** The record of one (facility, product line) group: the rating of the group's last row. */
  function SustainabilityEntry(pair: (string, string), group: seq<SupplyRow>): SustainabilityData
    requires |group| > 0
  {
    SustainabilityData(pair.0, pair.1, group[|group| - 1].sustainabilityRating)
  }

  function SustainabilityPair(s: SustainabilityData): (string, string) { (s.facility, s.productLine) }

  /** The rows grouped by (facility, product line), the pairs in ascending order, one rating per pair. */
  function SustainabilityRatings(sup: seq<SupplyRow>): seq<SustainabilityData> {
    GroupBy(sup, SupFacilityAndLine, PairBefore, SustainabilityEntry)
  }

  function SupplyChainPerformanceOf(sup: seq<SupplyRow>): SupplyChainPerformance {
    SupplyChainPerformance(ProductionTrends(sup), QualityScores(sup), DisruptionAnalysis(sup), SustainabilityRatings(sup))
  }

  method GetSupplyChainPerformance(sup: seq<SupplyRow>) returns (r: SupplyChainPerformance)
    ensures r == SupplyChainPerformanceOf(sup)
  {
    var facilities := Distinct(Keys(sup, SupFacility));
    var productionTrends := CollectNested(sup, SupFacility, facilities, SupMonth, MonthBefore, ProductionPointOf, FacilityTrendOf);
    var qualityScores := CollectPerKey(sup, SupProductLine, Distinct(Keys(sup, SupProductLine)), QualityEntry);
    var disruptions := CollectPerKey(sup, SupFacility, facilities, DisruptionEntry);
    var sustainability := CollectGroups(sup, SupFacilityAndLine, PairBefore, SustainabilityEntry);
    r := SupplyChainPerformance(productionTrends, qualityScores, disruptions, sustainability);
  }

  // ---------------------------------------------------------------------------

  /** One trend per distinct facility, and all the monthly points together add up to the table's production volume. */
  lemma ProductionTrendsTotal(sup: seq<SupplyRow>)
    ensures Keys(ProductionTrends(sup), TrendFacility) == Distinct(Keys(sup, SupFacility))
    ensures SumInt(ProductionTrends(sup), TrendVolume) == SumInt(sup, SupVolume)
  {
    var ks := Distinct(Keys(sup, SupFacility));
    var wrap := Nested(SupMonth, MonthBefore, ProductionPointOf, FacilityTrendOf);
    ForEachLabels(sup, SupFacility, ks, wrap, TrendFacility);
    forall k, g | |g| > 0 ensures TrendVolume(wrap(k, g)) == SumInt(g, SupVolume) {
      ForEachSumInt(g, SupMonth, SortedKeys(g, SupMonth, MonthBefore), ProductionPointOf, PointVolume, SupVolume);
    }
    ForEachSumInt(sup, SupFacility, ks, wrap, TrendVolume, SupVolume);
  }

  /**
   * Trend `i` belongs to the `i`-th distinct facility; its points are one per
   * month of that facility's rows, in increasing month order, each the volume
   * that facility produced in that month.
   */
  lemma ProductionPoints(sup: seq<SupplyRow>, i: nat)
    requires i < |ProductionTrends(sup)|
    ensures var t := ProductionTrends(sup)[i];
      var group := Select(sup, SupFacility, t.facility);
      && t.facility == Distinct(Keys(sup, SupFacility))[i]
      && ListsKeys(group, SupMonth, Keys(t.data, PointMonth))
      && Increasing(Keys(t.data, PointMonth), MonthBefore)
      && forall j :: 0 <= j < |t.data| ==> t.data[j].volume == SumInt(Select(group, SupMonth, t.data[j].month), SupVolume)
  {
    var ks := Distinct(Keys(sup, SupFacility));
    NestedAt(sup, SupFacility, ks, SupMonth, MonthBefore, ProductionPointOf, FacilityTrendOf);
    MonthOrder();
    GroupBySorted(Select(sup, SupFacility, ks[i]), SupMonth, MonthBefore, ProductionPointOf, PointMonth);
  }

  /** One disruption record per distinct facility, and together they are all the table's disruptions. */
  lemma DisruptionAnalysisTotal(sup: seq<SupplyRow>)
    ensures Keys(DisruptionAnalysis(sup), DisruptionFacility) == Distinct(Keys(sup, SupFacility))
    ensures SumInt(DisruptionAnalysis(sup), DisruptionCount) == SumInt(sup, SupDisruptions)
  {
    var ks := Distinct(Keys(sup, SupFacility));
    ForEachLabels(sup, SupFacility, ks, DisruptionEntry, DisruptionFacility);
    ForEachSumInt(sup, SupFacility, ks, DisruptionEntry, DisruptionCount, SupDisruptions);
  }

  /** One quality score per distinct product line, each within the bounds of the table's scores. */
  lemma QualityWithinBounds(sup: seq<SupplyRow>, i: nat, lo: real, hi: real)
    requires i < |QualityScores(sup)|
    requires forall r :: r in sup ==> lo <= r.qualityScore <= hi
    ensures Keys(QualityScores(sup), QualityLine) == Distinct(Keys(sup, SupProductLine))
    ensures lo <= QualityScores(sup)[i].qualityScore <= hi
  {
    var ks := Distinct(Keys(sup, SupProductLine));
    ForEachLabels(sup, SupProductLine, ks, QualityEntry, QualityLine);
    assert ks[i] in Keys(sup, SupProductLine);
    var group := Select(sup, SupProductLine, ks[i]);
    assert QualityScores(sup)[i] == QualityEntry(ks[i], group);
    forall x | x in group ensures lo <= SupQuality(x) <= hi {
      assert x in sup;
    }
    MeanBounds(group, SupQuality, lo, hi);
  }

  /**
   * One rating per (facility, product line) pair present in the table, the
   * pairs in strictly increasing order: by facility, then by product line.
   */
  lemma OneRatingPerPair(sup: seq<SupplyRow>)
    ensures ListsKeys(sup, SupFacilityAndLine, Keys(SustainabilityRatings(sup), SustainabilityPair))
    ensures Increasing(Keys(SustainabilityRatings(sup), SustainabilityPair), PairBefore)
  {
    ForEachLabels(sup, SupFacilityAndLine, SortedKeys(sup, SupFacilityAndLine, PairBefore), SustainabilityEntry, SustainabilityPair);
    PairOrder();
    SortedKeysIncreasing(sup, SupFacilityAndLine, PairBefore);
  }

  /** A pair's rating is that of the pair's last row in the table. */
  lemma SustainabilityIsLatest(sup: seq<SupplyRow>, i: nat) returns (n: nat)
    requires i < |SustainabilityRatings(sup)|
    ensures LastOfKey(sup, SupFacilityAndLine, SustainabilityPair(SustainabilityRatings(sup)[i]), n)
    ensures SustainabilityRatings(sup)[i].rating == sup[n].sustainabilityRating
  {
    var ks := SortedKeys(sup, SupFacilityAndLine, PairBefore);
    var pair := ks[i];
    assert pair in Keys(sup, SupFacilityAndLine);
    var group := Select(sup, SupFacilityAndLine, pair);
    assert SustainabilityRatings(sup) == ForEach(sup, SupFacilityAndLine, ks, SustainabilityEntry);
    assert SustainabilityRatings(sup)[i] == SustainabilityEntry(pair, group);
    n := SelectLast(sup, SupFacilityAndLine, pair);
  }
}
