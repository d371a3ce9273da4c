/**
 * `DataProcessor.get_security_metrics`: monthly incidents per district, mean
 * response time per district, and each district's latest safety score and
 * technology deployments.
 */
module SecurityReport {
  import opened Ordering
  import opened Aggregate
  import opened Schema
  import opened Tables

  /** One month of a district's trend: the incidents of its rows in that month. */
  function IncidentPointOf(month: Month, group: seq<SecurityRow>): IncidentPoint {
    IncidentPoint(month, SumInt(group, SecIncidents))
  }

  function DistrictTrendOf(district: string, points: seq<IncidentPoint>): DistrictIncidentTrend {
    DistrictIncidentTrend(district, points)
  }

  function PointIncidents(p: IncidentPoint): int { p.incidents }

  function PointMonth(p: IncidentPoint): Month { p.month }

  function TrendIncidents(t: DistrictIncidentTrend): int { SumInt(t.data, PointIncidents) }

  function TrendDistrict(t: DistrictIncidentTrend): string { t.district }

  /** One trend per district in order of first appearance; within it, one point per month, the months sorted. */
  function IncidentTrends(sec: seq<SecurityRow>): seq<DistrictIncidentTrend> {
    ForEachKey(sec, SecDistrict, Nested(SecMonth, MonthBefore, IncidentPointOf, DistrictTrendOf))
  }

  /** A district's mean response time, over its (never empty) group. */
  function ResponseEntry(district: string, group: seq<SecurityRow>): (r: ResponseTimeData)
    requires |group| > 0
    ensures r.district == district
    ensures r.avgResponseTime * |group| as real == Sum(group, SecResponseTime)
  {
    ResponseTimeData(district, MeanOf(group, SecResponseTime))
  }

  function ResponseDistrict(r: ResponseTimeData): string { r.district }

  function ResponseTimes(sec: seq<SecurityRow>): seq<ResponseTimeData> {
    ForEachKey(sec, SecDistrict, ResponseEntry)
  }

  /** The safety score of the district's last row. */
  function SafetyEntry(district: string, group: seq<SecurityRow>): SafetyScoreData
    requires |group| > 0
  {
    SafetyScoreData(district, group[|group| - 1].safetyScore)
  }

  function SafetyDistrict(s: SafetyScoreData): string { s.district }

  /** `groupby('District').last()`: one score per district, the districts in sorted order. */
  function SafetyScores(sec: seq<SecurityRow>): seq<SafetyScoreData> {
    GroupBy(sec, SecDistrict, StringBefore, SafetyEntry)
  }

  /** The deployments of the district's last row. */
  function DeploymentEntry(district: string, group: seq<SecurityRow>): TechDeploymentData
    requires |group| > 0
  {
    TechDeploymentData(district, group[|group| - 1].deployments)
  }

  function DeploymentDistrict(d: TechDeploymentData): string { d.district }

  /** The deployment column's `last()` per district, the districts in sorted order. */
  function TechDeployments(sec: seq<SecurityRow>): seq<TechDeploymentData> {
    GroupBy(sec, SecDistrict, StringBefore, DeploymentEntry)
  }

  function SecurityMetricsOf(sec: seq<SecurityRow>): SecurityMetrics {
    SecurityMetrics(IncidentTrends(sec), ResponseTimes(sec), SafetyScores(sec), TechDeployments(sec))
  }

  method GetSecurityMetrics(sec: seq<SecurityRow>) returns (r: SecurityMetrics)
    ensures r == SecurityMetricsOf(sec)
  {
    var districts := Distinct(Keys(sec, SecDistrict));
    var incidentTrends := CollectNested(sec, SecDistrict, districts, SecMonth, MonthBefore, IncidentPointOf, DistrictTrendOf);
    var responseTimes := CollectPerKey(sec, SecDistrict, districts, ResponseEntry);
    var safetyScores := CollectGroups(sec, SecDistrict, StringBefore, SafetyEntry);
    var techDeployments := CollectGroups(sec, SecDistrict, StringBefore, DeploymentEntry);
    r := SecurityMetrics(incidentTrends, responseTimes, safetyScores, techDeployments);
  }

  // ---------------------------------------------------------------------------

  /** The monthly trends split the table's incidents: all their points add up to the total. */
  lemma IncidentTrendsTotal(sec: seq<SecurityRow>)
    ensures SumInt(IncidentTrends(sec), TrendIncidents) == SumInt(sec, SecIncidents)
  {
    var wrap := Nested(SecMonth, MonthBefore, IncidentPointOf, DistrictTrendOf);
    forall k, g | |g| > 0 ensures TrendIncidents(wrap(k, g)) == SumInt(g, SecIncidents) {
      ForEachSumInt(g, SecMonth, SortedKeys(g, SecMonth, MonthBefore), IncidentPointOf, PointIncidents, SecIncidents);
    }
    ForEachSumInt(sec, SecDistrict, Distinct(Keys(sec, SecDistrict)), wrap, TrendIncidents, SecIncidents);
  }

  /** The incident trends and the response times have one record per distinct district, in order of first appearance. */
  lemma OnePerDistrict(sec: seq<SecurityRow>)
    ensures Keys(IncidentTrends(sec), TrendDistrict) == Distinct(Keys(sec, SecDistrict))
    ensures Keys(ResponseTimes(sec), ResponseDistrict) == Distinct(Keys(sec, SecDistrict))
  {
    var ks := Distinct(Keys(sec, SecDistrict));
    ForEachLabels(sec, SecDistrict, ks, Nested(SecMonth, MonthBefore, IncidentPointOf, DistrictTrendOf), TrendDistrict);
    ForEachLabels(sec, SecDistrict, ks, ResponseEntry, ResponseDistrict);
  }

  /** The safety scores and the deployments have one record per district, the districts in strictly increasing order. */
  lemma LatestPerDistrictSorted(sec: seq<SecurityRow>)
    ensures ListsKeys(sec, SecDistrict, Keys(SafetyScores(sec), SafetyDistrict))
    ensures Increasing(Keys(SafetyScores(sec), SafetyDistrict), StringBefore)
    ensures Keys(TechDeployments(sec), DeploymentDistrict) == Keys(SafetyScores(sec), SafetyDistrict)
  {
    var ks := SortedKeys(sec, SecDistrict, StringBefore);
    ForEachLabels(sec, SecDistrict, ks, SafetyEntry, SafetyDistrict);
    ForEachLabels(sec, SecDistrict, ks, DeploymentEntry, DeploymentDistrict);
    StringOrder();
    SortedKeysIncreasing(sec, SecDistrict, StringBefore);
  }

  /**
   * Trend `i` belongs to the `i`-th distinct district; its points are one per
   * month of that district's rows, in increasing month order, each the
   * incidents of that district in that month.
   */
  lemma IncidentPoints(sec: seq<SecurityRow>, i: nat)
    requires i < |IncidentTrends(sec)|
    ensures var t := IncidentTrends(sec)[i];
      var group := Select(sec, SecDistrict, t.district);
      && t.district == Distinct(Keys(sec, SecDistrict))[i]
      && ListsKeys(group, SecMonth, Keys(t.data, PointMonth))
      && Increasing(Keys(t.data, PointMonth), MonthBefore)
      && forall j :: 0 <= j < |t.data| ==> t.data[j].incidents == SumInt(Select(group, SecMonth, t.data[j].month), SecIncidents)
  {
    var ks := Distinct(Keys(sec, SecDistrict));
    NestedAt(sec, SecDistrict, ks, SecMonth, MonthBefore, IncidentPointOf, DistrictTrendOf);
    MonthOrder();
    GroupBySorted(Select(sec, SecDistrict, ks[i]), SecMonth, MonthBefore, IncidentPointOf, PointMonth);
  }

  /** A mean response time lies within the bounds of the table's response times. */
  lemma ResponseTimeWithinBounds(sec: seq<SecurityRow>, i: nat, lo: real, hi: real)
    requires i < |ResponseTimes(sec)|
    requires forall r :: r in sec ==> lo <= r.responseTime <= hi
    ensures lo <= ResponseTimes(sec)[i].avgResponseTime <= hi
  {
    var ks := Distinct(Keys(sec, SecDistrict));
    assert ks[i] in Keys(sec, SecDistrict);
    var group := Select(sec, SecDistrict, ks[i]);
    assert ResponseTimes(sec)[i] == ResponseEntry(ks[i], group);
    forall x | x in group ensures lo <= SecResponseTime(x) <= hi {
      assert x in sec;
    }
    MeanBounds(group, SecResponseTime, lo, hi);
  }

  /** A district's safety score and deployments are those of its last row in the table. */
  lemma LatestIsLastRow(sec: seq<SecurityRow>, i: nat) returns (n: nat)
    requires i < |SafetyScores(sec)|
    ensures LastOfKey(sec, SecDistrict, SafetyScores(sec)[i].district, n)
    ensures SafetyScores(sec)[i].safetyScore == sec[n].safetyScore
    ensures TechDeployments(sec)[i].deployments == sec[n].deployments
  {
    var k := SortedKeys(sec, SecDistrict, StringBefore)[i];
    assert k in Keys(sec, SecDistrict);
    var group := Select(sec, SecDistrict, k);
    assert SafetyScores(sec)[i] == SafetyEntry(k, group);
    assert TechDeployments(sec)[i] == DeploymentEntry(k, group);
    n := SelectLast(sec, SecDistrict, k);
  }

}
