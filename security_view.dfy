/**
 * The figures the security panel (frontend/components/security.tsx) derives
 * from the security metrics: its four summary statistics and the width of
 * each district's deployment bar. Text formatting (`toFixed`, `toString`) is
 * not modelled; a statistic carries the number it displays.
 */
module SecurityView {
  import opened Numbers
  import opened Aggregate
  import opened Schema
  import opened Tables
  import SecurityReport

  /** The sum of every point of every district's incident trend. */
  function TotalIncidents(m: SecurityMetrics): (n: int)
    ensures m.incidentTrends == [] ==> n == 0
  {
    SumInt(m.incidentTrends, SecurityReport.TrendIncidents)
  }

  /** Every district's monthly points, one list after the other. */
  function Flatten(trends: seq<DistrictIncidentTrend>): seq<IncidentPoint> {
    if trends == [] then [] else Flatten(trends[..|trends| - 1]) + trends[|trends| - 1].data
  }

  function ResponseTimeOf(r: ResponseTimeData): real { r.avgResponseTime }

  function SafetyScoreOf(s: SafetyScoreData): real { s.safetyScore }

  function DeploymentsOf(d: TechDeploymentData): int { d.deployments }

  /** The sum of the districts' mean response times over their number: NaN when there is no district. */
  function AvgResponseTime(m: SecurityMetrics): (r: Number)
    ensures r == NaN <==> |m.responseTimes| == 0
    ensures r != NaN ==> r.Finite? && r.value * |m.responseTimes| as real == Sum(m.responseTimes, ResponseTimeOf)
  {
    Divide(Sum(m.responseTimes, ResponseTimeOf), |m.responseTimes| as real)
  }

  /** The mean of the districts' safety scores: NaN when there is no district. */
  function AvgSafetyScore(m: SecurityMetrics): (r: Number)
    ensures r == NaN <==> |m.safetyScores| == 0
    ensures r != NaN ==> r.Finite? && r.value * |m.safetyScores| as real == Sum(m.safetyScores, SafetyScoreOf)
  {
    Divide(Sum(m.safetyScores, SafetyScoreOf), |m.safetyScores| as real)
  }

  function TotalDeployments(m: SecurityMetrics): (n: int)
    ensures m.techDeployments == [] ==> n == 0
  {
    SumInt(m.techDeployments, DeploymentsOf)
  }

  /** One summary card: its title, the number it shows, the unit after it, and its text colour. */
  datatype Stat = Stat(title: string, figure: Number, unit: string, color: string)

  const StatTitles := ["Total Incidents", "Avg Response Time", "Avg Safety Score", "Tech Deployments"]

  function SummaryStats(m: SecurityMetrics): (stats: seq<Stat>)
    ensures |stats| == 4
    ensures forall i :: 0 <= i < 4 ==> stats[i].title == StatTitles[i]
    ensures stats[0].figure == Finite(TotalIncidents(m) as real) && stats[3].figure == Finite(TotalDeployments(m) as real)
    ensures stats[1].figure == NaN <==> |m.responseTimes| == 0
    ensures stats[2].figure == NaN <==> |m.safetyScores| == 0
    ensures stats[1].figure == AvgResponseTime(m) && stats[2].figure == AvgSafetyScore(m)
  {
    [ Stat("Total Incidents", Finite(TotalIncidents(m) as real), "", "text-red-600"),
      Stat("Avg Response Time", AvgResponseTime(m), " min", "text-blue-600"),
      Stat("Avg Safety Score", AvgSafetyScore(m), "/10", "text-green-600"),
      Stat("Tech Deployments", Finite(TotalDeployments(m) as real), "", "text-purple-600") ]
  }

  /** `Math.min(deployments / total * 100, 100)`, as a CSS percentage. */
  function DeploymentWidth(deployments: int, total: int): (w: Number)
    ensures w != PosInf
    ensures w.Finite? ==> w.value <= 100.0
    ensures total != 0 ==> w.Finite?
    ensures total == 0 ==> (w == NaN <==> deployments == 0)
    ensures total == 0 && deployments > 0 ==> w == Finite(100.0)
    ensures total == 0 && deployments < 0 ==> w == NegInf
  {
    Min(Scale(Divide(deployments as real, total as real), 100.0), 100.0)
  }

  /** The bar width of every district, against the given total. */
  function WidthsFor(ds: seq<TechDeploymentData>, total: int): (ws: seq<Number>)
    ensures |ws| == |ds|
  {
    seq(|ds|, i requires 0 <= i < |ds| => DeploymentWidth(ds[i].deployments, total))
  }

  function DeploymentWidths(m: SecurityMetrics): (ws: seq<Number>)
    ensures |ws| == |m.techDeployments|
  {
    WidthsFor(m.techDeployments, TotalDeployments(m))
  }

  /** Each district's bar width is `DeploymentWidth` of its own deployments against the panel's total. */
  lemma DeploymentWidthAt(m: SecurityMetrics, i: nat)
    requires i < |m.techDeployments|
    ensures DeploymentWidths(m)[i] == DeploymentWidth(m.techDeployments[i].deployments, TotalDeployments(m))
    ensures DeploymentWidths(m)[i] != PosInf
    ensures DeploymentWidths(m)[i].Finite? ==> DeploymentWidths(m)[i].value <= 100.0
  {
  }

  /** The percentage a finite width stands for; a width the browser drops counts as none. */
  function ShownPercent(w: Number): real { if w.Finite? then w.value else 0.0 }

  // ---------------------------------------------------------------------------

  /** The panel's incident total is the incident total of the whole security table. */
  lemma TotalIncidentsIsTableTotal(sec: seq<SecurityRow>)
    ensures TotalIncidents(SecurityReport.SecurityMetricsOf(sec)) == SumInt(sec, SecIncidents)
  {
    SecurityReport.IncidentTrendsTotal(sec);
  }

  /** The panel's total is the sum of the flattened list of monthly points. */
  lemma {:induction false} TotalIncidentsFlattened(trends: seq<DistrictIncidentTrend>)
    ensures SumInt(trends, SecurityReport.TrendIncidents) == SumInt(Flatten(trends), SecurityReport.PointIncidents)
  {
    if trends != [] {
      var init := trends[..|trends| - 1];
      TotalIncidentsFlattened(init);
      SumIntConcat(Flatten(init), trends[|trends| - 1].data, SecurityReport.PointIncidents);
    }
  }

  /** With districts and response times within bounds, the panel's average lies within them too. */
  lemma AvgResponseTimeWithinBounds(m: SecurityMetrics, lo: real, hi: real)
    requires |m.responseTimes| > 0
    requires forall r :: r in m.responseTimes ==> lo <= r.avgResponseTime <= hi
    ensures AvgResponseTime(m).Finite? && lo <= AvgResponseTime(m).value <= hi
  {
    var n := |m.responseTimes| as real;
    SumBounds(m.responseTimes, ResponseTimeOf, lo, hi);
    QuotientWithinBounds(AvgResponseTime(m).value, n, Sum(m.responseTimes, ResponseTimeOf), lo, hi);
  }

  /** With districts and safety scores within bounds, the panel's average lies within them too. */
  lemma AvgSafetyScoreWithinBounds(m: SecurityMetrics, lo: real, hi: real)
    requires |m.safetyScores| > 0
    requires forall s :: s in m.safetyScores ==> lo <= s.safetyScore <= hi
    ensures AvgSafetyScore(m).Finite? && lo <= AvgSafetyScore(m).value <= hi
  {
    var n := |m.safetyScores| as real;
    SumBounds(m.safetyScores, SafetyScoreOf, lo, hi);
    QuotientWithinBounds(AvgSafetyScore(m).value, n, Sum(m.safetyScores, SafetyScoreOf), lo, hi);
  }

  /** A quotient `q` of a sum over `n` terms lies within the bounds the terms lie in. */
  lemma QuotientWithinBounds(q: real, n: real, sum: real, lo: real, hi: real)
    requires n > 0.0 && q * n == sum
    requires n * lo <= sum <= n * hi
    ensures lo <= q <= hi
  {
  }

  /**
   * With non-negative deployments and a positive total, no bar is clipped:
   * each width is the district's share of all deployments, in percent.
   */
  lemma DeploymentWidthIsShare(m: SecurityMetrics, i: nat)
    requires i < |m.techDeployments|
    requires forall d :: d in m.techDeployments ==> d.deployments >= 0
    requires TotalDeployments(m) > 0
    ensures DeploymentWidths(m)[i].Finite?
    ensures DeploymentWidths(m)[i].value * TotalDeployments(m) as real == m.techDeployments[i].deployments as real * 100.0
  {
    SumIntTermBound(m.techDeployments, DeploymentsOf, i);
    UnclippedWidth(m.techDeployments[i].deployments, TotalDeployments(m));
  }

  /** A deployment between 0 and a positive total gets its exact share, which is at most 100. */
  lemma UnclippedWidth(d: int, total: int)
    requires 0 <= d <= total && total > 0
    ensures DeploymentWidth(d, total) == Finite(d as real * PerDeployment(total))
    ensures DeploymentWidth(d, total).value * total as real == d as real * 100.0
  {
    var x := d as real;
    var t := total as real;
    QuotientAtMostOne(x, t);
    assert x / t * 100.0 == x * (100.0 / t);
  }

  /** The width one deployment adds to its bar when `total` deployments fill the track. */
  function PerDeployment(total: int): real
    requires total > 0
  {
    100.0 / total as real
  }

  lemma QuotientAtMostOne(a: real, b: real)
    requires 0.0 <= a <= b && b > 0.0
    ensures a / b <= 1.0
  {
  }

  /** Widths that are each a district's deployments times `k` add up to all deployments times `k`. */
  lemma {:induction false} ProportionalWidthsSum(ws: seq<Number>, ds: seq<TechDeploymentData>, k: real)
    requires Proportional(ws, ds, k)
    ensures Sum(ws, ShownPercent) == SumInt(ds, DeploymentsOf) as real * k
  {
    if ws != [] {
      var n := |ws| - 1;
      var init, last := ws[..n], ws[n];
      var dInit, dLast := ds[..n], ds[n];
      forall i | 0 <= i < n ensures init[i] == Finite(dInit[i].deployments as real * k) {
        assert init[i] == ws[i] && dInit[i] == ds[i];
      }
      ProportionalWidthsSum(init, dInit, k);
      assert Sum(ws, ShownPercent) == Sum(init, ShownPercent) + ShownPercent(last);
      assert SumInt(ds, DeploymentsOf) == SumInt(dInit, DeploymentsOf) + dLast.deployments;
      Distribute(SumInt(dInit, DeploymentsOf) as real, dLast.deployments as real, k);
    }
  }

  /** Each width is its district's deployments times `k`. */
  predicate Proportional(ws: seq<Number>, ds: seq<TechDeploymentData>, k: real) {
    |ws| == |ds| && forall i :: 0 <= i < |ws| ==> ws[i] == Finite(ds[i].deployments as real * k)
  }

  /** Multiplication by `k` distributes over a sum. */
  lemma Distribute(a: real, b: real, k: real)
    ensures (a + b) * k == a * k + b * k
  {
  }

  /** With non-negative deployments and a positive total, the bars' widths add up to 100 percent. */
  lemma DeploymentWidthsSumToHundred(m: SecurityMetrics)
    requires forall d :: d in m.techDeployments ==> d.deployments >= 0
    requires TotalDeployments(m) > 0
    ensures Sum(DeploymentWidths(m), ShownPercent) == 100.0
  {
    var ds := m.techDeployments;
    var total := TotalDeployments(m);
    SharesSumToHundred(ds, total);
  }

  /** Non-negative deployments against their own positive total fill the track exactly. */
  lemma SharesSumToHundred(ds: seq<TechDeploymentData>, total: int)
    requires forall d :: d in ds ==> d.deployments >= 0
    requires total == SumInt(ds, DeploymentsOf) > 0
    ensures Sum(WidthsFor(ds, total), ShownPercent) == 100.0
  {
    SharesSumToTotal(ds, total);
    WholeTrack(total);
  }

  /** The exact shares add up to the total times the width of one deployment. */
  lemma SharesSumToTotal(ds: seq<TechDeploymentData>, total: int)
    requires forall d :: d in ds ==> d.deployments >= 0
    requires total == SumInt(ds, DeploymentsOf) > 0
    ensures Sum(WidthsFor(ds, total), ShownPercent) == total as real * PerDeployment(total)
  {
    WidthsAreShares(ds, total);
    ProportionalSumOfTotal(WidthsFor(ds, total), ds, PerDeployment(total), total);
  }

  /** `ProportionalWidthsSum`, stated against a total given by name. */
  lemma ProportionalSumOfTotal(ws: seq<Number>, ds: seq<TechDeploymentData>, k: real, total: int)
    requires Proportional(ws, ds, k) && total == SumInt(ds, DeploymentsOf)
    ensures Sum(ws, ShownPercent) == total as real * k
  {
    ProportionalWidthsSum(ws, ds, k);
  }

  /** Against their own positive total, non-negative deployments get their exact shares. */
  lemma WidthsAreShares(ds: seq<TechDeploymentData>, total: int)
    requires forall d :: d in ds ==> d.deployments >= 0
    requires total == SumInt(ds, DeploymentsOf) > 0
    ensures Proportional(WidthsFor(ds, total), ds, PerDeployment(total))
  {
    var ws := WidthsFor(ds, total);
    forall i | 0 <= i < |ds| ensures ws[i] == Finite(ds[i].deployments as real * PerDeployment(total)) {
      SumIntTermBound(ds, DeploymentsOf, i);
      WidthIsShareAt(ds, total, i);
    }
  }

  /** One district's width, for a deployment count between 0 and the positive total. */
  lemma WidthIsShareAt(ds: seq<TechDeploymentData>, total: int, i: nat)
    requires i < |ds|
    requires 0 <= ds[i].deployments <= total && total > 0
    ensures WidthsFor(ds, total)[i] == Finite(ds[i].deployments as real * PerDeployment(total))
  {
    UnclippedWidth(ds[i].deployments, total);
  }

  /** All the deployments together fill the whole track. */
  lemma WholeTrack(total: int)
    requires total > 0
    ensures total as real * PerDeployment(total) == 100.0
  {
  }

  /** When every district has zero deployments, every bar's width is NaN (the CSS value is dropped). */
  lemma NoDeploymentsNoWidth(m: SecurityMetrics, i: nat)
    requires i < |m.techDeployments|
    requires forall d :: d in m.techDeployments ==> d.deployments == 0
    ensures DeploymentWidths(m)[i] == NaN
  {
    NoDeploymentsSumZero(m.techDeployments);
  }

  lemma {:induction false} NoDeploymentsSumZero(ds: seq<TechDeploymentData>)
    requires forall d :: d in ds ==> d.deployments == 0
    ensures SumInt(ds, DeploymentsOf) == 0
  {
    if ds != [] {
      var init := ds[..|ds| - 1];
      assert forall x :: x in init ==> x in ds;
      NoDeploymentsSumZero(init);
      assert ds[|ds| - 1] in ds;
    }
  }
}
