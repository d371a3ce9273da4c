/**
 * `DataProcessor.get_hr_analytics`: mean retention, diversity and training
 * per department, and mean satisfaction per department and month.
 */
module HrReport {
  import opened Aggregate
  import opened Schema
  import opened Tables
  import opened Ordering

  function RetentionEntry(department: string, group: seq<HrRow>): (r: RetentionRateData)
    requires |group| > 0
    ensures r.department == department
    ensures r.retentionRate * |group| as real == Sum(group, HrRetention)
  {
    RetentionRateData(department, MeanOf(group, HrRetention))
  }

  function RetentionDepartment(r: RetentionRateData): string { r.department }

  function RetentionRates(hr: seq<HrRow>): seq<RetentionRateData> {
    ForEachKey(hr, HrDepartment, RetentionEntry)
  }

  /** A department's mean satisfaction in one month. */
  function SatisfactionPointOf(month: Month, group: seq<HrRow>): (p: SatisfactionPoint)
    requires |group| > 0
    ensures p.month == month
    ensures p.satisfaction * |group| as real == Sum(group, HrSatisfaction)
  {
    SatisfactionPoint(month, MeanOf(group, HrSatisfaction))
  }

  function PointMonth(p: SatisfactionPoint): Month { p.month }

  function DepartmentTrendOf(department: string, points: seq<SatisfactionPoint>): SatisfactionTrendData {
    SatisfactionTrendData(department, points)
  }

  function TrendDepartment(t: SatisfactionTrendData): string { t.department }

  /**
   * The table grouped by month and department, read back per department in
   * first-appearance order: each department's rows grouped again by month,
   * months ascending, since the two-key grouping sorts by month first.
   */
  function SatisfactionTrends(hr: seq<HrRow>): seq<SatisfactionTrendData> {
    ForEachKey(hr, HrDepartment, Nested(HrMonth, MonthBefore, SatisfactionPointOf, DepartmentTrendOf))
  }

  function DiversityEntry(department: string, group: seq<HrRow>): (d: DiversityMetricData)
    requires |group| > 0
    ensures d.department == department
    ensures d.diversityIndex * |group| as real == Sum(group, HrDiversity)
  {
    DiversityMetricData(department, MeanOf(group, HrDiversity))
  }

  function DiversityDepartment(d: DiversityMetricData): string { d.department }

  function DiversityMetrics(hr: seq<HrRow>): seq<DiversityMetricData> {
    ForEachKey(hr, HrDepartment, DiversityEntry)
  }

  function TrainingEntry(department: string, group: seq<HrRow>): (t: TrainingData)
    requires |group| > 0
    ensures t.department == department
    ensures t.avgTrainingHours * |group| as real == Sum(group, HrTraining)
  {
    TrainingData(department, MeanOf(group, HrTraining))
  }

  function TrainingDepartment(t: TrainingData): string { t.department }

  function TrainingHours(hr: seq<HrRow>): seq<TrainingData> {
    ForEachKey(hr, HrDepartment, TrainingEntry)
  }

  function HrAnalyticsOf(hr: seq<HrRow>): HrAnalytics {
    HrAnalytics(RetentionRates(hr), SatisfactionTrends(hr), DiversityMetrics(hr), TrainingHours(hr))
  }

  method GetHrAnalytics(hr: seq<HrRow>) returns (r: HrAnalytics)
    ensures r == HrAnalyticsOf(hr)
  {
    var departments := Distinct(Keys(hr, HrDepartment));
    var retention := CollectPerKey(hr, HrDepartment, departments, RetentionEntry);
    var satisfaction := CollectNested(hr, HrDepartment, departments, HrMonth, MonthBefore, SatisfactionPointOf, DepartmentTrendOf);
    var diversity := CollectPerKey(hr, HrDepartment, departments, DiversityEntry);
    var training := CollectPerKey(hr, HrDepartment, departments, TrainingEntry);
    r := HrAnalytics(retention, satisfaction, diversity, training);
  }

  // ---------------------------------------------------------------------------

  /** Each of the four lists has one record per distinct department, in order of first appearance. */
  lemma OnePerDepartment(hr: seq<HrRow>)
    ensures Keys(RetentionRates(hr), RetentionDepartment) == Distinct(Keys(hr, HrDepartment))
    ensures Keys(SatisfactionTrends(hr), TrendDepartment) == Distinct(Keys(hr, HrDepartment))
    ensures Keys(DiversityMetrics(hr), DiversityDepartment) == Distinct(Keys(hr, HrDepartment))
    ensures Keys(TrainingHours(hr), TrainingDepartment) == Distinct(Keys(hr, HrDepartment))
  {
    var ks := Distinct(Keys(hr, HrDepartment));
    ForEachLabels(hr, HrDepartment, ks, RetentionEntry, RetentionDepartment);
    ForEachLabels(hr, HrDepartment, ks, Nested(HrMonth, MonthBefore, SatisfactionPointOf, DepartmentTrendOf), TrendDepartment);
    ForEachLabels(hr, HrDepartment, ks, DiversityEntry, DiversityDepartment);
    ForEachLabels(hr, HrDepartment, ks, TrainingEntry, TrainingDepartment);
  }

  /** A department's retention rate lies within the bounds of the table's rates. */
  lemma RetentionWithinBounds(hr: seq<HrRow>, i: nat, lo: real, hi: real)
    requires i < |RetentionRates(hr)|
    requires forall r :: r in hr ==> lo <= r.retentionRate <= hi
    ensures lo <= RetentionRates(hr)[i].retentionRate <= hi
  {
    var ks := Distinct(Keys(hr, HrDepartment));
    assert ks[i] in Keys(hr, HrDepartment);
    var group := Select(hr, HrDepartment, ks[i]);
    assert RetentionRates(hr)[i] == RetentionEntry(ks[i], group);
    forall x | x in group ensures lo <= HrRetention(x) <= hi {
      assert x in hr;
    }
    MeanBounds(group, HrRetention, lo, hi);
  }

  /** `p` is the mean satisfaction of `cell`: times the number of rows, it gives their total. */
  predicate IsMonthlyMean(p: SatisfactionPoint, cell: seq<HrRow>) {
    p.satisfaction * |cell| as real == Sum(cell, HrSatisfaction)
  }

  lemma MonthlyPointIsMean(month: Month, cell: seq<HrRow>)
    requires |cell| > 0
    ensures IsMonthlyMean(SatisfactionPointOf(month, cell), cell)
  {
  }

  /**
   * Trend `i` belongs to the `i`-th distinct department; its points are one
   * per month of that department's rows, in increasing month order, each the
   * mean satisfaction of that department in that month.
   */
  lemma SatisfactionPoints(hr: seq<HrRow>, i: nat)
    requires i < |SatisfactionTrends(hr)|
    ensures var t := SatisfactionTrends(hr)[i];
      var group := Select(hr, HrDepartment, t.department);
      && t.department == Distinct(Keys(hr, HrDepartment))[i]
      && ListsKeys(group, HrMonth, Keys(t.data, PointMonth))
      && Increasing(Keys(t.data, PointMonth), MonthBefore)
      && forall j :: 0 <= j < |t.data| ==> IsMonthlyMean(t.data[j], Select(group, HrMonth, t.data[j].month))
  {
    var ks := Distinct(Keys(hr, HrDepartment));
    NestedAt(hr, HrDepartment, ks, HrMonth, MonthBefore, SatisfactionPointOf, DepartmentTrendOf);
    var group := Select(hr, HrDepartment, ks[i]);
    var out := GroupBy(group, HrMonth, MonthBefore, SatisfactionPointOf);
    assert SatisfactionTrends(hr)[i] == DepartmentTrendOf(ks[i], out);
    MonthOrder();
    GroupBySorted(group, HrMonth, MonthBefore, SatisfactionPointOf, PointMonth);
    forall j | 0 <= j < |out| ensures IsMonthlyMean(out[j], Select(group, HrMonth, out[j].month)) {
      var m := PointMonth(out[j]);
      assert out[j] == SatisfactionPointOf(m, Select(group, HrMonth, m));
      MonthlyPointIsMean(m, Select(group, HrMonth, m));
    }
  }

  /** Every monthly satisfaction point lies within the bounds of the table's scores. */
  lemma SatisfactionPointWithinBounds(hr: seq<HrRow>, i: nat, j: nat, lo: real, hi: real)
    requires i < |SatisfactionTrends(hr)|
    requires j < |SatisfactionTrends(hr)[i].data|
    requires forall r :: r in hr ==> lo <= r.satisfaction <= hi
    ensures lo <= SatisfactionTrends(hr)[i].data[j].satisfaction <= hi
  {
    var ks := Distinct(Keys(hr, HrDepartment));
    assert ks[i] in Keys(hr, HrDepartment);
    var group := Select(hr, HrDepartment, ks[i]);
    var months := SortedKeys(group, HrMonth, MonthBefore);
    assert SatisfactionTrends(hr)[i] == DepartmentTrendOf(ks[i], GroupBy(group, HrMonth, MonthBefore, SatisfactionPointOf));
    assert GroupBy(group, HrMonth, MonthBefore, SatisfactionPointOf) == ForEach(group, HrMonth, months, SatisfactionPointOf);
    assert months[j] in Keys(group, HrMonth);
    var cell := Select(group, HrMonth, months[j]);
    assert SatisfactionTrends(hr)[i].data[j] == SatisfactionPointOf(months[j], cell);
    forall x | x in cell ensures lo <= HrSatisfaction(x) <= hi {
      assert x in group;
      assert x in hr;
    }
    MeanBounds(cell, HrSatisfaction, lo, hi);
  }
}
