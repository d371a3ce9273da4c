/**
 * `DataProcessor.get_rd_status`: value counts of project status and of
 * commercialization potential, budget allocated and spent per division, and
 * mean timeline adherence per division.
 */
module RdReport {
  import opened Aggregate
  import opened Schema
  import opened Tables
  import ExecutiveSummaryReport

  /** One entry of `value_counts()`: a status and the size of its group. */
  function StatusCount(status: string, group: seq<RdRow>): ProjectStatusData {
    ProjectStatusData(status, |group|)
  }

  function StatusOf(p: ProjectStatusData): string { p.status }

  function StatusCountOf(p: ProjectStatusData): int { p.count }

  /** `value_counts()` of the status column: one count per status, the most frequent first. */
  function ProjectStatus(rd: seq<RdRow>): seq<ProjectStatusData> {
    GroupBy(rd, RdStatusOf, MoreFrequent(rd, RdStatusOf), StatusCount)
  }

  /**
   * `b` is the budget of `group`: allocated and spent are its sums, and the
   * utilization is spent over allocated in percent, 0 when nothing is allocated.
   */
  predicate BudgetOf(b: BudgetAnalysisData, group: seq<RdRow>) {
    && b.budgetAllocated == Sum(group, RdAllocated) && b.budgetSpent == Sum(group, RdSpent)
    && (b.budgetAllocated > 0.0 ==> b.utilization * b.budgetAllocated == b.budgetSpent * 100.0)
    && (b.budgetAllocated <= 0.0 ==> b.utilization == 0.0)
  }

  /** A division's budget: allocated and spent totals, and spent over allocated as a percentage (0 when nothing is allocated). */
  function BudgetEntry(division: string, group: seq<RdRow>): (b: BudgetAnalysisData)
    ensures b.division == division
    ensures BudgetOf(b, group)
  {
    var allocatedTotal := Sum(group, RdAllocated);
    var spentTotal := Sum(group, RdSpent);
    BudgetAnalysisData(division, allocatedTotal, spentTotal, GuardedPercent(spentTotal, allocatedTotal))
  }

  function BudgetDivision(b: BudgetAnalysisData): string { b.division }

  function BudgetAllocatedOf(b: BudgetAnalysisData): real { b.budgetAllocated }

  function BudgetSpentOf(b: BudgetAnalysisData): real { b.budgetSpent }

  function BudgetAnalysis(rd: seq<RdRow>): seq<BudgetAnalysisData> {
    ForEachKey(rd, RdDivision, BudgetEntry)
  }

  function PotentialCount(potential: string, group: seq<RdRow>): CommercializationData {
    CommercializationData(potential, |group|)
  }

  function PotentialOf(c: CommercializationData): string { c.potential }

  function PotentialCountOf(c: CommercializationData): int { c.count }

  /** `value_counts()` of the potential column: one count per potential, the most frequent first. */
  function CommercializationPotential(rd: seq<RdRow>): seq<CommercializationData> {
    GroupBy(rd, RdPotential, MoreFrequent(rd, RdPotential), PotentialCount)
  }

  function AdherenceEntry(division: string, group: seq<RdRow>): (t: TimelineAdherenceData)
    requires |group| > 0
    ensures t.division == division
    ensures t.adherence * |group| as real == Sum(group, RdAdherence)
  {
    TimelineAdherenceData(division, MeanOf(group, RdAdherence))
  }

  function AdherenceDivision(t: TimelineAdherenceData): string { t.division }

  function TimelineAdherence(rd: seq<RdRow>): seq<TimelineAdherenceData> {
    ForEachKey(rd, RdDivision, AdherenceEntry)
  }

  function RdStatusOfTable(rd: seq<RdRow>): RdStatus {
    RdStatus(ProjectStatus(rd), BudgetAnalysis(rd), CommercializationPotential(rd), TimelineAdherence(rd))
  }

  method GetRdStatus(rd: seq<RdRow>) returns (r: RdStatus)
    ensures r == RdStatusOfTable(rd)
  {
    var divisions := Distinct(Keys(rd, RdDivision));
    var projectStatus := CollectGroups(rd, RdStatusOf, MoreFrequent(rd, RdStatusOf), StatusCount);
    var budgetAnalysis := CollectPerKey(rd, RdDivision, divisions, BudgetEntry);
    var potential := CollectGroups(rd, RdPotential, MoreFrequent(rd, RdPotential), PotentialCount);
    var adherence := CollectPerKey(rd, RdDivision, divisions, AdherenceEntry);
    r := RdStatus(projectStatus, budgetAnalysis, potential, adherence);
  }

  // ---------------------------------------------------------------------------

  /**
   * The status counts name each status of the table once, are positive, add
   * up to the number of projects, and do not increase along the list.
   */
  lemma ProjectStatusIsDistribution(rd: seq<RdRow>)
    ensures ListsKeys(rd, RdStatusOf, Keys(ProjectStatus(rd), StatusOf))
    ensures forall i :: 0 <= i < |ProjectStatus(rd)| ==> ProjectStatus(rd)[i].count >= 1
    ensures forall i, j :: 0 <= i < j < |ProjectStatus(rd)| ==> ProjectStatus(rd)[i].count >= ProjectStatus(rd)[j].count
    ensures SumInt(ProjectStatus(rd), StatusCountOf) == |rd|
  {
    var ks := SortedKeys(rd, RdStatusOf, MoreFrequent(rd, RdStatusOf));
    ForEachLabels(rd, RdStatusOf, ks, StatusCount, StatusOf);
    ForEachCount(rd, RdStatusOf, ks, StatusCount, StatusCountOf);
    forall i | 0 <= i < |ProjectStatus(rd)| ensures ProjectStatus(rd)[i].count == |Select(rd, RdStatusOf, ks[i])| >= 1 {
      assert ks[i] in ks;
    }
    forall i, j | 0 <= i < j < |ProjectStatus(rd)| ensures ProjectStatus(rd)[i].count >= ProjectStatus(rd)[j].count {
      ByFrequencyNonIncreasing(rd, RdStatusOf, i, j);
    }
  }

  /** The same for commercialization potential. */
  lemma PotentialIsDistribution(rd: seq<RdRow>)
    ensures ListsKeys(rd, RdPotential, Keys(CommercializationPotential(rd), PotentialOf))
    ensures forall i :: 0 <= i < |CommercializationPotential(rd)| ==> CommercializationPotential(rd)[i].count >= 1
    ensures forall i, j :: 0 <= i < j < |CommercializationPotential(rd)| ==>
      CommercializationPotential(rd)[i].count >= CommercializationPotential(rd)[j].count
    ensures SumInt(CommercializationPotential(rd), PotentialCountOf) == |rd|
  {
    var ks := SortedKeys(rd, RdPotential, MoreFrequent(rd, RdPotential));
    ForEachLabels(rd, RdPotential, ks, PotentialCount, PotentialOf);
    ForEachCount(rd, RdPotential, ks, PotentialCount, PotentialCountOf);
    forall i | 0 <= i < |CommercializationPotential(rd)|
      ensures CommercializationPotential(rd)[i].count == |Select(rd, RdPotential, ks[i])| >= 1
    {
      assert ks[i] in ks;
    }
    forall i, j | 0 <= i < j < |CommercializationPotential(rd)|
      ensures CommercializationPotential(rd)[i].count >= CommercializationPotential(rd)[j].count
    {
      ByFrequencyNonIncreasing(rd, RdPotential, i, j);
    }
  }

  /** The executive summary's active-project count is the "Active" entry of the status counts, or 0 without one. */
  lemma ActiveProjectsMatchStatus(rd: seq<RdRow>)
    ensures forall i :: 0 <= i < |ProjectStatus(rd)| && ProjectStatus(rd)[i].status == ExecutiveSummaryReport.ActiveStatus ==>
      ProjectStatus(rd)[i].count == ExecutiveSummaryReport.ActiveProjects(rd)
    ensures ExecutiveSummaryReport.ActiveStatus !in Keys(rd, RdStatusOf) ==> ExecutiveSummaryReport.ActiveProjects(rd) == 0
  {
    var ks := SortedKeys(rd, RdStatusOf, MoreFrequent(rd, RdStatusOf));
    forall i | 0 <= i < |ProjectStatus(rd)| && ProjectStatus(rd)[i].status == ExecutiveSummaryReport.ActiveStatus
      ensures ProjectStatus(rd)[i].count == ExecutiveSummaryReport.ActiveProjects(rd)
    {
      assert ProjectStatus(rd)[i] == StatusCount(ks[i], Select(rd, RdStatusOf, ks[i]));
    }
    if ExecutiveSummaryReport.ActiveStatus !in Keys(rd, RdStatusOf) {
      SelectAbsent(rd, RdStatusOf, ExecutiveSummaryReport.ActiveStatus);
    }
  }

  /** The budget records split the portfolio: their allocated and spent totals are the table's. */
  lemma BudgetAnalysisPartition(rd: seq<RdRow>)
    ensures Keys(BudgetAnalysis(rd), BudgetDivision) == Distinct(Keys(rd, RdDivision))
    ensures Sum(BudgetAnalysis(rd), BudgetAllocatedOf) == Sum(rd, RdAllocated)
    ensures Sum(BudgetAnalysis(rd), BudgetSpentOf) == Sum(rd, RdSpent)
  {
    var ks := Distinct(Keys(rd, RdDivision));
    ForEachLabels(rd, RdDivision, ks, BudgetEntry, BudgetDivision);
    ForEachSum(rd, RdDivision, ks, BudgetEntry, BudgetAllocatedOf, RdAllocated);
    ForEachSum(rd, RdDivision, ks, BudgetEntry, BudgetSpentOf, RdSpent);
  }

  /** The `i`-th budget record totals the `i`-th distinct division's rows; its utilization is 0 when nothing is allocated. */
  lemma BudgetOverDivisionRows(rd: seq<RdRow>, i: nat)
    requires i < |BudgetAnalysis(rd)|
    ensures BudgetAnalysis(rd)[i].division == Distinct(Keys(rd, RdDivision))[i]
    ensures BudgetOf(BudgetAnalysis(rd)[i], Select(rd, RdDivision, BudgetAnalysis(rd)[i].division))
  {
    var ks := Distinct(Keys(rd, RdDivision));
    assert ks[i] in Keys(rd, RdDivision);
    var group := Select(rd, RdDivision, ks[i]);
    var b := BudgetEntry(ks[i], group);
    assert BudgetAnalysis(rd)[i] == b;
    assert BudgetOf(b, group);
  }

  /** One adherence record per distinct division, each within the bounds of the table's adherence values. */
  lemma AdherenceWithinBounds(rd: seq<RdRow>, i: nat, lo: real, hi: real)
    requires i < |TimelineAdherence(rd)|
    requires forall r :: r in rd ==> lo <= r.timelineAdherence <= hi
    ensures Keys(TimelineAdherence(rd), AdherenceDivision) == Distinct(Keys(rd, RdDivision))
    ensures lo <= TimelineAdherence(rd)[i].adherence <= hi
  {
    var ks := Distinct(Keys(rd, RdDivision));
    ForEachLabels(rd, RdDivision, ks, AdherenceEntry, AdherenceDivision);
    assert ks[i] in Keys(rd, RdDivision);
    var group := Select(rd, RdDivision, ks[i]);
    assert TimelineAdherence(rd)[i] == AdherenceEntry(ks[i], group);
    forall x | x in group ensures lo <= RdAdherence(x) <= hi {
      assert x in rd;
    }
    MeanBounds(group, RdAdherence, lo, hi);
  }
}
