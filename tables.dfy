/**
 * The five CSV tables the backend loads, one row datatype each, with the
 * columns the aggregations read. Loading, parsing and date conversion are
 * outside the model: a date arrives as the number yyyymmdd, so calendar order
 * is numeric order, and a missing market share is `None`.
 */
module Tables {
  import opened Wrappers
  import opened Schema
  import opened Ordering

  /** A calendar date as the number yyyymmdd. */
  type Date = nat

  /** pandas `dt.to_period('M')`: the month a date falls in. */
  function MonthOf(d: Date): Month { d / 100 }

  datatype FinancialRow = FinancialRow(
    division: string, year: int, quarter: string,
    revenue: real, netProfit: real, rdInvestment: real,
    marketShare: Option<real>, employeeCount: int)

  datatype SecurityRow = SecurityRow(
    district: string, date: Date, incidents: int,
    responseTime: real, safetyScore: real, deployments: int)

  datatype RdRow = RdRow(
    division: string, status: string, potential: string,
    budgetAllocated: real, budgetSpent: real, timelineAdherence: real)

  datatype SupplyRow = SupplyRow(
    facility: string, productLine: string, date: Date,
    volume: int, qualityScore: real, disruptions: int, sustainabilityRating: string)

  datatype HrRow = HrRow(
    department: string, date: Date,
    retentionRate: real, satisfaction: real, diversityIndex: real, trainingHours: real)

  // Columns, as functions that the aggregations take as arguments.

  function FinDivision(r: FinancialRow): string { r.division }
  function FinYear(r: FinancialRow): int { r.year }
  function FinQuarter(r: FinancialRow): string { r.quarter }
  function FinPeriod(r: FinancialRow): Period { Period(r.year, r.quarter) }
  function FinRevenue(r: FinancialRow): real { r.revenue }
  function FinNetProfit(r: FinancialRow): real { r.netProfit }
  function FinRdInvestment(r: FinancialRow): real { r.rdInvestment }

  function SecDistrict(r: SecurityRow): string { r.district }
  function SecMonth(r: SecurityRow): Month { MonthOf(r.date) }
  function SecIncidents(r: SecurityRow): int { r.incidents }
  function SecResponseTime(r: SecurityRow): real { r.responseTime }
  function SecSafetyScore(r: SecurityRow): real { r.safetyScore }
  function SecDeployments(r: SecurityRow): int { r.deployments }

  function RdDivision(r: RdRow): string { r.division }
  function RdStatusOf(r: RdRow): string { r.status }
  function RdPotential(r: RdRow): string { r.potential }
  function RdAllocated(r: RdRow): real { r.budgetAllocated }
  function RdSpent(r: RdRow): real { r.budgetSpent }
  function RdAdherence(r: RdRow): real { r.timelineAdherence }

  function SupFacility(r: SupplyRow): string { r.facility }
  function SupProductLine(r: SupplyRow): string { r.productLine }
  function SupFacilityAndLine(r: SupplyRow): (string, string) { (r.facility, r.productLine) }
  function SupMonth(r: SupplyRow): Month { MonthOf(r.date) }
  function SupVolume(r: SupplyRow): int { r.volume }
  function SupQuality(r: SupplyRow): real { r.qualityScore }
  function SupDisruptions(r: SupplyRow): int { r.disruptions }

  function HrDepartment(r: HrRow): string { r.department }
  function HrMonth(r: HrRow): Month { MonthOf(r.date) }
  function HrRetention(r: HrRow): real { r.retentionRate }
  function HrSatisfaction(r: HrRow): real { r.satisfaction }
  function HrDiversity(r: HrRow): real { r.diversityIndex }
  function HrTraining(r: HrRow): real { r.trainingHours }

  // The orders `groupby` sorts these keys in: numbers numerically, strings as
  // Python compares them, and a key of several columns column by column.

  predicate PeriodBefore(a: Period, b: Period) {
    a.year < b.year || (a.year == b.year && StringBefore(a.quarter, b.quarter))
  }

  predicate PairBefore(a: (string, string), b: (string, string)) {
    StringBefore(a.0, b.0) || (a.0 == b.0 && StringBefore(a.1, b.1))
  }

  predicate MonthBefore(a: Month, b: Month) { a < b }

  lemma PeriodOrder()
    ensures StrictOrder(PeriodBefore) && Total(PeriodBefore)
  {
    StringOrder();
  }

  lemma PairOrder()
    ensures StrictOrder(PairBefore) && Total(PairBefore)
  {
    StringOrder();
  }

  lemma MonthOrder()
    ensures StrictOrder(MonthBefore) && Total(MonthBefore)
  {
  }
}
