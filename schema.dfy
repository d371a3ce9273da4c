/**
 * The six response records the backend returns and the frontend receives
 * (backend-folder/models.py, frontend/lib/data.ts). Integer fields are the
 * ones the backend converts with `int(...)`; every other number is a real.
 * Periods and months are kept as keys rather than as the strings the backend
 * formats from them.
 */
module Schema {
  import opened Numbers

  /** A fiscal period, rendered by the backend as "<year>-<quarter>". */
  datatype Period = Period(year: int, quarter: string)

  /** A calendar month as the number yyyymm (pandas `to_period('M')`). */
  type Month = int

  datatype ExecutiveSummary = ExecutiveSummary(
    totalRevenue: real,
    revenueGrowth: real,
    profitMargin: real,
    totalEmployees: int,
    activeProjects: int,
    highPotentialProjects: int,
    avgResponseTime: Number,
    securityIncidents: int,
    employeeRetention: Number,
    employeeSatisfaction: Number)

  datatype TrendPoint = TrendPoint(period: Period, value: real)
  datatype DivisionTrend = DivisionTrend(division: string, data: seq<TrendPoint>)
  datatype ProfitMargin = ProfitMargin(division: string, margin: real)
  datatype RdInvestmentTrend = RdInvestmentTrend(period: Period, investment: real)
  datatype MarketShareData = MarketShareData(division: string, share: real)
  datatype FinancialOverview = FinancialOverview(
    revenueTrends: seq<DivisionTrend>,
    profitMargins: seq<ProfitMargin>,
    rdInvestmentTrends: seq<RdInvestmentTrend>,
    marketShare: seq<MarketShareData>)

  datatype IncidentPoint = IncidentPoint(month: Month, incidents: int)
  datatype DistrictIncidentTrend = DistrictIncidentTrend(district: string, data: seq<IncidentPoint>)
  datatype ResponseTimeData = ResponseTimeData(district: string, avgResponseTime: real)
  datatype SafetyScoreData = SafetyScoreData(district: string, safetyScore: real)
  datatype TechDeploymentData = TechDeploymentData(district: string, deployments: int)
  datatype SecurityMetrics = SecurityMetrics(
    incidentTrends: seq<DistrictIncidentTrend>,
    responseTimes: seq<ResponseTimeData>,
    safetyScores: seq<SafetyScoreData>,
    techDeployments: seq<TechDeploymentData>)

  datatype ProjectStatusData = ProjectStatusData(status: string, count: int)
  datatype BudgetAnalysisData = BudgetAnalysisData(division: string, budgetAllocated: real, budgetSpent: real, utilization: real)
  datatype CommercializationData = CommercializationData(potential: string, count: int)
  datatype TimelineAdherenceData = TimelineAdherenceData(division: string, adherence: real)
  datatype RdStatus = RdStatus(
    projectStatus: seq<ProjectStatusData>,
    budgetAnalysis: seq<BudgetAnalysisData>,
    commercializationPotential: seq<CommercializationData>,
    timelineAdherence: seq<TimelineAdherenceData>)

  datatype ProductionPoint = ProductionPoint(month: Month, volume: int)
  datatype ProductionTrendData = ProductionTrendData(facility: string, data: seq<ProductionPoint>)
  datatype QualityScoreData = QualityScoreData(productLine: string, qualityScore: real)
  datatype DisruptionAnalysisData = DisruptionAnalysisData(facility: string, disruptions: int)
  datatype SustainabilityData = SustainabilityData(facility: string, productLine: string, rating: string)
  datatype SupplyChainPerformance = SupplyChainPerformance(
    productionTrends: seq<ProductionTrendData>,
    qualityScores: seq<QualityScoreData>,
    disruptionAnalysis: seq<DisruptionAnalysisData>,
    sustainabilityRatings: seq<SustainabilityData>)

  datatype RetentionRateData = RetentionRateData(department: string, retentionRate: real)
  datatype SatisfactionPoint = SatisfactionPoint(month: Month, satisfaction: real)
  datatype SatisfactionTrendData = SatisfactionTrendData(department: string, data: seq<SatisfactionPoint>)
  datatype DiversityMetricData = DiversityMetricData(department: string, diversityIndex: real)
  datatype TrainingData = TrainingData(department: string, avgTrainingHours: real)
  datatype HrAnalytics = HrAnalytics(
    retentionRates: seq<RetentionRateData>,
    satisfactionTrends: seq<SatisfactionTrendData>,
    diversityMetrics: seq<DiversityMetricData>,
    trainingData: seq<TrainingData>)
}
