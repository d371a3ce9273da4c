/**
 * The eight cards of the executive summary panel
 * (frontend/components/summary.tsx): what each shows, its caption, its icon
 * and its trend, and the colours a trend selects. Number formatting
 * (`Intl.NumberFormat`, `toFixed`) is not modelled; a card carries the number
 * it displays and the unit it is displayed in.
 */
module SummaryView {
  import opened Numbers
  import opened Aggregate
  import opened Schema
  import opened Tables
  import ExecutiveSummaryReport

  datatype Trend = Positive | Negative | Neutral

  datatype Icon = TrendingUp | TrendingDown | Users | Target | Clock | Shield | Heart | Star

  /** A card's second line: a signed growth percentage, a fixed caption, or the high-potential count. */
  datatype Change = Growth(sign: string, percent: real) | Caption(text: string) | HighPotential(count: int)

  /** What a card's main line shows, with its unit. */
  datatype Shown = Dollars(amount: real) | Percent(x: Number) | Count(n: int) | Minutes(x: Number) | OutOfTen(x: Number)

  datatype Card = Card(title: string, value: Shown, change: Change, icon: Icon, trend: Trend)

  /** The backend reports revenue in millions; the panel shows dollars. */
  const Million: real := 1000000.0

  /** `${growth > 0 ? '+' : ''}${growth.toFixed(1)}%`: a plus sign exactly for positive growth. */
  function GrowthChange(growth: real): (c: Change)
    ensures c.Growth? && c.percent == growth
    ensures c.sign == "+" <==> growth > 0.0
    ensures c.sign == "" <==> growth <= 0.0
  {
    Growth(if growth > 0.0 then "+" else "", growth)
  }

  const IncidentAlertThreshold := 50

  /** The cards' titles, in display order. */
  const CardTitles := ["Total Revenue", "Profit Margin", "Total Employees", "Active Projects",
    "Avg Response Time", "Security Incidents", "Employee Retention", "Employee Satisfaction"]

  function SummaryCards(s: ExecutiveSummary): (cards: seq<Card>)
    ensures |cards| == |CardTitles|
    ensures forall i :: 0 <= i < |cards| ==> cards[i].title == CardTitles[i]
    ensures cards[0].value == Dollars(s.totalRevenue * Million)
    ensures cards[0].change == GrowthChange(s.revenueGrowth)
    ensures cards[0].trend == Positive <==> s.revenueGrowth > 0.0
    ensures cards[0].icon == TrendingUp <==> s.revenueGrowth > 0.0
    ensures cards[3].change == HighPotential(s.highPotentialProjects)
    ensures cards[5].trend == Negative <==> s.securityIncidents > IncidentAlertThreshold
    ensures cards[5].trend == Positive <==> s.securityIncidents <= IncidentAlertThreshold
    ensures forall i :: 0 <= i < 8 && i != 0 && i != 5 ==> cards[i].trend != Negative
  {
    var growing := s.revenueGrowth > 0.0;
    [ Card("Total Revenue", Dollars(s.totalRevenue * Million), GrowthChange(s.revenueGrowth),
           if growing then TrendingUp else TrendingDown, if growing then Positive else Negative),
      Card("Profit Margin", Percent(Finite(s.profitMargin)), Caption("Current Quarter"), Target, Neutral),
      Card("Total Employees", Count(s.totalEmployees), Caption("Active Personnel"), Users, Neutral),
      Card("Active Projects", Count(s.activeProjects), HighPotential(s.highPotentialProjects), Target, Positive),
      Card("Avg Response Time", Minutes(s.avgResponseTime), Caption("Security Operations"), Clock, Neutral),
      Card("Security Incidents", Count(s.securityIncidents), Caption("Recent Period"), Shield,
           if s.securityIncidents > IncidentAlertThreshold then Negative else Positive),
      Card("Employee Retention", Percent(s.employeeRetention), Caption("Annual Rate"), Heart, Positive),
      Card("Employee Satisfaction", OutOfTen(s.employeeSatisfaction), Caption("Survey Score"), Star, Positive) ]
  }

  const Green := "text-green-600"
  const Red := "text-red-600"
  const Blue := "text-blue-600"
  const Gray := "text-gray-500"

  /** The icon's colour: green, red, or blue for a neutral card. */
  function IconColor(t: Trend): (c: string)
    ensures c == Green <==> t == Positive
    ensures c == Red <==> t == Negative
    ensures c == Blue <==> t == Neutral
  {
    match t
    case Positive => Green
    case Negative => Red
    case Neutral => Blue
  }

  /** The caption's colour: green, red, or gray for a neutral card. */
  function ChangeColor(t: Trend): (c: string)
    ensures c == Green <==> t == Positive
    ensures c == Red <==> t == Negative
    ensures c == Gray <==> t == Neutral
  {
    match t
    case Positive => Green
    case Negative => Red
    case Neutral => Gray
  }

  // ---------------------------------------------------------------------------

  /**
   * The revenue card is green exactly when Q4 2024 revenue exceeds a positive
   * Q4 2023 revenue; otherwise (including a zero or negative base) it is red.
   */
  lemma RevenueCardGreen(fin: seq<FinancialRow>, sec: seq<SecurityRow>, rd: seq<RdRow>, hr: seq<HrRow>)
    ensures var card := SummaryCards(ExecutiveSummaryReport.ExecutiveSummaryOf(fin, sec, rd, hr))[0];
      var base := ExecutiveSummaryReport.FourthQuarterRevenue(fin, ExecutiveSummaryReport.BaseYear);
      var current := ExecutiveSummaryReport.FourthQuarterRevenue(fin, ExecutiveSummaryReport.ReportYear);
      && (IconColor(card.trend) == Green <==> base > 0.0 && current > base)
      && (IconColor(card.trend) == Red <==> !(base > 0.0 && current > base))
  {
    var summary := ExecutiveSummaryReport.ExecutiveSummaryOf(fin, sec, rd, hr);
    assert summary.revenueGrowth == ExecutiveSummaryReport.RevenueGrowth(fin);
    GrowthSign(fin);
  }

  /** Revenue grew exactly when Q4 2024 revenue exceeds a positive Q4 2023 revenue. */
  lemma GrowthSign(fin: seq<FinancialRow>)
    ensures var base := ExecutiveSummaryReport.FourthQuarterRevenue(fin, ExecutiveSummaryReport.BaseYear);
      var current := ExecutiveSummaryReport.FourthQuarterRevenue(fin, ExecutiveSummaryReport.ReportYear);
      ExecutiveSummaryReport.RevenueGrowth(fin) > 0.0 <==> base > 0.0 && current > base
  {
    var base := ExecutiveSummaryReport.FourthQuarterRevenue(fin, ExecutiveSummaryReport.BaseYear);
    var current := ExecutiveSummaryReport.FourthQuarterRevenue(fin, ExecutiveSummaryReport.ReportYear);
    if base > 0.0 {
      PositiveGrowth(ExecutiveSummaryReport.RevenueGrowth(fin), base, current - base);
    }
  }

  /** With a positive base, `growth * base == delta * 100` makes growth and delta share their sign. */
  lemma PositiveGrowth(growth: real, base: real, delta: real)
    requires base > 0.0
    requires growth * base == delta * 100.0
    ensures growth > 0.0 <==> delta > 0.0
  {
    if growth > 0.0 {
      assert growth * base > 0.0 * base;
    }
  }

  /** The Active Projects card's caption counts the "High" and "Very High" projects of the R&D table. */
  lemma HighPotentialCaption(fin: seq<FinancialRow>, sec: seq<SecurityRow>, rd: seq<RdRow>, hr: seq<HrRow>)
    ensures SummaryCards(ExecutiveSummaryReport.ExecutiveSummaryOf(fin, sec, rd, hr))[3].change ==
      HighPotential(|Select(rd, RdPotential, "High")| + |Select(rd, RdPotential, "Very High")|)
  {
    ExecutiveSummaryReport.HighPotentialIsTwoCounts(rd);
  }
}
