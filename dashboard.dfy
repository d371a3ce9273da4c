/**
 * The dashboard page (frontend/app/dashboard/page.tsx): eight pieces of React
 * state, the fetch that fills them from the six report endpoints at once, and
 * the choice between the loading screen, the error screen and the content.
 * The six requests are given as their outcomes; timing and the network are
 * not modelled.
 */
module Dashboard {
  import opened Wrappers
  import opened Schema

  /** What a failed request throws: a built-in `Error` with its message, or any other value. */
  datatype Thrown = BuiltinError(message: string) | NonErrorValue

  datatype Fetched<+T> = Resolved(value: T) | Rejected(reason: Thrown)

  /** The outcomes of the six requests, in the order they are passed to `Promise.all`. */
  datatype Responses = Responses(
    summary: Fetched<ExecutiveSummary>,
    financial: Fetched<FinancialOverview>,
    security: Fetched<SecurityMetrics>,
    rd: Fetched<RdStatus>,
    supply: Fetched<SupplyChainPerformance>,
    hr: Fetched<HrAnalytics>)

  predicate AllResolved(b: Responses) {
    b.summary.Resolved? && b.financial.Resolved? && b.security.Resolved? &&
    b.rd.Resolved? && b.supply.Resolved? && b.hr.Resolved?
  }

  /** The reason `Promise.all` rejects with, taking the first rejected request in request order. */
  function FirstRejection(b: Responses): (r: Option<Thrown>)
    ensures r.None? <==> AllResolved(b)
    ensures r.None? <==> RejectionReasons(b) == []
    ensures r.Some? ==> r.value == RejectionReasons(b)[0]
  {
    if b.summary.Rejected? then Some(b.summary.reason)
    else if b.financial.Rejected? then Some(b.financial.reason)
    else if b.security.Rejected? then Some(b.security.reason)
    else if b.rd.Rejected? then Some(b.rd.reason)
    else if b.supply.Rejected? then Some(b.supply.reason)
    else if b.hr.Rejected? then Some(b.hr.reason)
    else None
  }

  /** The reasons of every rejected request, in request order. */
  function RejectionReasons(b: Responses): seq<Thrown> {
    (if b.summary.Rejected? then [b.summary.reason] else []) +
    (if b.financial.Rejected? then [b.financial.reason] else []) +
    (if b.security.Rejected? then [b.security.reason] else []) +
    (if b.rd.Rejected? then [b.rd.reason] else []) +
    (if b.supply.Rejected? then [b.supply.reason] else []) +
    (if b.hr.Rejected? then [b.hr.reason] else [])
  }

  const FallbackMessage := "An error occurred while fetching data"

  /**
   * What the name `Error` denotes in the catch block: the built-in error
   * constructor, or the error-screen component the module imports under that
   * name, which hides the built-in one.
   */
  datatype ErrorBinding = GlobalErrorConstructor | ErrorScreenComponent

  /** The binding of frontend/app/dashboard/page.tsx as written: its default import is named `Error`. */
  const PageBinding := ErrorScreenComponent

  /** The prototype objects that matter here: `Error.prototype`, `Object.prototype`, and the component's own `prototype`. */
  datatype Proto = ErrorPrototype | ObjectPrototype | ComponentPrototype

  /** The prototype chain of a thrown value: an `Error` object's passes through `Error.prototype`; a primitive has none. */
  function ChainOf(t: Thrown): seq<Proto> {
    match t
    case BuiltinError(_) => [ErrorPrototype, ObjectPrototype]
    case NonErrorValue => []
  }

  /** The `prototype` property of what the name is bound to. */
  function PrototypeOf(b: ErrorBinding): Proto {
    match b
    case GlobalErrorConstructor => ErrorPrototype
    case ErrorScreenComponent => ComponentPrototype
  }

  /** `t instanceof b`: the binding's `prototype` lies on the value's prototype chain. */
  predicate InstanceOf(t: Thrown, b: ErrorBinding) {
    PrototypeOf(b) in ChainOf(t)
  }

  /** The catch block's message under a binding of `Error`: the value's own message when it passes `instanceof`, otherwise the fallback. */
  function CatchMessage(t: Thrown, b: ErrorBinding): string {
    if InstanceOf(t, b) then t.message else FallbackMessage
  }

  /** Only a built-in error passes `instanceof` against the built-in constructor, and nothing passes it against the component. */
  lemma InstanceOfBindings(t: Thrown)
    ensures InstanceOf(t, GlobalErrorConstructor) <==> t.BuiltinError?
    ensures !InstanceOf(t, ErrorScreenComponent)
  {
  }

  /** The catch block as written: whatever was thrown, the stored message is the fallback. */
  function ErrorMessageAsWritten(t: Thrown): (m: string)
    ensures m == FallbackMessage
  {
    CatchMessage(t, PageBinding)
  }

  /** The catch block as intended, with `Error` the built-in constructor: a built-in error's own message, otherwise the fallback. */
  function ErrorMessage(t: Thrown): (m: string)
    ensures t.BuiltinError? ==> m == t.message
    ensures t.NonErrorValue? ==> m == FallbackMessage
  {
    CatchMessage(t, GlobalErrorConstructor)
  }

  /** The page's state as a value. */
  datatype PageState = PageState(
    executiveSummary: Option<ExecutiveSummary>,
    financialOverview: Option<FinancialOverview>,
    securityMetrics: Option<SecurityMetrics>,
    rdStatus: Option<RdStatus>,
    supplyChain: Option<SupplyChainPerformance>,
    hrAnalytics: Option<HrAnalytics>,
    loading: bool,
    error: Option<string>)

  const Initial := PageState(None, None, None, None, None, None, true, None)

  /** The state after `setLoading(true); setError(null)`. */
  function Begun(s: PageState): PageState {
    s.(loading := true, error := None)
  }

  /**
   * The state after the requests settle: all six slots on success, the catch
   * block's message on failure, loading off either way.
   */
  function Settled(s: PageState, b: Responses, binding: ErrorBinding): PageState {
    if AllResolved(b) then
      s.(executiveSummary := Some(b.summary.value), financialOverview := Some(b.financial.value),
         securityMetrics := Some(b.security.value), rdStatus := Some(b.rd.value),
         supplyChain := Some(b.supply.value), hrAnalytics := Some(b.hr.value), loading := false)
    else
      s.(error := Some(CatchMessage(FirstRejection(b).value, binding)), loading := false)
  }

  /** One run of `fetchData` on the given outcomes. */
  function AfterFetch(s: PageState, b: Responses, binding: ErrorBinding): PageState {
    Settled(Begun(s), b, binding)
  }

  datatype Screen = LoadingScreen | ErrorScreen(message: string) | Content

  /** `if (loading) … if (error) …`: an empty message is falsy, so it shows the content. */
  function ScreenOf(s: PageState): (v: Screen)
    ensures v == LoadingScreen <==> s.loading
    ensures v.ErrorScreen? <==> !s.loading && s.error.Some? && s.error.value != ""
    ensures v.ErrorScreen? ==> v.message == s.error.value
  {
    if s.loading then LoadingScreen
    else if s.error.Some? && s.error.value != "" then ErrorScreen(s.error.value)
    else Content
  }

  class DashboardPage {
    var executiveSummary: Option<ExecutiveSummary>
    var financialOverview: Option<FinancialOverview>
    var securityMetrics: Option<SecurityMetrics>
    var rdStatus: Option<RdStatus>
    var supplyChain: Option<SupplyChainPerformance>
    var hrAnalytics: Option<HrAnalytics>
    var loading: bool
    var error: Option<string>

    function State(): PageState
      reads this
    {
      PageState(executiveSummary, financialOverview, securityMetrics, rdStatus, supplyChain, hrAnalytics, loading, error)
    }

    /** The first render: no data, loading, no error. */
    constructor()
      ensures State() == Initial
    {
      executiveSummary, financialOverview, securityMetrics := None, None, None;
      rdStatus, supplyChain, hrAnalytics := None, None, None;
      loading, error := true, None;
    }

    method BeginFetch()
      modifies this
      ensures State() == Begun(old(State()))
    {
      loading := true;
      error := None;
    }

    method CompleteFetch(b: Responses)
      modifies this
      ensures State() == Settled(old(State()), b, PageBinding)
    {
      var rejection := FirstRejection(b);
      if rejection.None? {
        executiveSummary := Some(b.summary.value);
        financialOverview := Some(b.financial.value);
        securityMetrics := Some(b.security.value);
        rdStatus := Some(b.rd.value);
        supplyChain := Some(b.supply.value);
        hrAnalytics := Some(b.hr.value);
      } else {
        error := Some(CatchMessage(rejection.value, PageBinding));
      }
      loading := false;
    }

    /** `fetchData`, run on mount and by the error screen's retry. */
    method FetchData(b: Responses)
      modifies this
      ensures State() == AfterFetch(old(State()), b, PageBinding)
    {
      BeginFetch();
      CompleteFetch(b);
    }

    function View(): (v: Screen)
      reads this
      ensures v == ScreenOf(State())
    {
      ScreenOf(State())
    }
  }

  // ---------------------------------------------------------------------------

  /** A fetch always ends the loading screen; it succeeds exactly when every request does. */
  lemma FetchOutcome(s: PageState, b: Responses, binding: ErrorBinding)
    ensures !AfterFetch(s, b, binding).loading
    ensures AfterFetch(s, b, binding).error.None? <==> AllResolved(b)
    ensures AllResolved(b) ==> ScreenOf(AfterFetch(s, b, binding)) == Content
  {
  }

  /** After a successful fetch the state depends only on the responses, not on what the page showed before. */
  lemma SuccessForgetsHistory(s1: PageState, s2: PageState, b: Responses, binding: ErrorBinding)
    requires AllResolved(b)
    ensures AfterFetch(s1, b, binding) == AfterFetch(s2, b, binding)
  {
  }

  /**
   * A failed fetch keeps the data of the last successful one. As written it
   * stores the fallback text; with the built-in constructor it stores the
   * first rejection's message.
   */
  lemma FailureKeepsData(s: PageState, b: Responses, binding: ErrorBinding)
    requires !AllResolved(b)
    ensures var t := AfterFetch(s, b, binding);
      && t.(loading := s.loading, error := s.error) == s
      && (binding == PageBinding ==> t.error == Some(FallbackMessage))
      && (binding == GlobalErrorConstructor ==> t.error == Some(ErrorMessage(FirstRejection(b).value)))
  {
  }

  /** As written, every failed fetch shows the error screen with the fallback text. */
  lemma FailureShowsFallback(s: PageState, b: Responses)
    requires !AllResolved(b)
    ensures ScreenOf(AfterFetch(s, b, PageBinding)) == ErrorScreen(FallbackMessage)
  {
  }

  /** With the built-in constructor, a request that fails with an HTTP error shows that error's message on the error screen. */
  lemma HttpErrorIsShown(s: PageState, b: Responses, message: string)
    requires !AllResolved(b) && FirstRejection(b) == Some(BuiltinError(message)) && message != ""
    ensures ScreenOf(AfterFetch(s, b, GlobalErrorConstructor)) == ErrorScreen(message)
  {
  }

  /** As written, an HTTP 500 from the first endpoint is reported with the fallback text instead of its message. */
  lemma ErrorMessageAsWrittenDropsMessage()
    ensures ErrorMessageAsWritten(BuiltinError("HTTP error! status: 500")) != "HTTP error! status: 500"
    ensures ErrorMessage(BuiltinError("HTTP error! status: 500")) == "HTTP error! status: 500"
  {
  }
}
