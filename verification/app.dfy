/** The application state that `processEmissions` and the navigation update:
    the current page, the emissions data and the error banner. */
module App {
  import opened Wrappers
  import opened Navigation
  import opened Footprint

  /** `currentPage`, `emissionsData` (None for null) and `error`. */
  datatype State = State(page: Page, data: Option<EmissionsData>, error: Option<string>)

  /** The state the component mounts with. */
  const Initial := State(Home, None, None)

  /** What can happen to the state. */
  datatype Event =
    | NavClick(button: Page)          // a navigation bar button
    | StartUpload                     // the upload call-to-action of the home and dashboard pages
    | Processed(table: seq<seq<string>>) // a parsed CSV reaches processEmissions
    | ParseFailed(message: string)    // the CSV parser reports an error, or is missing
    | DismissError                    // the error banner's dismiss button

  /** The page content of the main area, below the error banner. */
  datatype View = HomeView | UploadView | DashboardView(data: EmissionsData) | Nothing

  function Render(s: State): (v: View)
    ensures v.DashboardView? <==> s.page == Dashboard && s.data.Some?
    ensures v.Nothing? <==> s.page == Dashboard && s.data.None?
  {
    match s.page
    case Home => HomeView
    case Upload => UploadView
    case Dashboard => if s.data.Some? then DashboardView(s.data.value) else Nothing
  }

  /** Whether the user can cause the event in this state. The upload input
      is on the upload page only, the upload call-to-action on the home and
      dashboard pages only, and the dismiss button shows only with an error.
      The loading overlay covers the whole window while a file is parsed and
      processed, which stops pointer input, so an upload is taken as one
      event. Keyboard input during an upload is not covered: see
      KeyboardNavigationDuringUpload. */
  predicate Enabled(s: State, ev: Event) {
    match ev
    case NavClick(_) => true
    case StartUpload => s.page == Home || (s.page == Dashboard && s.data.Some?)
    case Processed(_) => s.page == Upload
    case ParseFailed(_) => s.page == Upload
    case DismissError => s.error.Some?
  }

  /** The state after the event. */
  function Step(s: State, ev: Event): (r: State)
    // navigation moves the page and nothing else
    ensures ev.NavClick? ==> r == s.(page := Click(s.page, s.data.Some?, ev.button))
    ensures ev.StartUpload? ==> r == s.(page := Upload)
    // a successful run replaces the data, clears the error and opens the dashboard
    ensures ev.Processed? && ProcessEmissions(ev.table).Success? ==>
              r == State(Dashboard, Some(ProcessEmissions(ev.table).value), None)
    // a failed run drops the data, shows the error's message and stays on the page
    ensures ev.Processed? && ProcessEmissions(ev.table).Failure? ==>
              r == State(s.page, None, Some(ProcessEmissions(ev.table).error.Message()))
    ensures ev.ParseFailed? ==> r == s.(error := Some(ev.message))
    ensures ev.DismissError? ==> r == s.(error := None)
  {
    match ev
    case NavClick(button) => s.(page := Click(s.page, s.data.Some?, button))
    case StartUpload => s.(page := Upload)
    case Processed(table) =>
      (match ProcessEmissions(table)
       case Success(e) => State(Dashboard, Some(e), None)
       case Failure(err) => State(s.page, None, Some(err.Message())))
    case ParseFailed(message) => s.(error := Some(message))
    case DismissError => s.(error := None)
  }

  /** The dashboard page is only ever current together with data. */
  predicate Invariant(s: State) {
    s.page == Dashboard ==> s.data.Some?
  }

  /** Every enabled event keeps the invariant. */
  lemma StepKeepsInvariant(s: State, ev: Event)
    requires Invariant(s) && Enabled(s, ev)
    ensures Invariant(Step(s, ev))
  {
    if ev.NavClick? {
      NoDashboardWithoutData(s.page, s.data.Some?, ev.button);
    }
  }

  /** The invariant needs the upload to finish on the upload page: a failed
      run that ends on the dashboard leaves the dashboard current with no
      data. */
  lemma FailureOnDashboardBreaksInvariant(e: EmissionsData)
    ensures var s := State(Dashboard, Some(e), None);
            Invariant(s) && !Invariant(Step(s, Processed([])))
  {
  }

  /** The overlay has no focus trap and the navigation bar ignores the
      loading flag, so with data present a keyboard user can move to the
      dashboard while a file is processed. If that upload then fails, the
      dashboard is current without data: no page content shows, only the
      error banner. The model's events exclude this interleaving. */
  lemma KeyboardNavigationDuringUpload(e: EmissionsData)
    ensures var s, evs := State(Upload, Some(e), None), [NavClick(Dashboard), Processed([])];
            && Run(s, evs) == State(Dashboard, None, Some(NoData.Message()))
            && Render(Run(s, evs)).Nothing?
            && !Possible(s, evs)
  {
  }

  /** The events applied in order. */
  function Run(s: State, evs: seq<Event>): (r: State)
    ensures |evs| == 0 ==> r == s
    decreases |evs|
  {
    if |evs| == 0 then s else Run(Step(s, evs[0]), evs[1..])
  }

  /** Each event is enabled in the state it is applied to. */
  predicate Possible(s: State, evs: seq<Event>)
    decreases |evs|
  {
    |evs| == 0 || (Enabled(s, evs[0]) && Possible(Step(s, evs[0]), evs[1..]))
  }

  lemma {:induction false} RunKeepsInvariant(s: State, evs: seq<Event>)
    requires Invariant(s) && Possible(s, evs)
    ensures Invariant(Run(s, evs))
    decreases |evs|
  {
    if |evs| > 0 {
      StepKeepsInvariant(s, evs[0]);
      RunKeepsInvariant(Step(s, evs[0]), evs[1..]);
    }
  }

  /** From mount on, through events the pointer can cause, the page content
      is never missing: whenever the page is the dashboard, the dashboard is
      rendered with data. */
  lemma NeverBlank(evs: seq<Event>)
    requires Possible(Initial, evs)
    ensures Invariant(Run(Initial, evs))
    ensures !Render(Run(Initial, evs)).Nothing?
  {
    RunKeepsInvariant(Initial, evs);
  }

  /** After a successful upload the dashboard shows exactly the new data, and
      the navigation bar offers it. */
  lemma SuccessShowsDashboard(s: State, table: seq<seq<string>>)
    requires ProcessEmissions(table).Success?
    ensures Render(Step(s, Processed(table))) == DashboardView(ProcessEmissions(table).value)
    ensures !Disabled(Dashboard, Step(s, Processed(table)).data.Some?)
  {
  }
}
