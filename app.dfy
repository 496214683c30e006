/**
 * The application shell (App.tsx): the screen state machine
 * SETUP -> INTERVIEWING -> FEEDBACK -> SETUP as the class `App`, and the
 * choice of what the main area shows as the pure function `Render`.
 *
 * `handleEndInterview` is asynchronous: it is modelled as the synchronous
 * part up to the feedback request (`BeginEndInterview`) and the settlement
 * of that request (`SettleFeedback`), which covers the
 * `try`/`catch`/`finally`.
 */
module App {
  import opened Wrappers
  import opened Types
  import GeminiService

  /** The two tabs of the setup screen. */
  datatype Tab = Parameters | Interface

  /** The arguments of `generateFeedback(transcript, config.jobTitle, config.persona)`. */
  datatype FeedbackRequest = FeedbackRequest(transcript: seq<string>, jobTitle: string, persona: Persona)

  /** What the main area shows. */
  datatype Screen =
    | SetupForm(tab: Tab)
    | SessionView(config: InterviewConfig)
    | Analyzing
    | ReportScreen(report: FeedbackReport, config: InterviewConfig)
    | ErrorPanel
    | Empty

  /**
   * The screen chosen from the state: the session only while interviewing
   * with a configuration, the spinner while feedback is being generated, the
   * report once both a report and a configuration are held, the error panel
   * otherwise on the feedback screen.
   */
  function Render(appState: AppState, activeTab: Tab, config: Option<InterviewConfig>,
                  feedback: Option<FeedbackReport>, isGeneratingFeedback: bool): (s: Screen)
    ensures s.SetupForm? <==> appState == Setup
    ensures s.SetupForm? ==> s.tab == activeTab
    ensures s.SessionView? <==> appState == Interviewing && config.Some?
    ensures s.SessionView? ==> s.config == config.value
    ensures s.Analyzing? <==> appState == Feedback && isGeneratingFeedback
    ensures s.ReportScreen? <==> appState == Feedback && !isGeneratingFeedback && feedback.Some? && config.Some?
    ensures s.ReportScreen? ==> s.report == feedback.value && s.config == config.value
    ensures s.ErrorPanel? <==> appState == Feedback && !isGeneratingFeedback && (feedback.None? || config.None?)
    ensures s.Empty? <==> appState == Interviewing && config.None?
  {
    match appState
    case Setup => SetupForm(activeTab)
    case Interviewing => if config.Some? then SessionView(config.value) else Empty
    case Feedback =>
      if isGeneratingFeedback then Analyzing
      else if feedback.Some? && config.Some? then ReportScreen(feedback.value, config.value)
      else ErrorPanel
  }

  class App {
    var appState: AppState
    var activeTab: Tab
    /** The chosen theme, by name; the theme table itself is presentation. */
    var activeTheme: string
    var config: Option<InterviewConfig>
    var feedback: Option<FeedbackReport>
    var isGeneratingFeedback: bool

    /** The screen the main area shows for the current state. */
    function CurrentScreen(): Screen
      reads this
    {
      Render(appState, activeTab, config, feedback, isGeneratingFeedback)
    }

    constructor (initialTheme: string)
      ensures appState == Setup && activeTab == Parameters && activeTheme == initialTheme
      ensures config == None && feedback == None && !isGeneratingFeedback
      ensures CurrentScreen() == SetupForm(Parameters)
    {
      appState := Setup;
      activeTab := Parameters;
      activeTheme := initialTheme;
      config := None;
      feedback := None;
      isGeneratingFeedback := false;
    }

    method SetActiveTab(tab: Tab)
      modifies this`activeTab
      ensures activeTab == tab
    {
      activeTab := tab;
    }

    method SetActiveTheme(theme: string)
      modifies this`activeTheme
      ensures activeTheme == theme
    {
      activeTheme := theme;
    }

    /** `handleStartInterview`: store the configuration and show the session. */
    method StartInterview(c: InterviewConfig)
      modifies this`config, this`appState
      ensures config == Some(c) && appState == Interviewing
      ensures CurrentScreen() == SessionView(c)
    {
      config := Some(c);
      appState := Interviewing;
    }

    /**
     * The synchronous part of `handleEndInterview`: without a configuration
     * nothing happens; otherwise the feedback screen shows its spinner and
     * the feedback request is issued.
     */
    method BeginEndInterview(transcript: seq<string>) returns (request: Option<FeedbackRequest>)
      modifies this`isGeneratingFeedback, this`appState
      ensures old(config).None? ==> request == None
      ensures old(config).None? ==> appState == old(appState) && isGeneratingFeedback == old(isGeneratingFeedback)
      ensures old(config).Some? ==>
        request == Some(FeedbackRequest(transcript, config.value.jobTitle, config.value.persona))
      ensures old(config).Some? ==> appState == Feedback && isGeneratingFeedback && CurrentScreen() == Analyzing
    {
      if config.None? {
        return None;
      }
      isGeneratingFeedback := true;
      appState := Feedback;
      request := Some(FeedbackRequest(transcript, config.value.jobTitle, config.value.persona));
    }

    /**
     * The settlement of the feedback request: a report is stored when
     * `generateFeedback` yields one, the previous report is kept when it
     * fails, and the spinner stops either way.
     */
    method SettleFeedback(request: FeedbackRequest, reply: Result<GeminiService.ReportData, string>)
      modifies this`feedback, this`isGeneratingFeedback
      ensures var r := GeminiService.GenerateFeedback(request.transcript, reply);
        feedback == if r.Ok? then Some(r.value) else old(feedback)
      ensures !isGeneratingFeedback
    {
      var r := GeminiService.GenerateFeedback(request.transcript, reply);
      if r.Ok? {
        feedback := Some(r.value);
      }
      isGeneratingFeedback := false;
    }

    /** `handleReset`: back to setup, forgetting the configuration and the report. */
    method Reset()
      modifies this`appState, this`config, this`feedback
      ensures appState == Setup && config == None && feedback == None
      ensures CurrentScreen() == SetupForm(activeTab)
    {
      appState := Setup;
      config := None;
      feedback := None;
    }
  }

  /**
   * On the feedback screen with a configuration held, a settled request
   * shows the report carrying the interview's transcript when generation
   * succeeds, and when it fails shows the report held before, or the error
   * panel if there was none. A transcript without signal always reaches the
   * report, whatever the reply.
   */
  lemma {:induction false} SettledFeedbackScreen(c: InterviewConfig, tab: Tab, before: Option<FeedbackReport>,
                                                  transcript: seq<string>, reply: Result<GeminiService.ReportData, string>)
    ensures var r := GeminiService.GenerateFeedback(transcript, reply);
      var after := if r.Ok? then Some(r.value) else before;
      var s := Render(Feedback, tab, Some(c), after, false);
      && (r.Ok? ==> s == ReportScreen(r.value, c) && s.report.transcript == transcript)
      && (r.Err? && before.None? ==> s == ErrorPanel)
      && (GeminiService.IsZeroSignal(transcript) ==> s.ReportScreen? && GeminiService.IsZeroSignalReport(s.report))
      && (!GeminiService.IsZeroSignal(transcript) && reply.Err? && before.None? ==> s == ErrorPanel)
  {
  }
}
