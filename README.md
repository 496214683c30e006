# Verbal AI interviewer: a Dafny model of its core

Verbal AI is a browser application for rehearsing job interviews. The
candidate describes the role. A casting request picks an interviewer persona
and an interview method. A live voice session with that persona follows. At
the end, a scoring request turns the transcript into a feedback report. This
project models the logic that decides what the application does with those
remote replies.

- **Live session** (`InterviewSession`, class `Session`). It models the
  `onmessage` handler:
  - transcription fragments are appended to the interviewer buffer and the
    candidate buffer;
  - the audio parts of a message are scheduled back to back on the output
    clock, and the set of playing sources is tracked;
  - barge-in (`interrupted`) stops everything and resets the scheduler;
  - on `turnComplete`, both buffers are committed to the transcript as
    `"You: …"` and `"<persona>: …"` lines, and the question counter advances.

  The pure functions `Schedule` and `CommitTurn` specify the scheduler and
  the transcript assembler. The methods are proved against them.
- **Services** (`GeminiService`). This covers:
  - the zero-signal gate of `generateFeedback`: its candidate-line filter,
    its word count and its fixed fallback report;
  - the persona lookup of `inferPersona`.

  Each remote reply is a parameter (`Result`).
- **Setup flow** (`JobSetup`, class `JobSetup`). It covers the form, the
  casting request with its fixed fallback casting, the start of the
  interview, the "Modify Parameters" step back, and the pressure bar.
- **Screens** (`App`, class `App`). This is the SETUP → INTERVIEWING →
  FEEDBACK → SETUP state machine and the pure choice of the screen shown.
- **Report view** (`ReportView`). It covers how the signal log splits a
  transcript line at its first colon and how the tips are numbered.
- **JavaScript string semantics** (`JsText`). This covers `trim()`,
  `split(':')`, `join`, `split(/\s+/)` and `startsWith`, over the ECMAScript
  whitespace set.

Asynchronous handlers are modelled as two atomic steps:

- the synchronous part, which returns the request it issues;
- a `Settle…` step, which takes the reply and covers the
  `try`/`catch`/`finally`.

All source paths below are relative to the repository root.

## Model

| member | source | states |
|---|---|---|
| InterviewSession.StartAt | components/InterviewSession.tsx:83 | A chunk starts at the later of the scheduler's next start time and the clock: no earlier than either, and equal to one of them |
| InterviewSession.Schedule | components/InterviewSession.tsx:76-92 | The schedule of a run of chunks gives one start time per chunk, and the next start time never moves back |
| InterviewSession.ScheduleAppend | components/InterviewSession.tsx:82-90 | Scheduling one more chunk appends its start `max(next, now)` and advances the next start time by its duration |
| InterviewSession.StartsNotBeforeClock | components/InterviewSession.tsx:82-89 | Every chunk starts no earlier than the clock reading taken for it and no earlier than the initial next start time |
| InterviewSession.ScheduleNextIsLastEnd | components/InterviewSession.tsx:88-89 | After a non-empty run, the next start time is the end of the last chunk |
| InterviewSession.NoOverlap | components/InterviewSession.tsx:83-89 | Each chunk ends no later than the next one starts: playback never overlaps |
| InterviewSession.FrozenClockIsGapless | components/InterviewSession.tsx:83-89 | With the clock frozen at t0 and the next start time not after it, chunk i starts at t0 plus the durations of the chunks before it, and the run ends at t0 plus their total |
| InterviewSession.ThreeChunksBackToBack | components/InterviewSession.tsx:83-89 | Three chunks on a frozen clock start at t0, t0+d1 and t0+d1+d2, and the next start time becomes t0+d1+d2+d3 |
| InterviewSession.CommitTurnAppends | components/InterviewSession.tsx:102-113 | A completed turn keeps the old transcript as a prefix. It appends `"You: " + trim(user)` only if that is not blank, then `"<persona>: " + trim(model)` only if that is not blank, and nothing else |
| InterviewSession.BlankTurnCommitsNothing | components/InterviewSession.tsx:103-113 | With both buffers blank, completing a turn leaves the transcript unchanged |
| InterviewSession.BothSidesInOrder | components/InterviewSession.tsx:105-113 | With both buffers non-blank, exactly the candidate's line and then the interviewer's line are appended |
| InterviewSession.NextQuestionIndexCounts | components/InterviewSession.tsx:108-111 | The question index grows by exactly one if and only if the interviewer buffer is not blank, and otherwise stays unchanged |
| InterviewSession.Progress | components/InterviewSession.tsx:158 | The progress bar lies between 0 and 100, and reaches 100 exactly when the index has reached the question count |
| InterviewSession.ProgressMonotone | components/InterviewSession.tsx:158 | Progress never decreases as the question index grows |
| InterviewSession.DepthUnits | components/InterviewSession.tsx:192 | The depth counter is `index + 1`, capped at the question count |
| InterviewSession.Labelled | components/InterviewSession.tsx:107-109 | A transcript line is the speaker, then a colon at the speaker's length, a space right after it, then the text |
| InterviewSession.TurnLines | components/InterviewSession.tsx:103-111 | A turn adds at most two lines; `CommitTurnAppends` says which |
| InterviewSession.CommitTurn | components/InterviewSession.tsx:105-113 | The new transcript keeps the old one as a prefix and adds at most two lines; `CommitTurnAppends` says which |
| InterviewSession.NextQuestionIndex | components/InterviewSession.tsx:108-111 | The question index stays or grows by one; `NextQuestionIndexCounts` says when |
| InterviewSession.AudioChunks | components/InterviewSession.tsx:76-77 | A message yields at most one chunk per part; `AudioChunksSingle` and `AudioChunksConcat` say which |
| InterviewSession.AudioChunksUpTo | components/InterviewSession.tsx:76-77 | The audio chunks among the first n parts are at most n |
| InterviewSession.AudioChunksConcat | components/InterviewSession.tsx:76-77 | Selecting the audio parts distributes over concatenation, for all parts and clock readings |
| InterviewSession.AudioChunksSingle | components/InterviewSession.tsx:76-77 | A single part yields a chunk with its duration and clock reading exactly when it carries inline audio data, and nothing otherwise |
| InterviewSession.Session.constructor | components/InterviewSession.tsx:15-28 | The session starts not ready and silent, with an empty transcript, index 0, no playing source, next start time 0 and empty buffers |
| InterviewSession.Session.OnOpen | components/InterviewSession.tsx:48-65 | Opening the connection sets the ready flag and changes nothing else |
| InterviewSession.Session.OnAudioProcess | components/InterviewSession.tsx:52-56 | Each microphone frame sets the candidate-speaking flag to the level test's verdict and changes nothing else |
| InterviewSession.Session.AppendOutputTranscription | components/InterviewSession.tsx:67-69 | An output fragment is appended to the interviewer buffer |
| InterviewSession.Session.AppendInputTranscription | components/InterviewSession.tsx:70-72 | An input fragment is appended to the candidate buffer |
| InterviewSession.Session.ReceiveTranscriptions | components/InterviewSession.tsx:67-72 | Output text goes to the interviewer buffer and input text to the candidate buffer, each appended in arrival order |
| InterviewSession.Session.ScheduleChunk | components/InterviewSession.tsx:80-90 | A new source starts at `max(next, now)`, the next start time moves to its end, the source joins the playing set and the interviewer is marked speaking; every playing source still ends by the next start time |
| InterviewSession.Session.OnSourceEnded | components/InterviewSession.tsx:87 | A source that ends on its own is removed from the playing set, and the other sources and the next start time are unchanged |
| InterviewSession.Session.ScheduleParts | components/InterviewSession.tsx:74-93 | The loop over a message's parts starts one source per audio part, at the start times `Schedule` gives, with the parts' durations. The next start time becomes the schedule's end, and the new sources, all newly created, join the playing set |
| InterviewSession.Session.Interrupt | components/InterviewSession.tsx:95-100 | Barge-in stops exactly the playing sources, empties the set, resets the next start time to 0 and clears the speaking flag. It leaves the buffers, transcript and index alone |
| InterviewSession.Session.InterruptTwice | components/InterviewSession.tsx:95-100 | A second barge-in right after the first stops nothing and leaves the same state |
| InterviewSession.Session.CompleteTurn | components/InterviewSession.tsx:102-117 | Turn complete commits the buffers as `CommitTurn` does, advances the index as `NextQuestionIndex` does, empties both buffers and clears the speaking flag |
| InterviewSession.Session.HandleTurnEvents | components/InterviewSession.tsx:95-117 | Interruption is handled before turn completion, each only when flagged; the combined effect on sources, scheduler, flag, transcript and buffers is stated case by case |
| InterviewSession.Session.OnMessage | components/InterviewSession.tsx:66-118 | One message runs transcription, then audio, then interruption, then turn completion. A message with audio and `interrupted` ends with no playing source and stops the sources it has just started |
| JsText.StartsWith | services/geminiService.ts:62 | `s.startsWith(p)` holds exactly when `s` is `p` followed by the rest of `s` |
| GeminiService.UserLines | services/geminiService.ts:62 | The candidate lines are never more than the transcript lines; what is kept is stated by `UserLinesSingle`, `UserLinesConcat` and `UserLinesExact` |
| GeminiService.UserLinesSingle | services/geminiService.ts:62 | A single line is kept, as itself, exactly when it starts with `"You:"`. With `UserLinesConcat` this defines the filter on every transcript, duplicates and order included |
| GeminiService.UserLinesConcat | services/geminiService.ts:62 | Filtering distributes over concatenation, so candidate lines keep their transcript order |
| GeminiService.UserLinesExact | services/geminiService.ts:62 | Every kept line starts with `"You:"` and comes from the transcript, and every transcript line that starts with `"You:"` is kept |
| GeminiService.WordCount | services/geminiService.ts:64 | The word count is the number of maximal whitespace runs plus one |
| GeminiService.IsZeroSignal | services/geminiService.ts:63-66 | The gate fires exactly when the candidate lines, joined by spaces, count fewer than 5 words; having no candidate line at all always fires it |
| GeminiService.Fallback | services/geminiService.ts:67-79 | The fallback report scores 0 overall and on each of the five axes, in order, has three tips and carries the input transcript |
| GeminiService.NoUserLineCountsOneWord | services/geminiService.ts:63-66 | Without any candidate line, the count of the empty join is 1 and the fallback fires |
| GeminiService.PrefixCountsAsWord | services/geminiService.ts:62-64 | The `"You:"` prefix counts as a word, so `"You: a b c"` scores one more than `"a b c"` |
| GeminiService.FiveUserLinesAreScored | services/geminiService.ts:62-66 | Five or more candidate lines always pass the gate |
| GeminiService.GenerateFeedback | services/geminiService.ts:59-125 | The fallback report is given exactly when the gate fires, with score 0, the five axes in order each at 0, and three tips. Otherwise the reply is used with the transcript attached, or its error is passed on. Either report carries the input transcript |
| GeminiService.FindPersona | services/geminiService.ts:54 | The lookup finds nothing exactly when no persona has the name; otherwise it gives the first persona with that name |
| GeminiService.SelectPersona | services/geminiService.ts:54 | The selected persona is in the list. When a persona has the requested name, it is the first such persona, as `FindPersona` finds it; otherwise it is the first of the list |
| GeminiService.InferPersona | services/geminiService.ts:53-56 | The casting succeeds exactly when the reply does. It carries the reply's inference unchanged, with the persona `SelectPersona` gives: the first one matched by name, or the first of the list |
| GeminiService.InterviewerLineIsNotUserLine | services/geminiService.ts:62 | An interviewer line `"<name>: …"` never starts with `"You:"` when the name has no colon and is not "You" |
| GeminiService.CommittedTurnUserLines | services/geminiService.ts:62 | A completed turn adds to the gate's candidate lines exactly the committed `"You: …"` line, when the candidate said anything |
| GeminiService.LibraryNamesAreNotUserLabel | constants.ts:66-106 | No interviewer of the library has a colon in its name or is called "You" |
| JsText.TrimSpec | components/InterviewSession.tsx:103-104 | `trim()` gives the empty string exactly for blank text, and otherwise text with no whitespace at either end |
| JsText.Trim | components/InterviewSession.tsx:103-104 | `trim()` never lengthens the text; `TrimSpec`, `TrimOfPadded` and `TrimIdempotent` characterize it |
| JsText.TrimIdempotent | components/InterviewSession.tsx:103-104 | Trimming twice is trimming once |
| JsText.TrimOfPadded | components/InterviewSession.tsx:103-104 | Trimming removes exactly the blank padding around unpadded text |
| JsText.Split | components/FeedbackReport.tsx:91 | `split(':')` gives at least one piece and no piece holds a colon. There is one piece exactly when the text has no colon, and the first piece is the text up to the first colon |
| JsText.JoinSplit | components/FeedbackReport.tsx:91-97 | Joining the pieces of a split with the separator restores the text |
| JsText.Join | components/FeedbackReport.tsx:97 | `join` of at least one piece starts with the first piece; `JoinSplit` makes it the inverse of `split` |
| JsText.SplitWhitespace | services/geminiService.ts:64 | `split(/\s+/)` gives one piece more than there are whitespace runs, and no piece contains whitespace |
| JobSetup.FallbackCasting | components/JobSetup.tsx:27-38 | The fallback casting plays `PERSONAS[0]`, names `PERSONAS[1]` as selected, with umbrella Technical & Systems, method First Principles, pressure 5 and the pillars Clarity and Logic |
| JobSetup.FallbackPersonaMismatch | components/JobSetup.tsx:27-38 | The fallback casting plays one interviewer (Sarah) while naming another (Claire) as selected |
| JobSetup.CastingOutcome | components/JobSetup.tsx:22-38 | On success the casting result is the reply's inference with the matched library persona. On failure it is the fixed fallback |
| JobSetup.Round | components/JobSetup.tsx:52 | `Math.round` gives the integer within one half below and strictly less than one half above |
| JobSetup.RoundWhole | components/JobSetup.tsx:52 | Rounding a whole number gives it back, so the default of seven questions is passed on as 7 |
| JobSetup.NextDisabled | components/JobSetup.tsx:180 | The Next button is disabled exactly when the title is empty or inference runs: both disable it, and a non-empty title with no request running enables it; `BeginNext` issues the request on every enabled click |
| JobSetup.PressureSegments | components/JobSetup.tsx:95-96 | The pressure bar has ten segments, and the lit ones form a prefix |
| JobSetup.PressureBarFill | components/JobSetup.tsx:95-96 | A whole score n from 0 to 10 lights exactly n segments |
| JobSetup.JobSetup.constructor | components/JobSetup.tsx:12-17 | The form starts empty, at Mid seniority and seven questions, not inferring and without a casting result |
| JobSetup.JobSetup.SetJobTitle | components/JobSetup.tsx:144 | Typing sets the job title |
| JobSetup.JobSetup.SetCompanyUrl | components/JobSetup.tsx:155 | Typing sets the company URL |
| JobSetup.JobSetup.SetSeniority | components/JobSetup.tsx:165 | Choosing a level sets the seniority |
| JobSetup.JobSetup.BeginNext | components/JobSetup.tsx:19-23 | With an empty title nothing happens. Otherwise the casting request is issued with the form's fields and `isInferring` is set. A click on the enabled button (`NextDisabled` false) always issues it |
| JobSetup.JobSetup.SettleNext | components/JobSetup.tsx:22-41 | The settled request stores `CastingOutcome` (the result, or the fallback) and clears `isInferring` on either branch, so the Next button is enabled again exactly when the title is non-empty |
| JobSetup.JobSetup.FinalStart | components/JobSetup.tsx:44-55 | A configuration is produced exactly when a casting result exists. It carries that result's persona and inference, the form's fields and the rounded question count |
| JobSetup.JobSetup.ModifyParameters | components/JobSetup.tsx:120 | Going back clears the casting result and keeps the form fields, so the Next button stays as enabled or disabled as it was |
| App.Render | App.tsx:66-133 | Each screen shows exactly when its condition holds. The session needs INTERVIEWING and a config. The spinner shows while generating. The report needs both a report and a config. Otherwise the feedback state shows the error panel |
| App.App.CurrentScreen | App.tsx:66-133 | The screen shown is `Render` of the current state; the methods below state it after each step |
| App.App.constructor | App.tsx:14-19 | The application starts on the setup screen, Parameters tab, with no config, no report and nothing being generated |
| App.App.SetActiveTab | App.tsx:77-83 | The tab buttons set the active tab |
| App.App.SetActiveTheme | App.tsx:94 | The theme picker sets the active theme |
| App.App.StartInterview | App.tsx:34-37 | Starting stores the config and shows the session for it |
| App.App.BeginEndInterview | App.tsx:39-45 | Ending without a config is a no-op. With one, the state becomes FEEDBACK with the spinner, and the scoring request is issued for the transcript, job title and persona |
| App.App.SettleFeedback | App.tsx:44-51 | A generated report is stored, and a failure keeps the previous report. The spinner stops on either branch |
| App.App.Reset | App.tsx:54-58 | Reset returns to SETUP with no config and no report, and keeps the tab and the theme |
| App.SettledFeedbackScreen | App.tsx:119-133 | After settlement the report shows, carrying the interview's transcript, when generation succeeds. A failed request with no earlier report shows the error panel. A zero-signal transcript always reaches the fallback report |
| ReportView.ParseLineSplitsAtFirstColon | components/FeedbackReport.tsx:91-97 | The speaker is the text before the first colon, or the whole line without one. It is highlighted exactly when it is "You". `speaker + ":" + content` is the line when it has a colon, and the line plus a colon otherwise |
| ReportView.ParseLine | components/FeedbackReport.tsx:91-97 | The speaker is a colon-free prefix of the line, highlighted exactly when it is "You"; `ParseLineSplitsAtFirstColon` adds the content and the rejoin |
| ReportView.LabelledParsesBack | components/FeedbackReport.tsx:91-97 | A committed line `speaker + ": " + text` parses back to that speaker, when it has no colon, with `" " + text` as content |
| ReportView.UserLineIsHighlighted | components/FeedbackReport.tsx:94 | Every committed candidate line is shown under the highlighted speaker "You" |
| ReportView.PersonaLineIsNotHighlighted | components/FeedbackReport.tsx:94 | No interviewer line of the library is highlighted |
| ReportView.RenderLog | components/FeedbackReport.tsx:90 | The signal log has one entry per transcript line |
| ReportView.RenderLogShowsTranscript | components/FeedbackReport.tsx:90-97 | Entry i of the log is transcript line i, shown as written when it has a colon |
| ReportView.Decimal | components/FeedbackReport.tsx:78 | A number is written as at least one decimal digit, with a leading zero exactly for 0 |
| ReportView.DecimalRoundTrip | components/FeedbackReport.tsx:78 | The decimal notation of a number reads back as that number |
| ReportView.DecimalLength | components/FeedbackReport.tsx:78 | A number is written with one digit exactly when it is below ten |
| ReportView.TipLabelNumbers | components/FeedbackReport.tsx:76-78 | Tip i is labelled "0" followed by i+1. The label has two characters exactly for the first nine tips |
| ReportView.TipLabel | components/FeedbackReport.tsx:78 | A tip label has at least two characters and starts with "0" |
| ReportView.TenthTipLabel | components/FeedbackReport.tsx:78 | The tenth tip is labelled "010" |

## Left out

- Audio codec: `createBlob`, `decode` and `decodeAudioData` live in `services/audioService`, which is not part of this model. A decoded part is reduced to a non-negative duration.
- InterviewSession.Session.OnMessage and InterviewSession.Session.ScheduleParts: assume that `resume()` and `decodeAudioData` succeed (components/InterviewSession.tsx:79-81). In the source a rejection there throws out of the async handler. The message's remaining parts are then skipped, its `interrupted` and `turnComplete` handling (lines 95-117) does not run, and `isModelSpeaking` is left as it was when the rejection came: true if line 80 already ran for this or an earlier part, its previous value if `resume()` (line 79) rejects before the first audio part. The model does not capture that path.
- InterviewSession.NoOverlap, InterviewSession.FrozenClockIsGapless, InterviewSession.Progress: clock readings, durations, start times and the progress ratio are IEEE doubles in the source (lines 83, 89, 158) and reals in the model. Rounding is not modelled, so these hold exactly over the reals and only up to rounding in the source.
- Volume estimation: the mean absolute amplitude (components/InterviewSession.tsx:55-56) uses floating point. `OnAudioProcess` takes its verdict as a boolean.
- Device and network I/O: `getUserMedia`, audio-context creation and resume, `ai.live.connect`, `sendRealtimeInput`, `generateContent` and `JSON.parse` are left out. So are prompt strings and response schemas. Remote replies are parameters of type `Result`, and the output clock readings are a parameter of `OnMessage`, one per part.
- `onerror`, `onclose` and the teardown on unmount only log or release foreign resources. They are not modelled.
- InterviewSession.Session.OnMessage: assumes the output audio context exists, which is the case once the session is open. The message's `await` points are treated as one atomic step, and interleaving of two messages is not modelled.
- InterviewSession.Session.Interrupt: `stop()` on each audio node is a foreign call. It is modelled by returning the set of stopped sources.
- InterviewSession.Session.AppendOutputTranscription: a transcription object without `text` would append the string "undefined" in JavaScript. Transcriptions are modelled by their text only.
- InterviewSession.Progress: requires a positive question count. A count of 0 gives NaN or Infinity in JavaScript. The setup flow always passes 7.
- React `StrictMode` double invocation of the `setTranscript` updater is not modelled. The transcript update and the index update are one step.
- GeminiService.InferPersona: the umbrella and methodology are modelled as the enumerations the types declare. A reply whose strings fall outside them is not modelled.
- App.App.SetActiveTheme: themes are named by a string. The theme table and the CSS variable injection (App.tsx:22-32) are presentation.
- Header, ThemeSelector, Visualizer, framer-motion animations and styling are presentation and are not modelled.
