/**
 * The pure parts of services/geminiService.ts: the zero-signal gate and the
 * fixed fallback report of `generateFeedback`, and the persona lookup of
 * `inferPersona`. The two remote calls are replaced by their replies, given
 * as parameters: `Err` stands for a rejected request or a reply that failed to parse.
 */
module GeminiService {
  import opened Wrappers
  import opened Types
  import opened JsText
  import InterviewSession

  /** The prefix that marks a line of the transcript as the candidate's. */
  const USER_PREFIX: string := "You:"

  /** Below this many words the session is scored by the fallback report. */
  const MIN_WORDS: nat := 5

  /** The five behavioural axes, in the order the report lists them. */
  const AXES: seq<string> := ["Composure", "Clarity", "Empathy", "Rule Adherence", "Accountability"]

  /** The structured reply of the scoring request, before the transcript is attached. */
  datatype ReportData = ReportData(overallScore: real, summary: string, axes: seq<FeedbackSection>, tips: seq<string>)

  /** `transcript.filter(line => line.startsWith('You:'))`. */
  function UserLines(transcript: seq<string>): (r: seq<string>)
    ensures |r| <= |transcript|
    decreases |transcript|
  {
    if transcript == [] then []
    else (if StartsWith(transcript[0], USER_PREFIX) then [transcript[0]] else []) + UserLines(transcript[1..])
  }

  /** Filtering distributes over concatenation, so the kept lines stay in transcript order. */
  lemma {:induction false} UserLinesConcat(a: seq<string>, b: seq<string>)
    ensures UserLines(a + b) == UserLines(a) + UserLines(b)
    decreases |a|
  {
    if a == [] {
      assert a + b == b;
    } else {
      assert (a + b)[0] == a[0];
      assert (a + b)[1..] == a[1..] + b;
      UserLinesConcat(a[1..], b);
    }
  }

  /** A single line is kept exactly when it starts with "You:"; with `UserLinesConcat` this pins the filter down. */
  lemma UserLinesSingle(line: string)
    ensures UserLines([line]) == if StartsWith(line, USER_PREFIX) then [line] else []
  {
    assert [line][1..] == [];
  }

  /** The kept lines are exactly the transcript lines that start with "You:". */
  lemma {:induction false} UserLinesExact(transcript: seq<string>)
    ensures forall k :: 0 <= k < |UserLines(transcript)| ==> StartsWith(UserLines(transcript)[k], USER_PREFIX)
    ensures forall line :: line in UserLines(transcript) ==> line in transcript
    ensures forall line :: line in transcript && StartsWith(line, USER_PREFIX) ==> line in UserLines(transcript)
    decreases |transcript|
  {
    if transcript != [] {
      UserLinesExact(transcript[1..]);
      var head := if StartsWith(transcript[0], USER_PREFIX) then [transcript[0]] else [];
      var r := UserLines(transcript);
      assert r == head + UserLines(transcript[1..]);
      forall k | 0 <= k < |r| ensures StartsWith(r[k], USER_PREFIX) {
        if k >= |head| { assert r[k] == UserLines(transcript[1..])[k - |head|]; }
      }
      forall line | line in r ensures line in transcript {
        if line !in head { assert line in UserLines(transcript[1..]); }
      }
      forall line | line in transcript && StartsWith(line, USER_PREFIX) ensures line in r {
        if line != transcript[0] { assert line in transcript[1..]; }
      }
    }
  }

  /** `text.split(/\s+/).length`. */
  function WordCount(text: string): (n: nat)
    ensures n == Runs(text) + 1
  {
    |SplitWhitespace(text)|
  }

  /** The gate of `generateFeedback`: no candidate line, or fewer than five words across them. */
  predicate IsZeroSignal(transcript: seq<string>): (zero: bool)
    ensures UserLines(transcript) == [] ==> zero
    ensures zero <==> WordCount(Join(UserLines(transcript), " ")) < MIN_WORDS
  {
    var userLines := UserLines(transcript);
    assert userLines == [] ==> SplitWhitespace(Join(userLines, " ")) == [""];
    |userLines| == 0 || WordCount(Join(userLines, " ")) < MIN_WORDS
  }

  /** The report returned when the gate fires: zero on every axis, three fixed tips. */
  function Fallback(transcript: seq<string>): (report: FeedbackReport)
    ensures IsZeroSignalReport(report)
    ensures report.transcript == transcript
  {
    FeedbackReport(
      0.0,
      "NO SIGNAL DETECTED. The session was terminated without significant candidate input.",
      [ FeedbackSection("Composure", 0.0, "Failure to engage."),
        FeedbackSection("Clarity", 0.0, "No verbal data."),
        FeedbackSection("Empathy", 0.0, "No social interaction."),
        FeedbackSection("Rule Adherence", 0.0, "Protocol violated."),
        FeedbackSection("Accountability", 0.0, "Zero ownership.") ],
      ["Ensure mic is active.", "Answer questions directly.", "Follow protocols."],
      transcript)
  }

  /** What a zero-signal report looks like. */
  predicate IsZeroSignalReport(report: FeedbackReport) {
    && report.overallScore == 0.0
    && |report.axes| == |AXES|
    && (forall k :: 0 <= k < |AXES| ==> report.axes[k].axis == AXES[k] && report.axes[k].score == 0.0)
    && |report.tips| == 3
  }

  /**
   * `generateFeedback(transcript, …)`: the fallback report when the gate fires
   * (no request is made, so the reply is ignored); otherwise the scoring
   * reply with the transcript attached, or the reply's error.
   */
  function GenerateFeedback(transcript: seq<string>, reply: Result<ReportData, string>): (r: Result<FeedbackReport, string>)
    ensures r.Ok? ==> r.value.transcript == transcript
    ensures IsZeroSignal(transcript) ==> r.Ok? && IsZeroSignalReport(r.value)
    ensures !IsZeroSignal(transcript) ==> (r.Ok? <==> reply.Ok?)
    ensures !IsZeroSignal(transcript) && reply.Ok? ==>
      && r.value.overallScore == reply.value.overallScore
      && r.value.summary == reply.value.summary
      && r.value.axes == reply.value.axes
      && r.value.tips == reply.value.tips
  {
    if IsZeroSignal(transcript) then Ok(Fallback(transcript))
    else match reply
      case Ok(data) => Ok(FeedbackReport(data.overallScore, data.summary, data.axes, data.tips, transcript))
      case Err(e) => Err(e)
  }

  /** Without any candidate line the words of the empty join number one, so the `hasUserSpoken` test never decides alone. */
  lemma NoUserLineCountsOneWord(transcript: seq<string>)
    requires UserLines(transcript) == []
    ensures WordCount(Join(UserLines(transcript), " ")) == 1
    ensures IsZeroSignal(transcript)
  {
    assert SplitWhitespace("") == [""];
  }

  /**
   * The "You:" prefix is itself a word: a committed candidate line scores one
   * word more than its answer ("You: a b c" scores four).
   */
  lemma PrefixCountsAsWord(answer: string)
    requires answer != [] && !IsWhitespace(answer[0])
    ensures WordCount("You: " + answer) == WordCount(answer) + 1
  {
    var rest := [' '] + answer;
    assert "You: " + answer == USER_PREFIX + rest;
    assert !IsWhitespace('Y') && !IsWhitespace('o') && !IsWhitespace('u') && !IsWhitespace(':');
    WordCharsKeepRuns(USER_PREFIX, rest);
    RunsAfterSpace(answer);
  }

  /** Characters that are not whitespace in front of a string add no run. */
  lemma {:induction false} WordCharsKeepRuns(w: string, s: string)
    requires forall i :: 0 <= i < |w| ==> !IsWhitespace(w[i])
    ensures Runs(w + s) == Runs(s)
    decreases |w|
  {
    if w != [] {
      assert (w + s)[0] == w[0];
      assert (w + s)[1..] == w[1..] + s;
      WordCharsKeepRuns(w[1..], s);
    } else {
      assert w + s == s;
    }
  }

  lemma RunsAfterSpace(s: string)
    requires s != [] && !IsWhitespace(s[0])
    ensures Runs([' '] + s) == 1 + Runs(s)
  {
    var t := [' '] + s;
    assert t[0] == ' ' && IsWhitespace(' ');
    assert t[1..] == s;
    assert TrimStart(s) == s;
    assert TrimStart(t) == s;
  }

  /** A line that starts with "You:" starts with a character that is not whitespace. */
  lemma UserLineStartsWithWord(line: string)
    requires StartsWith(line, USER_PREFIX)
    ensures |line| > 0 && !IsWhitespace(line[0])
  {
    assert line[0] == line[..4][0] == 'Y';
  }

  /** The first character of a join is the first character of its first piece. */
  lemma JoinHead(pieces: seq<string>, sep: string)
    requires |pieces| >= 1 && |pieces[0]| > 0
    ensures |Join(pieces, sep)| > 0 && Join(pieces, sep)[0] == pieces[0][0]
  {
  }

  /** Joining lines that each start with a word, with single spaces, leaves at least one run between neighbours. */
  lemma {:induction false} JoinedRuns(lines: seq<string>)
    requires forall k :: 0 <= k < |lines| ==> |lines[k]| > 0 && !IsWhitespace(lines[k][0])
    ensures Runs(Join(lines, " ")) + 1 >= |lines|
    decreases |lines|
  {
    if |lines| > 1 {
      var tail := Join(lines[1..], " ");
      JoinedRuns(lines[1..]);
      JoinHead(lines[1..], " ");
      assert Join(lines, " ") == lines[0] + (" " + tail);
      RunsOfSuffix(lines[0], " " + tail);
      assert (" " + tail)[1..] == tail;
      assert TrimStart(" " + tail) == tail;
    }
  }

  /** Five or more candidate lines always reach the scoring request. */
  lemma FiveUserLinesAreScored(transcript: seq<string>)
    requires |UserLines(transcript)| >= MIN_WORDS
    ensures !IsZeroSignal(transcript)
  {
    var lines := UserLines(transcript);
    UserLinesExact(transcript);
    forall k | 0 <= k < |lines| ensures |lines[k]| > 0 && !IsWhitespace(lines[k][0]) {
      UserLineStartsWithWord(lines[k]);
    }
    JoinedRuns(lines);
  }

  /** `name` is the name of the persona at index `i` and of none before it. */
  predicate FirstNamed(personas: seq<Persona>, name: string, i: int) {
    0 <= i < |personas| && personas[i].name == name && forall j :: 0 <= j < i ==> personas[j].name != name
  }

  /** `availablePersonas.find(p => p.name === name)`. */
  function FindPersona(personas: seq<Persona>, name: string): (r: Option<Persona>)
    ensures r.None? <==> forall i :: 0 <= i < |personas| ==> personas[i].name != name
    ensures r.Some? ==> exists i :: FirstNamed(personas, name, i) && personas[i] == r.value
    decreases |personas|
  {
    if personas == [] then None
    else if personas[0].name == name then
      assert FirstNamed(personas, name, 0);
      Some(personas[0])
    else
      var r := FindPersona(personas[1..], name);
      FindPersonaInTail(personas, name, r);
      r
  }

  /** A match found in the tail of the library, past a first persona of another name, is the first match. */
  lemma FindPersonaInTail(personas: seq<Persona>, name: string, r: Option<Persona>)
    requires personas != [] && personas[0].name != name
    requires r.None? <==> forall i :: 0 <= i < |personas[1..]| ==> personas[1..][i].name != name
    requires r.Some? ==> exists i :: FirstNamed(personas[1..], name, i) && personas[1..][i] == r.value
    ensures r.None? <==> forall i :: 0 <= i < |personas| ==> personas[i].name != name
    ensures r.Some? ==> exists i :: FirstNamed(personas, name, i) && personas[i] == r.value
  {
    if r.Some? {
      var i :| FirstNamed(personas[1..], name, i) && personas[1..][i] == r.value;
      forall j | 0 <= j < i + 1 ensures personas[j].name != name {
        if j > 0 { assert personas[j] == personas[1..][j - 1]; }
      }
      assert FirstNamed(personas, name, i + 1);
    } else {
      forall i | 0 <= i < |personas| ensures personas[i].name != name {
        if i > 0 { assert personas[i] == personas[1..][i - 1]; }
      }
    }
  }

  /** The persona chosen for a casting reply: the first one named as selected, else the first of the library. */
  function SelectPersona(personas: seq<Persona>, name: string): (p: Persona)
    requires |personas| > 0
    ensures p in personas
    ensures (exists i :: 0 <= i < |personas| && personas[i].name == name) ==> p.name == name
    ensures (forall i :: 0 <= i < |personas| ==> personas[i].name != name) ==> p == personas[0]
    ensures FindPersona(personas, name).Some? ==> p == FindPersona(personas, name).value
  {
    FindPersona(personas, name).GetOr(personas[0])
  }

  /** `inferPersona(…)` once the classification reply is in. */
  function InferPersona(personas: seq<Persona>, reply: Result<InferenceResult, string>): (r: Result<Casting, string>)
    requires |personas| > 0
    ensures r.Ok? <==> reply.Ok?
    ensures r.Ok? ==> r.value.inference == reply.value && r.value.persona in personas
    ensures r.Ok? ==> (r.value.persona.name == reply.value.selectedPersona
                       || (r.value.persona == personas[0]
                           && forall i :: 0 <= i < |personas| ==> personas[i].name != reply.value.selectedPersona))
    ensures r.Ok? ==> r.value.persona == SelectPersona(personas, reply.value.selectedPersona)
  {
    match reply
    case Ok(inference) => Ok(Casting(SelectPersona(personas, inference.selectedPersona), inference))
    case Err(e) => Err(e)
  }

  /** An interviewer's line never passes for the candidate's, unless the interviewer is called "You". */
  lemma InterviewerLineIsNotUserLine(name: string, text: string)
    requires ':' !in name && name != InterviewSession.USER_LABEL
    ensures !StartsWith(InterviewSession.Labelled(name, text), USER_PREFIX)
  {
    var line := InterviewSession.Labelled(name, text);
    if |name| >= 4 {
      assert line[..4] == name[..4] && name[3] != ':';
    } else if |name| == 3 {
      assert line[..3] == name;
    } else {
      assert line[|name|] == ':' != USER_PREFIX[|name|];
    }
  }

  /**
   * What a completed turn gives the scoring gate: exactly the candidate's
   * line, when the candidate said anything, is added to the lines it counts.
   */
  lemma {:induction false} CommittedTurnUserLines(log: seq<string>, userBuffer: string, modelBuffer: string, personaName: string)
    requires ':' !in personaName && personaName != InterviewSession.USER_LABEL
    ensures UserLines(InterviewSession.CommitTurn(log, userBuffer, modelBuffer, personaName))
      == UserLines(log) + (if IsBlank(userBuffer) then [] else [InterviewSession.Labelled(InterviewSession.USER_LABEL, Trim(userBuffer))])
  {
    TrimSpec(userBuffer);
    TrimSpec(modelBuffer);
    var userPart := if Trim(userBuffer) != "" then [InterviewSession.Labelled(InterviewSession.USER_LABEL, Trim(userBuffer))] else [];
    var modelPart := if Trim(modelBuffer) != "" then [InterviewSession.Labelled(personaName, Trim(modelBuffer))] else [];
    assert InterviewSession.CommitTurn(log, userBuffer, modelBuffer, personaName) == log + userPart + modelPart;
    UserLinesConcat(log + userPart, modelPart);
    UserLinesConcat(log, userPart);
    if Trim(modelBuffer) != "" {
      InterviewerLineIsNotUserLine(personaName, Trim(modelBuffer));
      assert UserLines(modelPart) == [];
    }
    if Trim(userBuffer) != "" {
      assert StartsWith(InterviewSession.Labelled(InterviewSession.USER_LABEL, Trim(userBuffer)), USER_PREFIX);
      assert UserLines(userPart) == userPart;
    }
  }

  /** Every interviewer of the library qualifies for `CommittedTurnUserLines`. */
  lemma LibraryNamesAreNotUserLabel(i: int)
    requires 0 <= i < |PERSONAS|
    ensures ':' !in PERSONAS[i].name && PERSONAS[i].name != InterviewSession.USER_LABEL
  {
  }
}
