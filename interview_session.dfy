/**
 * The live-interview message handler of components/InterviewSession.tsx.
 *
 * A `Session` holds what the component keeps in refs and state: the playback
 * scheduler (`nextStartTime` and the set of active sources), the two partial
 * transcription buffers, the committed transcript, the question index and the
 * ready / speaking flags. Each inbound message is one atomic `OnMessage` step.
 * The pure functions `Schedule` and `CommitTurn` specify what the scheduler
 * and the transcript assembler compute, and the lemmas beside them state what
 * the component promises: chunks never overlap, a frozen clock plays them back
 * to back, and a turn commits the candidate's line before the interviewer's.
 */
module InterviewSession {
  import opened Wrappers
  import opened Types
  import opened JsText

  /** A length of audio in seconds; decoding never yields a negative one. */
  type Duration = d: real | d >= 0.0

  /** What the scheduler sees of one decoded chunk: its duration and the audio clock when it is scheduled. */
  datatype Chunk = Chunk(duration: Duration, now: real)

  /** The start time given to each chunk, in order, and the `nextStartTime` left afterwards. */
  datatype Timeline = Timeline(starts: seq<real>, next: real)

  // ---------------------------------------------------------------------------
  // Inbound messages
  // ---------------------------------------------------------------------------

  /** The inline audio payload of a part, represented by the duration its decoding yields. */
  datatype InlineAudio = InlineAudio(duration: Duration)

  /** One part of the model's turn; `inlineAudio` is `None` when the part carries no audio data. */
  datatype Part = Part(inlineAudio: Option<InlineAudio>)

  /** The fields of `serverContent` the handler reads; transcriptions are given by their text. */
  datatype ServerContent = ServerContent(
    outputTranscription: Option<string>,
    inputTranscription: Option<string>,
    modelTurnParts: Option<seq<Part>>,
    interrupted: bool,
    turnComplete: bool)

  datatype Message = Message(serverContent: Option<ServerContent>)

  /** The text appended to the interviewer's buffer by a message. */
  function OutputText(msg: Message): string {
    if msg.serverContent.Some? && msg.serverContent.value.outputTranscription.Some?
    then msg.serverContent.value.outputTranscription.value else ""
  }

  /** The text appended to the candidate's buffer by a message. */
  function InputText(msg: Message): string {
    if msg.serverContent.Some? && msg.serverContent.value.inputTranscription.Some?
    then msg.serverContent.value.inputTranscription.value else ""
  }

  /** The parts of the model's turn, or none. */
  function PartsOf(msg: Message): seq<Part> {
    if msg.serverContent.Some? && msg.serverContent.value.modelTurnParts.Some?
    then msg.serverContent.value.modelTurnParts.value else []
  }

  predicate IsInterrupted(msg: Message) {
    msg.serverContent.Some? && msg.serverContent.value.interrupted
  }

  predicate IsTurnComplete(msg: Message) {
    msg.serverContent.Some? && msg.serverContent.value.turnComplete
  }

  /** The audio parts of a turn, paired with the clock readings taken when each is scheduled. */
  function AudioChunks(parts: seq<Part>, clock: seq<real>): (chunks: seq<Chunk>)
    requires |parts| == |clock|
    ensures |chunks| <= |parts|
  {
    AudioChunksUpTo(parts, clock, |parts|)
  }

  /** The audio chunks among the first `n` parts. */
  function AudioChunksUpTo(parts: seq<Part>, clock: seq<real>, n: nat): (chunks: seq<Chunk>)
    requires |parts| == |clock| && n <= |parts|
    ensures |chunks| <= n
  {
    if n == 0 then []
    else
      var init := AudioChunksUpTo(parts, clock, n - 1);
      match parts[n - 1].inlineAudio
      case Some(audio) => init + [Chunk(audio.duration, clock[n - 1])]
      case None => init
  }

  /** The audio chunks among the first `n` parts depend on those parts and readings only. */
  lemma {:induction false} AudioChunksUpToPrefix(parts: seq<Part>, clock: seq<real>, parts': seq<Part>, clock': seq<real>, n: nat)
    requires |parts| == |clock| && |parts'| == |clock'| && n <= |parts| && n <= |parts'|
    requires parts[..n] == parts'[..n] && clock[..n] == clock'[..n]
    ensures AudioChunksUpTo(parts, clock, n) == AudioChunksUpTo(parts', clock', n)
  {
    if n > 0 {
      assert parts[..n - 1] == parts[..n][..n - 1] && parts'[..n - 1] == parts'[..n][..n - 1];
      assert clock[..n - 1] == clock[..n][..n - 1] && clock'[..n - 1] == clock'[..n][..n - 1];
      AudioChunksUpToPrefix(parts, clock, parts', clock', n - 1);
      assert parts[n - 1] == parts[..n][n - 1] == parts'[n - 1];
      assert clock[n - 1] == clock[..n][n - 1] == clock'[n - 1];
    }
  }

  /** The first parts' chunks, then the chunks among the first `m` parts that follow. */
  lemma {:induction false} AudioChunksUpToConcat(p1: seq<Part>, c1: seq<real>, p2: seq<Part>, c2: seq<real>, m: nat)
    requires |p1| == |c1| && |p2| == |c2| && m <= |p2|
    ensures AudioChunksUpTo(p1 + p2, c1 + c2, |p1| + m) == AudioChunks(p1, c1) + AudioChunksUpTo(p2, c2, m)
  {
    if m == 0 {
      assert (p1 + p2)[..|p1|] == p1[..|p1|];
      assert (c1 + c2)[..|p1|] == c1[..|p1|];
      AudioChunksUpToPrefix(p1 + p2, c1 + c2, p1, c1, |p1|);
    } else {
      AudioChunksUpToConcat(p1, c1, p2, c2, m - 1);
      assert (p1 + p2)[|p1| + m - 1] == p2[m - 1];
      assert (c1 + c2)[|p1| + m - 1] == c2[m - 1];
    }
  }

  /** Selecting the audio chunks distributes over concatenation of parts and readings. */
  lemma AudioChunksConcat(p1: seq<Part>, c1: seq<real>, p2: seq<Part>, c2: seq<real>)
    requires |p1| == |c1| && |p2| == |c2|
    ensures AudioChunks(p1 + p2, c1 + c2) == AudioChunks(p1, c1) + AudioChunks(p2, c2)
  {
    AudioChunksUpToConcat(p1, c1, p2, c2, |p2|);
  }

  /** A single part yields one chunk, with its reading, exactly when it carries audio. */
  lemma AudioChunksSingle(part: Part, now: real)
    ensures AudioChunks([part], [now]) ==
      if part.inlineAudio.Some? then [Chunk(part.inlineAudio.value.duration, now)] else []
  {
  }

  // ---------------------------------------------------------------------------
  // Playback scheduler, as functions
  // ---------------------------------------------------------------------------

  /** `Math.max(nextStartTime, now)`: when the next chunk starts. */
  function StartAt(next: real, now: real): (start: real)
    ensures start >= next && start >= now
    ensures start == next || start == now
  {
    if next >= now then next else now
  }

  /** Schedules the chunks one after the other, starting from `next`. */
  function Schedule(next: real, chunks: seq<Chunk>): (t: Timeline)
    ensures |t.starts| == |chunks|
    ensures t.next >= next
    decreases |chunks|
  {
    if chunks == [] then Timeline([], next)
    else
      var prev := Schedule(next, chunks[..|chunks| - 1]);
      var last := chunks[|chunks| - 1];
      var start := StartAt(prev.next, last.now);
      Timeline(prev.starts + [start], start + last.duration)
  }

  /** Scheduling one more chunk extends the timeline by exactly that chunk. */
  lemma ScheduleAppend(next: real, chunks: seq<Chunk>, c: Chunk)
    ensures Schedule(next, chunks + [c]).starts == Schedule(next, chunks).starts + [StartAt(Schedule(next, chunks).next, c.now)]
    ensures Schedule(next, chunks + [c]).next == StartAt(Schedule(next, chunks).next, c.now) + c.duration
  {
    assert (chunks + [c])[..|chunks|] == chunks;
  }

  /** Every chunk starts no earlier than the clock reading at which it was scheduled, nor than the initial `next`. */
  lemma {:induction false} StartsNotBeforeClock(next: real, chunks: seq<Chunk>, i: int)
    requires 0 <= i < |chunks|
    ensures Schedule(next, chunks).starts[i] >= chunks[i].now
    ensures Schedule(next, chunks).starts[i] >= next
    decreases |chunks|
  {
    var init := chunks[..|chunks| - 1];
    var prev := Schedule(next, init);
    if i < |chunks| - 1 {
      StartsNotBeforeClock(next, init, i);
      assert Schedule(next, chunks).starts[i] == prev.starts[i];
    }
  }

  /** The timeline ends where the last chunk ends. */
  lemma ScheduleNextIsLastEnd(next: real, chunks: seq<Chunk>)
    requires chunks != []
    ensures Schedule(next, chunks).next == Schedule(next, chunks).starts[|chunks| - 1] + chunks[|chunks| - 1].duration
  {
  }

  /** Consecutive chunks never overlap: each starts no earlier than the end of the one before. */
  lemma {:induction false} NoOverlap(next: real, chunks: seq<Chunk>, i: int)
    requires 0 <= i < |chunks| - 1
    ensures Schedule(next, chunks).starts[i] + chunks[i].duration <= Schedule(next, chunks).starts[i + 1]
    decreases |chunks|
  {
    var init := chunks[..|chunks| - 1];
    var prev := Schedule(next, init);
    if i < |chunks| - 2 {
      NoOverlap(next, init, i);
      assert Schedule(next, chunks).starts[i + 1] == prev.starts[i + 1];
    } else {
      ScheduleNextIsLastEnd(next, init);
    }
    assert Schedule(next, chunks).starts[i] == prev.starts[i];
  }

  /** The total duration of some chunks. */
  function TotalDuration(chunks: seq<Chunk>): (d: real)
    ensures d >= 0.0
    decreases |chunks|
  {
    if chunks == [] then 0.0 else TotalDuration(chunks[..|chunks| - 1]) + chunks[|chunks| - 1].duration
  }

  /**
   * With the clock frozen at `t0` and nothing queued past it, chunk `i`
   * starts at `t0` plus the durations of the chunks before it: back to back,
   * with no gap and no overlap.
   */
  lemma {:induction false} FrozenClockIsGapless(t0: real, next: real, chunks: seq<Chunk>)
    requires next <= t0
    requires forall k :: 0 <= k < |chunks| ==> chunks[k].now == t0
    ensures Schedule(next, chunks).next == t0 + TotalDuration(chunks) || chunks == []
    ensures forall i :: 0 <= i < |chunks| ==> Schedule(next, chunks).starts[i] == t0 + TotalDuration(chunks[..i])
    decreases |chunks|
  {
    if chunks != [] {
      var init := chunks[..|chunks| - 1];
      FrozenClockIsGapless(t0, next, init);
      var prev := Schedule(next, init);
      assert prev.next == t0 + TotalDuration(init) || init == [];
      assert init == chunks[..|chunks| - 1];
      forall i | 0 <= i < |chunks| ensures Schedule(next, chunks).starts[i] == t0 + TotalDuration(chunks[..i]) {
        if i < |chunks| - 1 {
          assert chunks[..i] == init[..i];
        }
      }
    }
  }

  /** Three chunks on a frozen clock start at `t0`, `t0 + d1` and `t0 + d1 + d2`. */
  lemma {:induction false} ThreeChunksBackToBack(t0: real, next: real, d1: Duration, d2: Duration, d3: Duration)
    requires next <= t0
    ensures Schedule(next, [Chunk(d1, t0), Chunk(d2, t0), Chunk(d3, t0)]).starts == [t0, t0 + d1, t0 + d1 + d2]
    ensures Schedule(next, [Chunk(d1, t0), Chunk(d2, t0), Chunk(d3, t0)]).next == t0 + d1 + d2 + d3
  {
    var c1, c2, c3 := Chunk(d1, t0), Chunk(d2, t0), Chunk(d3, t0);
    assert [c1] == [] + [c1];
    ScheduleAppend(next, [], c1);
    ScheduleAppend(next, [c1], c2);
    assert [c1] + [c2] == [c1, c2];
    ScheduleAppend(next, [c1, c2], c3);
    assert [c1, c2] + [c3] == [c1, c2, c3];
  }

  // ---------------------------------------------------------------------------
  // Transcript assembler, as functions
  // ---------------------------------------------------------------------------

  /** The label that marks the candidate's lines. */
  const USER_LABEL: string := "You"

  /** A transcript line: the speaker's label, a colon and a space, then the text. */
  function Labelled(speaker: string, text: string): (line: string)
    ensures |line| == |speaker| + 2 + |text|
    ensures line[..|speaker|] == speaker && line[|speaker|] == ':' && line[|speaker| + 1] == ' '
      && line[|speaker| + 2..] == text
  {
    speaker + ": " + text
  }

  /** The lines one turn adds: the candidate's, if any, then the interviewer's, if any. */
  function TurnLines(userBuffer: string, modelBuffer: string, personaName: string): (lines: seq<string>)
    ensures |lines| <= 2
  {
    var userText := Trim(userBuffer);
    var modelText := Trim(modelBuffer);
    (if userText != "" then [Labelled(USER_LABEL, userText)] else [])
      + (if modelText != "" then [Labelled(personaName, modelText)] else [])
  }

  /** The transcript after a turn completes. */
  function CommitTurn(log: seq<string>, userBuffer: string, modelBuffer: string, personaName: string): (r: seq<string>)
    ensures |log| <= |r| <= |log| + 2
    ensures r[..|log|] == log
  {
    log + TurnLines(userBuffer, modelBuffer, personaName)
  }

  /**
   * Completing a turn keeps the transcript so far and appends the trimmed
   * candidate text as "You: …" if it is not blank, then the trimmed
   * interviewer text as "<persona>: …" if it is not blank, and nothing else.
   */
  lemma {:induction false} CommitTurnAppends(log: seq<string>, userBuffer: string, modelBuffer: string, personaName: string)
    ensures var r := CommitTurn(log, userBuffer, modelBuffer, personaName);
      && |r| == |log| + (if IsBlank(userBuffer) then 0 else 1) + (if IsBlank(modelBuffer) then 0 else 1)
      && r[..|log|] == log
      && (!IsBlank(userBuffer) ==> r[|log|] == Labelled(USER_LABEL, Trim(userBuffer)))
      && (!IsBlank(modelBuffer) ==> r[|r| - 1] == Labelled(personaName, Trim(modelBuffer)))
  {
    TrimSpec(userBuffer);
    TrimSpec(modelBuffer);
    var lines := TurnLines(userBuffer, modelBuffer, personaName);
    assert (log + lines)[..|log|] == log;
  }

  /** Committing two blank buffers leaves the transcript as it was. */
  lemma {:induction false} BlankTurnCommitsNothing(log: seq<string>, userBuffer: string, modelBuffer: string, personaName: string)
    requires IsBlank(userBuffer) && IsBlank(modelBuffer)
    ensures CommitTurn(log, userBuffer, modelBuffer, personaName) == log
  {
    TrimSpec(userBuffer);
    TrimSpec(modelBuffer);
    assert log + [] == log;
  }

  /** A turn with both sides spoken ends the transcript with the candidate's line, then the interviewer's. */
  lemma {:induction false} BothSidesInOrder(log: seq<string>, userBuffer: string, modelBuffer: string, personaName: string)
    requires !IsBlank(userBuffer) && !IsBlank(modelBuffer)
    ensures CommitTurn(log, userBuffer, modelBuffer, personaName)[|log|..]
      == [Labelled(USER_LABEL, Trim(userBuffer)), Labelled(personaName, Trim(modelBuffer))]
  {
    TrimSpec(userBuffer);
    TrimSpec(modelBuffer);
    var lines := TurnLines(userBuffer, modelBuffer, personaName);
    assert (log + lines)[|log|..] == lines;
  }

  /** The question index after a turn. */
  function NextQuestionIndex(index: nat, modelBuffer: string): (next: nat)
    ensures next == index || next == index + 1
  {
    if Trim(modelBuffer) != "" then index + 1 else index
  }

  /** The question index advances by one exactly when the interviewer said something that is not blank. */
  lemma NextQuestionIndexCounts(index: nat, modelBuffer: string)
    ensures NextQuestionIndex(index, modelBuffer) == index + 1 <==> !IsBlank(modelBuffer)
    ensures NextQuestionIndex(index, modelBuffer) == index <==> IsBlank(modelBuffer)
  {
    TrimSpec(modelBuffer);
  }

  /** The width of the progress bar, in percent: `Math.min(index / questionCount * 100, 100)`. */
  function Progress(index: nat, questionCount: int): (p: real)
    requires questionCount > 0
    ensures 0.0 <= p <= 100.0
    ensures p == 100.0 <==> index >= questionCount
  {
    var ratio := (index as real) / (questionCount as real) * 100.0;
    if ratio < 100.0 then ratio else 100.0
  }

  /** The progress bar never moves backwards as the question index grows. */
  lemma ProgressMonotone(i: nat, j: nat, questionCount: int)
    requires questionCount > 0 && i <= j
    ensures Progress(i, questionCount) <= Progress(j, questionCount)
  {
    var q := questionCount as real;
    assert (i as real) / q <= (j as real) / q;
  }

  /** The "Depth Units" counter: `Math.min(index + 1, questionCount)`. */
  function DepthUnits(index: nat, questionCount: int): (d: int)
    ensures d <= questionCount && d <= index + 1
    ensures d == index + 1 || d == questionCount
  {
    if index + 1 < questionCount then index + 1 else questionCount
  }

  // ---------------------------------------------------------------------------
  // The session object
  // ---------------------------------------------------------------------------

  /**
   * A scheduled playback source, identified by the object itself as in the
   * component's `Set` of active sources. `stop()` belongs to the audio output;
   * the model records which sources are stopped instead.
   */
  class PlaybackSource {
    const startAt: real
    const duration: Duration

    constructor (startAt: real, duration: Duration)
      ensures this.startAt == startAt && this.duration == duration
    {
      this.startAt := startAt;
      this.duration := duration;
    }
  }

  /** The elements of a sequence of sources. */
  function Elements(s: seq<PlaybackSource>): set<PlaybackSource> {
    set x | x in s
  }

  /** The start times of some sources, in order. */
  function StartsOf(s: seq<PlaybackSource>): (r: seq<real>)
    ensures |r| == |s|
    decreases |s|
  {
    if s == [] then [] else StartsOf(s[..|s| - 1]) + [s[|s| - 1].startAt]
  }

  /** The durations of some sources, in order. */
  function LengthsOf(s: seq<PlaybackSource>): (r: seq<real>)
    ensures |r| == |s|
    decreases |s|
  {
    if s == [] then [] else LengthsOf(s[..|s| - 1]) + [s[|s| - 1].duration]
  }

  /** The durations of some chunks, in order. */
  function Durations(chunks: seq<Chunk>): (r: seq<real>)
    ensures |r| == |chunks|
  {
    seq(|chunks|, k requires 0 <= k < |chunks| => chunks[k].duration)
  }

  lemma SourcesSnoc(s: seq<PlaybackSource>, x: PlaybackSource)
    ensures StartsOf(s + [x]) == StartsOf(s) + [x.startAt]
    ensures LengthsOf(s + [x]) == LengthsOf(s) + [x.duration]
    ensures Elements(s + [x]) == Elements(s) + {x}
  {
    assert (s + [x])[..|s|] == s;
  }

  lemma DurationsSnoc(chunks: seq<Chunk>, c: Chunk)
    ensures Durations(chunks + [c]) == Durations(chunks) + [c.duration]
  {
  }

  class Session {
    const config: InterviewConfig

    var isReady: bool
    var isModelSpeaking: bool
    var isUserSpeaking: bool
    var transcript: seq<string>
    var currentQuestionIndex: nat

    /** Scheduler state: where the next chunk may start, and what is playing or queued. */
    var nextStartTime: real
    var sources: set<PlaybackSource>

    /** The partial interviewer (output) and candidate (input) transcriptions of the turn in progress. */
    var modelBuffer: string
    var userBuffer: string

    /** Nothing active plays past `nextStartTime`, so a newly scheduled chunk never overlaps one already queued. */
    ghost predicate Valid()
      reads this
    {
      forall s :: s in sources ==> s.startAt + s.duration <= nextStartTime
    }

    constructor (config: InterviewConfig)
      ensures Valid()
      ensures this.config == config
      ensures !isReady && !isModelSpeaking && !isUserSpeaking
      ensures transcript == [] && currentQuestionIndex == 0
      ensures nextStartTime == 0.0 && sources == {}
      ensures modelBuffer == "" && userBuffer == ""
    {
      this.config := config;
      isReady, isModelSpeaking, isUserSpeaking := false, false, false;
      transcript, currentQuestionIndex := [], 0;
      nextStartTime, sources := 0.0, {};
      modelBuffer, userBuffer := "", "";
    }

    /** `onopen`: the capture path is wired and the session is ready. */
    method OnOpen()
      modifies this
      ensures isReady
      ensures isModelSpeaking == old(isModelSpeaking) && isUserSpeaking == old(isUserSpeaking)
      ensures transcript == old(transcript) && currentQuestionIndex == old(currentQuestionIndex)
      ensures nextStartTime == old(nextStartTime) && sources == old(sources)
      ensures modelBuffer == old(modelBuffer) && userBuffer == old(userBuffer)
    {
      isReady := true;
    }

    /** One captured frame: `speaking` is whether its mean absolute amplitude exceeds 0.01. */
    method OnAudioProcess(speaking: bool)
      modifies this
      ensures isUserSpeaking == speaking
      ensures isReady == old(isReady) && isModelSpeaking == old(isModelSpeaking)
      ensures transcript == old(transcript) && currentQuestionIndex == old(currentQuestionIndex)
      ensures nextStartTime == old(nextStartTime) && sources == old(sources)
      ensures modelBuffer == old(modelBuffer) && userBuffer == old(userBuffer)
    {
      isUserSpeaking := speaking;
    }

    /** An output transcription fragment goes to the interviewer's buffer only. */
    method AppendOutputTranscription(text: string)
      modifies this`modelBuffer
      ensures modelBuffer == old(modelBuffer) + text
    {
      modelBuffer := modelBuffer + text;
    }

    /** An input transcription fragment goes to the candidate's buffer only. */
    method AppendInputTranscription(text: string)
      modifies this`userBuffer
      ensures userBuffer == old(userBuffer) + text
    {
      userBuffer := userBuffer + text;
    }

    /** Schedules one decoded chunk at clock reading `now`. */
    method ScheduleChunk(duration: Duration, now: real) returns (source: PlaybackSource)
      requires Valid()
      modifies this`nextStartTime, this`sources, this`isModelSpeaking
      ensures Valid()
      ensures fresh(source)
      ensures source.startAt == StartAt(old(nextStartTime), now) && source.duration == duration
      ensures nextStartTime == source.startAt + duration
      ensures sources == old(sources) + {source}
      ensures isModelSpeaking
    {
      isModelSpeaking := true;
      nextStartTime := StartAt(nextStartTime, now);
      source := new PlaybackSource(nextStartTime, duration);
      nextStartTime := nextStartTime + duration;
      sources := sources + {source};
    }

    /** `onended`: a source that finished playing leaves the active set; nothing else changes. */
    method OnSourceEnded(source: PlaybackSource)
      requires Valid()
      modifies this`sources
      ensures Valid()
      ensures sources == old(sources) - {source}
    {
      sources := sources - {source};
    }

    /** Barge-in: stop every active source, forget them all and reset the scheduler. */
    method Interrupt() returns (stopped: set<PlaybackSource>)
      requires Valid()
      modifies this`sources, this`nextStartTime, this`isModelSpeaking
      ensures Valid()
      ensures stopped == old(sources)
      ensures sources == {} && nextStartTime == 0.0 && !isModelSpeaking
    {
      stopped := sources;
      sources := {};
      nextStartTime := 0.0;
      isModelSpeaking := false;
    }

    /**
     * Interruption is idempotent: a second barge-in right after the first
     * stops nothing and leaves the state as the first one left it.
     */
    method InterruptTwice() returns (first: set<PlaybackSource>, second: set<PlaybackSource>)
      requires Valid()
      modifies this`sources, this`nextStartTime, this`isModelSpeaking
      ensures Valid()
      ensures first == old(sources) && second == {}
      ensures sources == {} && nextStartTime == 0.0 && !isModelSpeaking
    {
      first := Interrupt();
      second := Interrupt();
    }

    /** Turn complete: commit both buffers to the transcript, then clear them. */
    method CompleteTurn()
      modifies this`transcript, this`currentQuestionIndex, this`modelBuffer, this`userBuffer, this`isModelSpeaking
      ensures transcript == CommitTurn(old(transcript), old(userBuffer), old(modelBuffer), config.persona.name)
      ensures currentQuestionIndex == NextQuestionIndex(old(currentQuestionIndex), old(modelBuffer))
      ensures modelBuffer == "" && userBuffer == "" && !isModelSpeaking
    {
      transcript := CommitTurn(transcript, userBuffer, modelBuffer, config.persona.name);
      currentQuestionIndex := NextQuestionIndex(currentQuestionIndex, modelBuffer);
      userBuffer := "";
      modelBuffer := "";
      isModelSpeaking := false;
    }

    /**
     * The loop over the parts of the model's turn: each part with audio is
     * scheduled at the next clock reading. Only the scheduler and the
     * speaking flag change.
     */
    method ScheduleParts(parts: seq<Part>, clock: seq<real>) returns (started: seq<PlaybackSource>)
      requires Valid()
      requires |clock| == |parts|
      modifies this`nextStartTime, this`sources, this`isModelSpeaking
      ensures Valid()
      ensures StartsOf(started) == Schedule(old(nextStartTime), AudioChunks(parts, clock)).starts
      ensures LengthsOf(started) == Durations(AudioChunks(parts, clock))
      ensures nextStartTime == Schedule(old(nextStartTime), AudioChunks(parts, clock)).next
      ensures isModelSpeaking == (old(isModelSpeaking) || AudioChunks(parts, clock) != [])
      ensures sources == old(sources) + Elements(started)
      ensures forall s :: s in started ==> fresh(s)
    {
      ghost var next0 := nextStartTime;
      ghost var speaking0 := isModelSpeaking;
      ghost var chunks: seq<Chunk> := [];
      started := [];
      var i := 0;
      while i < |parts|
        invariant 0 <= i <= |parts|
        invariant Valid()
        invariant chunks == AudioChunksUpTo(parts, clock, i)
        invariant StartsOf(started) == Schedule(next0, chunks).starts
        invariant LengthsOf(started) == Durations(chunks)
        invariant nextStartTime == Schedule(next0, chunks).next
        invariant isModelSpeaking == (speaking0 || chunks != [])
        invariant sources == old(sources) + Elements(started)
        invariant forall s :: s in started ==> fresh(s)
      {
        if parts[i].inlineAudio.Some? {
          var c := Chunk(parts[i].inlineAudio.value.duration, clock[i]);
          var source := ScheduleChunk(c.duration, c.now);
          ScheduleAppend(next0, chunks, c);
          SourcesSnoc(started, source);
          DurationsSnoc(chunks, c);
          started := started + [source];
          chunks := chunks + [c];
        }
        i := i + 1;
      }
    }

    /**
     * `onmessage`: transcriptions, then the audio parts in order, then
     * interruption, then turn completion. `clock` holds the audio clock's
     * reading at the moment each part would be scheduled.
     */
    method OnMessage(msg: Message, clock: seq<real>) returns (started: seq<PlaybackSource>, stopped: set<PlaybackSource>)
      requires Valid()
      requires |clock| == |PartsOf(msg)|
      modifies this
      ensures Valid()
      ensures (isReady, isUserSpeaking) == (old(isReady), old(isUserSpeaking))
      // each audio part starts a source at its place in the schedule, for as long as its audio lasts
      ensures var chunks := AudioChunks(PartsOf(msg), clock);
        (StartsOf(started), LengthsOf(started)) == (Schedule(old(nextStartTime), chunks).starts, Durations(chunks))
      // an interruption stops every source, old and new, and resets the scheduler
      ensures var chunks := AudioChunks(PartsOf(msg), clock);
        var active := old(sources) + Elements(started);
        (nextStartTime, sources, stopped, isModelSpeaking)
        == if IsInterrupted(msg) then (0.0, {}, active, false)
           else (Schedule(old(nextStartTime), chunks).next, active, {},
                 !IsTurnComplete(msg) && (old(isModelSpeaking) || chunks != []))
      // a completed turn commits both buffers and empties them
      ensures var user := old(userBuffer) + InputText(msg);
        var model := old(modelBuffer) + OutputText(msg);
        (transcript, currentQuestionIndex, userBuffer, modelBuffer)
        == if IsTurnComplete(msg)
           then (CommitTurn(old(transcript), user, model, config.persona.name), NextQuestionIndex(old(currentQuestionIndex), model), "", "")
           else (old(transcript), old(currentQuestionIndex), user, model)
    {
      ReceiveTranscriptions(msg);
      assert nextStartTime == old(nextStartTime) && sources == old(sources) && isModelSpeaking == old(isModelSpeaking);
      ghost var user, model := userBuffer, modelBuffer;
      started := ScheduleParts(PartsOf(msg), clock);
      assert userBuffer == user && modelBuffer == model;
      assert transcript == old(transcript) && currentQuestionIndex == old(currentQuestionIndex);
      ghost var scheduled := sources;
      stopped := HandleTurnEvents(msg);
      assert scheduled == old(sources) + Elements(started);
    }

    /** The two transcription fragments of a message, each appended to its own buffer. */
    method ReceiveTranscriptions(msg: Message)
      modifies this`modelBuffer, this`userBuffer
      ensures modelBuffer == old(modelBuffer) + OutputText(msg)
      ensures userBuffer == old(userBuffer) + InputText(msg)
    {
      if msg.serverContent.Some? && msg.serverContent.value.outputTranscription.Some? {
        AppendOutputTranscription(msg.serverContent.value.outputTranscription.value);
      }
      if msg.serverContent.Some? && msg.serverContent.value.inputTranscription.Some? {
        AppendInputTranscription(msg.serverContent.value.inputTranscription.value);
      }
    }

    /** The end of the handler: an interruption, then a turn completion, each when flagged. */
    method HandleTurnEvents(msg: Message) returns (stopped: set<PlaybackSource>)
      requires Valid()
      modifies this`sources, this`nextStartTime, this`isModelSpeaking
      modifies this`transcript, this`currentQuestionIndex, this`modelBuffer, this`userBuffer
      ensures Valid()
      ensures stopped == if IsInterrupted(msg) then old(sources) else {}
      ensures sources == if IsInterrupted(msg) then {} else old(sources)
      ensures nextStartTime == if IsInterrupted(msg) then 0.0 else old(nextStartTime)
      ensures isModelSpeaking == (!IsInterrupted(msg) && !IsTurnComplete(msg) && old(isModelSpeaking))
      ensures if IsTurnComplete(msg) then
          && transcript == CommitTurn(old(transcript), old(userBuffer), old(modelBuffer), config.persona.name)
          && currentQuestionIndex == NextQuestionIndex(old(currentQuestionIndex), old(modelBuffer))
          && userBuffer == "" && modelBuffer == ""
        else
          && transcript == old(transcript) && currentQuestionIndex == old(currentQuestionIndex)
          && userBuffer == old(userBuffer) && modelBuffer == old(modelBuffer)
    {
      stopped := {};
      if IsInterrupted(msg) {
        stopped := Interrupt();
      }
      if IsTurnComplete(msg) {
        CompleteTurn();
      }
    }
  }
}
