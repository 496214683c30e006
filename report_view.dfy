/**
 * The feedback report's signal log and recommendation list
 * (components/FeedbackReport.tsx): each transcript line split at its first
 * colon into a speaker and the rest, and each tip numbered "0" followed by
 * its position.
 */
module ReportView {
  import opened JsText
  import opened Types
  import InterviewSession

  /** The speaker shown before each log line is highlighted for this name. */
  const HIGHLIGHTED_SPEAKER: string := "You"

  /** One rendered log line: `{speaker}:` and then `content.join(':')`. */
  datatype LogLine = LogLine(speaker: string, content: string, highlighted: bool)

  /** `const [speaker, ...content] = line.split(':')`, rendered. */
  function ParseLine(line: string): (l: LogLine)
    ensures ':' !in l.speaker
    ensures |l.speaker| <= |line| && line[..|l.speaker|] == l.speaker
    ensures l.highlighted <==> l.speaker == HIGHLIGHTED_SPEAKER
  {
    var pieces := Split(line, ':');
    LogLine(pieces[0], Join(pieces[1..], ":"), pieces[0] == HIGHLIGHTED_SPEAKER)
  }

  /** The text a rendered line shows: the speaker, a colon, then the content. */
  function Shown(l: LogLine): string {
    l.speaker + ":" + l.content
  }

  /**
   * The speaker is the text before the first colon (the whole line when
   * there is none); it is highlighted exactly when it is "You"; and the
   * line is shown as it was when it has a colon, with a colon appended
   * when it has none.
   */
  lemma ParseLineSplitsAtFirstColon(line: string)
    ensures var l := ParseLine(line);
      && ':' !in l.speaker
      && |l.speaker| <= |line| && line[..|l.speaker|] == l.speaker
      && (l.highlighted <==> l.speaker == HIGHLIGHTED_SPEAKER)
      && (':' in line ==> |l.speaker| < |line| && line[|l.speaker|] == ':' && Shown(l) == line)
      && (':' !in line ==> l.speaker == line && l.content == "" && Shown(l) == line + ":")
  {
    var pieces := Split(line, ':');
    JoinSplit(line, ':');
    if |pieces| > 1 {
      assert Join(pieces, ":") == pieces[0] + ":" + Join(pieces[1..], ":");
    } else {
      assert pieces[1..] == [];
    }
  }

  /**
   * A line committed as `speaker + ": " + text` by the transcript assembler
   * parses back to that speaker, when the speaker has no colon, with the
   * text after the separator's space as content.
   */
  lemma {:induction false} LabelledParsesBack(speaker: string, text: string)
    requires ':' !in speaker
    ensures ParseLine(InterviewSession.Labelled(speaker, text)).speaker == speaker
    ensures ParseLine(InterviewSession.Labelled(speaker, text)).content == " " + text
  {
    var line := InterviewSession.Labelled(speaker, text);
    assert line == speaker + ":" + (" " + text);
    assert line[|speaker|] == ':';
    assert ':' in line;
    ParseLineSplitsAtFirstColon(line);
    var l := ParseLine(line);
    assert l.speaker == speaker by {
      assert line[..|speaker|] == speaker;
    }
    assert Shown(l) == speaker + ":" + l.content;
    assert line[|speaker| + 1..] == " " + text;
    assert Shown(l)[|speaker| + 1..] == l.content;
  }

  /** Every committed user line is shown under the highlighted speaker "You". */
  lemma UserLineIsHighlighted(text: string)
    ensures ParseLine(InterviewSession.Labelled(InterviewSession.USER_LABEL, text)).highlighted
  {
    LabelledParsesBack(InterviewSession.USER_LABEL, text);
  }

  /** No interviewer of the library is ever shown as the highlighted speaker. */
  lemma PersonaLineIsNotHighlighted(i: int, text: string)
    requires 0 <= i < |PERSONAS|
    ensures !ParseLine(InterviewSession.Labelled(PERSONAS[i].name, text)).highlighted
  {
  }

  /** The signal log: every transcript line rendered once, in transcript order. */
  function RenderLog(transcript: seq<string>): (log: seq<LogLine>)
    ensures |log| == |transcript|
  {
    if transcript == [] then [] else [ParseLine(transcript[0])] + RenderLog(transcript[1..])
  }

  /**
   * The rendered log shows each transcript line at its own position: the
   * line itself when it has a colon, the line and a trailing colon when not.
   */
  lemma {:induction false} RenderLogShowsTranscript(transcript: seq<string>, i: int)
    requires 0 <= i < |transcript|
    ensures RenderLog(transcript)[i] == ParseLine(transcript[i])
    ensures ':' in transcript[i] ==> Shown(RenderLog(transcript)[i]) == transcript[i]
    ensures ':' !in transcript[i] ==> Shown(RenderLog(transcript)[i]) == transcript[i] + ":"
  {
    if i > 0 {
      RenderLogShowsTranscript(transcript[1..], i - 1);
    }
    ParseLineSplitsAtFirstColon(transcript[i]);
  }

  // Tip numbering

  function DigitChar(d: nat): char
    requires d < 10
  {
    "0123456789"[d]
  }

  function DigitValue(c: char): nat {
    if '0' <= c <= '9' then (c as int - '0' as int) as nat else 0
  }

  /** The decimal notation of a number, as template interpolation writes it. */
  function Decimal(n: nat): (s: string)
    ensures |s| >= 1
    ensures forall k :: 0 <= k < |s| ==> '0' <= s[k] <= '9'
    ensures s[0] == '0' <==> n == 0
  {
    if n < 10 then [DigitChar(n)] else Decimal(n / 10) + [DigitChar(n % 10)]
  }

  /** Reading a string of decimal digits back as a number. */
  function ParseDecimal(s: string): nat {
    if s == [] then 0 else ParseDecimal(s[..|s| - 1]) * 10 + DigitValue(s[|s| - 1])
  }

  /** Decimal notation reads back as the number it was written from. */
  lemma {:induction false} DecimalRoundTrip(n: nat)
    ensures ParseDecimal(Decimal(n)) == n
  {
    if n >= 10 {
      DecimalRoundTrip(n / 10);
      var s := Decimal(n);
      assert s[..|s| - 1] == Decimal(n / 10);
    }
  }

  /** A number below ten is written with a single digit, and only such a number. */
  lemma DecimalLength(n: nat)
    ensures |Decimal(n)| == 1 <==> n < 10
  {
  }

  /** The label of the tip at position `i`: "0" followed by `i + 1`. */
  function TipLabel(i: nat): (tag: string)
    ensures |tag| >= 2 && tag[0] == '0'
  {
    "0" + Decimal(i + 1)
  }

  /**
   * Tip labels start with "0" and read back as the tip's one-based
   * position; they have two characters for the first nine tips and more
   * from the tenth ("010") on.
   */
  lemma TipLabelNumbers(i: nat)
    ensures TipLabel(i)[0] == '0'
    ensures ParseDecimal(TipLabel(i)[1..]) == i + 1
    ensures |TipLabel(i)| == 2 <==> i < 9
  {
    assert TipLabel(i)[1..] == Decimal(i + 1);
    DecimalRoundTrip(i + 1);
    DecimalLength(i + 1);
  }

  /** The tenth tip is labelled "010". */
  lemma TenthTipLabel()
    ensures TipLabel(9) == "010"
  {
  }
}
