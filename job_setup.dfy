/**
 * The setup flow of components/JobSetup.tsx: the form fields, the casting
 * request with its fixed fallback, the start of the interview and the
 * "Modify Parameters" back step, as the class `JobSetup`; the
 * disabled-button and pressure-bar expressions as pure functions.
 *
 * `handleNext` is asynchronous: it is modelled as two atomic steps, the
 * synchronous part up to the request (`BeginNext`) and the settlement of
 * that request with the remote reply (`SettleNext`), which covers the
 * `try`/`catch`/`finally`.
 */
module JobSetup {
  import opened Wrappers
  import opened Types
  import GeminiService

  /** The arguments of the casting request `inferPersona(jobTitle, seniority, PERSONAS, companyUrl)`. */
  datatype CastingRequest = CastingRequest(
    jobTitle: string,
    seniority: Seniority,
    personas: seq<Persona>,
    companyUrl: string)

  /** The casting result used when the casting request fails. */
  function FallbackCasting(): (c: Casting)
    ensures c.persona == PERSONAS[0]
    ensures c.inference.selectedPersona == PERSONAS[1].name
    ensures c.inference.umbrella == TechnicalAndSystems && c.inference.methodology == FirstPrinciples
    ensures c.inference.pressureScore == 5.0 && c.inference.focusPillars == ["Clarity", "Logic"]
  {
    Casting(
      PERSONAS[0],
      InferenceResult(
        TechnicalAndSystems,
        FirstPrinciples,
        PERSONAS[1].name,
        "General Systems",
        5.0,
        ["Clarity", "Logic"],
        "You are Claire. Be clinical and forensic."))
  }

  /**
   * The fallback casting plays one interviewer (Sarah, the first of the
   * library) while its inference names another (Claire, the second).
   */
  lemma FallbackPersonaMismatch()
    ensures FallbackCasting().persona.name != FallbackCasting().inference.selectedPersona
  {
  }

  /** What the settled casting request leaves as the casting result. */
  function CastingOutcome(reply: Result<InferenceResult, string>): (c: Casting)
    ensures reply.Ok? ==> c.inference == reply.value && c.persona in PERSONAS
    ensures reply.Ok? ==> (c.persona.name == reply.value.selectedPersona
                           || (c.persona == PERSONAS[0]
                               && forall i :: 0 <= i < |PERSONAS| ==> PERSONAS[i].name != reply.value.selectedPersona))
    ensures reply.Err? ==> c == FallbackCasting()
  {
    match GeminiService.InferPersona(PERSONAS, reply)
    case Ok(casting) => casting
    case Err(_) => FallbackCasting()
  }

  /** The "Next" button is disabled while the title is empty or a request runs. */
  predicate NextDisabled(jobTitle: string, isInferring: bool): (disabled: bool)
    ensures jobTitle == "" ==> disabled
    ensures isInferring ==> disabled
    ensures !disabled ==> |jobTitle| > 0
    ensures jobTitle != "" && !isInferring ==> !disabled
  {
    jobTitle == "" || isInferring
  }

  /**
   * `Math.round`: the nearest integer, halves rounded up.
   */
  function Round(x: real): (r: int)
    ensures r as real - 0.5 <= x < r as real + 0.5
  {
    (x + 0.5).Floor
  }

  /** Rounding leaves a whole number as it is. */
  lemma RoundWhole(n: int)
    ensures Round(n as real) == n
  {
  }

  /** The pressure bar: ten segments, segment `i` lit while `i` is below the score. */
  function PressureSegments(score: real): (segments: seq<bool>)
    ensures |segments| == 10
    ensures forall i, j :: 0 <= i <= j < 10 && segments[j] ==> segments[i]
  {
    seq(10, i => i as real < score)
  }

  /** The number of lit segments among the first `k`. */
  function LitUpTo(segments: seq<bool>, k: nat): nat
    requires k <= |segments|
  {
    if k == 0 then 0 else LitUpTo(segments, k - 1) + (if segments[k - 1] then 1 else 0)
  }

  /**
   * For a whole score `n` in 0..10, the first `k` segments hold
   * `min(n, k)` lit ones: the lit segments are a prefix of length `n`.
   */
  lemma {:induction false} PressureBarFill(n: nat, k: nat)
    requires n <= 10 && k <= 10
    ensures LitUpTo(PressureSegments(n as real), k) == if n < k then n else k
  {
    if k > 0 {
      PressureBarFill(n, k - 1);
    }
  }

  class JobSetup {
    var jobTitle: string
    var companyUrl: string
    var seniority: Seniority
    var questionCount: real
    var isInferring: bool
    var castingResult: Option<Casting>

    /** The form as first shown: empty fields, Mid seniority, seven questions. */
    constructor ()
      ensures jobTitle == "" && companyUrl == "" && seniority == Mid
      ensures questionCount == 7.0
      ensures !isInferring && castingResult == None
    {
      jobTitle := "";
      companyUrl := "";
      seniority := Mid;
      questionCount := 7.0;
      isInferring := false;
      castingResult := None;
    }

    method SetJobTitle(title: string)
      modifies this`jobTitle
      ensures jobTitle == title
    {
      jobTitle := title;
    }

    method SetCompanyUrl(url: string)
      modifies this`companyUrl
      ensures companyUrl == url
    {
      companyUrl := url;
    }

    method SetSeniority(level: Seniority)
      modifies this`seniority
      ensures seniority == level
    {
      seniority := level;
    }

    /**
     * The synchronous part of `handleNext`: with an empty title nothing
     * happens; otherwise the request is issued and `isInferring` is set.
     */
    method BeginNext() returns (request: Option<CastingRequest>)
      modifies this`isInferring
      ensures jobTitle == "" ==> request == None && isInferring == old(isInferring)
      ensures jobTitle != "" ==> request == Some(CastingRequest(jobTitle, seniority, PERSONAS, companyUrl)) && isInferring
      ensures !NextDisabled(jobTitle, old(isInferring)) ==> request.Some?
    {
      if jobTitle == "" {
        return None;
      }
      isInferring := true;
      request := Some(CastingRequest(jobTitle, seniority, PERSONAS, companyUrl));
    }

    /**
     * The settlement of the casting request: the casting result on success,
     * the fixed fallback on failure, and `isInferring` cleared either way.
     */
    method SettleNext(reply: Result<InferenceResult, string>)
      modifies this`castingResult, this`isInferring
      ensures castingResult == Some(CastingOutcome(reply))
      ensures !isInferring
      ensures !NextDisabled(jobTitle, isInferring) <==> jobTitle != ""
    {
      castingResult := Some(CastingOutcome(reply));
      isInferring := false;
    }

    /**
     * `handleFinalStart`: the configuration handed to `onStart`, present
     * only once a casting result exists.
     */
    method FinalStart() returns (config: Option<InterviewConfig>)
      ensures castingResult.None? <==> config.None?
      ensures castingResult.Some? ==>
        config.value.jobTitle == jobTitle && config.value.seniority == seniority
        && config.value.companyUrl == Some(companyUrl)
        && config.value.persona == castingResult.value.persona
        && config.value.inference == castingResult.value.inference
        && config.value.questionCount as real - 0.5 <= questionCount < config.value.questionCount as real + 0.5
    {
      match castingResult
      case None =>
        config := None;
      case Some(casting) =>
        config := Some(InterviewConfig(jobTitle, seniority, Some(companyUrl),
                                       casting.persona, casting.inference, Round(questionCount)));
    }

    /** "Modify Parameters": back to the form, with its fields kept. */
    method ModifyParameters()
      modifies this`castingResult
      ensures castingResult == None
      ensures NextDisabled(jobTitle, isInferring) == NextDisabled(old(jobTitle), old(isInferring))
    {
      castingResult := None;
    }
  }
}
