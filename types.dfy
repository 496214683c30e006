/**
 * The records and enumerations of the application (types.ts) and the
 * interviewer library PERSONAS (constants.ts), transcribed as constant data.
 */
module Types {
  import opened Wrappers

  datatype Seniority = Entry | Mid | Senior | Executive

  /** Box 1 of the casting step: the role's classification umbrella. */
  datatype Umbrella =
    | TechnicalAndSystems | HumanAndSocial | CommercialAndGrowth
    | StrategicAndGovernance | OperationalAndTactical

  /** Box 2 of the casting step: the interview methodology. */
  datatype Methodology =
    | FirstPrinciples | StarBehavioral | RevenueDiagnostic | CaseStudy | StressSimulation

  datatype Gender = Male | Female

  datatype Persona = Persona(
    id: string,
    name: string,
    focus: string,
    gender: Gender,
    description: string,
    traits: seq<string>,
    avatar: string,
    voiceName: string)

  /** The structured answer of the casting request. */
  datatype InferenceResult = InferenceResult(
    umbrella: Umbrella,
    methodology: Methodology,
    selectedPersona: string,
    industryInference: string,
    pressureScore: real,
    focusPillars: seq<string>,
    generatedSystemInstruction: string)

  /** What the casting step yields: `{ persona, inference }`. */
  datatype Casting = Casting(persona: Persona, inference: InferenceResult)

  datatype InterviewConfig = InterviewConfig(
    jobTitle: string,
    seniority: Seniority,
    companyUrl: Option<string>,
    persona: Persona,
    inference: InferenceResult,
    questionCount: int)

  datatype FeedbackSection = FeedbackSection(axis: string, score: real, explanation: string)

  datatype FeedbackReport = FeedbackReport(
    overallScore: real,
    summary: string,
    axes: seq<FeedbackSection>,
    tips: seq<string>,
    transcript: seq<string>)

  /** The application's screen state (`AppState` in types.ts). */
  datatype AppState = Setup | Interviewing | Feedback

  /** The interviewer library, in its declared order. */
  const PERSONAS: seq<Persona> := [
    Persona("sarah", "Sarah", "Alignment & EQ", Female,
      "Alignment Specialist: Evaluates cultural ecosystem fit and situational empathy.",
      ["Empathetic", "Insightful", "Values-driven"],
      "https://images.unsplash.com/photo-1580489944761-15a19d654956?w=400&h=400&fit=crop",
      "Zephyr"),
    Persona("claire", "Claire", "Forensic Logic", Female,
      "Technical Auditor: Clinical tester of mastery and logical derivation.",
      ["Precise", "Objective", "Rigorous"],
      "https://images.unsplash.com/photo-1544005313-94ddf0286df2?w=400&h=400&fit=crop",
      "Kore"),
    Persona("james", "James", "Performance & ROI", Male,
      "Commercial Lead: Audits unit economics, growth metrics, and SPICED logic.",
      ["Dynamic", "Results-focused", "Sharp"],
      "https://images.unsplash.com/photo-1507003211169-0a1dd7228f2d?w=400&h=400&fit=crop",
      "Fenrir"),
    Persona("david", "David", "Resilience & Defense", Male,
      "Operational Skeptic: Tests composure and adherence to protocols under pressure.",
      ["Direct", "Skeptical", "Composed"],
      "https://images.unsplash.com/photo-1500648767791-00dcc994a43e?w=400&h=400&fit=crop",
      "Puck"),
    Persona("thomas", "Thomas", "Vision & Scale", Male,
      "Strategic Executive: Focuses on long-term impact and resource scaling.",
      ["Visionary", "Broad-thinking", "Patient"],
      "https://images.unsplash.com/photo-1472099645785-5658abf4ff4e?w=400&h=400&fit=crop",
      "Charon")
  ]
}
