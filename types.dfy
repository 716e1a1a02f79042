/**
 * The application's shared data types: pipeline steps, roles, subjects,
 * attached files, subject configurations, assessment results and submissions.
 * String-valued unions of the source become enumerations with their literal
 * spelling and a parser back from it.
 */
module Types {
  import opened Wrappers

  // ---------------------------------------------------------------- pipeline steps

  /** The eight pipeline steps, in declaration order. */
  datatype PipelineStep =
    | Upload | Preprocessing | Ocr | TextProcessing | Similarity | MlScoring | Report | Error

  /** The string value each step carries. */
  function StepValue(s: PipelineStep): string
  {
    match s
    case Upload => "UPLOAD"
    case Preprocessing => "PREPROCESSING"
    case Ocr => "OCR"
    case TextProcessing => "TEXT_PROCESSING"
    case Similarity => "SIMILARITY"
    case MlScoring => "ML_SCORING"
    case Report => "REPORT"
    case Error => "ERROR"
  }

  /** A step's position in the declaration. */
  function StepOrdinal(s: PipelineStep): (n: nat)
    ensures n < 8
  {
    match s
    case Upload => 0
    case Preprocessing => 1
    case Ocr => 2
    case TextProcessing => 3
    case Similarity => 4
    case MlScoring => 5
    case Report => 6
    case Error => 7
  }

  /** Different steps stand at different positions. */
  lemma StepOrdinalInjective(a: PipelineStep, b: PipelineStep)
    ensures StepOrdinal(a) == StepOrdinal(b) <==> a == b
  {
  }

  /** Every step exactly once, each at its declared position. */
  function AllSteps(): (r: seq<PipelineStep>)
    ensures |r| == 8
    ensures forall s :: r[StepOrdinal(s)] == s
    ensures forall i, j :: 0 <= i < j < |r| ==> r[i] != r[j]
  {
    [Upload, Preprocessing, Ocr, TextProcessing, Similarity, MlScoring, Report, Error]
  }

  /** Reads a step back from its string value. */
  function ParseStep(v: string): (r: Option<PipelineStep>)
    ensures r.Some? ==> StepValue(r.value) == v
    ensures forall s :: StepValue(s) == v ==> r == Some(s)
  {
    if v == "UPLOAD" then Some(Upload)
    else if v == "PREPROCESSING" then Some(Preprocessing)
    else if v == "OCR" then Some(Ocr)
    else if v == "TEXT_PROCESSING" then Some(TextProcessing)
    else if v == "SIMILARITY" then Some(Similarity)
    else if v == "ML_SCORING" then Some(MlScoring)
    else if v == "REPORT" then Some(Report)
    else if v == "ERROR" then Some(Error)
    else None
  }

  // ---------------------------------------------------------------- roles and subjects

  datatype UserRole = Teacher | Student

  function RoleValue(r: UserRole): string
  {
    match r
    case Teacher => "teacher"
    case Student => "student"
  }

  /** The role a string names, if it is one of the two role literals. */
  function ParseRole(v: string): (r: Option<UserRole>)
    ensures r.Some? <==> v == "teacher" || v == "student"
    ensures r.Some? ==> RoleValue(r.value) == v
    ensures forall role :: RoleValue(role) == v ==> r == Some(role)
  {
    if v == "teacher" then Some(Teacher) else if v == "student" then Some(Student) else None
  }

  /** The closed set of four subjects. */
  datatype Subject = Physics | History | Mathematics | ComputerScience

  function SubjectName(s: Subject): string
  {
    match s
    case Physics => "Physics"
    case History => "History"
    case Mathematics => "Mathematics"
    case ComputerScience => "Computer Science"
  }

  function SubjectIndex(s: Subject): (n: nat)
    ensures n < 4
  {
    match s
    case Physics => 0
    case History => 1
    case Mathematics => 2
    case ComputerScience => 3
  }

  /** The subject list the dashboards offer: every subject once, with distinct names. */
  function AllSubjects(): (r: seq<Subject>)
    ensures |r| == 4
    ensures forall s :: r[SubjectIndex(s)] == s
    ensures forall i, j :: 0 <= i < j < |r| ==> SubjectName(r[i]) != SubjectName(r[j])
  {
    [Physics, History, Mathematics, ComputerScience]
  }

  function ParseSubject(v: string): (r: Option<Subject>)
    ensures r.Some? ==> SubjectName(r.value) == v
    ensures forall s :: SubjectName(s) == v ==> r == Some(s)
  {
    if v == "Physics" then Some(Physics)
    else if v == "History" then Some(History)
    else if v == "Mathematics" then Some(Mathematics)
    else if v == "Computer Science" then Some(ComputerScience)
    else None
  }

  // ---------------------------------------------------------------- files and configuration

  /** An uploaded document: the base64 `data` is mandatory; there is no remote-reference form. */
  datatype AttachedFile = AttachedFile(id: string, name: string, mimeType: string, data: string)

  /** How the model answer is given. */
  datatype AnswerMode = TextMode | FileMode

  function ModeValue(m: AnswerMode): string
  {
    match m
    case TextMode => "text"
    case FileMode => "file"
  }

  function ParseMode(v: string): (r: Option<AnswerMode>)
    ensures r.Some? <==> v == "text" || v == "file"
    ensures r.Some? ==> ModeValue(r.value) == v
  {
    if v == "text" then Some(TextMode) else if v == "file" then Some(FileMode) else None
  }

  datatype SubjectConfig = SubjectConfig(
    modelAnswerType: AnswerMode,
    modelAnswerText: string,
    modelAnswerFiles: seq<AttachedFile>,
    questionPaperFiles: seq<AttachedFile>)

  /** Configurations keyed by any string, although only the four subject names are used. */
  type SubjectConfigs = map<string, SubjectConfig>

  // ---------------------------------------------------------------- results and submissions

  /** One graded question; the reply type does not declare it, so it is read as optional. */
  datatype QuestionGrade = QuestionGrade(
    questionNumber: string, maxMarks: int, obtainedMarks: int, remarks: string)

  /**
   * The grading reply: the six declared fields, plus the undeclared
   * `questionGrades` that the report reads when it happens to be present.
   */
  datatype AssessmentResult = AssessmentResult(
    extractedText: string,
    similarityScore: int,
    mlScore: int,
    feedback: string,
    keyConceptsFound: seq<string>,
    missedConcepts: seq<string>,
    questionGrades: Option<seq<QuestionGrade>>)

  /** What a submission holds as its result: a reply, or the empty object the seed data carries. */
  datatype SubmissionResult = Graded(result: AssessmentResult) | EmptyRecord

  /** A `Date`: milliseconds since the epoch, or the invalid date. */
  datatype Date = At(ms: int) | InvalidDate

  datatype Submission = Submission(
    id: string,
    studentName: string,
    subject: Subject,
    score: int,
    timestamp: Date,
    result: SubmissionResult)
}
