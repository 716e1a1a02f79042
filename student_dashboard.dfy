/**
 * The student's side: staged answer pages and the grading run. A run checks
 * that pages are staged and that the teacher gave a model answer, converts
 * the pages, walks the display through the five processing stages, calls the
 * grading service and ends on REPORT with one new submission, or back on UPLOAD with
 * the generic error.
 */
module StudentDashboard {
  import opened Wrappers
  import opened Types
  import opened Strings
  import opened Lists
  import opened Utils
  import opened Gemini
  import ProcessingPipeline

  /** A staged page: its random id and the browser file (the preview URL is not modelled). */
  datatype UploadedFile = UploadedFile(id: string, file: RawFile)

  const NoModelAnswerError: string := "Teacher has not uploaded a model answer for this subject yet."
  const AssessmentError: string := "An error occurred during assessment. Please try again."
  const StudentName: string := "Student User"

  /** The stages the run displays, in order, before calling the grading service. */
  const Stages: seq<PipelineStep> := [Preprocessing, Ocr, TextProcessing, Similarity, MlScoring]

  /** The run's stages are exactly the rows of the progress display, in the same order. */
  lemma StagesAreDisplayedSteps()
    ensures Stages == ProcessingPipeline.StepIds()
  {
    ProcessingPipeline.StepTableOrder();
  }

  /** `hasModelAnswer`: text mode with non-blank text, or file mode with at least one file. */
  predicate HasModelAnswer(config: SubjectConfig)
  {
    (config.modelAnswerType == TextMode && |Trim(config.modelAnswerText)| > 0)
    || (config.modelAnswerType == FileMode && |config.modelAnswerFiles| > 0)
  }

  /** The text mode test means: some character of the answer text is not white space. */
  lemma {:induction false} HasModelAnswerMeaning(config: SubjectConfig)
    ensures HasModelAnswer(config) <==>
      (config.modelAnswerType == TextMode && !AllWhitespace(config.modelAnswerText))
      || (config.modelAnswerType == FileMode && config.modelAnswerFiles != [])
  {
    BlankIffAllWhitespace(config.modelAnswerText);
  }

  /** A staged page as the grading service receives it, or the conversion's error. */
  function ToAttached(item: UploadedFile): (r: Result<AttachedFile, string>)
    ensures r.Success? <==> FileToBase64(item.file).Success?
    ensures r.Success? ==> r.value == AttachedFile(item.id, item.file.name, GetMimeType(item.file), FileToBase64(item.file).value)
  {
    match FileToBase64(item.file)
    case Success(data) => Success(AttachedFile(item.id, item.file.name, GetMimeType(item.file), data))
    case Failure(e) => Failure(e)
  }

  /** `Promise.all` over the conversions: every page converted, in order, or one of the failures. */
  function PrepareFiles(items: seq<UploadedFile>): (r: Result<seq<AttachedFile>, string>)
    ensures r.Success? <==> forall i :: 0 <= i < |items| ==> ToAttached(items[i]).Success?
    ensures r.Success? ==> |r.value| == |items|
    ensures r.Success? ==> forall i :: 0 <= i < |items| ==> r.value[i] == ToAttached(items[i]).value
  {
    if items == [] then Success([])
    else
      match ToAttached(items[0])
      case Failure(e) => Failure(e)
      case Success(first) =>
        match PrepareFiles(items[1..])
        case Failure(e) => Failure(e)
        case Success(rest) =>
          assert forall i :: 1 <= i < |items| ==> items[i] == items[1..][i - 1];
          Success([first] + rest)
  }

  /** The dashboard's state, as a value. */
  datatype DashState = DashState(
    currentStep: PipelineStep,
    uploadedFiles: seq<UploadedFile>,
    assessmentResult: Option<AssessmentResult>,
    isProcessing: bool,
    error: Option<string>)

  /**
   * What the outside world sees of the dashboard, in the order it happens: a
   * step change on the display, or a request sent to the grading service; each
   * with `isProcessing` at that moment.
   */
  datatype Event =
    | Show(step: PipelineStep, processing: bool)
    | Send(request: seq<Segment>, processing: bool)

  /** The stage changes of the animation: each of the first `n` stages, shown while processing. */
  function StagesShown(n: nat): (r: seq<Event>)
    requires n <= |Stages|
    ensures |r| == n
    ensures forall j :: 0 <= j < n ==> r[j] == Show(Stages[j], true)
  {
    if n == 0 then [] else StagesShown(n - 1) + [Show(Stages[n - 1], true)]
  }

  /**
   * What one run does: the state afterwards, the step changes and requests
   * it produces in order, and the submission it hands to the app.
   */
  datatype RunOutcome = RunOutcome(
    after: DashState,
    events: seq<Event>,
    emitted: Option<Submission>)

  /** `runPipeline` as a function of the state before it, the configuration, the grading service and the two clock readings. */
  function RunSpec(s: DashState, config: SubjectConfig, subject: Subject,
                   service: seq<Segment> -> ServiceReply, idTime: int, stampTime: int): RunOutcome
  {
    if |s.uploadedFiles| == 0 then RunOutcome(s, [], None)
    else if !HasModelAnswer(config) then RunOutcome(s.(error := Some(NoModelAnswerError)), [], None)
    else
      match PrepareFiles(s.uploadedFiles)
      case Failure(_) =>
        RunOutcome(s.(currentStep := Upload, isProcessing := false, error := Some(AssessmentError)),
                   [Show(Upload, true)], None)
      case Success(files) => GradeSpec(s, files, config, subject, service, idTime, stampTime)
  }

  /** The part of a run after the pages are converted: the animation, the grading service call and its outcome. */
  function GradeSpec(s: DashState, files: seq<AttachedFile>, config: SubjectConfig, subject: Subject,
                     service: seq<Segment> -> ServiceReply, idTime: int, stampTime: int): RunOutcome
  {
    var request := RequestSpec(files, config);
    match CheckReply(service(request))
    case Success(res) =>
      RunOutcome(
        s.(currentStep := Report, assessmentResult := Some(res), isProcessing := false, error := None),
        StagesShown(|Stages|) + [Send(request, true), Show(Report, true)],
        Some(Submission(IntToString(idTime), StudentName, subject, res.mlScore, At(stampTime), Graded(res))))
    case Failure(_) =>
      RunOutcome(s.(currentStep := Upload, isProcessing := false, error := Some(AssessmentError)),
                 StagesShown(|Stages|) + [Send(request, true), Show(Upload, true)], None)
  }

  /** Whether a log holds a request to the grading service. */
  predicate CallsService(events: seq<Event>)
  {
    exists j :: 0 <= j < |events| && events[j].Send?
  }

  /** The evaluate button is enabled when nothing runs and some page is staged. */
  predicate CanEvaluate(s: DashState)
  {
    !s.isProcessing && |s.uploadedFiles| > 0
  }

  // ---------------------------------------------------------------- properties of a run

  /** With no staged page a run changes nothing, shows nothing and never calls the grading service. */
  lemma {:induction false} RunWithoutFiles(s: DashState, config: SubjectConfig, subject: Subject,
                        service: seq<Segment> -> ServiceReply, idTime: int, stampTime: int)
    requires |s.uploadedFiles| == 0
    ensures var o := RunSpec(s, config, subject, service, idTime, stampTime);
      o.after == s && o.events == [] && o.emitted.None?
  {
  }

  /**
   * For an idle dashboard, a run from a disabled button changes nothing. A run
   * from an enabled button either sends a request, which it does exactly when
   * the configuration has a model answer and every page converts, or ends
   * with one of the two error messages.
   */
  lemma {:induction false} DisabledMeansNoEffect(s: DashState, config: SubjectConfig, subject: Subject,
                              service: seq<Segment> -> ServiceReply, idTime: int, stampTime: int)
    requires !s.isProcessing
    ensures !CanEvaluate(s) ==> RunSpec(s, config, subject, service, idTime, stampTime).after == s
    ensures CanEvaluate(s) ==>
      var o := RunSpec(s, config, subject, service, idTime, stampTime);
      && (CallsService(o.events) <==> HasModelAnswer(config) && PrepareFiles(s.uploadedFiles).Success?)
      && (!CallsService(o.events) ==>
            o.after.error == Some(NoModelAnswerError) || o.after.error == Some(AssessmentError))
  {
    if CanEvaluate(s) && HasModelAnswer(config) && PrepareFiles(s.uploadedFiles).Success? {
      var files := PrepareFiles(s.uploadedFiles).value;
      var o := RunSpec(s, config, subject, service, idTime, stampTime);
      assert o.events[|Stages|] == Send(RequestSpec(files, config), true);
    }
  }

  /** Without a model answer only the error changes: the step and the processing flag stay, nothing is emitted. */
  lemma {:induction false} RunWithoutModelAnswer(s: DashState, config: SubjectConfig, subject: Subject,
                              service: seq<Segment> -> ServiceReply, idTime: int, stampTime: int)
    requires |s.uploadedFiles| > 0 && !HasModelAnswer(config)
    ensures var o := RunSpec(s, config, subject, service, idTime, stampTime);
      && o.after.error == Some(NoModelAnswerError)
      && o.after.currentStep == s.currentStep
      && o.after.isProcessing == s.isProcessing
      && o.after.uploadedFiles == s.uploadedFiles
      && o.events == [] && o.emitted.None?
  {
  }

  /**
   * A run that reaches the grading service first shows the five stages in
   * order, then sends exactly the request built from the converted pages, and
   * only then shows REPORT or UPLOAD; all of it while processing.
   */
  lemma {:induction false} RunVisitsStagesFirst(s: DashState, config: SubjectConfig, subject: Subject,
                             service: seq<Segment> -> ServiceReply, idTime: int, stampTime: int)
    requires |s.uploadedFiles| > 0 && HasModelAnswer(config)
    requires PrepareFiles(s.uploadedFiles).Success?
    ensures var o := RunSpec(s, config, subject, service, idTime, stampTime);
      && |o.events| == 7
      && (forall j :: 0 <= j < 5 ==> o.events[j] == Show(Stages[j], true))
      && o.events[5] == Send(RequestSpec(PrepareFiles(s.uploadedFiles).value, config), true)
      && (o.events[6] == Show(Report, true) || o.events[6] == Show(Upload, true))
  {
  }

  /**
   * A submission is emitted exactly when the grading service's reply parses; it is then
   * the only one, and carries the subject, the fixed student name, the ML score
   * as the score and the result unchanged, and the step is REPORT.
   */
  lemma {:induction false} RunSuccess(s: DashState, config: SubjectConfig, subject: Subject,
                   service: seq<Segment> -> ServiceReply, idTime: int, stampTime: int)
    ensures var o := RunSpec(s, config, subject, service, idTime, stampTime);
      o.emitted.Some? <==>
        && |s.uploadedFiles| > 0 && HasModelAnswer(config) && PrepareFiles(s.uploadedFiles).Success?
        && service(RequestSpec(PrepareFiles(s.uploadedFiles).value, config)).Parsed?
    ensures var o := RunSpec(s, config, subject, service, idTime, stampTime);
      o.emitted.Some? ==>
        var res := service(RequestSpec(PrepareFiles(s.uploadedFiles).value, config)).result;
        && o.emitted.value.subject == subject
        && o.emitted.value.studentName == StudentName
        && o.emitted.value.score == res.mlScore
        && o.emitted.value.result == Graded(res)
        && o.emitted.value.timestamp == At(stampTime)
        && ParseInt(o.emitted.value.id) == Some(idTime)
        && o.after.currentStep == Report
        && o.after.assessmentResult == Some(res)
        && o.after.error.None?
  {
    var o := RunSpec(s, config, subject, service, idTime, stampTime);
    if o.emitted.Some? {
      IntToStringRoundTrip(idTime);
    }
  }

  /** A failed conversion or grading returns to UPLOAD with the generic error and keeps the staged pages and the last result. */
  lemma {:induction false} RunFailure(s: DashState, config: SubjectConfig, subject: Subject,
                   service: seq<Segment> -> ServiceReply, idTime: int, stampTime: int)
    requires |s.uploadedFiles| > 0 && HasModelAnswer(config)
    ensures var o := RunSpec(s, config, subject, service, idTime, stampTime);
      o.emitted.None? ==>
        && o.after.currentStep == Upload
        && o.after.error == Some(AssessmentError)
        && o.after.uploadedFiles == s.uploadedFiles
        && o.after.assessmentResult == s.assessmentResult
  {
  }

  /** Once a run gets past the guards, every step it shows and every request it sends happens while processing, and it ends idle. */
  lemma {:induction false} RunProcessingFlag(s: DashState, config: SubjectConfig, subject: Subject,
                          service: seq<Segment> -> ServiceReply, idTime: int, stampTime: int)
    requires |s.uploadedFiles| > 0 && HasModelAnswer(config)
    ensures var o := RunSpec(s, config, subject, service, idTime, stampTime);
      && !o.after.isProcessing
      && |o.events| > 0
      && (forall j :: 0 <= j < |o.events| ==> o.events[j].processing)
  {
    var o := RunSpec(s, config, subject, service, idTime, stampTime);
    match PrepareFiles(s.uploadedFiles)
    case Failure(_) =>
      assert o.events == [Show(Upload, true)];
    case Success(files) =>
      var request := RequestSpec(files, config);
      var last := if CheckReply(service(request)).Success? then Report else Upload;
      assert o == GradeSpec(s, files, config, subject, service, idTime, stampTime);
      assert o.events == StagesShown(|Stages|) + [Send(request, true), Show(last, true)];
      forall j | 0 <= j < |o.events|
        ensures o.events[j].processing
      {
        if j < |Stages| {
          assert o.events[j] == StagesShown(|Stages|)[j];
        }
      }
  }

  // ---------------------------------------------------------------- the component

  class Dashboard {
    var currentStep: PipelineStep
    var uploadedFiles: seq<UploadedFile>
    var assessmentResult: Option<AssessmentResult>
    var isProcessing: bool
    var error: Option<string>
    /** Every step change displayed and every request sent so far, in order. */
    ghost var events: seq<Event>

    function State(): DashState
      reads this
    {
      DashState(currentStep, uploadedFiles, assessmentResult, isProcessing, error)
    }

    /** The initial state: UPLOAD, nothing staged, no result, idle, no error. */
    constructor ()
      ensures State() == DashState(Upload, [], None, false, None)
      ensures events == []
    {
      currentStep := Upload;
      uploadedFiles := [];
      assessmentResult := None;
      isProcessing := false;
      error := None;
      events := [];
    }

    /** The `disabled` rule of the evaluate button, negated. */
    function CanRun(): (r: bool)
      reads this
      ensures r == CanEvaluate(State())
    {
      !isProcessing && |uploadedFiles| > 0
    }

    /** `handleFileChange`: picked pages go after the staged ones and the error clears; no selection changes nothing. */
    method HandleFileChange(picked: Option<seq<UploadedFile>>)
      modifies this
      ensures picked.Some? ==> State() == old(State()).(uploadedFiles := old(uploadedFiles) + picked.value, error := None)
      ensures picked.None? ==> State() == old(State())
      ensures events == old(events)
    {
      if picked.Some? {
        uploadedFiles := uploadedFiles + picked.value;
        error := None;
      }
    }

    /** `removeFile`: drops every staged page with this id and keeps the others in order. */
    method RemoveFile(id: string)
      modifies this
      ensures State() == old(State()).(uploadedFiles := Filter(old(uploadedFiles), (f: UploadedFile) => f.id != id))
      ensures forall f :: f in uploadedFiles <==> f in old(uploadedFiles) && f.id != id
      ensures events == old(events)
    {
      uploadedFiles := Filter(uploadedFiles, (f: UploadedFile) => f.id != id);
    }

    /** `handleReset`: no result, no staged page, back on UPLOAD, no error. */
    method HandleReset()
      modifies this
      ensures State() == old(State()).(currentStep := Upload, uploadedFiles := [], assessmentResult := None, error := None)
      ensures events == old(events) + [Show(Upload, isProcessing)]
    {
      assessmentResult := None;
      uploadedFiles := [];
      currentStep := Upload;
      events := events + [Show(currentStep, isProcessing)];
      error := None;
    }

    /** Sets the displayed step and records it. */
    method ShowStep(step: PipelineStep)
      modifies this
      ensures State() == old(State()).(currentStep := step)
      ensures events == old(events) + [Show(step, isProcessing)]
    {
      currentStep := step;
      events := events + [Show(step, isProcessing)];
    }

    /** `runPipeline`, with the grading service and the clock readings for the id and the timestamp as parameters. */
    method RunPipeline(config: SubjectConfig, subject: Subject, service: seq<Segment> -> ServiceReply,
                       idTime: int, stampTime: int)
      returns (emitted: Option<Submission>)
      modifies this
      ensures var o := RunSpec(old(State()), config, subject, service, idTime, stampTime);
        && State() == o.after
        && events == old(events) + o.events
        && emitted == o.emitted
    {
      ghost var before := State();
      if |uploadedFiles| == 0 {
        return None;
      }
      if !HasModelAnswer(config) {
        error := Some(NoModelAnswerError);
        return None;
      }
      isProcessing := true;
      error := None;

      var prepared := PrepareFiles(uploadedFiles);
      if prepared.Failure? {
        error := Some(AssessmentError);
        ShowStep(Upload);
        isProcessing := false;
        assert RunSpec(before, config, subject, service, idTime, stampTime)
          == RunOutcome(before.(currentStep := Upload, isProcessing := false, error := Some(AssessmentError)),
                        [Show(Upload, true)], None);
        return None;
      }
      var studentFiles := prepared.value;
      ghost var running := State();
      assert GradeSpec(running, studentFiles, config, subject, service, idTime, stampTime)
        == GradeSpec(before, studentFiles, config, subject, service, idTime, stampTime);
      emitted := AnimateAndGrade(studentFiles, config, subject, service, idTime, stampTime);
    }

    /** The animation loop: shows each stage in turn while processing. */
    method AnimateStages()
      requires isProcessing
      modifies this
      ensures State() == old(State()).(currentStep := Stages[|Stages| - 1])
      ensures events == old(events) + StagesShown(|Stages|)
    {
      var k := 0;
      while k < |Stages|
        invariant 0 <= k <= |Stages|
        invariant k > 0 ==> currentStep == Stages[k - 1]
        invariant State().(currentStep := old(currentStep)) == old(State())
        invariant events == old(events) + StagesShown(k)
      {
        ShowStep(Stages[k]);
        k := k + 1;
      }
    }

    /**
     * The grading service call after the animation, and the success or failure
     * branch. The `Send` event is a ghost record written just before the call,
     * not something the call produces: the log's order is the order of these
     * statements.
     */
    method AnimateAndGrade(studentFiles: seq<AttachedFile>, config: SubjectConfig, subject: Subject,
                           service: seq<Segment> -> ServiceReply, idTime: int, stampTime: int)
      returns (emitted: Option<Submission>)
      requires isProcessing && error.None?
      modifies this
      ensures var o := GradeSpec(old(State()), studentFiles, config, subject, service, idTime, stampTime);
        && State() == o.after
        && events == old(events) + o.events
        && emitted == o.emitted
    {
      ghost var s := State();
      ghost var request := RequestSpec(studentFiles, config);
      AnimateStages();
      events := events + [Send(request, isProcessing)];  // records the call on the next line
      var outcome := AssessAssignment(studentFiles, config, service);
      if outcome.Success? {
        var res := outcome.value;
        assessmentResult := Some(res);
        ShowStep(Report);
        AppendAssoc(old(events), StagesShown(|Stages|), [Send(request, true), Show(Report, true)]);
        emitted := Some(Submission(IntToString(idTime), StudentName, subject, res.mlScore, At(stampTime), Graded(res)));
        isProcessing := false;
        assert State() == s.(currentStep := Report, assessmentResult := Some(res), isProcessing := false, error := None);
      } else {
        error := Some(AssessmentError);
        ShowStep(Upload);
        AppendAssoc(old(events), StagesShown(|Stages|), [Send(request, true), Show(Upload, true)]);
        emitted := None;
        isProcessing := false;
        assert State() == s.(currentStep := Upload, isProcessing := false, error := Some(AssessmentError));
      }
    }
  }
}
