/**
 * The progress display: the table of the five processing steps, and the
 * completed / active / pending classification that both the colour and the
 * icon of a row are chosen by.
 */
module ProcessingPipeline {
  import opened Types

  /** One row of the table: its step, its `label` (here `title`) and its description; the icon component is not modelled. */
  datatype StepInfo = StepInfo(id: PipelineStep, title: string, desc: string)

  /** The five rows, in pipeline order. */
  function Steps(): seq<StepInfo>
  {
    [ StepInfo(Preprocessing, "Preprocessing & Enhancement", "Noise reduction, binarization"),
      StepInfo(Ocr, "OCR Extraction", "Tesseract engine running..."),
      StepInfo(TextProcessing, "Text Processing", "NLTK tokenization & stopword removal"),
      StepInfo(Similarity, "Similarity Calculation", "Vector comparison with Model Answer"),
      StepInfo(MlScoring, "ML Scoring", "Applying trained grading model") ]
  }

  /** `steps.map(s => s.id)`: the five processing steps in pipeline order. */
  function StepIds(): (r: seq<PipelineStep>)
    ensures r == [Preprocessing, Ocr, TextProcessing, Similarity, MlScoring]
  {
    var t := Steps();
    seq(|t|, i requires 0 <= i < |t| => t[i].id)
  }

  /** `xs.indexOf(x)`: the first position holding `x`, or -1. */
  function IndexOf(xs: seq<PipelineStep>, x: PipelineStep): (r: int)
    ensures -1 <= r < |xs|
    ensures r == -1 <==> x !in xs
    ensures r >= 0 ==> xs[r] == x && forall j :: 0 <= j < r ==> xs[j] != x
  {
    if xs == [] then -1
    else if xs[0] == x then 0
    else
      var k := IndexOf(xs[1..], x);
      if k == -1 then -1 else k + 1
  }

  /** The table covers exactly the steps strictly between UPLOAD and REPORT, each once, in declaration order. */
  lemma StepTableOrder()
    ensures |StepIds()| == 5
    ensures forall i :: 0 <= i < 5 ==> StepOrdinal(StepIds()[i]) == i + 1
    ensures forall s :: s in StepIds() <==> 1 <= StepOrdinal(s) <= 5
  {
    var ids := StepIds();
    assert ids == [Preprocessing, Ocr, TextProcessing, Similarity, MlScoring];
  }

  const CompletedColor: string := "text-green-600 border-green-600 bg-green-50"
  const ActiveColor: string := "text-blue-600 border-blue-600 bg-blue-50 ring-2 ring-blue-200 ring-offset-2"
  const PendingColor: string := "text-slate-400 border-slate-200 bg-white"

  datatype Status = Completed | Active | Pending

  /** The three-way comparison of table positions that `getStatusColor` and `getIcon` both make. */
  function PositionStatus(stepIndex: int, currentIndex: int): Status
  {
    if stepIndex < currentIndex then Completed
    else if stepIndex == currentIndex then Active
    else Pending
  }

  function ColorOf(st: Status): string
  {
    match st
    case Completed => CompletedColor
    case Active => ActiveColor
    case Pending => PendingColor
  }

  /** The three icons `getIcon` chooses from: a check mark, a spinner, or the step's own icon. */
  datatype Icon = CheckIcon | SpinnerIcon | StepOwnIcon

  function IconOf(st: Status): Icon
  {
    match st
    case Completed => CheckIcon
    case Active => SpinnerIcon
    case Pending => StepOwnIcon
  }

  /** `getStatusColor`: compares the table positions of the row's step and of the current step. */
  function StatusColor(stepId: PipelineStep, current: PipelineStep): string
  {
    var ids := StepIds();
    ColorOf(PositionStatus(IndexOf(ids, stepId), IndexOf(ids, current)))
  }

  /** `getIcon`: the same comparison, choosing an icon. */
  function StepIcon(stepId: PipelineStep, current: PipelineStep): Icon
  {
    var ids := StepIds();
    IconOf(PositionStatus(IndexOf(ids, stepId), IndexOf(ids, current)))
  }

  /** The classification stated by pipeline order rather than by table positions. */
  function Classify(stepId: PipelineStep, current: PipelineStep): Status
  {
    if 1 <= StepOrdinal(current) <= 5 && StepOrdinal(stepId) < StepOrdinal(current) then Completed
    else if stepId == current then Active
    else Pending
  }

  lemma IndexOfTable(s: PipelineStep)
    ensures IndexOf(StepIds(), s) == (if 1 <= StepOrdinal(s) <= 5 then StepOrdinal(s) - 1 else -1)
  {
    StepTableOrder();
    var ids := StepIds();
    if 1 <= StepOrdinal(s) <= 5 {
      assert ids[StepOrdinal(s) - 1] == s;
    }
  }

  /**
   * For every row of the table, the position comparison that picks the colour
   * and the icon is the order classification: earlier steps completed, the
   * current one active, the rest pending.
   */
  lemma RowsFollowOrder(stepId: PipelineStep, current: PipelineStep)
    requires stepId in StepIds()
    ensures PositionStatus(IndexOf(StepIds(), stepId), IndexOf(StepIds(), current)) == Classify(stepId, current)
  {
    IndexOfTable(stepId);
    IndexOfTable(current);
    StepOrdinalInjective(stepId, current);
  }

  /** So a table row's colour and icon are those of its order classification. */
  lemma RowColorAndIcon(stepId: PipelineStep, current: PipelineStep)
    requires stepId in StepIds()
    ensures StatusColor(stepId, current) == ColorOf(Classify(stepId, current))
    ensures StepIcon(stepId, current) == IconOf(Classify(stepId, current))
  {
    RowsFollowOrder(stepId, current);
  }

  /** The three colours are distinct, so a row's colour determines its status. */
  lemma ColorOfInjective(a: Status, b: Status)
    ensures ColorOf(a) == ColorOf(b) <==> a == b
  {
    if a != b {
      assert |ColorOf(a)| != |ColorOf(b)|;
    }
  }

  /** Colour and icon agree on every step, whether or not it is in the table. */
  lemma ColorAndIconAgree(stepId: PipelineStep, current: PipelineStep)
    ensures StatusColor(stepId, current) == CompletedColor <==> StepIcon(stepId, current) == CheckIcon
    ensures StatusColor(stepId, current) == ActiveColor <==> StepIcon(stepId, current) == SpinnerIcon
    ensures StatusColor(stepId, current) == PendingColor <==> StepIcon(stepId, current) == StepOwnIcon
  {
    var ids := StepIds();
    var st := PositionStatus(IndexOf(ids, stepId), IndexOf(ids, current));
    ColorOfInjective(st, Completed);
    ColorOfInjective(st, Active);
    ColorOfInjective(st, Pending);
  }

  /** Outside the table (UPLOAD, REPORT, ERROR) every row is pending. */
  lemma AllPendingOffTable(current: PipelineStep)
    requires current !in StepIds()
    ensures forall i :: 0 <= i < |StepIds()| ==> Classify(StepIds()[i], current) == Pending
  {
    StepTableOrder();
  }

  /** Inside the table exactly one row, the current step's, is active. */
  lemma ExactlyOneActive(current: PipelineStep)
    requires current in StepIds()
    ensures exists i :: 0 <= i < |StepIds()| && StepIds()[i] == current
    ensures forall i :: 0 <= i < |StepIds()| ==> (Classify(StepIds()[i], current) == Active <==> StepIds()[i] == current)
  {
    StepTableOrder();
  }

  /** The progress bar under a row: only on the current step and only while processing. */
  function ShowProgressBar(stepId: PipelineStep, current: PipelineStep, isProcessing: bool): bool
  {
    stepId == current && isProcessing
  }

  /** At most one row shows the bar, and one does exactly while a table step is being processed. */
  lemma ProgressBarAtMostOnce(current: PipelineStep, isProcessing: bool)
    ensures forall i, j :: 0 <= i < j < |StepIds()| ==>
      !(ShowProgressBar(StepIds()[i], current, isProcessing) && ShowProgressBar(StepIds()[j], current, isProcessing))
    ensures (exists i :: 0 <= i < |StepIds()| && ShowProgressBar(StepIds()[i], current, isProcessing))
      <==> isProcessing && current in StepIds()
  {
    StepTableOrder();
    var ids := StepIds();
    forall i, j | 0 <= i < j < |ids|
      ensures !(ShowProgressBar(ids[i], current, isProcessing) && ShowProgressBar(ids[j], current, isProcessing))
    {
      assert StepOrdinal(ids[i]) != StepOrdinal(ids[j]);
    }
  }
}
