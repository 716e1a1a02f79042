/**
 * The grading request: the ordered list of segments `assessAssignment` sends
 * to the model, and the check it applies to the reply. The remote call is a
 * function parameter; the response schema and the client are not modelled.
 */
module Gemini {
  import opened Wrappers
  import opened Types
  import opened Strings

  /** One request part: plain text, or inline file data with its MIME type. */
  datatype Segment = TextPart(text: string) | InlineData(data: string, mimeType: string)

  /** The fixed grading instructions, with the template literal's exact line breaks and indentation. */
  const SystemPrompt: string :=
    "\n    You are an automated academic grading system. \n    \n    Your task is to:\n"
    + "    1. Analyze the provided STUDENT ANSWER (which may consist of multiple image/pdf pages).\n"
    + "    2. Perform accurate OCR to extract the handwritten text from ALL pages.\n"
    + "    3. Compare the extracted text with the provided MODEL ANSWER KEY.\n"
    + "    4. Calculate a Semantic Similarity Score (0-100).\n"
    + "    5. Assign a Final ML Grade (0-100) based on correctness, completeness, and clarity.\n"
    + "    6. Provide constructive feedback.\n"
    + "    7. List key concepts from the model answer that were found in the student's text, and those that were missed.\n"
    + "  "
  const ModelAnswerHeader: string := "\n\n--- MODEL ANSWER KEY (Truth) ---"
  const ReferToFiles: string := "Refer to the following attached document(s) for the Model Answer Key:"
  const QuestionPaperHeader: string := "\n\n--- ORIGINAL QUESTION PAPER (Reference) ---"
  const StudentHeader: string := "\n\n--- STUDENT SUBMISSION TO GRADE ---"
  const ContinuousNote: string :=
    "The student submission consists of the following multiple pages/files. Treat them as a single continuous answer."
  const NoResponseError: string := "No response received from AI"

  const LabelPrefix: string := "\n[Student Submission Part "

  /** The label in front of student page `i` (counted from zero) of `n`. */
  function PartLabel(i: nat, n: nat): string
  {
    LabelPrefix + NatToString(i + 1) + "/" + NatToString(n) + "]"
  }

  /** An attached file as an inline-data segment. */
  function Inline(f: AttachedFile): Segment
  {
    InlineData(f.data, f.mimeType)
  }

  /** One inline segment per file for the first `n` files, in list order. */
  function InlineAll(files: seq<AttachedFile>, n: nat): (r: seq<Segment>)
    requires n <= |files|
    ensures |r| == n
    ensures forall j :: 0 <= j < n ==> r[j] == Inline(files[j])
  {
    if n == 0 then [] else InlineAll(files, n - 1) + [Inline(files[n - 1])]
  }

  /** A label followed by the page's data, for each of the first `n` student files. */
  function StudentParts(files: seq<AttachedFile>, n: nat): (r: seq<Segment>)
    requires n <= |files|
    ensures |r| == 2 * n
    ensures forall i :: 0 <= i < n ==> r[2 * i] == TextPart(PartLabel(i, |files|))
    ensures forall i :: 0 <= i < n ==> r[2 * i + 1] == Inline(files[i])
  {
    if n == 0 then []
    else StudentParts(files, n - 1) + [TextPart(PartLabel(n - 1, |files|)), Inline(files[n - 1])]
  }

  /** What stands after the model-answer header: the text, or the note referring to the files and the files. */
  function ModelAnswerParts(config: SubjectConfig): seq<Segment>
  {
    match config.modelAnswerType
    case TextMode => [TextPart(config.modelAnswerText)]
    case FileMode => [TextPart(ReferToFiles)] + InlineAll(config.modelAnswerFiles, |config.modelAnswerFiles|)
  }

  /** The question-paper block, present only when there is a question paper. */
  function QuestionPaperParts(config: SubjectConfig): seq<Segment>
  {
    var qp := config.questionPaperFiles;
    if |qp| > 0 then [TextPart(QuestionPaperHeader)] + InlineAll(qp, |qp|) else []
  }

  function ContinuousParts(n: nat): seq<Segment>
  {
    if n > 1 then [TextPart(ContinuousNote)] else []
  }

  /** The complete request for these student pages under this configuration. */
  function RequestSpec(studentFiles: seq<AttachedFile>, config: SubjectConfig): seq<Segment>
  {
    [TextPart(SystemPrompt), TextPart(ModelAnswerHeader)]
      + ModelAnswerParts(config)
      + QuestionPaperParts(config)
      + [TextPart(StudentHeader)]
      + ContinuousParts(|studentFiles|)
      + StudentParts(studentFiles, |studentFiles|)
  }

  /** The `forEach` that pushes one inline segment per file onto `parts`. */
  method PushFiles(parts: seq<Segment>, files: seq<AttachedFile>) returns (out: seq<Segment>)
    ensures out == parts + InlineAll(files, |files|)
  {
    out := parts;
    var i := 0;
    while i < |files|
      invariant 0 <= i <= |files|
      invariant out == parts + InlineAll(files, i)
    {
      out := out + [Inline(files[i])];
      i := i + 1;
    }
  }

  /** The `forEach` that pushes a label and the page's data for each student file. */
  method PushPages(parts: seq<Segment>, studentFiles: seq<AttachedFile>) returns (out: seq<Segment>)
    ensures out == parts + StudentParts(studentFiles, |studentFiles|)
  {
    out := parts;
    var index := 0;
    while index < |studentFiles|
      invariant 0 <= index <= |studentFiles|
      invariant out == parts + StudentParts(studentFiles, index)
    {
      out := out + [TextPart(PartLabel(index, |studentFiles|))];
      out := out + [Inline(studentFiles[index])];
      index := index + 1;
    }
  }

  /** Builds `contentParts` push by push, as `assessAssignment` does. */
  method BuildContentParts(studentFiles: seq<AttachedFile>, config: SubjectConfig)
    returns (parts: seq<Segment>)
    ensures parts == RequestSpec(studentFiles, config)
  {
    parts := [TextPart(SystemPrompt)];
    parts := parts + [TextPart(ModelAnswerHeader)];
    ghost var head := parts;

    if config.modelAnswerType == TextMode {
      parts := parts + [TextPart(config.modelAnswerText)];
    } else {
      parts := parts + [TextPart(ReferToFiles)];
      parts := PushFiles(parts, config.modelAnswerFiles);
    }
    ghost var afterModel := parts;
    assert afterModel == head + ModelAnswerParts(config);

    if |config.questionPaperFiles| > 0 {
      parts := parts + [TextPart(QuestionPaperHeader)];
      parts := PushFiles(parts, config.questionPaperFiles);
    }
    ghost var afterPaper := parts;
    assert afterPaper == afterModel + QuestionPaperParts(config);

    parts := parts + [TextPart(StudentHeader)];
    if |studentFiles| > 1 {
      parts := parts + [TextPart(ContinuousNote)];
    }
    ghost var beforePages := parts;
    assert beforePages == afterPaper + [TextPart(StudentHeader)] + ContinuousParts(|studentFiles|);

    parts := PushPages(parts, studentFiles);
    assert parts == beforePages + StudentParts(studentFiles, |studentFiles|);
    assert head == [TextPart(SystemPrompt), TextPart(ModelAnswerHeader)];
  }

  // ---------------------------------------------------------------- layout of the request

  /** Where the model-answer block ends: the question-paper block (if any) starts here. */
  function QuestionPaperStart(config: SubjectConfig): nat
  {
    2 + |ModelAnswerParts(config)|
  }

  /** Where the student header stands. */
  function StudentHeaderIndex(config: SubjectConfig): nat
  {
    QuestionPaperStart(config) + |QuestionPaperParts(config)|
  }

  /** Where the first page label stands. */
  function PagesStart(studentFiles: seq<AttachedFile>, config: SubjectConfig): nat
  {
    StudentHeaderIndex(config) + 1 + |ContinuousParts(|studentFiles|)|
  }

  /**
   * The request opens with the instructions, the model-answer header and the
   * model-answer block, and its length is the sum of its blocks.
   */
  lemma {:induction false} RequestOpening(studentFiles: seq<AttachedFile>, config: SubjectConfig)
    ensures var r := RequestSpec(studentFiles, config);
      && r[0] == TextPart(SystemPrompt) && r[1] == TextPart(ModelAnswerHeader)
      && |r| == PagesStart(studentFiles, config) + 2 * |studentFiles|
      && forall k :: 0 <= k < |ModelAnswerParts(config)| ==> r[2 + k] == ModelAnswerParts(config)[k]
  {
    var r := RequestSpec(studentFiles, config);
    var a := [TextPart(SystemPrompt), TextPart(ModelAnswerHeader)] + ModelAnswerParts(config);
    var rest := QuestionPaperParts(config) + [TextPart(StudentHeader)] + ContinuousParts(|studentFiles|)
      + StudentParts(studentFiles, |studentFiles|);
    assert |r| == |a| + |rest|;
    forall k | 0 <= k < |ModelAnswerParts(config)|
      ensures r[2 + k] == ModelAnswerParts(config)[k]
    {
      assert r[2 + k] == a[2 + k];
    }
  }

  /** The student header stands right after the question-paper block, whether or not there is one. */
  lemma {:induction false} StudentHeaderLayout(studentFiles: seq<AttachedFile>, config: SubjectConfig)
    ensures RequestSpec(studentFiles, config)[StudentHeaderIndex(config)] == TextPart(StudentHeader)
  {
    var r := RequestSpec(studentFiles, config);
    var a := [TextPart(SystemPrompt), TextPart(ModelAnswerHeader)] + ModelAnswerParts(config);
    var h := a + QuestionPaperParts(config) + [TextPart(StudentHeader)];
    assert r == h + ContinuousParts(|studentFiles|) + StudentParts(studentFiles, |studentFiles|);
    assert r[StudentHeaderIndex(config)] == h[|h| - 1];
  }

  /** In text mode exactly the answer text follows the header, and the model-answer files play no part. */
  lemma {:induction false} TextModeLayout(studentFiles: seq<AttachedFile>, config: SubjectConfig, otherFiles: seq<AttachedFile>)
    requires config.modelAnswerType == TextMode
    ensures QuestionPaperStart(config) == 3
    ensures RequestSpec(studentFiles, config)[2] == TextPart(config.modelAnswerText)
    ensures RequestSpec(studentFiles, config) == RequestSpec(studentFiles, config.(modelAnswerFiles := otherFiles))
  {
    assert RequestSpec(studentFiles, config)[2] == ModelAnswerParts(config)[0];
  }

  /** In file mode the reference-to-documents text follows the header, then each model-answer file in order. */
  lemma {:induction false} FileModeLayout(studentFiles: seq<AttachedFile>, config: SubjectConfig)
    requires config.modelAnswerType == FileMode
    ensures var r := RequestSpec(studentFiles, config);
      var ma := config.modelAnswerFiles;
      && QuestionPaperStart(config) == 3 + |ma|
      && r[2] == TextPart(ReferToFiles)
      && (forall j :: 0 <= j < |ma| ==> r[3 + j] == Inline(ma[j]))
  {
    var r := RequestSpec(studentFiles, config);
    var ma := config.modelAnswerFiles;
    var m := ModelAnswerParts(config);
    assert r[2] == m[0];
    forall j | 0 <= j < |ma| ensures r[3 + j] == Inline(ma[j]) {
      assert r[3 + j] == m[1 + j];
      assert m[1 + j] == InlineAll(ma, |ma|)[j];
    }
  }

  /** With a question paper, its header and then each of its files follow the model-answer block. */
  lemma {:induction false} QuestionPaperPresent(studentFiles: seq<AttachedFile>, config: SubjectConfig)
    requires |config.questionPaperFiles| > 0
    ensures var r := RequestSpec(studentFiles, config);
      var qp := config.questionPaperFiles;
      && QuestionPaperStart(config) + 1 + |qp| <= |r|
      && r[QuestionPaperStart(config)] == TextPart(QuestionPaperHeader)
      && (forall j :: 0 <= j < |qp| ==> r[QuestionPaperStart(config) + 1 + j] == Inline(qp[j]))
  {
    var r := RequestSpec(studentFiles, config);
    var qp := config.questionPaperFiles;
    var s := QuestionPaperStart(config);
    var q := QuestionPaperParts(config);
    var a := [TextPart(SystemPrompt), TextPart(ModelAnswerHeader)] + ModelAnswerParts(config);
    assert |a| == s;
    assert r[s] == q[0];
    forall j | 0 <= j < |qp| ensures r[s + 1 + j] == Inline(qp[j]) {
      assert r[s + 1 + j] == q[1 + j];
      assert q[1 + j] == InlineAll(qp, |qp|)[j];
    }
  }

  /** Without a question paper the student header follows the model-answer block directly. */
  lemma {:induction false} QuestionPaperAbsent(studentFiles: seq<AttachedFile>, config: SubjectConfig)
    requires |config.questionPaperFiles| == 0
    ensures StudentHeaderIndex(config) == QuestionPaperStart(config)
    ensures RequestSpec(studentFiles, config)[QuestionPaperStart(config)] != TextPart(QuestionPaperHeader)
  {
    var r := RequestSpec(studentFiles, config);
    assert r[QuestionPaperStart(config)] == TextPart(StudentHeader);
    assert |StudentHeader| != |QuestionPaperHeader|;
  }

  /**
   * The question-paper header stands after the model-answer block exactly when
   * there is a question paper, and is then followed by each of its files in order.
   */
  lemma {:induction false} QuestionPaperLayout(studentFiles: seq<AttachedFile>, config: SubjectConfig)
    ensures var r := RequestSpec(studentFiles, config);
      var qp := config.questionPaperFiles;
      && (r[QuestionPaperStart(config)] == TextPart(QuestionPaperHeader) <==> |qp| > 0)
      && StudentHeaderIndex(config) == QuestionPaperStart(config) + (if |qp| > 0 then 1 + |qp| else 0)
      && (forall j :: 0 <= j < |qp| ==> r[QuestionPaperStart(config) + 1 + j] == Inline(qp[j]))
  {
    if |config.questionPaperFiles| > 0 {
      QuestionPaperPresent(studentFiles, config);
    } else {
      QuestionPaperAbsent(studentFiles, config);
    }
  }

  /** The continuous-answer note follows the student header exactly when there are several pages. */
  lemma {:induction false} ContinuousNoteLayout(studentFiles: seq<AttachedFile>, config: SubjectConfig)
    ensures var r := RequestSpec(studentFiles, config);
      var i := StudentHeaderIndex(config) + 1;
      (i < |r| && r[i] == TextPart(ContinuousNote)) <==> |studentFiles| > 1
  {
    var r := RequestSpec(studentFiles, config);
    var i := StudentHeaderIndex(config) + 1;
    var c := ContinuousParts(|studentFiles|);
    var p := StudentParts(studentFiles, |studentFiles|);
    if |studentFiles| > 1 {
      assert r[i] == c[0];
    } else if |studentFiles| == 1 {
      assert r[i] == p[0];
      assert |PartLabel(0, 1)| < |ContinuousNote|;
    }
  }

  /** Each student page is its label `Part i+1/n` immediately followed by that page's data, in input order. */
  lemma {:induction false} PagesLayout(studentFiles: seq<AttachedFile>, config: SubjectConfig)
    ensures var r := RequestSpec(studentFiles, config);
      var s := PagesStart(studentFiles, config);
      forall i :: 0 <= i < |studentFiles| ==>
        r[s + 2 * i] == TextPart(PartLabel(i, |studentFiles|)) && r[s + 2 * i + 1] == Inline(studentFiles[i])
  {
    var r := RequestSpec(studentFiles, config);
    var s := PagesStart(studentFiles, config);
    var p := StudentParts(studentFiles, |studentFiles|);
    var pre := [TextPart(SystemPrompt), TextPart(ModelAnswerHeader)] + ModelAnswerParts(config)
      + QuestionPaperParts(config) + [TextPart(StudentHeader)] + ContinuousParts(|studentFiles|);
    assert r == pre + p;
    assert |pre| == s;
    forall i | 0 <= i < |studentFiles|
      ensures r[s + 2 * i] == TextPart(PartLabel(i, |studentFiles|)) && r[s + 2 * i + 1] == Inline(studentFiles[i])
    {
      assert r[s + 2 * i] == p[2 * i];
      assert r[s + 2 * i + 1] == p[2 * i + 1];
    }
  }

  /** The number of segments, block by block. */
  lemma {:induction false} SegmentCount(studentFiles: seq<AttachedFile>, config: SubjectConfig)
    ensures var ma := config.modelAnswerFiles;
      var qp := config.questionPaperFiles;
      var n := |studentFiles|;
      |RequestSpec(studentFiles, config)| ==
        2 + (if config.modelAnswerType == TextMode then 1 else 1 + |ma|)
        + (if |qp| > 0 then 1 + |qp| else 0) + 1 + (if n > 1 then 1 else 0) + 2 * n
  {
  }

  /** Different pages of one submission carry different labels. */
  lemma {:induction false} PartLabelsDistinct(i: nat, j: nat, n: nat)
    requires PartLabel(i, n) == PartLabel(j, n)
    ensures i == j
  {
    var a := NatToString(i + 1);
    var b := NatToString(j + 1);
    var tail := "/" + NatToString(n) + "]";
    assert PartLabel(i, n) == LabelPrefix + a + tail;
    assert PartLabel(j, n) == LabelPrefix + b + tail;
    assert |a| == |b|;
    assert a == PartLabel(i, n)[|LabelPrefix|..|LabelPrefix| + |a|];
    assert b == PartLabel(j, n)[|LabelPrefix|..|LabelPrefix| + |b|];
    NatToStringInjective(i + 1, j + 1);
  }

  // ---------------------------------------------------------------- the reply

  /** What the remote call ends in: it throws, it answers without text, or its text parses or does not. */
  datatype ServiceReply = Threw(message: string) | NoText | Unparsable(message: string) | Parsed(result: AssessmentResult)

  /** The reply check: a parsed result is returned as it is, anything else becomes the error thrown. */
  function CheckReply(reply: ServiceReply): (r: Result<AssessmentResult, string>)
    ensures r.Success? <==> reply.Parsed?
    ensures r.Success? ==> r.value == reply.result
    ensures reply.NoText? ==> r == Failure(NoResponseError)
    ensures reply.Threw? || reply.Unparsable? ==> r == Failure(reply.message)
  {
    match reply
    case Threw(m) => Failure(m)
    case NoText => Failure(NoResponseError)
    case Unparsable(m) => Failure(m)
    case Parsed(res) => Success(res)
  }

  /** `assessAssignment`: builds the request, sends it to `service`, and checks the reply. */
  method AssessAssignment(studentFiles: seq<AttachedFile>, config: SubjectConfig, service: seq<Segment> -> ServiceReply)
    returns (outcome: Result<AssessmentResult, string>)
    ensures outcome == CheckReply(service(RequestSpec(studentFiles, config)))
    ensures outcome.Success? <==> service(RequestSpec(studentFiles, config)).Parsed?
  {
    var parts := BuildContentParts(studentFiles, config);
    var reply := service(parts);
    outcome := CheckReply(reply);
  }
}
