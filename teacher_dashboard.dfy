/**
 * The teacher's side: the submissions of the selected subject and their
 * average, the colour band of a score, and the edits of a subject
 * configuration (adding and removing files in either list, switching the
 * model-answer mode, editing the answer text). The dashboard owns no state:
 * each edit computes the new configuration it hands to the app.
 */
module TeacherDashboard {
  import opened Wrappers
  import opened Types
  import opened Strings
  import opened Lists
  import opened Utils

  // ---------------------------------------------------------------- submissions of a subject

  /** `submissions.filter(s => s.subject === currentSubject)`. */
  function SubjectSubmissions(subs: seq<Submission>, subject: Subject): seq<Submission>
  {
    Filter(subs, (s: Submission) => s.subject == subject)
  }

  /** Exactly the submissions of that subject, each as often as before, in their original order. */
  lemma SubjectSubmissionsExact(subs: seq<Submission>, subject: Subject)
    ensures var r := SubjectSubmissions(subs, subject);
      && (forall s: Submission :: s in r <==> s in subs && s.subject == subject)
      && (forall s: Submission :: s.subject == subject ==> multiset(r)[s] == multiset(subs)[s])
      && IsSubsequence(r, subs)
  {
    FilterIsSubsequence(subs, (s: Submission) => s.subject == subject);
  }

  /** The `reduce` over the first `n` scores, from the left. */
  function SumScores(subs: seq<Submission>, n: nat): int
    requires n <= |subs|
  {
    if n == 0 then 0 else SumScores(subs, n - 1) + subs[n - 1].score
  }

  /**
   * `avgScore`: 0 for no submissions, otherwise `Math.round` of the mean, that
   * is the nearest integer with halves rounded up.
   */
  function AvgScore(subs: seq<Submission>): (r: int)
    ensures |subs| == 0 ==> r == 0
    ensures |subs| > 0 ==>
      var n := |subs|;
      var total := SumScores(subs, n);
      2 * n * r <= 2 * total + n < 2 * n * (r + 1)
  {
    if |subs| == 0 then 0
    else
      var n := |subs|;
      var total := SumScores(subs, n);
      var r := (2 * total + n) / (2 * n);
      assert 2 * n * r <= 2 * total + n < 2 * n * (r + 1) by {
        var m := (2 * total + n) % (2 * n);
        assert 2 * total + n == 2 * n * r + m && 0 <= m < 2 * n;
      }
      r
  }

  lemma {:induction false} SumScoresBounds(subs: seq<Submission>, n: nat, lo: int, hi: int)
    requires n <= |subs|
    requires forall i :: 0 <= i < |subs| ==> lo <= subs[i].score <= hi
    ensures n * lo <= SumScores(subs, n) <= n * hi
  {
    if n > 0 {
      SumScoresBounds(subs, n - 1, lo, hi);
      assert n * lo == (n - 1) * lo + lo;
      assert n * hi == (n - 1) * hi + hi;
    }
  }

  /** The average of scores that all lie in `[lo, hi]` lies in `[lo, hi]` too. */
  lemma AvgWithinBounds(subs: seq<Submission>, lo: int, hi: int)
    requires |subs| > 0
    requires forall i :: 0 <= i < |subs| ==> lo <= subs[i].score <= hi
    ensures lo <= AvgScore(subs) <= hi
  {
    var n := |subs|;
    var r := AvgScore(subs);
    var total := SumScores(subs, n);
    SumScoresBounds(subs, n, lo, hi);
    RoundedMeanBounds(n, total, r, lo, hi);
  }

  /** The arithmetic step: a half-up rounded mean of a total between `n * lo` and `n * hi` lies in `[lo, hi]`. */
  lemma RoundedMeanBounds(n: int, total: int, r: int, lo: int, hi: int)
    requires n > 0
    requires 2 * n * r <= 2 * total + n < 2 * n * (r + 1)
    requires n * lo <= total <= n * hi
    ensures lo <= r <= hi
  {
    var k := 2 * n;
    assert k * (hi + 1) == 2 * (n * hi) + k;
    assert k * r < k * (hi + 1);
    MulLessCancel(k, r, hi + 1);
    assert k * lo == 2 * (n * lo);
    assert k * lo < k * (r + 1);
    MulLessCancel(k, lo, r + 1);
  }

  lemma MulLessCancel(k: int, a: int, b: int)
    requires k > 0 && k * a < k * b
    ensures a < b
  {
    if a >= b {
      MulMonotone(k, b, a);
    }
  }

  lemma MulMonotone(k: int, a: int, b: int)
    requires k > 0 && a <= b
    ensures k * a <= k * b
  {
  }

  /** The colour band of a score in the activity list. */
  datatype Band = GreenBand | YellowBand | RedBand

  function ScoreBand(score: int): Band
  {
    if score >= 80 then GreenBand else if score >= 60 then YellowBand else RedBand
  }

  function BandRank(b: Band): nat
  {
    match b
    case RedBand => 0
    case YellowBand => 1
    case GreenBand => 2
  }

  /** Green from 80, yellow from 60 below that, red under 60; and a higher score never gets a lower band. */
  lemma ScoreBandThresholds(a: int, b: int)
    ensures ScoreBand(a) == GreenBand <==> a >= 80
    ensures ScoreBand(a) == YellowBand <==> 60 <= a < 80
    ensures ScoreBand(a) == RedBand <==> a < 60
    ensures a <= b ==> BandRank(ScoreBand(a)) <= BandRank(ScoreBand(b))
  {
  }

  // ---------------------------------------------------------------- uploading files

  /** Which list an upload or a removal acts on: the question paper (`'qp'`) or the model answer (`'ma'`). */
  datatype Target = QuestionPaper | ModelAnswer

  /** The id of the `i`-th picked file, read at clock time `now`: `Date.now() + '-' + i`. */
  function UploadId(now: nat, i: nat): string
  {
    NatToString(now) + "-" + NatToString(i)
  }

  lemma NatToStringHasNoDash(n: nat)
    ensures '-' !in NatToString(n)
  {
    var s := NatToString(n);
    forall k | 0 <= k < |s| ensures s[k] != '-' {
      assert IsDigit(s[k]);
    }
  }

  /** An upload id splits on its dash into the clock reading and the file's index. */
  lemma UploadIdFields(now: nat, i: nat)
    ensures Split(UploadId(now, i), '-') == [NatToString(now), NatToString(i)]
  {
    NatToStringHasNoDash(now);
    NatToStringHasNoDash(i);
    SplitTwoFields(NatToString(now), '-', NatToString(i));
    assert UploadId(now, i) == NatToString(now) + ['-'] + NatToString(i);
  }

  /** Files of one selection get different ids, whatever the clock reads at each of them. */
  lemma UploadIdsDistinct(t1: nat, i: nat, t2: nat, j: nat)
    requires i != j
    ensures UploadId(t1, i) != UploadId(t2, j)
  {
    UploadIdFields(t1, i);
    UploadIdFields(t2, j);
    if UploadId(t1, i) == UploadId(t2, j) {
      NatToStringInjective(i, j);
    }
  }

  /** The attached file made of the `i`-th picked file, when its conversion succeeds. */
  function Converted(files: seq<RawFile>, clock: nat -> nat, i: nat): Option<AttachedFile>
    requires i < |files|
  {
    match FileToBase64(files[i])
    case Success(data) => Some(AttachedFile(UploadId(clock(i), i), files[i].name, GetMimeType(files[i]), data))
    case Failure(_) => None
  }

  /** The indices among the first `n` picked files whose conversion succeeds, in increasing order. */
  function Succeeded(files: seq<RawFile>, n: nat): (r: seq<nat>)
    requires n <= |files|
    ensures forall k :: 0 <= k < |r| ==> r[k] < n && FileToBase64(files[r[k]]).Success?
    ensures forall k, l :: 0 <= k < l < |r| ==> r[k] < r[l]
    ensures forall i :: 0 <= i < n && FileToBase64(files[i]).Success? ==> i in r
  {
    if n == 0 then []
    else if FileToBase64(files[n - 1]).Success? then Succeeded(files, n - 1) + [n - 1]
    else Succeeded(files, n - 1)
  }

  /** `newFiles` after the first `n` iterations: failed reads are skipped, the others kept in order. */
  function ConvertUploads(files: seq<RawFile>, clock: nat -> nat, n: nat): (r: seq<AttachedFile>)
    requires n <= |files|
    ensures |r| == |Succeeded(files, n)|
    ensures forall k :: 0 <= k < |r| ==> Converted(files, clock, Succeeded(files, n)[k]) == Some(r[k])
  {
    if n == 0 then []
    else
      match Converted(files, clock, n - 1)
      case Some(f) => ConvertUploads(files, clock, n - 1) + [f]
      case None => ConvertUploads(files, clock, n - 1)
  }

  /** The kept files all carry different ids. */
  lemma ConvertedIdsDistinct(files: seq<RawFile>, clock: nat -> nat)
    ensures var r := ConvertUploads(files, clock, |files|);
      forall k, l :: 0 <= k < l < |r| ==> r[k].id != r[l].id
  {
    var r := ConvertUploads(files, clock, |files|);
    var idx := Succeeded(files, |files|);
    forall k, l | 0 <= k < l < |r| ensures r[k].id != r[l].id {
      assert r[k].id == UploadId(clock(idx[k]), idx[k]);
      assert r[l].id == UploadId(clock(idx[l]), idx[l]);
      UploadIdsDistinct(clock(idx[k]), idx[k], clock(idx[l]), idx[l]);
    }
  }

  /** The configuration with `newFiles` appended to the targeted list. */
  function AddFiles(config: SubjectConfig, target: Target, newFiles: seq<AttachedFile>): (r: SubjectConfig)
    ensures r.modelAnswerType == config.modelAnswerType && r.modelAnswerText == config.modelAnswerText
    ensures target == QuestionPaper ==>
      r.questionPaperFiles == config.questionPaperFiles + newFiles && r.modelAnswerFiles == config.modelAnswerFiles
    ensures target == ModelAnswer ==>
      r.modelAnswerFiles == config.modelAnswerFiles + newFiles && r.questionPaperFiles == config.questionPaperFiles
  {
    match target
    case QuestionPaper => config.(questionPaperFiles := config.questionPaperFiles + newFiles)
    case ModelAnswer => config.(modelAnswerFiles := config.modelAnswerFiles + newFiles)
  }

  /**
   * `handleFileUpload`: converts the picked files one by one, skipping those
   * whose read fails, and appends the rest to the targeted list. `clock(i)` is
   * `Date.now()` at the `i`-th file. No selection means no update.
   */
  method HandleFileUpload(config: SubjectConfig, picked: Option<seq<RawFile>>, clock: nat -> nat, target: Target)
    returns (update: Option<SubjectConfig>)
    ensures picked.None? ==> update.None?
    ensures picked.Some? ==>
      update == Some(AddFiles(config, target, ConvertUploads(picked.value, clock, |picked.value|)))
  {
    if picked.None? {
      return None;
    }
    var files := picked.value;
    var newFiles: seq<AttachedFile> := [];
    var i := 0;
    while i < |files|
      invariant 0 <= i <= |files|
      invariant newFiles == ConvertUploads(files, clock, i)
    {
      var file := files[i];
      var base64 := FileToBase64(file);
      if base64.Success? {
        newFiles := newFiles + [AttachedFile(UploadId(clock(i), i), file.name, GetMimeType(file), base64.value)];
      }
      i := i + 1;
    }
    if target == QuestionPaper {
      update := Some(config.(questionPaperFiles := config.questionPaperFiles + newFiles));
    } else {
      update := Some(config.(modelAnswerFiles := config.modelAnswerFiles + newFiles));
    }
  }

  // ---------------------------------------------------------------- removing files and editing

  /** `removeFile`: drops every file with this id from the targeted list only. */
  function RemoveAttached(config: SubjectConfig, id: string, target: Target): (r: SubjectConfig)
    ensures r.modelAnswerType == config.modelAnswerType && r.modelAnswerText == config.modelAnswerText
    ensures target == QuestionPaper ==> r.modelAnswerFiles == config.modelAnswerFiles
    ensures target == ModelAnswer ==> r.questionPaperFiles == config.questionPaperFiles
    ensures target == QuestionPaper ==>
      forall f :: f in r.questionPaperFiles <==> f in config.questionPaperFiles && f.id != id
    ensures target == ModelAnswer ==>
      forall f :: f in r.modelAnswerFiles <==> f in config.modelAnswerFiles && f.id != id
  {
    match target
    case QuestionPaper =>
      config.(questionPaperFiles := Filter(config.questionPaperFiles, (f: AttachedFile) => f.id != id))
    case ModelAnswer =>
      config.(modelAnswerFiles := Filter(config.modelAnswerFiles, (f: AttachedFile) => f.id != id))
  }

  /** Removal keeps the order of the files that stay. */
  lemma RemoveAttachedKeepsOrder(config: SubjectConfig, id: string, target: Target)
    ensures target == QuestionPaper ==>
      IsSubsequence(RemoveAttached(config, id, target).questionPaperFiles, config.questionPaperFiles)
    ensures target == ModelAnswer ==>
      IsSubsequence(RemoveAttached(config, id, target).modelAnswerFiles, config.modelAnswerFiles)
  {
    FilterIsSubsequence(config.questionPaperFiles, (f: AttachedFile) => f.id != id);
    FilterIsSubsequence(config.modelAnswerFiles, (f: AttachedFile) => f.id != id);
  }

  /** The mode toggle: changes the model-answer mode only. */
  function SetAnswerMode(config: SubjectConfig, mode: AnswerMode): (r: SubjectConfig)
    ensures r.modelAnswerType == mode
    ensures r.(modelAnswerType := config.modelAnswerType) == config
  {
    config.(modelAnswerType := mode)
  }

  /** The answer-text editor: changes the model-answer text only. */
  function SetAnswerText(config: SubjectConfig, text: string): (r: SubjectConfig)
    ensures r.modelAnswerText == text
    ensures r.(modelAnswerText := config.modelAnswerText) == config
  {
    config.(modelAnswerText := text)
  }

  /** Switching to text mode and back loses nothing: the uploaded model-answer files survive. */
  lemma ModeSwitchKeepsFiles(config: SubjectConfig)
    requires config.modelAnswerType == FileMode
    ensures SetAnswerMode(SetAnswerMode(config, TextMode), FileMode) == config
    ensures SetAnswerMode(config, TextMode).modelAnswerFiles == config.modelAnswerFiles
  {
  }
}
