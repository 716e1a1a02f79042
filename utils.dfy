/**
 * File helpers and the data part of the CSV grading report.
 * The browser's FileReader, the locale-aware comparator and the locale date
 * formatter are parameters; the download through a DOM link is not modelled.
 */
module Utils {
  import opened Wrappers
  import opened Types
  import opened Strings
  import opened Lists

  // ---------------------------------------------------------------- files

  /** What `FileReader.readAsDataURL` delivers: a string, some other value, or a read error. */
  datatype ReaderOutcome = StringResult(text: string) | NonStringResult | ReadError(message: string)

  /** A browser `File`: its name, its declared type and what reading it yields. */
  datatype RawFile = RawFile(name: string, mimeType: string, read: ReaderOutcome)

  const ConversionError: string := "Failed to convert file to base64"
  /** The model's rejection for a reader string with no comma (the browser always writes one). */
  const MissingSeparator: string := "data URL without a comma"

  /** `dataUrl.split(',')[1]`: the second comma-separated field, or `None` (undefined) when there is none. */
  function StripHeader(dataUrl: string): Option<string>
  {
    var parts := Split(dataUrl, ',');
    if |parts| > 1 then Some(parts[1]) else None
  }

  /** For a data URL `prefix,payload` with no other comma, stripping yields exactly the payload. */
  lemma {:induction false} StripHeaderOfDataUrl(prefix: string, payload: string)
    requires ',' !in prefix && ',' !in payload
    ensures StripHeader(prefix + "," + payload) == Some(payload)
  {
    SplitTwoFields(prefix, ',', payload);
    assert prefix + "," + payload == prefix + [','] + payload;
  }

  /** A string without a comma has no header to strip. */
  lemma {:induction false} StripHeaderWithoutComma(s: string)
    requires ',' !in s
    ensures StripHeader(s) == None
  {
    SplitWithoutSeparator(s, ',');
  }

  /** `fileToBase64`: resolves with the payload of the data URL, rejects when the reader fails. */
  function FileToBase64(file: RawFile): (r: Result<string, string>)
    ensures file.read.NonStringResult? ==> r == Failure(ConversionError)
    ensures file.read.ReadError? ==> r == Failure(file.read.message)
    ensures r.Success? <==> file.read.StringResult? && StripHeader(file.read.text).Some?
    ensures r.Success? ==> Some(r.value) == StripHeader(file.read.text)
  {
    match file.read
    case StringResult(t) =>
      (match StripHeader(t)
       case Some(payload) => Success(payload)
       case None => Failure(MissingSeparator))
    case NonStringResult => Failure(ConversionError)
    case ReadError(m) => Failure(m)
  }

  /** `getMimeType`: the file's declared type, unchanged. */
  function GetMimeType(file: RawFile): (r: string)
    ensures r == file.mimeType
  {
    file.mimeType
  }

  /** `uploadFileToFirebase` is disabled: it always resolves with undefined. */
  function UploadFileToFirebase(file: RawFile, folder: string): (r: Option<string>)
    ensures r.None?
  {
    None
  }

  // ---------------------------------------------------------------- question columns

  /** The question numbers a submission's result lists, in order; none when the result has no grades. */
  function GradeNumbers(sub: Submission): (r: seq<string>)
    ensures sub.result.EmptyRecord? || sub.result.result.questionGrades.None? ==> r == []
  {
    match sub.result
    case EmptyRecord => []
    case Graded(res) =>
      match res.questionGrades
      case None => []
      case Some(gs) => seq(|gs|, i requires 0 <= i < |gs| => gs[i].questionNumber)
  }

  /** `set.add(q)` on a JavaScript Set, kept as its contents in insertion order. */
  function SetAdd(seen: seq<string>, q: string): seq<string>
  {
    if q in seen then seen else seen + [q]
  }

  /** The Set after adding the first `n` of `qs`. */
  function AddAll(seen: seq<string>, qs: seq<string>, n: nat): seq<string>
    requires n <= |qs|
  {
    if n == 0 then seen else SetAdd(AddAll(seen, qs, n - 1), qs[n - 1])
  }

  /** The Set of question numbers after visiting the first `n` submissions. */
  function Collected(subs: seq<Submission>, n: nat): seq<string>
    requires n <= |subs|
  {
    if n == 0 then []
    else
      var qs := GradeNumbers(subs[n - 1]);
      AddAll(Collected(subs, n - 1), qs, |qs|)
  }

  ghost predicate NoDuplicates(xs: seq<string>) {
    forall i, j :: 0 <= i < j < |xs| ==> xs[i] != xs[j]
  }

  /** The loop that fills `allQuestionNumbers`. */
  method CollectQuestionNumbers(subs: seq<Submission>) returns (seen: seq<string>)
    ensures seen == Collected(subs, |subs|)
  {
    seen := [];
    var k := 0;
    while k < |subs|
      invariant 0 <= k <= |subs|
      invariant seen == Collected(subs, k)
    {
      seen := AddQuestions(seen, GradeNumbers(subs[k]));
      k := k + 1;
    }
  }

  /** The inner `forEach`: adds each question number of one submission to the Set. */
  method AddQuestions(seen: seq<string>, qs: seq<string>) returns (out: seq<string>)
    ensures out == AddAll(seen, qs, |qs|)
  {
    out := seen;
    var j := 0;
    while j < |qs|
      invariant 0 <= j <= |qs|
      invariant out == AddAll(seen, qs, j)
    {
      if qs[j] !in out {
        out := out + [qs[j]];
      }
      j := j + 1;
    }
  }


  lemma {:induction false} AddAllContents(seen: seq<string>, qs: seq<string>, n: nat)
    requires n <= |qs| && NoDuplicates(seen)
    ensures NoDuplicates(AddAll(seen, qs, n))
    ensures forall q :: q in AddAll(seen, qs, n) <==> q in seen || q in qs[..n]
  {
    if n > 0 {
      AddAllContents(seen, qs, n - 1);
      assert qs[..n] == qs[..n - 1] + [qs[n - 1]];
    }
  }

  /** The question columns are exactly the numbers some submission's grades list, each once. */
  lemma {:induction false} CollectedIsUnion(subs: seq<Submission>, n: nat)
    requires n <= |subs|
    ensures NoDuplicates(Collected(subs, n))
    ensures forall q :: q in Collected(subs, n) <==> exists k :: 0 <= k < n && q in GradeNumbers(subs[k])
  {
    if n > 0 {
      CollectedIsUnion(subs, n - 1);
      var qs := GradeNumbers(subs[n - 1]);
      AddAllContents(Collected(subs, n - 1), qs, |qs|);
      assert qs[..|qs|] == qs;
    }
  }

  // ---------------------------------------------------------------- sorting the columns

  /** Places `x` before the first element it does not come after. */
  function Insert(x: string, sorted: seq<string>, le: (string, string) -> bool): (r: seq<string>)
    ensures multiset(r) == multiset(sorted) + multiset{x}
  {
    if sorted == [] then [x]
    else if le(x, sorted[0]) then [x] + sorted
    else
      assert sorted == [sorted[0]] + sorted[1..];
      [sorted[0]] + Insert(x, sorted[1..], le)
  }

  /** `Array.prototype.sort` with the comparator `le` (a stable insertion sort). */
  function SortBy(xs: seq<string>, le: (string, string) -> bool): (r: seq<string>)
    ensures multiset(r) == multiset(xs)
  {
    if xs == [] then []
    else
      assert xs == [xs[0]] + xs[1..];
      Insert(xs[0], SortBy(xs[1..], le), le)
  }

  ghost predicate TotalPreorder(le: (string, string) -> bool) {
    (forall a, b :: le(a, b) || le(b, a)) &&
    (forall a, b, c :: le(a, b) && le(b, c) ==> le(a, c))
  }

  ghost predicate SortedBy(xs: seq<string>, le: (string, string) -> bool) {
    forall i, j :: 0 <= i < j < |xs| ==> le(xs[i], xs[j])
  }

  lemma {:induction false} InsertSorted(x: string, sorted: seq<string>, le: (string, string) -> bool)
    requires TotalPreorder(le) && SortedBy(sorted, le)
    ensures SortedBy(Insert(x, sorted, le), le)
  {
    if sorted != [] && !le(x, sorted[0]) {
      InsertSorted(x, sorted[1..], le);
      var r := Insert(x, sorted, le);
      var tail := Insert(x, sorted[1..], le);
      assert r == [sorted[0]] + tail;
      forall j | 0 < j < |r| ensures le(r[0], r[j]) {
        assert r[j] == tail[j - 1];
        assert r[j] in multiset(tail);
        assert r[j] in multiset(sorted[1..]) + multiset{x};
        if r[j] != x || r[j] in multiset(sorted[1..]) {
          if r[j] in multiset(sorted[1..]) {
            var k :| 0 <= k < |sorted[1..]| && sorted[1..][k] == r[j];
            assert sorted[k + 1] == r[j];
          }
        }
      }
    }
  }

  /** The sorted columns are in comparator order and are the same questions, each kept. */
  lemma {:induction false} SortBySorted(xs: seq<string>, le: (string, string) -> bool)
    requires TotalPreorder(le)
    ensures SortedBy(SortBy(xs, le), le)
    ensures multiset(SortBy(xs, le)) == multiset(xs)
  {
    if xs != [] {
      SortBySorted(xs[1..], le);
      InsertSorted(xs[0], SortBy(xs[1..], le), le);
    }
  }

  /**
   * Inserting never moves `x` past an element tied with it: for any class of
   * mutually tied values, inserting keeps them in the order of `[x] + sorted`.
   */
  lemma {:induction false} InsertKeepsTies(x: string, sorted: seq<string>, le: (string, string) -> bool,
                                           tied: string -> bool)
    requires TotalPreorder(le)
    requires forall a, b :: tied(a) && tied(b) ==> le(a, b)
    ensures Filter(Insert(x, sorted, le), tied) == Filter([x] + sorted, tied)
  {
    if sorted != [] && !le(x, sorted[0]) {
      var rest := sorted[1..];
      InsertKeepsTies(x, rest, le, tied);
      assert Insert(x, sorted, le) == [sorted[0]] + Insert(x, rest, le);
      assert ([sorted[0]] + Insert(x, rest, le))[1..] == Insert(x, rest, le);
      assert ([x] + sorted)[1..] == sorted;
      assert ([x] + rest)[1..] == rest;
      assert sorted == [sorted[0]] + rest;
      assert ([x] + sorted)[1..][1..] == rest;
      // x and sorted[0] are not both tied: that would give le(x, sorted[0])
      assert !(tied(x) && tied(sorted[0]));
    }
  }

  /**
   * The sort is stable: values the comparator ties (such as "2b" and "2B"
   * under base sensitivity) keep their input order among themselves.
   */
  lemma {:induction false} SortByStable(xs: seq<string>, le: (string, string) -> bool, tied: string -> bool)
    requires TotalPreorder(le)
    requires forall a, b :: tied(a) && tied(b) ==> le(a, b)
    ensures Filter(SortBy(xs, le), tied) == Filter(xs, tied)
  {
    if xs != [] {
      SortByStable(xs[1..], le, tied);
      InsertKeepsTies(xs[0], SortBy(xs[1..], le), le, tied);
      assert ([xs[0]] + SortBy(xs[1..], le))[1..] == SortBy(xs[1..], le);
    }
  }

  // ---------------------------------------------------------------- header and rows

  const CsvPrefix: string := "data:text/csv;charset=utf-8,"
  const LineEnd: string := "\r\n"
  const NotAttempted: string := "-"

  function QuestionHeader(q: string): string
  {
    "Q" + q + " Marks"
  }

  /** The header fields: three fixed columns, one per question, then the remarks. */
  function HeaderFields(questions: seq<string>): (r: seq<string>)
    ensures |r| == |questions| + 4
    ensures r[..3] == ["Student Name", "Date Submitted", "Total Score (%)"]
    ensures forall j :: 0 <= j < |questions| ==> r[3 + j] == QuestionHeader(questions[j])
    ensures r[|r| - 1] == "Remarks"
  {
    ["Student Name", "Date Submitted", "Total Score (%)"]
      + seq(|questions|, j requires 0 <= j < |questions| => QuestionHeader(questions[j]))
      + ["Remarks"]
  }

  /** `grades.find(item => item.questionNumber === q)`: the first grade with that number. */
  function FindGrade(grades: seq<QuestionGrade>, q: string): (r: Option<QuestionGrade>)
    ensures r.Some? <==> exists i :: 0 <= i < |grades| && grades[i].questionNumber == q
    ensures r.Some? ==> r.value.questionNumber == q
    ensures r.Some? ==>
      exists i :: 0 <= i < |grades| && grades[i] == r.value && forall j :: 0 <= j < i ==> grades[j].questionNumber != q
  {
    if grades == [] then None
    else if grades[0].questionNumber == q then Some(grades[0])
    else
      var r := FindGrade(grades[1..], q);
      assert forall i :: 1 <= i < |grades| ==> grades[i] == grades[1..][i - 1];
      assert r.Some? ==>
        exists i :: 0 <= i < |grades| && grades[i] == r.value && forall j :: 0 <= j < i ==> grades[j].questionNumber != q
      by {
        if r.Some? {
          var k :| 0 <= k < |grades[1..]| && grades[1..][k] == r.value
            && forall j :: 0 <= j < k ==> grades[1..][j].questionNumber != q;
          assert grades[k + 1] == r.value;
        }
      }
      r
  }

  /** The grades a submission's result carries, empty when it has none. */
  function GradesOf(sub: Submission): seq<QuestionGrade>
  {
    match sub.result
    case EmptyRecord => []
    case Graded(res) => match res.questionGrades case None => [] case Some(gs) => gs
  }

  /** The question cell: the obtained marks of that question, or the not-attempted marker. */
  function MarkCell(sub: Submission, q: string): string
  {
    match FindGrade(GradesOf(sub), q)
    case Some(g) => IntToString(g.obtainedMarks)
    case None => NotAttempted
  }

  /** The fields of one data row; `None` where the source throws (a result with no feedback). */
  function RowFields(sub: Submission, questions: seq<string>, formatDate: Date -> string): Option<seq<string>>
  {
    match sub.result
    case EmptyRecord => None
    case Graded(res) =>
      Some(["\"" + sub.studentName + "\"", formatDate(sub.timestamp), IntToString(sub.score)]
        + MarkCells(sub, questions)
        + [QuoteField(res.feedback)])
  }

  /** The question cells of one row, one per sorted question. */
  function MarkCells(sub: Submission, questions: seq<string>): (r: seq<string>)
    ensures |r| == |questions|
    ensures forall j :: 0 <= j < |questions| ==> r[j] == MarkCell(sub, questions[j])
  {
    seq(|questions|, j requires 0 <= j < |questions| => MarkCell(sub, questions[j]))
  }

  lemma IntToStringIsNotMarker(i: int)
    ensures IntToString(i) != NotAttempted
  {
    if i >= 0 {
      assert IntToString(i)[0] != '-';
    } else {
      assert |IntToString(i)| >= 2;
    }
  }

  /**
   * A question cell shows the marker exactly when that submission did not
   * attempt the question; otherwise it shows the marks of the first grade
   * listed for that question.
   */
  lemma {:induction false} MarkCellMeaning(sub: Submission, q: string)
    ensures MarkCell(sub, q) == NotAttempted <==>
      forall i :: 0 <= i < |GradesOf(sub)| ==> GradesOf(sub)[i].questionNumber != q
    ensures MarkCell(sub, q) != NotAttempted ==>
      var gs := GradesOf(sub);
      exists i :: 0 <= i < |gs| && gs[i].questionNumber == q
        && (forall j :: 0 <= j < i ==> gs[j].questionNumber != q)
        && MarkCell(sub, q) == IntToString(gs[i].obtainedMarks)
  {
    match FindGrade(GradesOf(sub), q)
    case Some(g) =>
      IntToStringIsNotMarker(g.obtainedMarks);
      var gs := GradesOf(sub);
      var i :| 0 <= i < |gs| && gs[i] == g && forall j :: 0 <= j < i ==> gs[j].questionNumber != q;
      assert gs[i].questionNumber == q;
    case None =>
  }

  /**
   * Every row has as many fields as the header; its question cells follow the
   * sorted columns, and its last field is the feedback quoted with doubled quotes.
   */
  lemma {:induction false} RowShape(sub: Submission, questions: seq<string>, formatDate: Date -> string)
    requires sub.result.Graded?
    ensures RowFields(sub, questions, formatDate).Some?
    ensures var r := RowFields(sub, questions, formatDate).value;
      && |r| == |HeaderFields(questions)|
      && (forall j :: 0 <= j < |questions| ==> r[3 + j] == MarkCell(sub, questions[j]))
      && r[|r| - 1] == QuoteField(sub.result.result.feedback)
      && UnquoteField(r[|r| - 1]) == Some(sub.result.result.feedback)
  {
    var res := sub.result.result;
    var cells := MarkCells(sub, questions);
    var r := RowFields(sub, questions, formatDate).value;
    assert r == ["\"" + sub.studentName + "\"", formatDate(sub.timestamp), IntToString(sub.score)]
      + cells + [QuoteField(res.feedback)];
    forall j | 0 <= j < |questions| ensures r[3 + j] == MarkCell(sub, questions[j]) {
      assert r[3 + j] == cells[j];
    }
    QuoteFieldRoundTrip(res.feedback);
  }

  // ---------------------------------------------------------------- the report text

  /** The CSV text after the header and the first `n` rows; `None` once a row throws. */
  function ReportBody(subs: seq<Submission>, questions: seq<string>, formatDate: Date -> string, n: nat): Option<string>
    requires n <= |subs|
  {
    if n == 0 then Some(CsvPrefix + Join(HeaderFields(questions), ",") + LineEnd)
    else
      match ReportBody(subs, questions, formatDate, n - 1)
      case None => None
      case Some(text) =>
        match RowFields(subs[n - 1], questions, formatDate)
        case None => None
        case Some(row) => Some(text + Join(row, ",") + LineEnd)
  }

  /** The whole report text for `submissions`, with the comparator and date formatter given. */
  function ReportText(subs: seq<Submission>, le: (string, string) -> bool, formatDate: Date -> string): Option<string>
  {
    ReportBody(subs, SortBy(Collected(subs, |subs|), le), formatDate, |subs|)
  }

  /** `generateExcelReport` up to the download: the CSV text, or `None` when a row throws. */
  method GenerateReport(subs: seq<Submission>, le: (string, string) -> bool, formatDate: Date -> string)
    returns (csv: Option<string>)
    ensures csv == ReportText(subs, le, formatDate)
  {
    var all := CollectQuestionNumbers(subs);
    var sorted := SortBy(all, le);
    csv := WriteRows(subs, sorted, formatDate);
  }

  /** The header line and then one line per submission, appended to `csvContent` in list order. */
  method WriteRows(subs: seq<Submission>, questions: seq<string>, formatDate: Date -> string)
    returns (csv: Option<string>)
    ensures csv == ReportBody(subs, questions, formatDate, |subs|)
  {
    var content := CsvPrefix + Join(HeaderFields(questions), ",") + LineEnd;
    var k := 0;
    while k < |subs|
      invariant 0 <= k <= |subs|
      invariant ReportBody(subs, questions, formatDate, k) == Some(content)
    {
      var row := RowFields(subs[k], questions, formatDate);
      if row.None? {
        assert ReportBody(subs, questions, formatDate, k + 1) == None;
        ReportStaysFailed(subs, questions, formatDate, k + 1, |subs|);
        return None;
      }
      assert ReportBody(subs, questions, formatDate, k + 1) == Some(content + Join(row.value, ",") + LineEnd);
      content := content + Join(row.value, ",") + LineEnd;
      k := k + 1;
    }
    csv := Some(content);
  }

  /** Once a row has thrown, no later row brings the report back. */
  lemma {:induction false} ReportStaysFailed(subs: seq<Submission>, questions: seq<string>, formatDate: Date -> string, m: nat, n: nat)
    requires m <= n <= |subs|
    requires ReportBody(subs, questions, formatDate, m).None?
    ensures ReportBody(subs, questions, formatDate, n).None?
    decreases n - m
  {
    if m < n {
      ReportStaysFailed(subs, questions, formatDate, m + 1, n);
    }
  }

  /** The report is produced exactly when every submission carries a real result. */
  lemma {:induction false} ReportFailsOnEmptyRecord(subs: seq<Submission>, questions: seq<string>, formatDate: Date -> string, n: nat)
    requires n <= |subs|
    ensures ReportBody(subs, questions, formatDate, n).None? <==> exists k :: 0 <= k < n && subs[k].result.EmptyRecord?
  {
    if n > 0 {
      ReportFailsOnEmptyRecord(subs, questions, formatDate, n - 1);
    }
  }

  /** The report starts with the fixed prefix and the header line, and grows by one CRLF line per row. */
  lemma {:induction false} ReportLines(subs: seq<Submission>, questions: seq<string>, formatDate: Date -> string, n: nat)
    requires n <= |subs|
    requires ReportBody(subs, questions, formatDate, n).Some?
    ensures var head := CsvPrefix + Join(HeaderFields(questions), ",") + LineEnd;
      var text := ReportBody(subs, questions, formatDate, n).value;
      |head| <= |text| && text[..|head|] == head
    ensures n > 0 ==>
      var text := ReportBody(subs, questions, formatDate, n).value;
      var row := RowFields(subs[n - 1], questions, formatDate).value;
      var line := Join(row, ",") + LineEnd;
      |line| <= |text| && text[|text| - |line|..] == line
  {
    if n > 0 {
      ReportLines(subs, questions, formatDate, n - 1);
      var prev := ReportBody(subs, questions, formatDate, n - 1).value;
      var head := CsvPrefix + Join(HeaderFields(questions), ",") + LineEnd;
      var text := ReportBody(subs, questions, formatDate, n).value;
      var line := Join(RowFields(subs[n - 1], questions, formatDate).value, ",") + LineEnd;
      assert text == prev + line;
      assert text[|prev|..] == line;
      assert text[..|head|] == prev[..|head|];
    }
  }
}
