/**
 * The application's store: the subject configurations and the submissions,
 * their seed values, and their persistence under two browser-storage keys.
 * Storage is a map from key to what the stored text parses as; `JSON.stringify`
 * and `JSON.parse` are the encoders below. Dates are written as their
 * millisecond count in decimal, standing in for the ISO text.
 */
module App {
  import opened Wrappers
  import opened Types
  import opened Strings
  import StudentDashboard

  const ConfigsKey: string := "autograde_configs"
  const SubmissionsKey: string := "autograde_submissions"

  // ---------------------------------------------------------------- seeds

  /** The sample model answer each subject starts with. */
  function SeedText(subject: Subject): string
  {
    match subject
    case Physics =>
      "Newton's second law of " + "motion pertains to the " + "behavior of objects for "
      + "which all existing " + "forces are not balanced. " + "The second law states "
      + "that the acceleration of " + "an object is dependent " + "upon two variables - the "
      + "net force acting upon " + "the object and the mass " + "of the object."
    case History =>
      "The Industrial " + "Revolution was a period " + "of major " + "industrialization and "
      + "innovation that took " + "place during the late " + "1700s and early 1800s. " + "It began in Great "
      + "Britain and quickly " + "spread throughout the " + "world."
    case Mathematics =>
      "To solve a quadratic " + "equation ax^2 + bx + c = " + "0, you can use the "
      + "quadratic formula: x = " + "(-b \U{00B1} \U{221A}(b^2 - 4ac)) / " + "2a."
    case ComputerScience =>
      "Object-oriented " + "programming (OOP) is a " + "computer programming " + "model that organizes "
      + "software design around " + "data, or objects, rather " + "than functions and " + "logic."
  }

  /** A seed configuration: text mode with the sample answer, and no files. */
  function SeedConfig(subject: Subject): SubjectConfig
  {
    SubjectConfig(TextMode, SeedText(subject), [], [])
  }

  /** `INITIAL_CONFIGS`: one seed configuration under each subject's name. */
  function InitialConfigs(): SubjectConfigs
  {
    map[
      "Physics" := SeedConfig(Physics),
      "History" := SeedConfig(History),
      "Mathematics" := SeedConfig(Mathematics),
      "Computer Science" := SeedConfig(ComputerScience)
    ]
  }

  /** `INITIAL_SUBMISSIONS`, with `seedTime` the clock reading when the module loads. */
  function InitialSubmissions(seedTime: int): seq<Submission>
  {
    [ Submission("1", "Alice Johnson", Physics, 85, At(seedTime - 86400000), EmptyRecord),
      Submission("2", "Bob Smith", Physics, 62, At(seedTime - 40000000), EmptyRecord) ]
  }

  /** Each subject's name is a key of the seeds, holding that subject's seed configuration. */
  lemma SeedsCoverSubjects(s: Subject)
    ensures SubjectName(s) in InitialConfigs() && InitialConfigs()[SubjectName(s)] == SeedConfig(s)
  {
    var m := InitialConfigs();
    match s
    case Physics =>
    case History =>
      assert "History" != "Physics" by { assert |"History"| != |"Physics"| || "History"[0] != "Physics"[0]; }
    case Mathematics =>
      assert |"Mathematics"| != |"Physics"| && |"Mathematics"| != |"History"|;
    case ComputerScience =>
      assert |"Computer Science"| != |"Physics"| && |"Computer Science"| != |"History"|;
      assert |"Computer Science"| != |"Mathematics"|;
  }

  /** A text answer whose first character is not white space passes the model-answer check. */
  lemma {:induction false} TextAnswerPresent(t: string)
    requires |t| > 0 && !IsWhitespace(t[0])
    ensures StudentDashboard.HasModelAnswer(SubjectConfig(TextMode, t, [], []))
  {
    StudentDashboard.HasModelAnswerMeaning(SubjectConfig(TextMode, t, [], []));
  }

  /** Every seed configuration passes the model-answer check: its answer text is not blank. */
  lemma {:induction false} SeedHasModelAnswer(s: Subject)
    ensures StudentDashboard.HasModelAnswer(SeedConfig(s))
  {
    match s
    case Physics =>
      assert SeedText(Physics)[0] == 'N';
      TextAnswerPresent(SeedText(Physics));
    case History =>
      assert SeedText(History)[0] == 'T';
      TextAnswerPresent(SeedText(History));
    case Mathematics =>
      assert SeedText(Mathematics)[0] == 'T';
      TextAnswerPresent(SeedText(Mathematics));
    case ComputerScience =>
      assert SeedText(ComputerScience)[0] == 'O';
      TextAnswerPresent(SeedText(ComputerScience));
  }

  // ---------------------------------------------------------------- what storage holds

  /** A serialised `Date`: `null` for the invalid date, otherwise its text. */
  datatype JsonTime = JNull | JText(text: string)

  /** A submission as `JSON.stringify` leaves it: the same fields, the timestamp as text. */
  datatype SubmissionRecord = SubmissionRecord(
    id: string, studentName: string, subject: Subject, score: int, timestamp: JsonTime, result: SubmissionResult)

  /** A parsed storage value: a configuration object or a submission array. */
  datatype Json = JConfigs(configs: SubjectConfigs) | JSubmissions(records: seq<SubmissionRecord>)

  /** A stored string: valid JSON of one of the two shapes, the empty string, or text that does not parse. */
  datatype Blob = Text(value: Json) | EmptyText | Unparsable

  type Storage = map<string, Blob>

  function DateToJson(d: Date): JsonTime
  {
    match d
    case At(ms) => JText(IntToString(ms))
    case InvalidDate => JNull
  }

  /** `new Date(s.timestamp)`: `null` becomes the epoch, text is read back, unreadable text is the invalid date. */
  function DateFromJson(t: JsonTime): Date
  {
    match t
    case JNull => At(0)
    case JText(s) =>
      match ParseInt(s)
      case Some(ms) => At(ms)
      case None => InvalidDate
  }

  /** What a date becomes after a save and a load: itself, except that the invalid date becomes the epoch. */
  function Rehydrated(d: Date): Date
  {
    if d.InvalidDate? then At(0) else d
  }

  lemma {:induction false} DateRoundTrip(d: Date)
    ensures DateFromJson(DateToJson(d)) == Rehydrated(d)
  {
    if d.At? {
      IntToStringRoundTrip(d.ms);
    }
  }

  function ToRecord(s: Submission): SubmissionRecord
  {
    SubmissionRecord(s.id, s.studentName, s.subject, s.score, DateToJson(s.timestamp), s.result)
  }

  /** `{ ...s, timestamp: new Date(s.timestamp) }`. */
  function Hydrate(r: SubmissionRecord): Submission
  {
    Submission(r.id, r.studentName, r.subject, r.score, DateFromJson(r.timestamp), r.result)
  }

  function EncodeConfigs(configs: SubjectConfigs): Blob
  {
    Text(JConfigs(configs))
  }

  function EncodeSubmissions(subs: seq<Submission>): Blob
  {
    Text(JSubmissions(seq(|subs|, i requires 0 <= i < |subs| => ToRecord(subs[i]))))
  }

  // ---------------------------------------------------------------- loading

  /**
   * The configuration loader: the stored object when the key holds one, the
   * seeds when the key is absent, empty, or does not parse.
   */
  function LoadConfigs(st: Storage): SubjectConfigs
  {
    if ConfigsKey in st && st[ConfigsKey].Text? && st[ConfigsKey].value.JConfigs? then st[ConfigsKey].value.configs
    else InitialConfigs()
  }

  /**
   * The submission loader: the stored array with every timestamp re-read, or the
   * seeds when the key is absent, empty, does not parse, or is not an array.
   */
  function LoadSubmissions(st: Storage, seedTime: int): seq<Submission>
  {
    if SubmissionsKey in st && st[SubmissionsKey].Text? && st[SubmissionsKey].value.JSubmissions? then
      var recs := st[SubmissionsKey].value.records;
      seq(|recs|, i requires 0 <= i < |recs| => Hydrate(recs[i]))
    else InitialSubmissions(seedTime)
  }

  /**
   * Saved configurations load back unchanged, whatever else storage holds.
   * With `JSON.stringify` and `JSON.parse` abstracted to the `Json` values,
   * this round trip holds by construction; it records that the loader reads
   * back exactly the shape the effect writes.
   */
  lemma {:induction false} ConfigsRoundTrip(st: Storage, configs: SubjectConfigs)
    ensures LoadConfigs(st[ConfigsKey := EncodeConfigs(configs)]) == configs
  {
  }

  /**
   * Saved submissions load back in the same order with every field unchanged,
   * except that an invalid timestamp comes back as the epoch.
   */
  lemma {:induction false} SubmissionsRoundTrip(st: Storage, subs: seq<Submission>, seedTime: int)
    ensures var loaded := LoadSubmissions(st[SubmissionsKey := EncodeSubmissions(subs)], seedTime);
      && |loaded| == |subs|
      && forall i :: 0 <= i < |subs| ==> loaded[i] == subs[i].(timestamp := Rehydrated(subs[i].timestamp))
  {
    var loaded := LoadSubmissions(st[SubmissionsKey := EncodeSubmissions(subs)], seedTime);
    forall i | 0 <= i < |subs| ensures loaded[i] == subs[i].(timestamp := Rehydrated(subs[i].timestamp)) {
      DateRoundTrip(subs[i].timestamp);
    }
  }

  /** With only valid timestamps, saving and loading gives back exactly the same list. */
  lemma {:induction false} SubmissionsRoundTripValid(st: Storage, subs: seq<Submission>, seedTime: int)
    requires forall i :: 0 <= i < |subs| ==> subs[i].timestamp.At?
    ensures LoadSubmissions(st[SubmissionsKey := EncodeSubmissions(subs)], seedTime) == subs
  {
    SubmissionsRoundTrip(st, subs, seedTime);
  }

  /** Each loader reads only its own key: writing or removing the other key never changes what it loads. */
  lemma {:induction false} KeysIndependent(st: Storage, b: Blob, seedTime: int)
    ensures LoadConfigs(st[SubmissionsKey := b]) == LoadConfigs(st)
    ensures LoadConfigs(st - {SubmissionsKey}) == LoadConfigs(st)
    ensures LoadSubmissions(st[ConfigsKey := b], seedTime) == LoadSubmissions(st, seedTime)
    ensures LoadSubmissions(st - {ConfigsKey}, seedTime) == LoadSubmissions(st, seedTime)
  {
    assert ConfigsKey != SubmissionsKey by {
      assert |ConfigsKey| != |SubmissionsKey|;
    }
  }

  /** Absent, empty and unparsable entries fall back to the seeds, each key on its own. */
  lemma {:induction false} LoadFallbacks(st: Storage, seedTime: int)
    ensures ConfigsKey !in st || st[ConfigsKey] == EmptyText || st[ConfigsKey] == Unparsable
      ==> LoadConfigs(st) == InitialConfigs()
    ensures SubmissionsKey !in st || st[SubmissionsKey] == EmptyText || st[SubmissionsKey] == Unparsable
      ==> LoadSubmissions(st, seedTime) == InitialSubmissions(seedTime)
  {
  }

  // ---------------------------------------------------------------- handlers as functions

  /** `handleConfigUpdate`'s new map: the subject's entry replaced, every other key as before. */
  function UpdateConfig(configs: SubjectConfigs, subject: Subject, newConfig: SubjectConfig): (r: SubjectConfigs)
    ensures SubjectName(subject) in r && r[SubjectName(subject)] == newConfig
    ensures forall k :: k != SubjectName(subject) ==> (k in r <==> k in configs)
    ensures forall k :: k != SubjectName(subject) && k in configs ==> r[k] == configs[k]
  {
    configs[SubjectName(subject) := newConfig]
  }

  /** `handleNewSubmission`'s new list: the submission first, then the old list in its order. */
  function Prepend(subs: seq<Submission>, s: Submission): (r: seq<Submission>)
    ensures |r| == |subs| + 1 && r[0] == s && r[1..] == subs
  {
    [s] + subs
  }

  /** Storage after a confirmed reset removes both keys. */
  function ClearedStorage(st: Storage): (r: Storage)
    ensures ConfigsKey !in r && SubmissionsKey !in r
    ensures forall k :: k != ConfigsKey && k != SubmissionsKey ==> (k in r <==> k in st)
  {
    st - {ConfigsKey, SubmissionsKey}
  }

  /**
   * After a confirmed reset, the next load gives the seeds whether or not the
   * persistence effects write the reset state back: written seeds load as
   * themselves, removed keys fall back to the seeds of the loading page.
   */
  lemma {:induction false} ResetThenReload(st: Storage, seedTime: int, reloadTime: int, writeConfigs: bool, writeSubmissions: bool)
    ensures var cleared := ClearedStorage(st);
      var afterC := if writeConfigs then cleared[ConfigsKey := EncodeConfigs(InitialConfigs())] else cleared;
      var after := if writeSubmissions then afterC[SubmissionsKey := EncodeSubmissions(InitialSubmissions(seedTime))] else afterC;
      && LoadConfigs(after) == InitialConfigs()
      && LoadSubmissions(after, reloadTime) == (if writeSubmissions then InitialSubmissions(seedTime) else InitialSubmissions(reloadTime))
  {
    var cleared := ClearedStorage(st);
    var afterC := if writeConfigs then cleared[ConfigsKey := EncodeConfigs(InitialConfigs())] else cleared;
    KeysIndependent(afterC, EncodeSubmissions(InitialSubmissions(seedTime)), reloadTime);
    KeysIndependent(cleared, EncodeConfigs(InitialConfigs()), reloadTime);
    if writeSubmissions {
      SubmissionsRoundTripValid(afterC, InitialSubmissions(seedTime), reloadTime);
    }
  }

  // ---------------------------------------------------------------- the component's state

  class AppStore {
    var currentSubject: Subject
    var subjectConfigs: SubjectConfigs
    var submissions: seq<Submission>
    var storage: Storage
    /** The clock reading when the module was loaded, which the seed timestamps count back from. */
    const seedTime: int

    /** The initial state: Physics selected, both collections loaded from `stored`. */
    constructor (stored: Storage, loadTime: int)
      ensures seedTime == loadTime && storage == stored && currentSubject == Physics
      ensures subjectConfigs == LoadConfigs(stored)
      ensures submissions == LoadSubmissions(stored, loadTime)
    {
      seedTime := loadTime;
      storage := stored;
      currentSubject := Physics;
      subjectConfigs := LoadConfigs(stored);
      submissions := LoadSubmissions(stored, loadTime);
    }

    /** The configuration effect: writes the configurations; a failed write leaves everything as it was. */
    method PersistConfigs(writeOk: bool)
      modifies this
      ensures storage == if writeOk then old(storage)[ConfigsKey := EncodeConfigs(subjectConfigs)] else old(storage)
      ensures subjectConfigs == old(subjectConfigs) && submissions == old(submissions)
      ensures currentSubject == old(currentSubject)
    {
      if writeOk {
        storage := storage[ConfigsKey := EncodeConfigs(subjectConfigs)];
      }
    }

    /** The submission effect: writes the submissions; a failed write leaves everything as it was. */
    method PersistSubmissions(writeOk: bool)
      modifies this
      ensures storage == if writeOk then old(storage)[SubmissionsKey := EncodeSubmissions(submissions)] else old(storage)
      ensures subjectConfigs == old(subjectConfigs) && submissions == old(submissions)
      ensures currentSubject == old(currentSubject)
    {
      if writeOk {
        storage := storage[SubmissionsKey := EncodeSubmissions(submissions)];
      }
    }

    /** Selecting a subject in either dashboard. */
    method SelectSubject(subject: Subject)
      modifies this
      ensures currentSubject == subject
      ensures subjectConfigs == old(subjectConfigs) && submissions == old(submissions) && storage == old(storage)
    {
      currentSubject := subject;
    }

    /** `handleConfigUpdate`: replaces the current subject's configuration. */
    method HandleConfigUpdate(newConfig: SubjectConfig)
      modifies this
      ensures subjectConfigs == UpdateConfig(old(subjectConfigs), currentSubject, newConfig)
      ensures currentSubject == old(currentSubject) && submissions == old(submissions) && storage == old(storage)
    {
      subjectConfigs := subjectConfigs[SubjectName(currentSubject) := newConfig];
    }

    /** `handleNewSubmission`: puts the submission first. */
    method HandleNewSubmission(submission: Submission)
      modifies this
      ensures submissions == Prepend(old(submissions), submission)
      ensures currentSubject == old(currentSubject) && subjectConfigs == old(subjectConfigs) && storage == old(storage)
    {
      submissions := [submission] + submissions;
    }

    /** `handleResetData`: on confirmation restores the seeds and removes both keys; otherwise nothing happens. */
    method HandleResetData(confirmed: bool)
      modifies this
      ensures confirmed ==>
        && subjectConfigs == InitialConfigs()
        && submissions == InitialSubmissions(seedTime)
        && storage == ClearedStorage(old(storage))
      ensures !confirmed ==>
        subjectConfigs == old(subjectConfigs) && submissions == old(submissions) && storage == old(storage)
      ensures currentSubject == old(currentSubject)
    {
      if confirmed {
        subjectConfigs := InitialConfigs();
        submissions := InitialSubmissions(seedTime);
        storage := storage - {ConfigsKey, SubmissionsKey};
      }
    }
  }
}
