/** The learner's report page (LearnerReportPage.tsx): the course and subjects derived from the
    learner's quizzes, the gates on requesting and downloading the report, the values shown on
    the report, and the state the request and download buttons change. */
module LearnerReport {
  import opened Js
  import opened ReportTypes
  import ReportCard
  import ReportApi
  import Workflow

  // ---------------------------------------------------------------------------------------
  // Inputs, as the page's types declare them

  /** The lesson of a quiz list item; `objectId` is its `_id`. */
  datatype Lesson = Lesson(objectId: Option<string>, id: Option<string>, title: Option<string>, name: Option<string>)

  datatype QuizListItem = QuizListItem(title: Option<string>, lesson: Option<Lesson>)

  /** The signed-in account as far as the page reads it; `objectId` is its `_id`. */
  datatype User = User(objectId: Option<string>, id: Option<string>, name: Option<string>,
                       classLevel: Option<string>, level: Option<string>)

  const DefaultClassLevel := "Digital Learning Level 1"

  /** getClassLevel: the user's classLevel, else level, else the first level. */
  function ClassLevel(user: Option<User>): (r: string)
    ensures r != ""
    ensures user.None? ==> r == DefaultClassLevel
    ensures user.Some? && user.value.classLevel.Some? && user.value.classLevel.value != "" ==>
      r == user.value.classLevel.value
    ensures user.Some? && (user.value.classLevel.None? || user.value.classLevel.value == "") ==>
      r == OrText(user.value.level, DefaultClassLevel)
  {
    if user.None? then DefaultClassLevel
    else OrText(user.value.classLevel, OrText(user.value.level, DefaultClassLevel))
  }

  // ---------------------------------------------------------------------------------------
  // deriveCourseFromQuizzes

  /** `item.lesson?.title || item.lesson?.name || item.title || ''`. */
  function RawSubject(q: QuizListItem): string
  {
    if q.lesson.Some? then OrText(q.lesson.value.title, OrText(q.lesson.value.name, OrText(q.title, "")))
    else OrText(q.title, "")
  }

  /** The trimmed subject of every quiz, in order. */
  function Names(quizzes: seq<QuizListItem>): (r: seq<string>)
    ensures |r| == |quizzes|
    ensures forall i :: 0 <= i < |quizzes| ==> r[i] == Trim(RawSubject(quizzes[i]))
  {
    seq(|quizzes|, i requires 0 <= i < |quizzes| => Trim(RawSubject(quizzes[i])))
  }

  /** The position of the first occurrence of `x` in `s`. */
  function FirstIndex(s: seq<string>, x: string): (k: nat)
    requires x in s
    ensures k < |s| && s[k] == x
    ensures forall j :: 0 <= j < k ==> s[j] != x
  {
    if s[0] == x then 0 else 1 + FirstIndex(s[1..], x)
  }

  /** The first occurrence of a string already in `s` does not move when more is appended. */
  lemma FirstIndexAppend(s: seq<string>, t: seq<string>, x: string)
    requires x in s
    ensures FirstIndex(s + t, x) == FirstIndex(s, x)
  {
    var k, k0 := FirstIndex(s + t, x), FirstIndex(s, x);
    assert (s + t)[k0] == x;
  }

  /** `Array.from(new Set(names.filter(Boolean)))`: the non-empty names without repeats, each
      where it first occurs. */
  function Unique(names: seq<string>): (r: seq<string>)
    ensures forall k :: 0 <= k < |r| ==> r[k] in names && r[k] != ""
    ensures forall x :: x in names && x != "" ==> x in r
    ensures ReportCard.Distinct(r)
    ensures forall i, j :: 0 <= i < j < |r| ==> FirstIndex(names, r[i]) < FirstIndex(names, r[j])
  {
    if names == [] then []
    else
      var prefix := names[..|names| - 1];
      var x := names[|names| - 1];
      assert names == prefix + [x];
      var acc := Unique(prefix);
      forall y | y in prefix
        ensures FirstIndex(names, y) == FirstIndex(prefix, y)
      {
        FirstIndexAppend(prefix, [x], y);
      }
      if x == "" || x in acc then acc
      else
        assert x !in prefix;
        assert FirstIndex(names, x) == |prefix|;
        acc + [x]
  }

  /** The course the learner requests a report for, and the subjects it falls back on. */
  datatype Course = Course(courseId: string, courseName: string, subjects: seq<string>)

  const GeneralCourseId := "general-course"
  const GeneralCourseName := "General Course"

  function DeriveCourseFromQuizzes(quizzes: seq<QuizListItem>): (c: Course)
    ensures quizzes == [] ==> c == Course(GeneralCourseId, GeneralCourseName, [])
    ensures quizzes != [] && quizzes[0].lesson.Some? ==>
      c.courseId == OrText(quizzes[0].lesson.value.objectId, OrText(quizzes[0].lesson.value.id, GeneralCourseId))
      && c.courseName == OrText(quizzes[0].lesson.value.title, OrText(quizzes[0].lesson.value.name, GeneralCourseName))
    ensures quizzes != [] && quizzes[0].lesson.None? ==>
      c.courseId == GeneralCourseId && c.courseName == GeneralCourseName
    ensures c.subjects == Unique(Names(quizzes))
  {
    var subjects := Unique(Names(quizzes));
    if quizzes == [] || quizzes[0].lesson.None? then Course(GeneralCourseId, GeneralCourseName, subjects)
    else
      var lesson := quizzes[0].lesson.value;
      Course(OrText(lesson.objectId, OrText(lesson.id, GeneralCourseId)),
             OrText(lesson.title, OrText(lesson.name, GeneralCourseName)), subjects)
  }

  lemma TrimIdempotent(s: string)
    ensures Trim(Trim(s)) == Trim(s)
  {
    var t := Trim(s);
    assert t == [] || (!IsSpace(t[0]) && !IsSpace(t[|t| - 1]));
    TrimOfTrimmed(t);
  }

  /** The subjects are distinct and they are exactly the quizzes' non-empty trimmed subjects,
      in the order in which the quizzes first name them. */
  lemma SubjectsOfQuizzes(quizzes: seq<QuizListItem>)
    ensures var subjects := DeriveCourseFromQuizzes(quizzes).subjects;
      && ReportCard.Distinct(subjects)
      && (forall x :: x in subjects <==> x != "" && x in Names(quizzes))
      && (forall i, j :: 0 <= i < j < |subjects| ==>
            FirstIndex(Names(quizzes), subjects[i]) < FirstIndex(Names(quizzes), subjects[j]))
  {
  }

  /** Every subject is non-empty and already trimmed. */
  lemma SubjectsTrimmed(quizzes: seq<QuizListItem>)
    ensures var subjects := DeriveCourseFromQuizzes(quizzes).subjects;
      forall k :: 0 <= k < |subjects| ==> subjects[k] != "" && Trim(subjects[k]) == subjects[k]
  {
    var names := Names(quizzes);
    var subjects := Unique(names);
    forall k | 0 <= k < |subjects|
      ensures Trim(subjects[k]) == subjects[k]
    {
      var i := FirstIndex(names, subjects[k]);
      TrimIdempotent(RawSubject(quizzes[i]));
    }
  }

  // ---------------------------------------------------------------------------------------
  // What the page derives from the request

  /** `Boolean(request && (request.id || request.studentId))`. */
  predicate HasRequested(request: Option<ReportRequest>)
  {
    request.Some? && (request.value.id != "" || request.value.studentId != "")
  }

  /** The status shown: the request's when there is one, else PENDING. */
  function DisplayStatus(request: Option<ReportRequest>): (s: Status)
    ensures !HasRequested(request) ==> s == Pending
    ensures HasRequested(request) ==> s == request.value.status
  {
    if HasRequested(request) then request.value.status else Pending
  }

  predicate CanDownload(request: Option<ReportRequest>)
  {
    HasRequested(request) && DisplayStatus(request) == Approved
  }

  /** The learner can download exactly an approved request of theirs. */
  lemma CanDownloadExactly(request: Option<ReportRequest>)
    ensures CanDownload(request) <==>
      request.Some? && (request.value.id != "" || request.value.studentId != "")
      && Workflow.CanLearnerDownload(request.value.status)
  {
  }

  /** `disabled={requesting || (hasRequested && status !== 'REJECTED')}`, negated. */
  predicate RequestEnabled(requesting: bool, request: Option<ReportRequest>)
  {
    !(requesting || (HasRequested(request) && DisplayStatus(request) != Rejected))
  }

  /** A request can be sent when none is in flight and the learner has none, or had one rejected. */
  lemma RequestEnabledExactly(requesting: bool, request: Option<ReportRequest>)
    ensures RequestEnabled(requesting, request) <==>
      !requesting && (!HasRequested(request) || request.value.status == Rejected)
  {
  }

  function RequestButtonLabel(requesting: bool, request: Option<ReportRequest>): (text: string)
    ensures requesting ==> text == "Submitting..."
    ensures !requesting && DisplayStatus(request) == Rejected ==> text == "Request Download Again"
    ensures !requesting && DisplayStatus(request) != Rejected && HasRequested(request) ==> text == "Request Submitted"
    ensures !requesting && !HasRequested(request) ==> text == "Request Download"
  {
    if requesting then "Submitting..."
    else if DisplayStatus(request) == Rejected then "Request Download Again"
    else if HasRequested(request) then "Request Submitted"
    else "Request Download"
  }

  /** `disabled={!canDownload || downloading}`, negated. */
  predicate DownloadEnabled(request: Option<ReportRequest>, downloading: bool)
  {
    CanDownload(request) && !downloading
  }

  /** The download button is never enabled for a request that is pending or rejected. */
  lemma DownloadNeedsApproval(request: Option<ReportRequest>, downloading: bool)
    requires request.Some? && request.value.status != Approved
    ensures !DownloadEnabled(request, downloading)
  {
  }

  /** `manualComment.trim() || automaticFeedback`. */
  function FinalFeedback(manualComment: string, automaticFeedback: string): (r: string)
    ensures Trim(manualComment) != "" ==> r == Trim(manualComment)
    ensures Trim(manualComment) == "" ==> r == automaticFeedback
  {
    if Trim(manualComment) != "" then Trim(manualComment) else automaticFeedback
  }

  /** The automatic feedback on the report card built from the analytics and the quizzes. */
  function AutomaticFeedback(analytics: seq<Value>, quizzes: seq<QuizListItem>): string
  {
    var rows := ReportCard.SubjectRows(analytics, DeriveCourseFromQuizzes(quizzes).subjects);
    ReportCard.BuildFeedbackComment(rows, ReportCard.GetPerformanceLevel(ReportCard.CalculateOverallAverage(rows)))
  }

  /** A learner with no analytics and no quizzes sees the no-data sentence unless they wrote a
      comment. */
  lemma NoDataNoFeedback(manualComment: string)
    requires Trim(manualComment) == ""
    ensures FinalFeedback(manualComment, AutomaticFeedback([], [])) == ReportCard.NoDataFeedback
  {
    ReportCard.SubjectsFromFallbacks([]);
    assert ReportCard.SubjectRows([], []) == [] by {
      ReportCard.SubjectRowsShape([], []);
      assert forall s :: s !in ReportCard.SafeSubjects([]);
    }
  }

  /** `request?.updatedAt || request?.createdAt || now`. */
  function GeneratedAt(request: Option<ReportRequest>, now: string): (r: string)
    ensures request.None? ==> r == now
    ensures request.Some? ==> r == OrText(request.value.updatedAt, OrText(request.value.createdAt, now))
  {
    if request.None? then now else OrText(request.value.updatedAt, OrText(request.value.createdAt, now))
  }

  /** `user?._id || user?.id || 'LEARNER'`. */
  function TempIdSource(user: Option<User>): (s: string)
    ensures user.None? ==> s == "LEARNER"
    ensures user.Some? && OrText(user.value.objectId, "") != "" ==> s == user.value.objectId.value
    ensures user.Some? && OrText(user.value.objectId, "") == "" && OrText(user.value.id, "") != "" ==>
      s == user.value.id.value
    ensures user.Some? && OrText(user.value.objectId, "") == "" && OrText(user.value.id, "") == "" ==>
      s == "LEARNER"
  {
    if user.None? then "LEARNER" else OrText(user.value.objectId, OrText(user.value.id, "LEARNER"))
  }

  /** The report id: the request's id, else "TEMP-" and the last six characters of the user's
      id (or of "LEARNER"), upper-cased. */
  function ReportId(request: Option<ReportRequest>, user: Option<User>): (r: string)
    ensures request.Some? && request.value.id != "" ==> r == request.value.id
    ensures (request.None? || request.value.id == "") ==> IsPrefix("TEMP-", r)
    ensures (request.None? || request.value.id == "") ==>
      r == "TEMP-" + ToUpper(SliceLast(TempIdSource(user), 6))
  {
    if request.Some? && request.value.id != "" then request.value.id
    else
      var r := "TEMP-" + ToUpper(SliceLast(TempIdSource(user), 6));
      assert r[..5] == "TEMP-";
      r
  }

  /** `s` with each ASCII lower-case letter capitalised and every other character kept. */
  function AsciiCapitals(s: string): (r: string)
    ensures |r| == |s|
  {
    seq(|s|, i requires 0 <= i < |s| => if 'a' <= s[i] <= 'z' then (s[i] as int - 32) as char else s[i])
  }

  /** For a user id of ASCII letters and digits, at least six long, the temporary id is "TEMP-"
      followed by the id's last six characters with lower-case letters capitalised. */
  lemma TempReportId(request: Option<ReportRequest>, user: Option<User>, userId: string)
    requires request.None? || request.value.id == ""
    requires |userId| >= 6 && TempIdSource(user) == userId
    requires forall i :: 0 <= i < |userId| ==> 'a' <= userId[i] <= 'z' || 'A' <= userId[i] <= 'Z' || '0' <= userId[i] <= '9'
    ensures ReportId(request, user) == "TEMP-" + AsciiCapitals(userId[|userId| - 6..])
  {
    var tail := SliceLast(userId, 6);
    assert tail == userId[|userId| - 6..];
    ToUpperLetters(tail);
    assert ToUpper(tail) == AsciiCapitals(tail);
  }

  /** Without a request id or a user id the temporary id comes from "LEARNER", whose last six
      characters are "EARNER". */
  lemma AnonymousReportId(request: Option<ReportRequest>, user: Option<User>)
    requires request.None? || request.value.id == ""
    requires user.None? || (OrText(user.value.objectId, "") == "" && OrText(user.value.id, "") == "")
    ensures ReportId(request, user) == "TEMP-EARNER"
  {
    assert TempIdSource(user) == "LEARNER";
    assert SliceLast("LEARNER", 6) == "EARNER";
    UpperOfCapitals("EARNER");
    assert "TEMP-" + "EARNER" == "TEMP-EARNER";
  }

  /** Upper-casing keeps a text of ASCII capitals. */
  lemma {:induction false} UpperOfCapitals(s: string)
    requires forall i :: 0 <= i < |s| ==> 'A' <= s[i] <= 'Z'
    ensures ToUpper(s) == s
  {
    if s != [] {
      UpperOfCapitals(s[1..]);
    }
  }

  /** The body submitRequest sends to requestDownload. */
  datatype DownloadRequestBody = DownloadRequestBody(courseId: string, courseName: string, classLevel: string)

  function SubmitBody(quizzes: seq<QuizListItem>, user: Option<User>): (b: DownloadRequestBody)
    ensures b.courseId == DeriveCourseFromQuizzes(quizzes).courseId
    ensures b.courseName == DeriveCourseFromQuizzes(quizzes).courseName
    ensures b.classLevel == ClassLevel(user)
  {
    var course := DeriveCourseFromQuizzes(quizzes);
    DownloadRequestBody(course.courseId, course.courseName, ClassLevel(user))
  }

  /** `request?.id`, the request id downloadReport passes on. */
  function DownloadRequestId(request: Option<ReportRequest>): (r: Option<string>)
    ensures request.None? <==> r.None?
    ensures request.Some? ==> r == Some(request.value.id)
  {
    if request.None? then None else Some(request.value.id)
  }

  const SubmittedMessage := "Download request submitted. Awaiting approval."
  const DownloadedMessage := "Report downloaded successfully."

  // ---------------------------------------------------------------------------------------
  // The page state

  class LearnerReportPage {
    var analytics: seq<Value>
    var quizzes: seq<QuizListItem>
    var request: Option<ReportRequest>
    var user: Option<User>
    var manualComment: string
    var loading: bool
    var requesting: bool
    var downloading: bool
    var error: string
    var message: string

    /** The page before its first load; the user is the one kept in storage. */
    constructor (stored: Option<User>)
      ensures analytics == [] && quizzes == [] && request.None? && user == stored && manualComment == ""
      ensures loading && !requesting && !downloading && error == "" && message == ""
    {
      analytics := [];
      quizzes := [];
      request := None;
      user := stored;
      manualComment := "";
      loading := true;
      requesting := false;
      downloading := false;
      error := "";
      message := "";
    }

    /** The end of the load. Each call that failed has already been replaced by its default
        (no analytics, no quizzes, no request, the stored user). */
    method Loaded(analytics: seq<Value>, quizzes: seq<QuizListItem>, request: Option<ReportRequest>, user: Option<User>)
      modifies this
      ensures this.analytics == analytics && this.quizzes == quizzes && this.request == request && this.user == user
      ensures !loading
      ensures manualComment == old(manualComment) && requesting == old(requesting) && downloading == old(downloading)
      ensures error == old(error) && message == old(message)
    {
      this.analytics := analytics;
      this.quizzes := quizzes;
      this.request := request;
      this.user := user;
      loading := false;
    }

    method SetComment(text: string)
      modifies this
      ensures manualComment == text
      ensures analytics == old(analytics) && quizzes == old(quizzes) && request == old(request) && user == old(user)
      ensures loading == old(loading) && requesting == old(requesting) && downloading == old(downloading)
      ensures error == old(error) && message == old(message)
    {
      manualComment := text;
    }

    /** submitRequest up to its await; returns the body it sends. */
    method BeginRequest() returns (body: DownloadRequestBody)
      modifies this
      ensures body == SubmitBody(quizzes, user)
      ensures requesting && error == "" && message == ""
      ensures analytics == old(analytics) && quizzes == old(quizzes) && request == old(request) && user == old(user)
      ensures manualComment == old(manualComment) && loading == old(loading) && downloading == old(downloading)
    {
      requesting := true;
      error := "";
      message := "";
      body := SubmitBody(quizzes, user);
    }

    /** submitRequest after its await: the new request and the confirmation, or the failure. */
    method FinishRequest(outcome: Outcome<ReportRequest>)
      modifies this
      ensures !requesting
      ensures outcome.Returned? ==> request == Some(outcome.value) && message == SubmittedMessage && error == old(error)
      ensures outcome.Threw? ==>
        request == old(request) && message == old(message) && error == ErrorText(outcome.thrown, "Could not submit request.")
      ensures analytics == old(analytics) && quizzes == old(quizzes) && user == old(user)
      ensures manualComment == old(manualComment) && loading == old(loading) && downloading == old(downloading)
    {
      if outcome.Returned? {
        request := Some(outcome.value);
        message := SubmittedMessage;
      } else {
        error := ErrorText(outcome.thrown, "Could not submit request.");
      }
      requesting := false;
    }

    /** downloadReport up to its await; returns the request id and course it asks for. */
    method BeginDownload() returns (requestId: Option<string>, courseId: string)
      modifies this
      ensures requestId == DownloadRequestId(request) && courseId == DeriveCourseFromQuizzes(quizzes).courseId
      ensures downloading && error == "" && message == ""
      ensures analytics == old(analytics) && quizzes == old(quizzes) && request == old(request) && user == old(user)
      ensures manualComment == old(manualComment) && loading == old(loading) && requesting == old(requesting)
    {
      downloading := true;
      error := "";
      message := "";
      requestId := DownloadRequestId(request);
      courseId := DeriveCourseFromQuizzes(quizzes).courseId;
    }

    /** downloadReport after its await: the confirmation, or the failure's message. */
    method FinishDownload(outcome: Outcome<ReportApi.Download>)
      modifies this
      ensures !downloading
      ensures outcome.Returned? ==> message == DownloadedMessage && error == old(error)
      ensures outcome.Threw? ==> message == old(message) && error == ErrorText(outcome.thrown, "Could not download report.")
      ensures analytics == old(analytics) && quizzes == old(quizzes) && request == old(request) && user == old(user)
      ensures manualComment == old(manualComment) && loading == old(loading) && requesting == old(requesting)
    {
      if outcome.Returned? {
        message := DownloadedMessage;
      } else {
        error := ErrorText(outcome.thrown, "Could not download report.");
      }
      downloading := false;
    }
  }

  /** Once a submitted request comes back pending, the learner cannot send another one. */
  lemma SubmittedLocksRequest(updated: ReportRequest)
    requires updated.id != "" && updated.status == Pending
    ensures !RequestEnabled(false, Some(updated))
    ensures RequestButtonLabel(false, Some(updated)) == "Request Submitted"
    ensures !DownloadEnabled(Some(updated), false)
  {
  }
}
