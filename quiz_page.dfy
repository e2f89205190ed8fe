/** The quiz page (QuizPage.tsx): where a question's and an option's image come from, how a
    quiz record from the server is defaulted, the submission check and payload, the progress
    kept per quiz, and the report request and download the page offers after a submission. */
module QuizPage {
  import opened Js
  import opened ReportTypes
  import ReportApi

  // ---------------------------------------------------------------------------------------
  // Images

  /** getImageUrl: a string trimmed, an object's string `url` trimmed, otherwise "". */
  function GetImageUrl(v: Value): (r: string)
    ensures v.Str? ==> r == Trim(v.s)
    ensures v.Obj? && Get(v, "url").Str? ==> r == Trim(Get(v, "url").s)
    ensures !v.Str? && !(v.Obj? && Get(v, "url").Str?) ==> r == ""
  {
    if !Truthy(v) then ""
    else if v.Str? then Trim(v.s)
    else if IsObject(v) && Get(v, "url").Str? then Trim(Get(v, "url").s)
    else ""
  }

  /** The position of the first value that yields an image, or |values|. */
  function ImageIndex(values: seq<Value>): (k: nat)
    ensures k <= |values|
    ensures k < |values| ==> GetImageUrl(values[k]) != ""
    ensures forall j :: 0 <= j < k ==> GetImageUrl(values[j]) == ""
  {
    if values == [] then 0
    else if GetImageUrl(values[0]) != "" then 0
    else
      var k := ImageIndex(values[1..]);
      ShiftNoImage(values, k);
      1 + k
  }

  lemma ShiftNoImage(values: seq<Value>, k: nat)
    requires values != [] && GetImageUrl(values[0]) == "" && k < |values|
    requires forall j :: 0 <= j < k ==> GetImageUrl(values[1..][j]) == ""
    ensures forall j :: 0 <= j < k + 1 ==> GetImageUrl(values[j]) == ""
    ensures k < |values| - 1 ==> values[1..][k] == values[k + 1]
  {
    var tail := values[1..];
    forall j | 0 < j < k + 1 ensures GetImageUrl(values[j]) == "" {
      assert values[j] == tail[j - 1];
    }
  }

  /** `getImageUrl(a) || getImageUrl(b) || …`: the image of the first value that yields one,
      or "" when none does. */
  function FirstImage(values: seq<Value>): (r: string)
    ensures var k := ImageIndex(values); r == if k < |values| then GetImageUrl(values[k]) else ""
  {
    if values == [] then ""
    else if GetImageUrl(values[0]) != "" then GetImageUrl(values[0])
    else
      var r := FirstImage(values[1..]);
      ShiftNoImage(values, ImageIndex(values[1..]));
      r
  }

  /** No image comes out exactly when no value yields one. */
  lemma FirstImageEmpty(values: seq<Value>)
    ensures FirstImage(values) == "" <==> forall i :: 0 <= i < |values| ==> GetImageUrl(values[i]) == ""
  {
  }

  /** The question fields resolveQuestionImage reads, in its order. */
  const QuestionImageKeys := ["image", "imageUrl", "imageURL", "questionImage", "media", "imageData"]

  function QuestionImageSources(question: Value): (r: seq<Value>)
    ensures |r| == |QuestionImageKeys|
    ensures forall i :: 0 <= i < |r| ==> r[i] == Get(question, QuestionImageKeys[i])
  {
    seq(|QuestionImageKeys|, i requires 0 <= i < |QuestionImageKeys| => Get(question, QuestionImageKeys[i]))
  }

  /** resolveQuestionImage: the image of the first of the question's image fields that yields
      one, or "". */
  function ResolveQuestionImage(question: Value): (r: string)
    ensures var k := ImageIndex(QuestionImageSources(question));
      r == if k < |QuestionImageKeys| then GetImageUrl(Get(question, QuestionImageKeys[k])) else ""
  {
    FirstImage(QuestionImageSources(question))
  }

  /** A question's own `image` wins whenever it holds one. */
  lemma ImageFieldFirst(question: Value)
    requires GetImageUrl(Get(question, "image")) != ""
    ensures ResolveQuestionImage(question) == GetImageUrl(Get(question, "image"))
  {
    assert QuestionImageSources(question)[0] == Get(question, "image");
  }

  /** A question shows no image exactly when none of its image fields yields one. */
  lemma NoQuestionImage(question: Value)
    ensures ResolveQuestionImage(question) == ""
        <==> forall i :: 0 <= i < |QuestionImageKeys| ==> GetImageUrl(Get(question, QuestionImageKeys[i])) == ""
  {
    FirstImageEmpty(QuestionImageSources(question));
  }

  /** The entries resolveOptionImage looks at for option `index`: optionImages, optionImageUrls
      and optionMedia at that index, or null for a field that is not an array. */
  function OptionImageSources(question: Value, index: nat): seq<Value>
  {
    [ArrayAt(Get(question, "optionImages"), index), ArrayAt(Get(question, "optionImageUrls"), index),
     ArrayAt(Get(question, "optionMedia"), index)]
  }

  /** One step of the loop: the value at `i` decides, or the search goes on after it. */
  lemma FirstImageStep(values: seq<Value>, i: nat)
    requires i < |values|
    ensures FirstImage(values[i..]) ==
      if GetImageUrl(values[i]) != "" then GetImageUrl(values[i]) else FirstImage(values[i + 1..])
  {
    assert values[i..][1..] == values[i + 1..];
  }

  /** resolveOptionImage, with its loop over the three sources. */
  method ResolveOptionImage(question: Value, index: nat) returns (url: string)
    ensures url == FirstImage(OptionImageSources(question, index))
    ensures url == "" <==> forall i :: 0 <= i < 3 ==> GetImageUrl(OptionImageSources(question, index)[i]) == ""
  {
    var sources := OptionImageSources(question, index);
    FirstImageEmpty(sources);
    assert sources[0..] == sources;
    var i := 0;
    while i < |sources|
      invariant 0 <= i <= |sources|
      invariant FirstImage(sources) == FirstImage(sources[i..])
    {
      FirstImageStep(sources, i);
      url := GetImageUrl(sources[i]);
      if url != "" {
        return;
      }
      i := i + 1;
    }
    assert sources[i..] == [];
    url := "";
  }

  // ---------------------------------------------------------------------------------------
  // The active quiz

  datatype ActiveQuiz = ActiveQuiz(id: string, title: Value, lessonId: string, lessonTitle: Value,
                                   passingScore: Num, questions: seq<Value>)

  /** createActiveQuiz: the quiz record with every field defaulted. */
  function CreateActiveQuiz(quiz: Value): (q: ActiveQuiz)
    ensures Truthy(Get(quiz, "_id")) ==> q.id == ToJsString(Get(quiz, "_id"))
    ensures !Truthy(Get(quiz, "_id")) && Truthy(Get(quiz, "id")) ==> q.id == ToJsString(Get(quiz, "id"))
    ensures !Truthy(Get(quiz, "_id")) && !Truthy(Get(quiz, "id")) ==> q.id == ""
    ensures !Truthy(Get(quiz, "title")) ==> q.title == Str("Untitled Quiz")
    ensures Truthy(Get(quiz, "title")) ==> q.title == Get(quiz, "title")
    ensures Truthy(Get(Get(quiz, "lesson"), "_id")) ==> q.lessonId == ToJsString(Get(Get(quiz, "lesson"), "_id"))
    ensures !Truthy(Get(Get(quiz, "lesson"), "_id")) && Truthy(Get(Get(quiz, "lesson"), "id")) ==>
      q.lessonId == ToJsString(Get(Get(quiz, "lesson"), "id"))
    ensures !Truthy(Get(Get(quiz, "lesson"), "_id")) && !Truthy(Get(Get(quiz, "lesson"), "id")) ==> q.lessonId == q.id
    ensures Truthy(Get(Get(quiz, "lesson"), "title")) ==> q.lessonTitle == Get(Get(quiz, "lesson"), "title")
    ensures !Truthy(Get(Get(quiz, "lesson"), "title")) && Truthy(Get(Get(quiz, "lesson"), "name")) ==>
      q.lessonTitle == Get(Get(quiz, "lesson"), "name")
    ensures !Truthy(Get(Get(quiz, "lesson"), "title")) && !Truthy(Get(Get(quiz, "lesson"), "name")) ==>
      q.lessonTitle == Str("Lesson")
    ensures Truthy(Get(quiz, "passingScore")) ==> q.passingScore == ToNumber(Get(quiz, "passingScore"))
    ensures !Truthy(Get(quiz, "passingScore")) ==> q.passingScore == Zero()
    ensures Get(quiz, "questions").Arr? ==> q.questions == Get(quiz, "questions").items
    ensures !Get(quiz, "questions").Arr? ==> q.questions == []
  {
    var lesson := Get(quiz, "lesson");
    ActiveQuiz(
      ToJsString(Or(Get(quiz, "_id"), Or(Get(quiz, "id"), Str("")))),
      Or(Get(quiz, "title"), Str("Untitled Quiz")),
      ToJsString(Or(Get(lesson, "_id"), Or(Get(lesson, "id"), Or(Get(quiz, "_id"), Or(Get(quiz, "id"), Str("")))))),
      Or(Get(lesson, "title"), Or(Get(lesson, "name"), Str("Lesson"))),
      ToNumber(Or(Get(quiz, "passingScore"), Number(Zero()))),
      if Get(quiz, "questions").Arr? then Get(quiz, "questions").items else [])
  }

  /** An empty record becomes the untitled quiz with no questions. */
  lemma EmptyQuizDefaults(quiz: Value)
    requires quiz == Obj(map[])
    ensures CreateActiveQuiz(quiz) == ActiveQuiz("", Str("Untitled Quiz"), "", Str("Lesson"), Zero(), [])
  {
  }

  /** The course a report is requested for: the lesson's id, else the quiz's. */
  function CourseOf(q: ActiveQuiz): (r: string)
    ensures q.lessonId != "" ==> r == q.lessonId
    ensures q.lessonId == "" ==> r == q.id
  {
    if q.lessonId != "" then q.lessonId else q.id
  }

  // ---------------------------------------------------------------------------------------
  // Submission

  /** Some question has no numeric answer. */
  predicate HasMissingAnswers(questions: seq<Value>, answers: map<nat, Num>)
  {
    exists idx :: 0 <= idx < |questions| && idx !in answers
  }

  datatype Answer = Answer(selectedOptionIndex: Num)

  /** The submitted answers: one per question, in question order. */
  function Payload(questions: seq<Value>, answers: map<nat, Num>): (p: seq<Answer>)
    requires !HasMissingAnswers(questions, answers)
    ensures |p| == |questions|
    ensures forall idx :: 0 <= idx < |questions| ==> idx in answers && p[idx] == Answer(answers[idx])
  {
    seq(|questions|, idx requires 0 <= idx < |questions| && idx in answers => Answer(answers[idx]))
  }

  const MissingAnswersText := "Please answer all questions before submitting."

  /** The progress kept in storage: which quizzes are done and their last percentages. */
  datatype Progress = Progress(completedQuizzes: map<string, bool>, scores: map<string, Num>)

  /** The progress after quiz `quizId` scored `percent`. */
  function Record(progress: Progress, quizId: string, percent: Num): (p: Progress)
    ensures quizId in p.completedQuizzes && p.completedQuizzes[quizId]
    ensures quizId in p.scores && p.scores[quizId] == percent
    ensures forall k :: k != quizId ==> (k in p.completedQuizzes <==> k in progress.completedQuizzes)
    ensures forall k :: k != quizId && k in progress.completedQuizzes ==> p.completedQuizzes[k] == progress.completedQuizzes[k]
    ensures forall k :: k != quizId ==> (k in p.scores <==> k in progress.scores)
    ensures forall k :: k != quizId && k in progress.scores ==> p.scores[k] == progress.scores[k]
  {
    Progress(progress.completedQuizzes[quizId := true], progress.scores[quizId := percent])
  }

  /** What the page reads from a submission's response. */
  datatype Graded = Graded(score: Num, percent: Num, passed: bool)

  /** `res.data.result?.[key]`: a field of the graded result, undefined when there is none. */
  function ResultField(response: Value, key: string): Value
  {
    Get(Get(Get(response, "data"), "result"), key)
  }

  /** `res.data.result`: a TypeError when the response or its `data` is null or undefined (a
      204 reply, or a body that was not JSON), otherwise the `result` field. */
  function ReadResult(response: Value): (r: Outcome<Value>)
    ensures r.Threw? <==> Nullish(Get(response, "data"))
    ensures r.Returned? ==> r.value == Get(Get(response, "data"), "result")
    ensures r.Threw? ==> r.thrown.ErrorObject? && r.thrown.message != ""
  {
    match ReadProperty(response, "data")
    case Threw(e) => Threw(e)
    case Returned(data) => ReadProperty(data, "result")
  }

  /** The score, rounded percentage and pass flag of `res.data.result`, each 0 or false when
      absent or falsy. */
  function Grade(response: Value): (g: Graded)
    ensures Truthy(ResultField(response, "score")) ==> g.score == ToNumber(ResultField(response, "score"))
    ensures !Truthy(ResultField(response, "score")) ==> g.score == Zero()
    ensures var p := ResultField(response, "percentage");
      p.Number? && p.n.Finite? ==> g.percent == Finite(Decimal(Round(RealOf(p.n.d)), 0))
    ensures Truthy(ResultField(response, "percentage")) ==>
      g.percent == RoundNum(ToNumber(ResultField(response, "percentage")))
    ensures !Truthy(ResultField(response, "percentage")) ==> g.percent == Zero()
    ensures g.passed == Truthy(ResultField(response, "passed"))
  {
    var resultData := Or(Get(Get(response, "data"), "result"), Obj(map[]));
    Graded(ToNumber(Or(Get(resultData, "score"), Number(Zero()))),
           RoundNum(ToNumber(Or(Get(resultData, "percentage"), Number(Zero())))),
           Truthy(Get(resultData, "passed")))
  }

  function ResultText(g: Graded): string
  {
    "Score: " + NumText(g.score) + " (" + NumText(g.percent) + "%) - " + (if g.passed then "Passed" else "Not Passed")
  }

  /** `err?.message || fallback` on what a call threw. */
  function MessageOr(e: Thrown, fallback: string): (r: string)
    ensures e.ErrorObject? && e.message != "" ==> r == e.message
    ensures (e.NonError? || e.message == "") ==> r == fallback
  {
    if e.ErrorObject? && e.message != "" then e.message else fallback
  }

  // ---------------------------------------------------------------------------------------
  // The report request after a submission

  /** The report state shown next to the quiz: nothing requested yet, or a request's status. */
  datatype ReportState = Idle | Requested(status: Status)

  /** `(request?.status || 'PENDING')`: no request means a pending one. */
  function RequestedStatus(request: Option<ReportRequest>): (s: ReportState)
    ensures request.None? ==> s == Requested(Pending)
    ensures request.Some? ==> s == Requested(request.value.status)
  {
    Requested(if request.Some? then request.value.status else Pending)
  }

  function StatusMessage(s: Status): string
  {
    match s
    case Approved => "Report request approved. You can download now."
    case Rejected => "Report request was rejected. Please request again later."
    case Pending => "Permission request sent. Waiting for approval."
  }

  /** What requestReportPermission sends for a quiz. */
  datatype ReportBody = ReportBody(quizId: string, quiz: string, quizTitle: Value, courseId: string, courseName: Value)

  function RequestBody(q: ActiveQuiz): (b: ReportBody)
    ensures b.quizId == q.id && b.quiz == q.id && b.courseId == CourseOf(q)
    ensures b.quizTitle == q.title && b.courseName == q.lessonTitle
  {
    ReportBody(q.id, q.id, q.title, CourseOf(q), q.lessonTitle)
  }

  /** `disabled={!showFeedback || requestingReport || submitting}`, negated. */
  predicate RequestReportEnabled(showFeedback: bool, requestingReport: bool, submitting: bool)
  {
    showFeedback && !requestingReport && !submitting
  }

  /** `disabled={!showFeedback || downloadingReport || reportStatus !== 'APPROVED'}`, negated. */
  predicate DownloadEnabled(showFeedback: bool, downloadingReport: bool, reportStatus: ReportState)
  {
    showFeedback && !downloadingReport && reportStatus == Requested(Approved)
  }

  /** Download needs a graded quiz and an approved request; a request without status never
      enables it. */
  lemma DownloadGate(showFeedback: bool, downloadingReport: bool, reportStatus: ReportState)
    ensures DownloadEnabled(showFeedback, downloadingReport, reportStatus) <==>
      showFeedback && !downloadingReport && reportStatus.Requested? && reportStatus.status == Approved
    ensures !DownloadEnabled(showFeedback, downloadingReport, RequestedStatus(None))
    ensures !DownloadEnabled(showFeedback, downloadingReport, Idle)
  {
  }

  /** `(item._id || item.id) === routeQuizId`. */
  predicate HasRouteId(item: Value, routeQuizId: string)
  {
    Or(Get(item, "_id"), Get(item, "id")) == Str(routeQuizId)
  }

  /** quizzes.find(item => (item._id || item.id) === routeQuizId): the first match, if any. */
  function FindQuiz(quizzes: seq<Value>, routeQuizId: string): (r: Option<Value>)
    ensures r.None? <==> forall i :: 0 <= i < |quizzes| ==> !HasRouteId(quizzes[i], routeQuizId)
    ensures r.Some? ==> r.value in quizzes && HasRouteId(r.value, routeQuizId)
    ensures r.Some? ==> exists i :: (0 <= i < |quizzes| && r.value == quizzes[i]
                                     && forall j :: 0 <= j < i ==> !HasRouteId(quizzes[j], routeQuizId))
  {
    if quizzes == [] then None
    else if HasRouteId(quizzes[0], routeQuizId) then Some(quizzes[0])
    else
      var r := FindQuiz(quizzes[1..], routeQuizId);
      assert forall i :: 1 <= i < |quizzes| ==> quizzes[1..][i - 1] == quizzes[i];
      assert r.Some? ==> exists i :: (0 <= i < |quizzes| && r.value == quizzes[i]
                                      && forall j :: 0 <= j < i ==> !HasRouteId(quizzes[j], routeQuizId)) by {
        if r.Some? {
          var k :| 0 <= k < |quizzes| - 1 && r.value == quizzes[1..][k]
                   && forall j :: 0 <= j < k ==> !HasRouteId(quizzes[1..][j], routeQuizId);
          assert r.value == quizzes[k + 1];
        }
      }
      r
  }

  // ---------------------------------------------------------------------------------------
  // The page state

  class QuizView {
    var progress: Progress
    var quizzes: seq<Value>
    var activeQuiz: Option<ActiveQuiz>
    var answers: map<nat, Num>
    var result: string
    var showFeedback: bool
    var error: string
    var submitting: bool
    var requestingReport: bool
    var downloadingReport: bool
    var reportStatus: ReportState
    var reportMessage: string
    var reportRequestId: Option<string>

    /** The page before its load, with the progress read from storage. */
    constructor (stored: Progress)
      ensures progress == stored && quizzes == [] && activeQuiz.None? && answers == map[] && result == ""
      ensures !showFeedback && error == "" && !submitting && !requestingReport && !downloadingReport
      ensures reportStatus == Idle && reportMessage == "" && reportRequestId.None?
    {
      progress := stored;
      quizzes := [];
      activeQuiz := None;
      answers := map[];
      result := "";
      showFeedback := false;
      error := "";
      submitting := false;
      requestingReport := false;
      downloadingReport := false;
      reportStatus := Idle;
      reportMessage := "";
      reportRequestId := None;
    }

    /** The end of the quiz list load. */
    method Loaded(outcome: Outcome<seq<Value>>)
      modifies this
      ensures outcome.Returned? ==> quizzes == outcome.value && error == old(error)
      ensures outcome.Threw? ==> quizzes == old(quizzes) && error == MessageOr(outcome.thrown, "Failed to load quizzes. Please log in.")
      ensures progress == old(progress) && activeQuiz == old(activeQuiz) && answers == old(answers)
      ensures result == old(result) && showFeedback == old(showFeedback) && reportStatus == old(reportStatus)
      ensures reportMessage == old(reportMessage) && reportRequestId == old(reportRequestId)
      ensures submitting == old(submitting) && requestingReport == old(requestingReport)
      ensures downloadingReport == old(downloadingReport)
    {
      if outcome.Returned? {
        quizzes := outcome.value;
      } else {
        error := MessageOr(outcome.thrown, "Failed to load quizzes. Please log in.");
      }
    }

    /** openQuiz and closeQuiz: show `quiz` (or none) with a clean slate. */
    method Show(quiz: Option<ActiveQuiz>)
      modifies this
      ensures activeQuiz == quiz
      ensures answers == map[] && result == "" && !showFeedback
      ensures reportStatus == Idle && reportMessage == "" && reportRequestId.None?
      ensures progress == old(progress) && quizzes == old(quizzes) && error == old(error)
      ensures submitting == old(submitting) && requestingReport == old(requestingReport)
      ensures downloadingReport == old(downloadingReport)
    {
      activeQuiz := quiz;
      answers := map[];
      result := "";
      showFeedback := false;
      reportStatus := Idle;
      reportMessage := "";
      reportRequestId := None;
    }

    /** The route effect: open the listed quiz the route names, if there is one. */
    method OpenFromRoute(routeQuizId: Option<string>)
      modifies this
      ensures (routeQuizId.None? || routeQuizId.value == "" || FindQuiz(quizzes, routeQuizId.value).None?) ==>
        activeQuiz == old(activeQuiz) && answers == old(answers) && reportStatus == old(reportStatus)
        && result == old(result) && showFeedback == old(showFeedback)
        && reportMessage == old(reportMessage) && reportRequestId == old(reportRequestId)
      ensures routeQuizId.Some? && routeQuizId.value != "" && FindQuiz(quizzes, routeQuizId.value).Some? ==>
        activeQuiz == Some(CreateActiveQuiz(FindQuiz(quizzes, routeQuizId.value).value))
        && answers == map[] && reportStatus == Idle && result == "" && !showFeedback
        && reportMessage == "" && reportRequestId.None?
      ensures progress == old(progress) && quizzes == old(quizzes) && error == old(error)
      ensures submitting == old(submitting) && requestingReport == old(requestingReport)
      ensures downloadingReport == old(downloadingReport)
    {
      if routeQuizId.Some? && routeQuizId.value != "" && quizzes != [] {
        var target := FindQuiz(quizzes, routeQuizId.value);
        if target.Some? {
          Show(Some(CreateActiveQuiz(target.value)));
        }
      }
    }

    /** Choosing option `option` for question `idx`. */
    method Choose(idx: nat, option: nat)
      modifies this
      ensures answers == old(answers)[idx := Finite(Decimal(option, 0))]
      ensures progress == old(progress) && quizzes == old(quizzes) && activeQuiz == old(activeQuiz)
      ensures result == old(result) && showFeedback == old(showFeedback) && error == old(error)
      ensures reportStatus == old(reportStatus) && reportMessage == old(reportMessage)
      ensures reportRequestId == old(reportRequestId) && submitting == old(submitting)
      ensures requestingReport == old(requestingReport) && downloadingReport == old(downloadingReport)
    {
      answers := answers[idx := Finite(Decimal(option, 0))];
    }

    /** submitQuiz up to its await. Refused, with no call, when no quiz is open or an answer is
        missing; otherwise returns the quiz id and the answers to submit. */
    method BeginSubmit() returns (call: Option<(string, seq<Answer>)>)
      modifies this
      ensures activeQuiz.None? ==> call.None? && result == old(result) && !submitting == !old(submitting)
      ensures activeQuiz.Some? && HasMissingAnswers(activeQuiz.value.questions, answers) ==>
        call.None? && result == MissingAnswersText && submitting == old(submitting)
        && reportMessage == old(reportMessage)
      ensures activeQuiz.Some? && !HasMissingAnswers(activeQuiz.value.questions, answers) ==>
        call == Some((activeQuiz.value.id, Payload(activeQuiz.value.questions, answers)))
        && submitting && reportMessage == "" && result == old(result)
      ensures call.Some? ==> !RequestReportEnabled(showFeedback, requestingReport, submitting)
      ensures call.None? ==> submitting == old(submitting) && reportMessage == old(reportMessage)
      ensures progress == old(progress) && quizzes == old(quizzes) && activeQuiz == old(activeQuiz)
      ensures answers == old(answers) && showFeedback == old(showFeedback) && error == old(error)
      ensures reportStatus == old(reportStatus) && reportRequestId == old(reportRequestId)
      ensures requestingReport == old(requestingReport) && downloadingReport == old(downloadingReport)
    {
      call := None;
      if activeQuiz.None? {
        return;
      }
      var quiz := activeQuiz.value;
      if HasMissingAnswers(quiz.questions, answers) {
        result := MissingAnswersText;
        return;
      }
      submitting := true;
      reportMessage := "";
      call := Some((quiz.id, Payload(quiz.questions, answers)));
    }

    /** submitQuiz after its await: the grade is shown and recorded for `quizId`, or the
        failure's message is shown. */
    method FinishSubmit(quizId: string, outcome: Outcome<Value>)
      modifies this
      ensures !submitting
      ensures outcome.Returned? && ReadResult(outcome.value).Returned? ==>
        var g := Grade(outcome.value);
        result == ResultText(g) && showFeedback && progress == Record(old(progress), quizId, g.percent)
      ensures outcome.Returned? && ReadResult(outcome.value).Threw? ==>
        result == ReadResult(outcome.value).thrown.message && showFeedback == old(showFeedback)
        && progress == old(progress)
      ensures outcome.Threw? ==>
        result == MessageOr(outcome.thrown, "Failed to submit quiz.") && showFeedback == old(showFeedback)
        && progress == old(progress)
      ensures RequestReportEnabled(showFeedback, requestingReport, submitting) <==>
        (old(showFeedback) || (outcome.Returned? && ReadResult(outcome.value).Returned?)) && !requestingReport
      ensures quizzes == old(quizzes) && activeQuiz == old(activeQuiz) && answers == old(answers)
      ensures error == old(error) && reportStatus == old(reportStatus) && reportMessage == old(reportMessage)
      ensures reportRequestId == old(reportRequestId)
      ensures requestingReport == old(requestingReport) && downloadingReport == old(downloadingReport)
    {
      if outcome.Returned? && ReadResult(outcome.value).Returned? {
        var g := Grade(outcome.value);
        var text := ResultText(g);
        var recorded := Record(progress, quizId, g.percent);
        result, showFeedback, progress := text, true, recorded;
      } else {
        var thrown := if outcome.Threw? then outcome.thrown else ReadResult(outcome.value).thrown;
        var text := MessageOr(thrown, "Failed to submit quiz.");
        result := text;
      }
      submitting := false;
    }

    /** requestReportPermission up to its await; returns the body sent, when a quiz is open. */
    method BeginReportRequest() returns (body: Option<ReportBody>)
      modifies this
      ensures activeQuiz.None? ==>
        body.None? && requestingReport == old(requestingReport) && reportMessage == old(reportMessage)
      ensures activeQuiz.Some? ==> body == Some(RequestBody(activeQuiz.value)) && requestingReport && reportMessage == ""
      ensures body.Some? ==> !RequestReportEnabled(showFeedback, requestingReport, submitting)
      ensures progress == old(progress) && quizzes == old(quizzes) && activeQuiz == old(activeQuiz)
      ensures answers == old(answers) && result == old(result) && showFeedback == old(showFeedback)
      ensures error == old(error) && reportStatus == old(reportStatus) && reportRequestId == old(reportRequestId)
      ensures submitting == old(submitting) && downloadingReport == old(downloadingReport)
    {
      body := None;
      if activeQuiz.None? {
        return;
      }
      requestingReport := true;
      reportMessage := "";
      body := Some(RequestBody(activeQuiz.value));
    }

    /** requestReportPermission after its await: the request's status, id and message. */
    method FinishReportRequest(outcome: Outcome<Option<ReportRequest>>)
      modifies this
      ensures !requestingReport
      ensures RequestReportEnabled(showFeedback, requestingReport, submitting) <==> showFeedback && !submitting
      ensures outcome.Returned? ==>
        reportStatus == RequestedStatus(outcome.value)
        && reportRequestId == (if outcome.value.Some? then Some(outcome.value.value.id) else None)
        && reportMessage == StatusMessage(reportStatus.status)
      ensures outcome.Threw? ==>
        reportStatus == old(reportStatus) && reportRequestId == old(reportRequestId)
        && reportMessage == ErrorText(outcome.thrown, "Failed to request report permission.")
      ensures progress == old(progress) && quizzes == old(quizzes) && activeQuiz == old(activeQuiz)
      ensures answers == old(answers) && result == old(result) && showFeedback == old(showFeedback)
      ensures error == old(error) && submitting == old(submitting) && downloadingReport == old(downloadingReport)
    {
      if outcome.Returned? {
        reportStatus := RequestedStatus(outcome.value);
        reportRequestId := if outcome.value.Some? then Some(outcome.value.value.id) else None;
        reportMessage := StatusMessage(reportStatus.status);
      } else {
        reportMessage := ErrorText(outcome.thrown, "Failed to request report permission.");
      }
      requestingReport := false;
    }

    /** downloadReport up to its await; returns the request id, course and quiz it asks for. */
    method BeginDownload() returns (args: Option<(Option<string>, string, string)>)
      modifies this
      ensures activeQuiz.None? ==>
        args.None? && downloadingReport == old(downloadingReport) && reportMessage == old(reportMessage)
      ensures activeQuiz.Some? ==>
        args == Some((reportRequestId, CourseOf(activeQuiz.value), activeQuiz.value.id))
        && downloadingReport && reportMessage == ""
      ensures progress == old(progress) && quizzes == old(quizzes) && activeQuiz == old(activeQuiz)
      ensures answers == old(answers) && result == old(result) && showFeedback == old(showFeedback)
      ensures error == old(error) && reportStatus == old(reportStatus) && reportRequestId == old(reportRequestId)
      ensures submitting == old(submitting) && requestingReport == old(requestingReport)
    {
      args := None;
      if activeQuiz.None? {
        return;
      }
      downloadingReport := true;
      reportMessage := "";
      args := Some((reportRequestId, CourseOf(activeQuiz.value), activeQuiz.value.id));
    }

    /** downloadReport after its await. */
    method FinishDownload(outcome: Outcome<ReportApi.Download>)
      modifies this
      ensures !downloadingReport
      ensures outcome.Returned? ==> reportMessage == "Report downloaded successfully."
      ensures outcome.Threw? ==> reportMessage == ErrorText(outcome.thrown, "Could not download report.")
      ensures progress == old(progress) && quizzes == old(quizzes) && activeQuiz == old(activeQuiz)
      ensures answers == old(answers) && result == old(result) && showFeedback == old(showFeedback)
      ensures error == old(error) && reportStatus == old(reportStatus) && reportRequestId == old(reportRequestId)
      ensures submitting == old(submitting) && requestingReport == old(requestingReport)
    {
      if outcome.Returned? {
        reportMessage := "Report downloaded successfully.";
      } else {
        reportMessage := ErrorText(outcome.thrown, "Could not download report.");
      }
      downloadingReport := false;
    }
  }
}
