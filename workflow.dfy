/** The decision state machine of the report workflow: a request is decided once, from PENDING
    to APPROVED or REJECTED, and a learner may download exactly an approved report. */
module Workflow {
  import opened Js
  import opened ReportTypes

  /** canLearnerDownload. */
  predicate CanLearnerDownload(status: Status)
  {
    status == Approved
  }

  lemma DownloadOnlyWhenApproved()
    ensures !CanLearnerDownload(Pending) && !CanLearnerDownload(Rejected)
    ensures CanLearnerDownload(Approved)
  {
  }

  /** The account taking a decision. */
  datatype Actor = Actor(id: string, name: string, role: Role)

  /** The timestamp applyDecision records when it is given none. */
  const DefaultDecisionTime := "2026-02-12T00:00:00.000Z"

  /** applyDecision: a pending request takes the decision, the actor and the time; any other
      request is returned as it is. */
  function ApplyDecision(request: ReportRequest, actor: Actor, next: Decision, timestamp: string): (r: ReportRequest)
    ensures request.status != Pending ==> r == request
    ensures request.status == Pending ==>
      && r.status == next
      && r.approvedBy == Some(actor.id) && r.approvedByName == Some(actor.name) && r.approvedByRole == Some(actor.role)
      && r.updatedAt == Some(timestamp)
    ensures r.id == request.id && r.studentId == request.studentId && r.studentName == request.studentName
    ensures r.courseId == request.courseId && r.courseName == request.courseName && r.createdAt == request.createdAt
    ensures r.status != Pending
  {
    if request.status != Pending then request
    else request.(status := next, approvedBy := Some(actor.id), approvedByName := Some(actor.name),
                  approvedByRole := Some(actor.role), updatedAt := Some(timestamp))
  }

  /** Once decided, a request does not move: the first decision wins. */
  lemma FirstDecisionWins(request: ReportRequest, first: Actor, d1: Decision, t1: string,
                          second: Actor, d2: Decision, t2: string)
    ensures var decided := ApplyDecision(request, first, d1, t1);
      ApplyDecision(decided, second, d2, t2) == decided
  {
  }

  /** A pending request approved by an instructor carries the approval and the instructor. */
  lemma InstructorApproves(request: ReportRequest, instructor: Actor)
    requires request.status == Pending && instructor.role == Instructor
    ensures var approved := ApplyDecision(request, instructor, Approved, DefaultDecisionTime);
      approved.status == Approved && approved.approvedByName == Some(instructor.name)
      && approved.approvedByRole == Some(Instructor) && CanLearnerDownload(approved.status)
  {
  }

  /** An admin rejecting an approved request leaves it approved by the instructor. */
  lemma AdminCannotReopen(request: ReportRequest, admin: Actor)
    requires request.status == Approved && request.approvedByRole == Some(Instructor) && admin.role == Admin
    ensures var after := ApplyDecision(request, admin, Rejected, DefaultDecisionTime);
      after.status == Approved && after.approvedByRole == Some(Instructor)
  {
  }
}
