/** The canonical records of the report workflow (src/shared/types/report.ts). */
module ReportTypes {
  import opened Js

  /** The lifecycle state of a report request. */
  datatype Status = Pending | Approved | Rejected

  function StatusName(s: Status): string
  {
    match s
    case Pending => "PENDING"
    case Approved => "APPROVED"
    case Rejected => "REJECTED"
  }

  /** The role of the account that decided a request. */
  datatype Role = Admin | Instructor

  function RoleName(r: Role): string
  {
    match r
    case Admin => "ADMIN"
    case Instructor => "INSTRUCTOR"
  }

  /** ReportDecision: a status other than PENDING. */
  type Decision = s: Status | s != Pending witness Approved

  datatype ReportRequest = ReportRequest(
    id: string,
    studentId: string,
    studentName: string,
    courseId: string,
    courseName: string,
    status: Status,
    approvedBy: Option<string>,
    approvedByName: Option<string>,
    approvedByRole: Option<Role>,
    createdAt: Option<string>,
    updatedAt: Option<string>)

  /** One line of the report card. */
  datatype SubjectRow = SubjectRow(
    subject: string,
    firstTerm: int,
    secondTerm: int,
    thirdTerm: int,
    total: int,
    grade: string)

  /** `a || b` on an optional string: the value when it is set and not empty. */
  function OrText(a: Option<string>, b: string): (r: string)
    ensures a.Some? && a.value != "" ==> r == a.value
    ensures (a.None? || a.value == "") ==> r == b
  {
    if a.Some? && a.value != "" then a.value else b
  }
}
