/** The per-row rules of the request table (ReportRequestTable.tsx): when Approve and Reject
    are disabled, the key React renders the row under, and the approver caption. */
module RequestTable {
  import opened Js
  import opened ReportTypes

  /** `disabled={isFinal || isWorking || missingId}`, shared by Approve and Reject.
      `actionLoadingId` is the prop as passed: None when it is left out, otherwise the string
      the requests page passes, which is '' while no decision is in flight. With `Some("")` a
      row without an id counts as working and is labelled "Working..." (IdlessRowReadsWorking). */
  predicate ActionsDisabled(row: ReportRequest, actionLoadingId: Option<string>)
  {
    var isFinal := row.status != Pending;
    var isWorking := actionLoadingId == Some(row.id);
    var missingId := row.id == "";
    isFinal || isWorking || missingId
  }

  /** The buttons of a row can be pressed exactly when the request is pending, has an id and is
      not the one being decided. */
  lemma ActionsEnabledExactly(row: ReportRequest, actionLoadingId: Option<string>)
    ensures !ActionsDisabled(row, actionLoadingId)
        <==> row.status == Pending && row.id != "" && actionLoadingId != Some(row.id)
  {
  }

  /** A decided request can never be decided again from the table. */
  lemma DecidedRowsLocked(row: ReportRequest, actionLoadingId: Option<string>)
    requires row.status == Approved || row.status == Rejected
    ensures ActionsDisabled(row, actionLoadingId)
  {
  }

  /** The label of either button: "Working..." while its row is being decided. */
  function ButtonLabel(row: ReportRequest, actionLoadingId: Option<string>, idle: string): (text: string)
    ensures actionLoadingId == Some(row.id) ==> text == "Working..." && ActionsDisabled(row, actionLoadingId)
    ensures actionLoadingId != Some(row.id) ==> text == idle
  {
    if actionLoadingId == Some(row.id) then "Working..." else idle
  }

  /** The requests page passes '' when nothing is being decided, so a row without an id shows
      "Working..." on both buttons even when no decision is in flight. */
  lemma IdlessRowReadsWorking(row: ReportRequest, idle: string)
    requires row.id == ""
    ensures ButtonLabel(row, Some(""), idle) == "Working..."
  {
  }

  /** `${value}` of an optional string: null prints as "null". */
  function TemplateText(v: Option<string>): string
  {
    if v.Some? then v.value else "null"
  }

  /** `row.id || \`${row.studentId}-${row.createdAt || row.updatedAt}\``. */
  function RowKey(row: ReportRequest): (key: string)
    ensures row.id != "" ==> key == row.id
    ensures row.id == "" ==> key == row.studentId + "-" + OrDate(row.createdAt, row.updatedAt)
  {
    if row.id != "" then row.id
    else row.studentId + "-" + OrDate(row.createdAt, row.updatedAt)
  }

  /** `createdAt || updatedAt` rendered in a template. */
  function OrDate(createdAt: Option<string>, updatedAt: Option<string>): (t: string)
    ensures createdAt.Some? && createdAt.value != "" ==> t == createdAt.value
    ensures (createdAt.None? || createdAt.value == "") ==> t == TemplateText(updatedAt)
  {
    if createdAt.Some? && createdAt.value != "" then createdAt.value else TemplateText(updatedAt)
  }

  /** Rows without an id are keyed by their learner and date. */
  lemma KeyWithoutId(row: ReportRequest)
    requires row.id == "" && row.createdAt.Some? && row.createdAt.value != ""
    ensures RowKey(row) == row.studentId + "-" + row.createdAt.value
  {
  }

  /** formatDate: "N/A" for an empty or missing value, otherwise the locale's date text, which is
      the parameter `localDate`. */
  function FormatDate(value: Option<string>, localDate: string -> string): (t: string)
    ensures (value.None? || value.value == "") ==> t == "N/A"
    ensures value.Some? && value.value != "" ==> t == localDate(value.value)
  {
    if value.None? || value.value == "" then "N/A" else localDate(value.value)
  }

  /** The caption under the status badge: only when the approver's name is known, with the
      role appended when it is known too. */
  function ApproverCaption(row: ReportRequest, localDate: string -> string): (c: Option<string>)
    ensures (row.approvedByName.None? || row.approvedByName.value == "") <==> c.None?
    ensures c.Some? ==> IsPrefix("By " + row.approvedByName.value, c.value)
  {
    if row.approvedByName.None? || row.approvedByName.value == "" then None
    else
      var role := if row.approvedByRole.Some? then " (" + RoleName(row.approvedByRole.value) + ")" else "";
      var date := FormatDate(if row.updatedAt.Some? && row.updatedAt.value != "" then row.updatedAt else row.createdAt,
                             localDate);
      var caption := "By " + row.approvedByName.value + role + " on " + date;
      assert caption[..|"By " + row.approvedByName.value|] == "By " + row.approvedByName.value;
      Some(caption)
  }

  /** The caption names the role exactly when the role is known. */
  lemma CaptionRole(row: ReportRequest, localDate: string -> string, role: Role)
    requires row.approvedByName.Some? && row.approvedByName.value != ""
    requires row.approvedByRole == Some(role)
    ensures var date := FormatDate(if row.updatedAt.Some? && row.updatedAt.value != "" then row.updatedAt
                                   else row.createdAt, localDate);
      ApproverCaption(row, localDate) == Some("By " + row.approvedByName.value + " (" + RoleName(role) + ") on " + date)
  {
    var name, suffix := "By " + row.approvedByName.value, " (" + RoleName(role) + ")";
    assert name + suffix + " on " == name + " (" + RoleName(role) + ") on ";
  }

  /** Without a role the caption is the name and the date. */
  lemma CaptionWithoutRole(row: ReportRequest, localDate: string -> string)
    requires row.approvedByName.Some? && row.approvedByName.value != ""
    requires row.approvedByRole.None?
    ensures var date := FormatDate(if row.updatedAt.Some? && row.updatedAt.value != "" then row.updatedAt
                                   else row.createdAt, localDate);
      ApproverCaption(row, localDate) == Some("By " + row.approvedByName.value + " on " + date)
  {
    var name := "By " + row.approvedByName.value;
    assert name + "" == name;
  }
}
