/** The instructor's list of report requests (InstructorReportRequestsPage.tsx): the rows are
    kept newest-first, a decision merges the server's answer into the one row it concerns, and
    the summary cards count the rows by status. */
module InstructorRequests {
  import opened Js
  import opened ReportTypes
  import opened RequestOrder
  import ReportApi

  /** `a ?? b` on an optional field. */
  function Either<T>(a: Option<T>, b: Option<T>): (r: Option<T>)
    ensures a.Some? ==> r == a
    ensures a.None? ==> r == b
  {
    a.OrElse(b)
  }

  /** The row after a decision: the server's record laid over the old row. A server answer
      still PENDING is read as the decision that was asked for. */
  function MergeRow(item: ReportRequest, updated: ReportRequest, requested: Decision, now: string): (r: ReportRequest)
    ensures r.id == item.id && r.studentId == item.studentId && r.studentName == item.studentName
    ensures r.courseId == item.courseId && r.courseName == item.courseName
    ensures r.status != Pending
    ensures updated.status != Pending ==> r.status == updated.status
    ensures updated.status == Pending ==> r.status == requested
    ensures r.approvedBy == Either(updated.approvedBy, item.approvedBy)
    ensures r.approvedByName == Either(updated.approvedByName, item.approvedByName)
    ensures r.approvedByRole == Either(updated.approvedByRole, item.approvedByRole)
    ensures r.updatedAt == Some(OrText(updated.updatedAt, now))
    ensures updated.createdAt.Some? && updated.createdAt.value != "" ==> r.createdAt == updated.createdAt
    ensures (updated.createdAt.None? || updated.createdAt.value == "") ==> r.createdAt == item.createdAt
  {
    item.(status := if updated.status == Pending then requested else updated.status,
          approvedBy := Either(updated.approvedBy, item.approvedBy),
          approvedByName := Either(updated.approvedByName, item.approvedByName),
          approvedByRole := Either(updated.approvedByRole, item.approvedByRole),
          updatedAt := Some(OrText(updated.updatedAt, now)),
          createdAt := if updated.createdAt.Some? && updated.createdAt.value != "" then updated.createdAt
                       else item.createdAt)
  }

  /** `previous.map(item => item.id !== requestId ? item : merged)`. */
  function UpdateRows(rows: seq<ReportRequest>, requestId: string, updated: ReportRequest, requested: Decision,
                      now: string): (r: seq<ReportRequest>)
    ensures |r| == |rows|
    ensures forall i :: 0 <= i < |rows| && rows[i].id != requestId ==> r[i] == rows[i]
    ensures forall i :: 0 <= i < |rows| && rows[i].id == requestId ==> r[i] == MergeRow(rows[i], updated, requested, now)
    ensures forall i :: 0 <= i < |rows| ==> r[i].id == rows[i].id
  {
    if rows == [] then []
    else
      var head := if rows[0].id != requestId then rows[0] else MergeRow(rows[0], updated, requested, now);
      [head] + UpdateRows(rows[1..], requestId, updated, requested, now)
  }

  /** The rows after a successful decision: updated, then sorted newest-first again. */
  function AfterDecision(rows: seq<ReportRequest>, requestId: string, updated: ReportRequest, requested: Decision,
                         now: string, parse: string -> int): seq<ReportRequest>
  {
    SortByDate(UpdateRows(rows, requestId, updated, requested, now), parse)
  }

  /** The rows of other requests come through a decision untouched, as many times as before. */
  lemma {:induction false} UpdateKeepsOthers(rows: seq<ReportRequest>, requestId: string, updated: ReportRequest,
                                             requested: Decision, now: string, x: ReportRequest)
    requires x.id != requestId
    ensures multiset(UpdateRows(rows, requestId, updated, requested, now))[x] == multiset(rows)[x]
  {
    if rows != [] {
      var tail := rows[1..];
      var mappedTail := UpdateRows(tail, requestId, updated, requested, now);
      UpdateKeepsOthers(tail, requestId, updated, requested, now, x);
      var head := if rows[0].id != requestId then rows[0] else MergeRow(rows[0], updated, requested, now);
      assert UpdateRows(rows, requestId, updated, requested, now) == [head] + mappedTail;
      assert rows == [rows[0]] + tail;
      assert head == x <==> rows[0] == x;
      CountCons(head, mappedTail, x);
      CountCons(rows[0], tail, x);
    }
  }

  lemma CountCons(h: ReportRequest, t: seq<ReportRequest>, x: ReportRequest)
    ensures multiset([h] + t)[x] == (if h == x then 1 else 0) + multiset(t)[x]
  {
    assert multiset([h] + t) == multiset{h} + multiset(t);
  }

  /** After a decision the list holds as many rows as before, newest-first; every other
      request's rows are still there unchanged, and the decided request is no longer pending. */
  lemma DecisionUpdate(rows: seq<ReportRequest>, requestId: string, updated: ReportRequest, requested: Decision,
                       now: string, parse: string -> int)
    ensures var after := AfterDecision(rows, requestId, updated, requested, now, parse);
      && |after| == |rows|
      && NewestFirst(after, parse)
      && (forall x: ReportRequest :: x.id != requestId ==> multiset(after)[x] == multiset(rows)[x])
      && (forall r :: r in after && r.id == requestId ==> r.status != Pending)
      && (forall r :: r in after ==> r in rows || r.id == requestId)
  {
    var mapped := UpdateRows(rows, requestId, updated, requested, now);
    var after := SortByDate(mapped, parse);
    SortByDateNewestFirst(mapped, parse);
    forall x: ReportRequest | x.id != requestId
      ensures multiset(after)[x] == multiset(rows)[x]
    {
      UpdateKeepsOthers(rows, requestId, updated, requested, now, x);
    }
    forall r | r in after
      ensures r in mapped
      ensures r.id == requestId ==> r.status != Pending
      ensures r in rows || r.id == requestId
    {
      assert r in multiset(after);
      assert r in multiset(mapped);
      var i :| 0 <= i < |mapped| && mapped[i] == r;
    }
  }

  /** The three summary cards. */
  datatype Summary = Summary(pending: nat, approved: nat, rejected: nat)

  /** `rows.filter(row => row.status === status).length`. */
  function Count(rows: seq<ReportRequest>, status: Status): (n: nat)
    ensures n <= |rows|
  {
    if rows == [] then 0
    else (if rows[0].status == status then 1 else 0) + Count(rows[1..], status)
  }

  function StatusSummary(rows: seq<ReportRequest>): Summary
  {
    Summary(Count(rows, Pending), Count(rows, Approved), Count(rows, Rejected))
  }

  /** Every row is pending, approved or rejected, so the cards add up to the row count. */
  lemma {:induction false} SummaryTotal(rows: seq<ReportRequest>)
    ensures var s := StatusSummary(rows); s.pending + s.approved + s.rejected == |rows|
  {
    if rows != [] {
      SummaryTotal(rows[1..]);
    }
  }

  lemma {:induction false} CountConcat(a: seq<ReportRequest>, b: seq<ReportRequest>, status: Status)
    ensures Count(a + b, status) == Count(a, status) + Count(b, status)
  {
    if a == [] {
      assert a + b == b;
    } else {
      assert (a + b)[1..] == a[1..] + b;
      CountConcat(a[1..], b, status);
    }
  }

  lemma {:induction false} CountInsert(x: ReportRequest, rs: seq<ReportRequest>, parse: string -> int, status: Status)
    ensures Count(Insert(x, rs, parse), status) == Count([x], status) + Count(rs, status)
  {
    if rs == [] || Time(x, parse) >= Time(rs[0], parse) {
      CountConcat([x], rs, status);
    } else {
      CountInsert(x, rs[1..], parse, status);
      CountConcat([rs[0]], Insert(x, rs[1..], parse), status);
      CountConcat([x], rs[1..], status);
    }
  }

  /** Sorting does not change the counts. */
  lemma {:induction false} CountSort(rs: seq<ReportRequest>, parse: string -> int, status: Status)
    ensures Count(SortByDate(rs, parse), status) == Count(rs, status)
  {
    if rs != [] {
      CountSort(rs[1..], parse, status);
      CountInsert(rs[0], SortByDate(rs[1..], parse), parse, status);
    }
  }

  lemma {:induction false} CountUpdatePending(rows: seq<ReportRequest>, requestId: string, updated: ReportRequest,
                                              requested: Decision, now: string)
    ensures Count(UpdateRows(rows, requestId, updated, requested, now), Pending)
         == Count(rows, Pending) - Count(Matching(rows, requestId), Pending)
    ensures Count(Matching(rows, requestId), Pending) <= Count(rows, Pending)
  {
    if rows != [] {
      var tail := rows[1..];
      CountUpdatePending(tail, requestId, updated, requested, now);
      var mapped := UpdateRows(rows, requestId, updated, requested, now);
      assert mapped[1..] == UpdateRows(tail, requestId, updated, requested, now);
      var head := if rows[0].id == requestId then [rows[0]] else [];
      CountConcat(head, Matching(tail, requestId), Pending);
    }
  }

  /** The rows of one request. */
  function Matching(rows: seq<ReportRequest>, requestId: string): (r: seq<ReportRequest>)
    ensures |r| <= |rows|
    ensures forall x :: x in r ==> x in rows && x.id == requestId
  {
    if rows == [] then []
    else (if rows[0].id == requestId then [rows[0]] else []) + Matching(rows[1..], requestId)
  }

  /** A decision takes exactly the decided request's pending rows off the pending card. */
  lemma DecisionPendingCount(rows: seq<ReportRequest>, requestId: string, updated: ReportRequest, requested: Decision,
                             now: string, parse: string -> int)
    ensures StatusSummary(AfterDecision(rows, requestId, updated, requested, now, parse)).pending
         == StatusSummary(rows).pending - Count(Matching(rows, requestId), Pending)
  {
    CountUpdatePending(rows, requestId, updated, requested, now);
    CountSort(UpdateRows(rows, requestId, updated, requested, now), parse, Pending);
  }

  /** The page state the decision and the loads change. The rows are shown newest-first by the
      times `parse` reads. */
  class RequestsPage {
    var rows: seq<ReportRequest>
    var loading: bool
    var error: string
    var actionId: string
    var filter: ReportApi.FilterStatus
    var lastSynced: string
    const parse: string -> int

    predicate Valid()
      reads this
    {
      NewestFirst(rows, parse)
    }

    constructor (parse: string -> int)
      ensures Valid()
      ensures rows == [] && loading && error == "" && actionId == "" && filter == ReportApi.All && lastSynced == ""
      ensures this.parse == parse
    {
      rows := [];
      loading := true;
      error := "";
      actionId := "";
      filter := ReportApi.All;
      lastSynced := "";
      this.parse := parse;
    }

    /** The filter select; the next load lists requests with this status. */
    method SetFilter(f: ReportApi.FilterStatus)
      requires Valid()
      modifies this
      ensures Valid()
      ensures filter == f
      ensures rows == old(rows) && loading == old(loading) && error == old(error)
      ensures actionId == old(actionId) && lastSynced == old(lastSynced)
    {
      filter := f;
    }

    /** The end of a load: the listed requests, newest-first, or the failure's message. */
    method FinishLoad(outcome: Outcome<seq<ReportRequest>>, syncedAt: string)
      requires Valid()
      modifies this
      ensures Valid()
      ensures !loading
      ensures outcome.Returned? ==> rows == SortByDate(outcome.value, parse) && error == "" && lastSynced == syncedAt
      ensures outcome.Threw? ==>
        rows == old(rows) && error == ErrorText(outcome.thrown, "Failed to load report requests.")
        && lastSynced == old(lastSynced)
      ensures actionId == old(actionId) && filter == old(filter)
    {
      if outcome.Returned? {
        SortByDateNewestFirst(outcome.value, parse);
        rows := SortByDate(outcome.value, parse);
        error := "";
        lastSynced := syncedAt;
      } else {
        error := ErrorText(outcome.thrown, "Failed to load report requests.");
      }
      loading := false;
    }

    /** applyDecision up to its await: the row is marked as working and the error cleared. */
    method BeginDecision(requestId: string)
      requires Valid()
      modifies this
      ensures Valid()
      ensures actionId == requestId && error == ""
      ensures rows == old(rows) && loading == old(loading) && filter == old(filter) && lastSynced == old(lastSynced)
    {
      actionId := requestId;
      error := "";
    }

    /** applyDecision after its await: on success the decided row is merged and the list
        re-sorted, otherwise the failure's message is shown; either way the row stops working. */
    method FinishDecision(requestId: string, requested: Decision, outcome: Outcome<ReportRequest>, nowIso: string,
                          syncedAt: string)
      requires Valid()
      modifies this
      ensures Valid()
      ensures actionId == ""
      ensures outcome.Returned? ==>
        rows == AfterDecision(old(rows), requestId, outcome.value, requested, nowIso, parse)
        && lastSynced == syncedAt && error == old(error)
      ensures outcome.Threw? ==>
        rows == old(rows) && error == ErrorText(outcome.thrown, "Failed to update request status.")
        && lastSynced == old(lastSynced)
      ensures loading == old(loading) && filter == old(filter)
    {
      if outcome.Returned? {
        SortByDateNewestFirst(UpdateRows(rows, requestId, outcome.value, requested, nowIso), parse);
        rows := AfterDecision(rows, requestId, outcome.value, requested, nowIso, parse);
        lastSynced := syncedAt;
      } else {
        error := ErrorText(outcome.thrown, "Failed to update request status.");
      }
      actionId := "";
    }

    /** The summary cards of the current rows. */
    function Summary(): (s: Summary)
      reads this
      ensures s.pending + s.approved + s.rejected == |rows|
    {
      SummaryTotal(rows);
      StatusSummary(rows)
    }
  }
}
