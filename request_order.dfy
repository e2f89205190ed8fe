/** Newest-first ordering of report requests, shared by getMostRecentRequest
    (src/shared/services/report.api.ts) and sortByDate
    (src/features/instructor/pages/InstructorReportRequestsPage.tsx): both sort a copy with the
    comparator `time(b) - time(a)` on `new Date(updatedAt || createdAt || 0)`. Date parsing is
    the parameter `parse`; the sort is stable, as Array.prototype.sort is. */
module RequestOrder {
  import opened Js
  import opened ReportTypes

  /** The timestamp text a request is ordered by: updatedAt, else createdAt, when non-empty. */
  function DateText(r: ReportRequest): (t: Option<string>)
    ensures r.updatedAt.Some? && r.updatedAt.value != "" ==> t == r.updatedAt
    ensures (r.updatedAt.None? || r.updatedAt.value == "") ==>
      t == (if r.createdAt.Some? && r.createdAt.value != "" then r.createdAt else None)
  {
    if r.updatedAt.Some? && r.updatedAt.value != "" then r.updatedAt
    else if r.createdAt.Some? && r.createdAt.value != "" then r.createdAt
    else None
  }

  /** `new Date(updatedAt || createdAt || 0).getTime()`: the epoch, 0, when neither is set. */
  function Time(r: ReportRequest, parse: string -> int): int
  {
    var text := DateText(r);
    if text.Some? then parse(text.value) else 0
  }

  predicate NewestFirst(rs: seq<ReportRequest>, parse: string -> int)
  {
    forall i :: 0 <= i < |rs| - 1 ==> Time(rs[i], parse) >= Time(rs[i + 1], parse)
  }

  /** Inserts a request before the first one that is not newer than it. */
  function Insert(x: ReportRequest, rs: seq<ReportRequest>, parse: string -> int): (r: seq<ReportRequest>)
    ensures multiset(r) == multiset(rs) + multiset{x}
    ensures |r| == |rs| + 1
  {
    if rs == [] || Time(x, parse) >= Time(rs[0], parse) then [x] + rs
    else
      assert rs == [rs[0]] + rs[1..];
      [rs[0]] + Insert(x, rs[1..], parse)
  }

  /** `[...requests].sort((a, b) => time(b) - time(a))`, as a stable insertion sort. */
  function SortByDate(rs: seq<ReportRequest>, parse: string -> int): (r: seq<ReportRequest>)
    ensures multiset(r) == multiset(rs)
    ensures |r| == |rs|
  {
    if rs == [] then []
    else
      assert rs == [rs[0]] + rs[1..];
      Insert(rs[0], SortByDate(rs[1..], parse), parse)
  }

  lemma {:induction false} InsertNewestFirst(x: ReportRequest, rs: seq<ReportRequest>, parse: string -> int)
    requires NewestFirst(rs, parse)
    ensures NewestFirst(Insert(x, rs, parse), parse)
    ensures Insert(x, rs, parse)[0] == if rs == [] || Time(x, parse) >= Time(rs[0], parse) then x else rs[0]
  {
    if rs != [] && Time(x, parse) < Time(rs[0], parse) {
      InsertNewestFirst(x, rs[1..], parse);
    }
  }

  /** sortByDate returns its input reordered newest-first. */
  lemma {:induction false} SortByDateNewestFirst(rs: seq<ReportRequest>, parse: string -> int)
    ensures NewestFirst(SortByDate(rs, parse), parse)
  {
    if rs != [] {
      SortByDateNewestFirst(rs[1..], parse);
      InsertNewestFirst(rs[0], SortByDate(rs[1..], parse), parse);
    }
  }

  /** The position of the first request with the latest time. */
  function FirstNewest(rs: seq<ReportRequest>, parse: string -> int): (k: nat)
    requires rs != []
    ensures k < |rs|
    ensures forall i :: 0 <= i < |rs| ==> Time(rs[i], parse) <= Time(rs[k], parse)
    ensures forall i :: 0 <= i < k ==> Time(rs[i], parse) < Time(rs[k], parse)
  {
    if |rs| == 1 then 0
    else
      var k := FirstNewest(rs[1..], parse);
      assert forall i :: 1 <= i < |rs| ==> rs[1..][i - 1] == rs[i];
      if Time(rs[0], parse) >= Time(rs[1..][k], parse) then 0 else k + 1
  }

  /** The head of the sorted copy is the first of the newest requests: the sort is stable. */
  lemma {:induction false} SortByDateHead(rs: seq<ReportRequest>, parse: string -> int)
    requires rs != []
    ensures SortByDate(rs, parse)[0] == rs[FirstNewest(rs, parse)]
  {
    if |rs| > 1 {
      SortByDateHead(rs[1..], parse);
      SortByDateNewestFirst(rs[1..], parse);
      InsertNewestFirst(rs[0], SortByDate(rs[1..], parse), parse);
    }
  }

  /** getMostRecentRequest: nothing for no requests, else the head of the sorted copy. */
  function MostRecent(items: seq<ReportRequest>, parse: string -> int): (r: Option<ReportRequest>)
    ensures items == [] <==> r.None?
    ensures r.Some? ==> r.value in items
    ensures items != [] ==> r == Some(items[FirstNewest(items, parse)])
    ensures r.Some? ==> forall i :: 0 <= i < |items| ==> Time(items[i], parse) <= Time(r.value, parse)
  {
    if items == [] then None
    else
      SortByDateHead(items, parse);
      Some(SortByDate(items, parse)[0])
  }
}
