/** The read API's `GET /jobs` handler: optional exact-match filters on
    company, location and postedOn, and fixed pages of ten rows. It reads
    the job table and changes nothing. */
module HttpBackend {
  import opened JobStore

  const MaxPerPage: nat := 10

  /** The `page` query parameter as `Number(page)` sees it: absent (the
      handler then uses "1"), a whole number, or not a number. */
  datatype PageParam = Absent | Numeric(n: nat) | NotANumber

  /** The query of a `/jobs` request; a filter that is absent is "", the
      default the handler destructures it with. */
  datatype JobsQuery = JobsQuery(company: string, location: string, postedOn: string, page: PageParam)

  datatype Body = JobList(jobs: seq<Job>) | ErrorMessage(message: string)

  datatype Response = Response(status: nat, body: Body)

  /** `Number(page) || 1`: zero and NaN are falsy and give page 1. */
  function CurrentPage(page: PageParam): (p: nat)
    ensures p >= 1
    ensures page.Numeric? && page.n != 0 ==> p == page.n
    ensures page.Absent? || page.NotANumber? || page == Numeric(0) ==> p == 1
  {
    match page
    case Absent => 1
    case NotANumber => 1
    case Numeric(n) => if n == 0 then 1 else n
  }

  /** The row meets every filter whose query value is non-empty. */
  predicate Satisfies(row: Job, q: JobsQuery): (b: bool)
    ensures q.company == "" && q.location == "" && q.postedOn == "" ==> b
    ensures b && q.location != "" ==> row.location.Some?
  {
    && (q.company != "" ==> row.company == q.company)
    && (q.location != "" ==> row.location == Some(q.location))
    && (q.postedOn != "" ==> row.postedOn == q.postedOn)
  }

  /** The rows the where-object selects, in table order. */
  function Filtered(rows: seq<Job>, q: JobsQuery): (r: seq<Job>)
    ensures |r| <= |rows|
    ensures forall x :: x in r <==> x in rows && Satisfies(x, q)
  {
    if |rows| == 0 then []
    else (if Satisfies(rows[0], q) then [rows[0]] else []) + Filtered(rows[1..], q)
  }

  /** Filtering keeps every selected row as often as the table holds it and
      drops every other row. */
  lemma {:induction false} FilteredKeepsMultiplicity(rows: seq<Job>, q: JobsQuery)
    ensures forall x :: multiset(Filtered(rows, q))[x] == if Satisfies(x, q) then multiset(rows)[x] else 0
  {
    if |rows| > 0 {
      FilteredKeepsMultiplicity(rows[1..], q);
      var head := if Satisfies(rows[0], q) then [rows[0]] else [];
      assert rows == [rows[0]] + rows[1..];
      assert multiset(rows) == multiset([rows[0]]) + multiset(rows[1..]);
      assert multiset(Filtered(rows, q)) == multiset(head) + multiset(Filtered(rows[1..], q));
    }
  }

  /** The number of filtered rows the page skips: `MAX_PER_PAGE * (currentPage - 1)`. */
  function Offset(page: nat): (r: nat)
    requires page >= 1
    ensures r % MaxPerPage == 0 && r / MaxPerPage == page - 1
  {
    MaxPerPage * (page - 1)
  }

  /** `skip` then `take: 10` on the filtered rows. */
  function PageOf(filtered: seq<Job>, page: nat): (r: seq<Job>)
    requires page >= 1
    ensures |r| == if |filtered| <= Offset(page) then 0
                   else if |filtered| - Offset(page) < MaxPerPage then |filtered| - Offset(page)
                   else MaxPerPage
    ensures forall i :: 0 <= i < |r| ==> r[i] == filtered[Offset(page) + i]
  {
    var skip := Offset(page);
    if |filtered| <= skip then []
    else if |filtered| - skip < MaxPerPage then filtered[skip..]
    else filtered[skip..skip + MaxPerPage]
  }

  /** The `/jobs` handler. `queryFails` stands for `findMany` throwing. */
  function ListJobs(rows: seq<Job>, q: JobsQuery, queryFails: bool): (resp: Response)
    ensures queryFails ==> resp == Response(500, ErrorMessage("Internal Server Error"))
    ensures !queryFails ==> resp.status == 200 && resp.body.JobList?
    ensures !queryFails ==> resp.body.jobs == PageOf(Filtered(rows, q), CurrentPage(q.page))
    ensures resp.body.JobList? ==>
              && |resp.body.jobs| <= MaxPerPage
              && forall x :: x in resp.body.jobs ==> x in rows && Satisfies(x, q)
  {
    if queryFails then Response(500, ErrorMessage("Internal Server Error"))
    else
      var jobs := PageOf(Filtered(rows, q), CurrentPage(q.page));
      assert forall x :: x in jobs ==> x in Filtered(rows, q);
      Response(200, JobList(jobs))
  }

  /** With every filter empty, all rows are selected, in table order. */
  lemma {:induction false} EmptyFiltersSelectAll(rows: seq<Job>, page: PageParam)
    ensures Filtered(rows, JobsQuery("", "", "", page)) == rows
  {
    if |rows| > 0 {
      EmptyFiltersSelectAll(rows[1..], page);
      assert rows == [rows[0]] + rows[1..];
    }
  }

  /** Pages `p` and `p + 1` are adjacent, non-overlapping slices of the
      filtered rows. */
  lemma ConsecutivePagesAdjacent(filtered: seq<Job>, p: nat)
    requires p >= 1
    ensures var lo := if Offset(p) < |filtered| then Offset(p) else |filtered|;
            var hi := if Offset(p) + 2 * MaxPerPage < |filtered| then Offset(p) + 2 * MaxPerPage else |filtered|;
            PageOf(filtered, p) + PageOf(filtered, p + 1) == filtered[lo..hi]
  {
  }

  /** The first `n` pages, one after the other. */
  function FirstPages(filtered: seq<Job>, n: nat): seq<Job>
  {
    if n == 0 then [] else FirstPages(filtered, n - 1) + PageOf(filtered, n)
  }

  /** Reading pages 1 to `n` in turn yields the filtered rows from the
      start, without gaps or repetitions. */
  lemma {:induction false} FirstPagesArePrefix(filtered: seq<Job>, n: nat)
    ensures FirstPages(filtered, n) ==
            filtered[..if MaxPerPage * n < |filtered| then MaxPerPage * n else |filtered|]
  {
    if n > 0 {
      FirstPagesArePrefix(filtered, n - 1);
    }
  }

  /** Each filtered row appears on exactly one page, at its offset within it. */
  lemma RowOnItsPage(filtered: seq<Job>, k: nat)
    requires k < |filtered|
    ensures var p := k / MaxPerPage + 1;
            k % MaxPerPage < |PageOf(filtered, p)| && PageOf(filtered, p)[k % MaxPerPage] == filtered[k]
    ensures forall p :: p >= 1 && Offset(p) <= k < Offset(p) + MaxPerPage ==> p == k / MaxPerPage + 1
  {
  }
}
