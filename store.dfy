/** The `job` table that both applications reach through the Prisma client.
    Only what the scraper and the read API use is modelled: a `findFirst`
    lookup by equality on the fields of a where-object, `create` (append),
    `deleteMany` (clear) and the rows themselves, in insertion order. */
module JobStore {

  datatype Option<+T> = None | Some(value: T)

  /** Timestamps are opaque values compared only for equality; `new Date(s)`
      is the identity on this representation. */
  type Date = string

  /** A stored row. `location` is `None` when `create` was handed an
      undefined location (a Google posting whose `locations` list is empty). */
  datatype Job = Job(
    company: string,
    title: string,
    location: Option<string>,
    description: string,
    postedOn: Date,
    url: string)

  /** A `findFirst` where-object. A `None` field places no constraint. */
  datatype Where = Where(
    company: string,
    title: string,
    location: Option<string>,
    postedOn: Option<Date>)

  /** The row agrees with every field the where-object names. */
  predicate Matches(row: Job, w: Where)
  {
    && row.company == w.company
    && row.title == w.title
    && (w.location.Some? ==> row.location == w.location)
    && (w.postedOn.Some? ==> row.postedOn == w.postedOn.value)
  }

  /** No row of the table is found by `w`. */
  predicate NoneMatch(rows: seq<Job>, w: Where)
  {
    forall i :: 0 <= i < |rows| ==> !Matches(rows[i], w)
  }

  /** The row `findFirst` returns, or null. The query gives no `orderBy`, so
      which matching row comes back is left to the database; the model
      fixes it as the earliest in table order. The scraper only asks
      whether the result is null. */
  function FirstMatch(rows: seq<Job>, w: Where): (r: Option<Job>)
    ensures r.None? <==> NoneMatch(rows, w)
    ensures r.Some? ==> r.value in rows && Matches(r.value, w)
    ensures r.Some? ==> exists i :: 0 <= i < |rows| && rows[i] == r.value &&
                                    forall k :: 0 <= k < i ==> !Matches(rows[k], w)
  {
    if |rows| == 0 then None
    else if Matches(rows[0], w) then Some(rows[0])
    else
      var r := FirstMatch(rows[1..], w);
      assert forall k :: 1 <= k < |rows| ==> rows[k] == rows[1..][k - 1];
      r
  }

  /** The job table, updated in place by `create` and `deleteMany`. */
  class Table {
    var rows: seq<Job>

    constructor ()
      ensures rows == []
    {
      rows := [];
    }

    /** `prisma.job.findFirst({ where: w })`, scanning in table order. */
    method FindFirst(w: Where) returns (found: Option<Job>)
      ensures found == FirstMatch(rows, w)
    {
      var i := 0;
      while i < |rows|
        invariant 0 <= i <= |rows|
        invariant FirstMatch(rows, w) == FirstMatch(rows[i..], w)
      {
        if Matches(rows[i], w) {
          return Some(rows[i]);
        }
        assert rows[i..][1..] == rows[i + 1..];
        i := i + 1;
      }
      return None;
    }

    /** `prisma.job.create({ data: row })`: appends the row and returns it. */
    method Create(row: Job) returns (created: Job)
      modifies this
      ensures rows == old(rows) + [row]
      ensures created == row
    {
      rows := rows + [row];
      created := row;
    }

    /** `prisma.job.deleteMany({})`: removes every row, reporting how many. */
    method DeleteMany() returns (count: nat)
      modifies this
      ensures rows == []
      ensures count == |old(rows)|
    {
      count := |rows|;
      rows := [];
    }
  }
}
