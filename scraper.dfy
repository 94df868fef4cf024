/** The ingestion side: each employer's postings are normalised into job
    rows and inserted when a lookup on that employer's key finds nothing.
    Nothing is ever updated. One cycle wipes the table and runs Microsoft,
    Google and Amazon in that order. */
module Scraper {
  import opened JobStore
  import opened ScraperTypes

  const NoDescription: string := "No description available"
  const UnknownLocation: string := "Unknown"
  const MicrosoftUrlPrefix: string := "https://careers.microsoft.com/us/en/job/"
  const AmazonUrlPrefix: string := "https://www.amazon.jobs"

  /** JavaScript's `s || fallback` on strings: the empty string is the only
      falsy string. */
  function OrElse(s: string, fallback: string): string
  {
    if s != "" then s else fallback
  }

  // ---------------------------------------------------------------------
  // Normalisation: the where-object each source looks up, and the row it
  // hands to `create`.
  // ---------------------------------------------------------------------

  datatype Source = Microsoft | Google | Amazon

  function CompanyName(s: Source): string
  {
    match s
    case Microsoft => "Microsoft"
    case Google => "Google"
    case Amazon => "Amazon"
  }

  /** The shape of the where-objects a source passes to `findFirst`:
      Microsoft looks up (title, postedOn), Google (title, location) and
      Amazon (title, non-empty location, postedOn). */
  predicate IsKey(s: Source, w: Where)
  {
    && w.company == CompanyName(s)
    && match s
       case Microsoft => w.location.None? && w.postedOn.Some?
       case Google => w.location.Some? && w.postedOn.None?
       case Amazon => w.location.Some? && w.location.value != "" && w.postedOn.Some?
  }

  /** One job of a batch: the where-object looked up, and the row that
      `create` receives (`None` when building that row throws). */
  datatype Attempt = Attempt(key: Where, row: Option<Job>)

  /** Microsoft looks a posting up by title and posting date. */
  function MicrosoftKey(job: MicrosoftJob): (w: Where)
    ensures IsKey(Microsoft, w)
    ensures forall other :: Matches(MicrosoftRow(other), w) <==>
              other.title == job.title && other.postingDate == job.postingDate
  {
    Where("Microsoft", job.title, None, Some(job.postingDate))
  }

  /** The row keeps the posting's title, primary location, description and
      date, and its URL is the careers prefix followed by the job id. */
  function MicrosoftRow(job: MicrosoftJob): (r: Job)
    ensures r.company == CompanyName(Microsoft) && r.title == job.title && r.postedOn == job.postingDate
    ensures r.location == Some(job.properties.primaryLocation) && r.description == job.properties.description
    ensures |r.url| >= |MicrosoftUrlPrefix| && r.url[..|MicrosoftUrlPrefix|] == MicrosoftUrlPrefix
    ensures r.url[|MicrosoftUrlPrefix|..] == job.jobId
  {
    Job("Microsoft", job.title, Some(job.properties.primaryLocation),
        job.properties.description, job.postingDate, MicrosoftUrlPrefix + job.jobId)
  }

  function MicrosoftAttempt(job: MicrosoftJob): Attempt
  {
    Attempt(MicrosoftKey(job), Some(MicrosoftRow(job)))
  }

  /** The lookup location: the first location's display text, or "Unknown"
      when the list is missing or empty. */
  function GoogleLookupLocation(job: GoogleJob): (l: string)
    ensures job.locations.Some? && |job.locations.value| > 0 ==> l == job.locations.value[0].display
    ensures job.locations.None? || |job.locations.value| == 0 ==> l == UnknownLocation
  {
    match job.locations
    case Some(ls) => if |ls| > 0 then ls[0].display else UnknownLocation
    case None => UnknownLocation
  }

  /** Google looks a posting up by title and lookup location, whatever its
      date. */
  function GoogleKey(job: GoogleJob): (w: Where)
    ensures IsKey(Google, w)
    ensures w.title == job.title && w.location == Some(GoogleLookupLocation(job))
  {
    Where("Google", job.title, Some(GoogleLookupLocation(job)), None)
  }

  /** The stored location is `locations[0].display` with no fallback: an
      empty list stores no location, and a missing list makes the row's
      construction throw, so nothing is created. */
  function GoogleRow(job: GoogleJob): (r: Option<Job>)
    ensures r.Some? <==> job.locations.Some?
    ensures r.Some? ==> && r.value.company == CompanyName(Google) && r.value.title == job.title
                        && r.value.postedOn == job.publish_date && r.value.url == job.apply_url
    ensures r.Some? ==> r.value.description != "" &&
                        (job.description.intro != "" ==> r.value.description == job.description.intro)
    ensures r.Some? ==> (r.value.location.Some? <==> |job.locations.value| > 0)
    ensures r.Some? && |job.locations.value| > 0 ==> r.value.location == Some(job.locations.value[0].display)
    ensures r.Some? && job.description.intro == "" ==> r.value.description == NoDescription
  {
    match job.locations
    case None => None
    case Some(ls) =>
      Some(Job("Google", job.title, if |ls| > 0 then Some(ls[0].display) else None,
               OrElse(job.description.intro, NoDescription), job.publish_date, job.apply_url))
  }

  function GoogleAttempt(job: GoogleJob): Attempt
  {
    Attempt(GoogleKey(job), GoogleRow(job))
  }

  /** Amazon looks a posting up by title, a never-empty location and date. */
  function AmazonKey(job: AmazonJob): (w: Where)
    ensures IsKey(Amazon, w)
    ensures w.title == job.title && w.postedOn == Some(job.posted_date)
    ensures job.location != "" ==> w.location == Some(job.location)
    ensures job.location == "" ==> w.location == Some(UnknownLocation)
  {
    Where("Amazon", job.title, Some(OrElse(job.location, UnknownLocation)), Some(job.posted_date))
  }

  /** The stored location is the raw `location`, without the "Unknown"
      fallback used in the lookup. */
  function AmazonRow(job: AmazonJob): (r: Job)
    ensures r.company == CompanyName(Amazon) && r.title == job.title && r.postedOn == job.posted_date
    ensures r.location == Some(job.location)
    ensures r.description != "" && (job.description != "" ==> r.description == job.description)
    ensures job.description == "" ==> r.description == NoDescription
    ensures |r.url| >= |AmazonUrlPrefix| && r.url[..|AmazonUrlPrefix|] == AmazonUrlPrefix
    ensures r.url[|AmazonUrlPrefix|..] == job.job_path
  {
    Job("Amazon", job.title, Some(job.location), OrElse(job.description, NoDescription),
        job.posted_date, AmazonUrlPrefix + job.job_path)
  }

  function AmazonAttempt(job: AmazonJob): Attempt
  {
    Attempt(AmazonKey(job), Some(AmazonRow(job)))
  }

  function MicrosoftAttempts(jobs: seq<MicrosoftJob>): (r: seq<Attempt>)
    ensures |r| == |jobs| && forall k :: 0 <= k < |jobs| ==> r[k] == MicrosoftAttempt(jobs[k])
  {
    seq(|jobs|, k requires 0 <= k < |jobs| => MicrosoftAttempt(jobs[k]))
  }

  function GoogleAttempts(jobs: seq<GoogleJob>): (r: seq<Attempt>)
    ensures |r| == |jobs| && forall k :: 0 <= k < |jobs| ==> r[k] == GoogleAttempt(jobs[k])
  {
    seq(|jobs|, k requires 0 <= k < |jobs| => GoogleAttempt(jobs[k]))
  }

  function AmazonAttempts(jobs: seq<AmazonJob>): (r: seq<Attempt>)
    ensures |r| == |jobs| && forall k :: 0 <= k < |jobs| ==> r[k] == AmazonAttempt(jobs[k])
  {
    seq(|jobs|, k requires 0 <= k < |jobs| => AmazonAttempt(jobs[k]))
  }

  // ---------------------------------------------------------------------
  // Insert-if-absent over a batch.
  // ---------------------------------------------------------------------

  /** The non-null results, in order: `results.filter(r => r !== null)`. */
  function Created(results: seq<Option<Job>>): (r: seq<Job>)
    ensures |r| <= |results|
  {
    if |results| == 0 then []
    else
      Created(results[..|results| - 1]) +
      match results[|results| - 1]
      case Some(r) => [r]
      case None => []
  }

  /** The created rows are exactly the non-null results. */
  lemma {:induction false} CreatedAreNonNull(results: seq<Option<Job>>)
    ensures forall x :: x in Created(results) <==> Some(x) in results
  {
    if |results| > 0 {
      var n := |results| - 1;
      CreatedAreNonNull(results[..n]);
      assert results == results[..n] + [results[n]];
    }
  }

  /** `filter` keeps every non-null result as often as it occurs. */
  lemma {:induction false} CreatedKeepsMultiplicity(results: seq<Option<Job>>)
    ensures forall x :: multiset(Created(results))[x] == multiset(results)[Some(x)]
  {
    if |results| > 0 {
      var n := |results| - 1;
      var front := results[..n];
      CreatedKeepsMultiplicity(front);
      assert results == front + [results[n]];
      assert multiset(results) == multiset(front) + multiset{results[n]};
      if results[n].Some? {
        assert Created(results) == Created(front) + [results[n].value];
        assert multiset(Created(results)) == multiset(Created(front)) + multiset{results[n].value};
      } else {
        assert Created(results) == Created(front);
      }
    }
  }

  /** The logged "added" count is the number of results that are not null. */
  lemma {:induction false} CreatedCountsNonNull(results: seq<Option<Job>>)
    ensures |Created(results)| == |results| - multiset(results)[None]
  {
    if |results| > 0 {
      var n := |results| - 1;
      var front := results[..n];
      CreatedCountsNonNull(front);
      assert results == front + [results[n]];
      assert multiset(results) == multiset(front) + multiset{results[n]};
    }
  }

  datatype Step = Step(rows: seq<Job>, created: Option<Job>)

  /** One job: look the key up and create the row when nothing is found.
      `failed` stands for either store call throwing; the error is caught
      and the job's result is null. */
  function InsertIfAbsent(rows: seq<Job>, a: Attempt, failed: bool): (s: Step)
    ensures s.created.Some? <==> !failed && a.row.Some? && NoneMatch(rows, a.key)
    ensures s.created.Some? ==> s.created == a.row && s.rows == rows + [a.row.value]
    ensures s.created.None? ==> s.rows == rows
  {
    if failed then Step(rows, None)
    else
      match FirstMatch(rows, a.key)
      case Some(_) => Step(rows, None)
      case None =>
        match a.row
        case None => Step(rows, None)
        case Some(r) => Step(rows + [r], Some(r))
  }

  datatype Batch = Batch(rows: seq<Job>, results: seq<Option<Job>>)

  /** A batch processed job after job; `failed` holds the positions whose
      store calls throw. */
  function IngestBatch(rows: seq<Job>, attempts: seq<Attempt>, failed: set<nat>): (b: Batch)
    ensures |b.results| == |attempts|
    ensures b.rows == rows + Created(b.results)
    decreases |attempts|
  {
    if |attempts| == 0 then Batch(rows, [])
    else
      var n := |attempts| - 1;
      var prev := IngestBatch(rows, attempts[..n], failed);
      var s := InsertIfAbsent(prev.rows, attempts[n], n in failed);
      var results := prev.results + [s.created];
      assert results[..n] == prev.results;
      Batch(s.rows, results)
  }

  lemma {:induction false} BatchPrefix(rows: seq<Job>, attempts: seq<Attempt>, failed: set<nat>, n: nat)
    requires n <= |attempts|
    ensures IngestBatch(rows, attempts[..n], failed).results == IngestBatch(rows, attempts, failed).results[..n]
    decreases |attempts|
  {
    if n < |attempts| {
      var m := |attempts| - 1;
      assert attempts[..m][..n] == attempts[..n];
      BatchPrefix(rows, attempts[..m], failed, n);
    } else {
      assert attempts[..n] == attempts;
    }
  }

  /** Job `k` is processed against the table the jobs before it left, and a
      failure of its store calls makes its result null and nothing else. */
  lemma {:induction false} BatchStepAt(rows: seq<Job>, attempts: seq<Attempt>, failed: set<nat>, k: nat)
    requires k < |attempts|
    ensures var before := IngestBatch(rows, attempts[..k], failed);
            IngestBatch(rows, attempts, failed).results[k] ==
              InsertIfAbsent(before.rows, attempts[k], k in failed).created
    ensures k in failed ==> IngestBatch(rows, attempts, failed).results[k] == None
  {
    BatchPrefix(rows, attempts, failed, k + 1);
    assert attempts[..k + 1][..k] == attempts[..k];
  }

  /** Every created row is the row of some job of the batch. */
  lemma {:induction false} CreatedFromAttempts(rows: seq<Job>, attempts: seq<Attempt>, failed: set<nat>)
    ensures forall r :: r in Created(IngestBatch(rows, attempts, failed).results) ==>
              exists k :: 0 <= k < |attempts| && attempts[k].row == Some(r)
    decreases |attempts|
  {
    if |attempts| > 0 {
      var n := |attempts| - 1;
      CreatedFromAttempts(rows, attempts[..n], failed);
      var b := IngestBatch(rows, attempts, failed);
      var prev := IngestBatch(rows, attempts[..n], failed);
      assert b.results[..n] == prev.results;
      forall r | r in Created(b.results)
        ensures exists k :: 0 <= k < |attempts| && attempts[k].row == Some(r)
      {
        if r in Created(prev.results) {
          var k :| 0 <= k < n && attempts[..n][k].row == Some(r);
          assert attempts[k].row == Some(r);
        } else {
          assert attempts[n].row == Some(r);
        }
      }
    }
  }

  // ---------------------------------------------------------------------
  // Uniqueness per source key.
  // ---------------------------------------------------------------------

  /** At most one row of the table answers the lookup `w`. */
  ghost predicate AtMostOne(rows: seq<Job>, w: Where)
  {
    forall i, j :: 0 <= i < j < |rows| && Matches(rows[i], w) ==> !Matches(rows[j], w)
  }

  /** Every lookup key of source `s` is answered by at most one row. */
  ghost predicate KeysUnique(rows: seq<Job>, s: Source)
  {
    forall w :: IsKey(s, w) ==> AtMostOne(rows, w)
  }

  /** The row an attempt creates is found by no key of any source except
      its own lookup key. */
  ghost predicate Keyed(a: Attempt)
  {
    a.row.Some? ==> forall s, w :: IsKey(s, w) && Matches(a.row.value, w) ==> w == a.key
  }

  lemma InsertKeepsKeysUnique(rows: seq<Job>, a: Attempt, failed: bool, s: Source)
    requires Keyed(a) && KeysUnique(rows, s)
    ensures KeysUnique(InsertIfAbsent(rows, a, failed).rows, s)
  {
    var st := InsertIfAbsent(rows, a, failed);
    if st.created.Some? {
      var r := a.row.value;
      forall w | IsKey(s, w) ensures AtMostOne(st.rows, w) {
        assert AtMostOne(rows, w);
        if Matches(r, w) {
          assert w == a.key;
          assert NoneMatch(rows, w);
        }
        assert forall i :: 0 <= i < |rows| ==> st.rows[i] == rows[i];
      }
    }
  }

  lemma {:induction false} BatchKeepsKeysUnique(rows: seq<Job>, attempts: seq<Attempt>, failed: set<nat>, s: Source)
    requires forall k :: 0 <= k < |attempts| ==> Keyed(attempts[k])
    requires KeysUnique(rows, s)
    ensures KeysUnique(IngestBatch(rows, attempts, failed).rows, s)
    decreases |attempts|
  {
    if |attempts| > 0 {
      var n := |attempts| - 1;
      BatchKeepsKeysUnique(rows, attempts[..n], failed, s);
      var prev := IngestBatch(rows, attempts[..n], failed);
      InsertKeepsKeysUnique(prev.rows, attempts[n], n in failed, s);
    }
  }

  lemma MicrosoftAttemptKeyed(job: MicrosoftJob)
    ensures Keyed(MicrosoftAttempt(job))
  {
    var r := MicrosoftRow(job);
    forall s, w | IsKey(s, w) && Matches(r, w) ensures w == MicrosoftKey(job) {
      assert s == Microsoft;
    }
  }

  lemma GoogleAttemptKeyed(job: GoogleJob)
    ensures Keyed(GoogleAttempt(job))
  {
    if GoogleRow(job).Some? {
      var r := GoogleRow(job).value;
      forall s, w | IsKey(s, w) && Matches(r, w) ensures w == GoogleKey(job) {
        assert s == Google;
      }
    }
  }

  lemma AmazonAttemptKeyed(job: AmazonJob)
    ensures Keyed(AmazonAttempt(job))
  {
    var r := AmazonRow(job);
    forall s, w | IsKey(s, w) && Matches(r, w) ensures w == AmazonKey(job) {
      assert s == Amazon;
    }
  }

  // ---------------------------------------------------------------------
  // Re-ingesting a batch.
  // ---------------------------------------------------------------------

  /** The row an attempt creates is found again by the attempt's own key. */
  predicate FindsOwnRow(a: Attempt)
  {
    a.row.Some? ==> Matches(a.row.value, a.key)
  }

  /** After a batch without failures, the key of every job that could be
      created is answered by some row. */
  lemma {:induction false} BatchCoversKeys(rows: seq<Job>, attempts: seq<Attempt>)
    requires forall k :: 0 <= k < |attempts| ==> FindsOwnRow(attempts[k])
    ensures forall k :: 0 <= k < |attempts| && attempts[k].row.Some? ==>
              !NoneMatch(IngestBatch(rows, attempts, {}).rows, attempts[k].key)
    decreases |attempts|
  {
    if |attempts| > 0 {
      var n := |attempts| - 1;
      BatchCoversKeys(rows, attempts[..n]);
      var prev := IngestBatch(rows, attempts[..n], {});
      var b := IngestBatch(rows, attempts, {});
      assert forall i :: 0 <= i < |prev.rows| ==> b.rows[i] == prev.rows[i];
      forall k | 0 <= k < |attempts| && attempts[k].row.Some?
        ensures !NoneMatch(b.rows, attempts[k].key)
      {
        if k < n {
          assert attempts[..n][k] == attempts[k];
          var i :| 0 <= i < |prev.rows| && Matches(prev.rows[i], attempts[k].key);
          assert Matches(b.rows[i], attempts[k].key);
        } else if NoneMatch(prev.rows, attempts[n].key) {
          assert Matches(b.rows[|b.rows| - 1], attempts[n].key);
        } else {
          var i :| 0 <= i < |prev.rows| && Matches(prev.rows[i], attempts[k].key);
          assert Matches(b.rows[i], attempts[k].key);
        }
      }
    }
  }

  /** A batch whose every creatable job is already answered inserts nothing. */
  lemma {:induction false} AnsweredBatchAddsNothing(rows: seq<Job>, attempts: seq<Attempt>, failed: set<nat>)
    requires forall k :: 0 <= k < |attempts| && attempts[k].row.Some? ==> !NoneMatch(rows, attempts[k].key)
    ensures IngestBatch(rows, attempts, failed).rows == rows
    decreases |attempts|
  {
    if |attempts| > 0 {
      var n := |attempts| - 1;
      assert forall k :: 0 <= k < n ==> attempts[..n][k] == attempts[k];
      AnsweredBatchAddsNothing(rows, attempts[..n], failed);
    }
  }

  /** Running the same batch again, after a run without failures, leaves
      the table as it was, provided every created row is found by its own key. */
  lemma ReingestAddsNothing(rows: seq<Job>, attempts: seq<Attempt>, failed: set<nat>)
    requires forall k :: 0 <= k < |attempts| ==> FindsOwnRow(attempts[k])
    ensures var once := IngestBatch(rows, attempts, {}).rows;
            IngestBatch(once, attempts, failed).rows == once
  {
    BatchCoversKeys(rows, attempts);
    AnsweredBatchAddsNothing(IngestBatch(rows, attempts, {}).rows, attempts, failed);
  }

  // ---------------------------------------------------------------------
  // Per-source facts.
  // ---------------------------------------------------------------------

  /** A two-job batch without failures is two insert-if-absent steps. */
  lemma IngestTwo(rows: seq<Job>, a1: Attempt, a2: Attempt)
    ensures IngestBatch(rows, [a1, a2], {}).rows ==
            InsertIfAbsent(InsertIfAbsent(rows, a1, false).rows, a2, false).rows
  {
    assert [a1, a2][..1] == [a1];
    assert [a1][..0] == [];
    assert IngestBatch(rows, [], {}).rows == rows;
    assert IngestBatch(rows, [a1], {}).rows == InsertIfAbsent(rows, a1, false).rows;
  }

  /** Two jobs that are both absent, where the second key does not find the
      first row, are both inserted. */
  lemma BothInserted(rows: seq<Job>, a1: Attempt, a2: Attempt)
    requires a1.row.Some? && a2.row.Some?
    requires NoneMatch(rows, a1.key) && NoneMatch(rows, a2.key)
    requires !Matches(a1.row.value, a2.key)
    ensures IngestBatch(rows, [a1, a2], {}).rows == rows + [a1.row.value, a2.row.value]
  {
    IngestTwo(rows, a1, a2);
    var once := InsertIfAbsent(rows, a1, false).rows;
    assert once == rows + [a1.row.value];
    assert NoneMatch(once, a2.key) by {
      forall i | 0 <= i < |once| ensures !Matches(once[i], a2.key) {
        if i < |rows| { assert once[i] == rows[i]; }
      }
    }
  }

  /** When the second job's key finds the first job's row, only the first is
      inserted. */
  lemma SecondFindsFirst(rows: seq<Job>, a1: Attempt, a2: Attempt)
    requires a1.row.Some? && NoneMatch(rows, a1.key)
    requires Matches(a1.row.value, a2.key)
    ensures IngestBatch(rows, [a1, a2], {}).rows == rows + [a1.row.value]
  {
    IngestTwo(rows, a1, a2);
    var once := InsertIfAbsent(rows, a1, false).rows;
    assert once[|rows|] == a1.row.value;
  }

  /** Microsoft: a posting is inserted exactly when no row has company
      "Microsoft" with the same title and postedOn; otherwise the table is
      unchanged and the result is null. */
  lemma MicrosoftInsertsWhenAbsent(rows: seq<Job>, job: MicrosoftJob, failed: bool)
    ensures var s := InsertIfAbsent(rows, MicrosoftAttempt(job), failed);
            && (s.created.Some? <==>
                 !failed && forall i :: 0 <= i < |rows| ==>
                   !(rows[i].company == "Microsoft" && rows[i].title == job.title &&
                     rows[i].postedOn == job.postingDate))
            && s.rows == if s.created.Some? then rows + [MicrosoftRow(job)] else rows
  {
  }

  /** Microsoft keys include the posting date: two postings with the same
      title but different dates are both inserted. */
  lemma MicrosoftKeyIncludesPostedOn(rows: seq<Job>, j1: MicrosoftJob, j2: MicrosoftJob)
    requires j1.title == j2.title && j1.postingDate != j2.postingDate
    requires NoneMatch(rows, MicrosoftKey(j1)) && NoneMatch(rows, MicrosoftKey(j2))
    ensures IngestBatch(rows, MicrosoftAttempts([j1, j2]), {}).rows == rows + [MicrosoftRow(j1), MicrosoftRow(j2)]
  {
    assert MicrosoftAttempts([j1, j2]) == [MicrosoftAttempt(j1), MicrosoftAttempt(j2)];
    BothInserted(rows, MicrosoftAttempt(j1), MicrosoftAttempt(j2));
  }

  /** Google keys leave the posting date out: once a posting is stored, a
      posting with the same title and locations is not inserted, whatever
      its date, description or URL. */
  lemma GoogleKeyIgnoresPostedOn(rows: seq<Job>, j1: GoogleJob, j2: GoogleJob)
    requires j1.title == j2.title && j1.locations == j2.locations
    requires j1.locations.Some? && |j1.locations.value| > 0
    requires NoneMatch(rows, GoogleKey(j1))
    ensures IngestBatch(rows, GoogleAttempts([j1, j2]), {}).rows == rows + [GoogleRow(j1).value]
  {
    assert GoogleAttempts([j1, j2]) == [GoogleAttempt(j1), GoogleAttempt(j2)];
    SecondFindsFirst(rows, GoogleAttempt(j1), GoogleAttempt(j2));
  }

  /** Google: the row is found again by its own lookup exactly when the
      posting has a non-empty location list. */
  lemma GoogleFindsOwnRowIff(job: GoogleJob)
    ensures (GoogleRow(job).Some? && Matches(GoogleRow(job).value, GoogleKey(job))) <==>
            (job.locations.Some? && |job.locations.value| > 0)
    ensures job.locations.None? ==> GoogleRow(job).None?
  {
  }

  /** Google: with an empty location list the lookup uses "Unknown" but the
      row stores no location, so no Google lookup ever finds it. */
  lemma GoogleEmptyLocationsNeverFound(job: GoogleJob)
    requires job.locations == Some([])
    ensures GoogleKey(job).location == Some(UnknownLocation) && GoogleRow(job).value.location.None?
    ensures forall w :: IsKey(Google, w) ==> !Matches(GoogleRow(job).value, w)
  {
  }

  /** Google: hence a second pass over such a posting inserts it again. */
  lemma GoogleEmptyLocationsDuplicate(rows: seq<Job>, job: GoogleJob)
    requires job.locations == Some([])
    requires NoneMatch(rows, GoogleKey(job))
    ensures IngestBatch(rows, GoogleAttempts([job, job]), {}).rows == rows + [GoogleRow(job).value, GoogleRow(job).value]
  {
    assert GoogleAttempts([job, job]) == [GoogleAttempt(job), GoogleAttempt(job)];
    BothInserted(rows, GoogleAttempt(job), GoogleAttempt(job));
  }

  /** Amazon: the row is found again by its own lookup exactly when the
      posting's location is non-empty. */
  lemma AmazonFindsOwnRowIff(job: AmazonJob)
    ensures Matches(AmazonRow(job), AmazonKey(job)) <==> job.location != ""
  {
  }

  /** Amazon: with an empty location the lookup uses "Unknown" but the row
      stores "", so no Amazon lookup ever finds it. */
  lemma AmazonEmptyLocationNeverFound(job: AmazonJob)
    requires job.location == ""
    ensures AmazonKey(job).location == Some(UnknownLocation) && AmazonRow(job).location == Some("")
    ensures forall w :: IsKey(Amazon, w) ==> !Matches(AmazonRow(job), w)
  {
  }

  /** Amazon: hence a second pass over such a posting inserts it again. */
  lemma AmazonEmptyLocationDuplicate(rows: seq<Job>, job: AmazonJob)
    requires job.location == ""
    requires NoneMatch(rows, AmazonKey(job))
    ensures IngestBatch(rows, AmazonAttempts([job, job]), {}).rows == rows + [AmazonRow(job), AmazonRow(job)]
  {
    assert AmazonAttempts([job, job]) == [AmazonAttempt(job), AmazonAttempt(job)];
    BothInserted(rows, AmazonAttempt(job), AmazonAttempt(job));
  }

  lemma MicrosoftReingestAddsNothing(rows: seq<Job>, jobs: seq<MicrosoftJob>, failed: set<nat>)
    ensures var once := IngestBatch(rows, MicrosoftAttempts(jobs), {}).rows;
            IngestBatch(once, MicrosoftAttempts(jobs), failed).rows == once
  {
    ReingestAddsNothing(rows, MicrosoftAttempts(jobs), failed);
  }

  lemma GoogleReingestAddsNothing(rows: seq<Job>, jobs: seq<GoogleJob>, failed: set<nat>)
    requires forall k :: 0 <= k < |jobs| ==> jobs[k].locations != Some([])
    ensures var once := IngestBatch(rows, GoogleAttempts(jobs), {}).rows;
            IngestBatch(once, GoogleAttempts(jobs), failed).rows == once
  {
    forall k | 0 <= k < |jobs| ensures FindsOwnRow(GoogleAttempts(jobs)[k]) {
      GoogleFindsOwnRowIff(jobs[k]);
    }
    ReingestAddsNothing(rows, GoogleAttempts(jobs), failed);
  }

  lemma AmazonReingestAddsNothing(rows: seq<Job>, jobs: seq<AmazonJob>, failed: set<nat>)
    requires forall k :: 0 <= k < |jobs| ==> jobs[k].location != ""
    ensures var once := IngestBatch(rows, AmazonAttempts(jobs), {}).rows;
            IngestBatch(once, AmazonAttempts(jobs), failed).rows == once
  {
    ReingestAddsNothing(rows, AmazonAttempts(jobs), failed);
  }

  /** Rows created from Microsoft postings carry the company "Microsoft",
      the posting's primary location, its description as-is and the careers
      URL built from its id. */
  lemma MicrosoftCreatedRows(rows: seq<Job>, jobs: seq<MicrosoftJob>, failed: set<nat>)
    ensures forall r :: r in Created(IngestBatch(rows, MicrosoftAttempts(jobs), failed).results) ==>
              && r.company == "Microsoft"
              && exists j :: j in jobs && r.title == j.title && r.postedOn == j.postingDate
                   && r.location == Some(j.properties.primaryLocation)
                   && r.description == j.properties.description
                   && r.url == MicrosoftUrlPrefix + j.jobId
  {
    CreatedFromAttempts(rows, MicrosoftAttempts(jobs), failed);
    forall r | r in Created(IngestBatch(rows, MicrosoftAttempts(jobs), failed).results)
      ensures && r.company == "Microsoft"
              && exists j :: j in jobs && r.title == j.title && r.postedOn == j.postingDate
                   && r.location == Some(j.properties.primaryLocation)
                   && r.description == j.properties.description
                   && r.url == MicrosoftUrlPrefix + j.jobId
    {
      var k :| 0 <= k < |jobs| && MicrosoftAttempts(jobs)[k].row == Some(r);
      var j := jobs[k];
      assert r == MicrosoftRow(j);
      assert j in jobs && r.title == j.title && r.postedOn == j.postingDate
             && r.location == Some(j.properties.primaryLocation)
             && r.description == j.properties.description
             && r.url == MicrosoftUrlPrefix + j.jobId;
    }
  }

  /** Rows created from Google postings carry the company "Google", the
      first location's display text (no location for an empty list), a
      non-empty description (the intro, or "No description available") and
      the posting's apply URL. */
  lemma GoogleCreatedRows(rows: seq<Job>, jobs: seq<GoogleJob>, failed: set<nat>)
    ensures forall r :: r in Created(IngestBatch(rows, GoogleAttempts(jobs), failed).results) ==>
              && r.company == "Google"
              && r.description != ""
              && exists j :: j in jobs && r.title == j.title && r.postedOn == j.publish_date
                   && j.locations.Some?
                   && r.location == (if |j.locations.value| > 0 then Some(j.locations.value[0].display) else None)
                   && r.description == (if j.description.intro != "" then j.description.intro else NoDescription)
                   && r.url == j.apply_url
  {
    CreatedFromAttempts(rows, GoogleAttempts(jobs), failed);
    forall r | r in Created(IngestBatch(rows, GoogleAttempts(jobs), failed).results)
      ensures && r.company == "Google"
              && r.description != ""
              && exists j :: j in jobs && r.title == j.title && r.postedOn == j.publish_date
                   && j.locations.Some?
                   && r.location == (if |j.locations.value| > 0 then Some(j.locations.value[0].display) else None)
                   && r.description == (if j.description.intro != "" then j.description.intro else NoDescription)
                   && r.url == j.apply_url
    {
      var k :| 0 <= k < |jobs| && GoogleAttempts(jobs)[k].row == Some(r);
      var j := jobs[k];
      assert GoogleRow(j) == Some(r);
      assert j.locations.Some?;
      assert j in jobs && r.title == j.title && r.postedOn == j.publish_date
             && r.location == (if |j.locations.value| > 0 then Some(j.locations.value[0].display) else None)
             && r.description == (if j.description.intro != "" then j.description.intro else NoDescription)
             && r.url == j.apply_url;
    }
  }

  /** Rows created from Amazon postings carry the company "Amazon", the raw
      location, a non-empty description (the posting's, or "No description
      available") and the amazon.jobs URL built from the job path. */
  lemma AmazonCreatedRows(rows: seq<Job>, jobs: seq<AmazonJob>, failed: set<nat>)
    ensures forall r :: r in Created(IngestBatch(rows, AmazonAttempts(jobs), failed).results) ==>
              && r.company == "Amazon"
              && r.description != ""
              && exists j :: j in jobs && r.title == j.title && r.postedOn == j.posted_date
                   && r.location == Some(j.location)
                   && r.description == (if j.description != "" then j.description else NoDescription)
                   && r.url == AmazonUrlPrefix + j.job_path
  {
    CreatedFromAttempts(rows, AmazonAttempts(jobs), failed);
    forall r | r in Created(IngestBatch(rows, AmazonAttempts(jobs), failed).results)
      ensures && r.company == "Amazon"
              && r.description != ""
              && exists j :: j in jobs && r.title == j.title && r.postedOn == j.posted_date
                   && r.location == Some(j.location)
                   && r.description == (if j.description != "" then j.description else NoDescription)
                   && r.url == AmazonUrlPrefix + j.job_path
    {
      var k :| 0 <= k < |jobs| && AmazonAttempts(jobs)[k].row == Some(r);
      var j := jobs[k];
      assert r == AmazonRow(j);
      assert j in jobs && r.title == j.title && r.postedOn == j.posted_date
             && r.location == Some(j.location)
             && r.description == (if j.description != "" then j.description else NoDescription)
             && r.url == AmazonUrlPrefix + j.job_path;
    }
  }

  // ---------------------------------------------------------------------
  // The scrape functions and the cycle, over the shared table.
  // ---------------------------------------------------------------------

  /** A source's batch; `None` when the fetch or the unpacking of its
      response throws, which the scrape function catches. */
  function ScrapeSpec(rows: seq<Job>, attempts: Option<seq<Attempt>>, failed: set<nat>): (b: Batch)
    ensures attempts.None? ==> b.results == []
    ensures b.rows == rows + Created(b.results)
  {
    match attempts
    case None => Batch(rows, [])
    case Some(batch) => IngestBatch(rows, batch, failed)
  }

  function MicrosoftBatch(fetched: Option<seq<MicrosoftJob>>): Option<seq<Attempt>>
  {
    match fetched
    case None => None
    case Some(jobs) => Some(MicrosoftAttempts(jobs))
  }

  function GoogleBatch(fetched: Option<seq<GoogleJob>>): Option<seq<Attempt>>
  {
    match fetched
    case None => None
    case Some(jobs) => Some(GoogleAttempts(jobs))
  }

  function AmazonBatch(fetched: Option<seq<AmazonJob>>): Option<seq<Attempt>>
  {
    match fetched
    case None => None
    case Some(jobs) => Some(AmazonAttempts(jobs))
  }

  /** The callback run for one job: look up, create when absent, and yield
      the created row or null; `storeFails` stands for a store call that
      throws, which the callback catches. */
  method IngestOne(db: Table, a: Attempt, storeFails: bool) returns (result: Option<Job>)
    modifies db
    ensures var s := InsertIfAbsent(old(db.rows), a, storeFails);
            db.rows == s.rows && result == s.created
  {
    result := None;
    if !storeFails {
      var existing := db.FindFirst(a.key);
      if existing.None? && a.row.Some? {
        var created := db.Create(a.row.value);
        result := Some(created);
      }
    }
  }

  /** The per-job loop shared by the three scrape functions: each job runs
      `IngestOne` against the table its predecessors left. */
  method IngestAll(db: Table, attempts: seq<Attempt>, failed: set<nat>) returns (results: seq<Option<Job>>)
    modifies db
    ensures var b := IngestBatch(old(db.rows), attempts, failed);
            db.rows == b.rows && results == b.results
  {
    results := [];
    var i := 0;
    while i < |attempts|
      invariant 0 <= i <= |attempts|
      invariant var b := IngestBatch(old(db.rows), attempts[..i], failed);
                db.rows == b.rows && results == b.results
    {
      var result := IngestOne(db, attempts[i], i in failed);
      results := results + [result];
      assert attempts[..i + 1][..i] == attempts[..i];
      IngestBatchLast(old(db.rows), attempts[..i + 1], failed);
      i := i + 1;
    }
    assert attempts[..|attempts|] == attempts;
  }

  /** The scrape step common to all sources; returns the logged "added"
      count, the number of non-null results. */
  method Scrape(db: Table, attempts: Option<seq<Attempt>>, failed: set<nat>) returns (added: nat)
    modifies db
    ensures db.rows == ScrapeSpec(old(db.rows), attempts, failed).rows
    ensures added == |Created(ScrapeSpec(old(db.rows), attempts, failed).results)|
    ensures added == |db.rows| - |old(db.rows)|
  {
    added := 0;
    if attempts.Some? {
      var results := IngestAll(db, attempts.value, failed);
      added := |Created(results)|;
    }
  }

  method ScrapeMicrosoftJobs(db: Table, fetched: Option<seq<MicrosoftJob>>, failed: set<nat>) returns (added: nat)
    modifies db
    ensures db.rows == ScrapeSpec(old(db.rows), MicrosoftBatch(fetched), failed).rows
    ensures added == |db.rows| - |old(db.rows)|
  {
    added := Scrape(db, MicrosoftBatch(fetched), failed);
  }

  method ScrapeGoogleJobs(db: Table, fetched: Option<seq<GoogleJob>>, failed: set<nat>) returns (added: nat)
    modifies db
    ensures db.rows == ScrapeSpec(old(db.rows), GoogleBatch(fetched), failed).rows
    ensures added == |db.rows| - |old(db.rows)|
  {
    added := Scrape(db, GoogleBatch(fetched), failed);
  }

  method ScrapeAmazonJobs(db: Table, fetched: Option<seq<AmazonJob>>, failed: set<nat>) returns (added: nat)
    modifies db
    ensures db.rows == ScrapeSpec(old(db.rows), AmazonBatch(fetched), failed).rows
    ensures added == |db.rows| - |old(db.rows)|
  {
    added := Scrape(db, AmazonBatch(fetched), failed);
  }

  /** What one cycle sees from the outside world: whether the wipe throws,
      each source's fetched postings and the positions whose store calls throw. */
  datatype CycleInput = CycleInput(
    wipeFails: bool,
    microsoft: Option<seq<MicrosoftJob>>, microsoftFailed: set<nat>,
    google: Option<seq<GoogleJob>>, googleFailed: set<nat>,
    amazon: Option<seq<AmazonJob>>, amazonFailed: set<nat>)

  datatype CycleOutcome = CycleOutcome(microsoft: Batch, google: Batch, amazon: Batch)

  /** The three batches of a cycle that wiped the table. */
  function CycleBatches(input: CycleInput): CycleOutcome
  {
    var m := ScrapeSpec([], MicrosoftBatch(input.microsoft), input.microsoftFailed);
    var g := ScrapeSpec(m.rows, GoogleBatch(input.google), input.googleFailed);
    var a := ScrapeSpec(g.rows, AmazonBatch(input.amazon), input.amazonFailed);
    CycleOutcome(m, g, a)
  }

  /** The table after one cycle: a failing wipe aborts the cycle before any
      source runs. */
  function CycleRows(rows: seq<Job>, input: CycleInput): seq<Job>
  {
    if input.wipeFails then rows else CycleBatches(input).amazon.rows
  }

  /** One run of `main`: wipe, then Microsoft, Google, Amazon. Every failure
      is caught, so the run always returns and the next one is scheduled;
      `completed` says whether the success message is logged. */
  method RunCycle(db: Table, input: CycleInput) returns (completed: bool)
    modifies db
    ensures db.rows == CycleRows(old(db.rows), input)
    ensures completed == !input.wipeFails
  {
    if input.wipeFails {
      return false;
    }
    var _ := db.DeleteMany();
    var _ := ScrapeMicrosoftJobs(db, input.microsoft, input.microsoftFailed);
    var _ := ScrapeGoogleJobs(db, input.google, input.googleFailed);
    var _ := ScrapeAmazonJobs(db, input.amazon, input.amazonFailed);
    completed := true;
  }

  /** After a cycle that wiped the table, every row was created in this
      cycle: first Microsoft's, then Google's, then Amazon's. */
  lemma CycleRowsAllNew(rows: seq<Job>, input: CycleInput)
    requires !input.wipeFails
    ensures var c := CycleBatches(input);
            CycleRows(rows, input) ==
              Created(c.microsoft.results) + Created(c.google.results) + Created(c.amazon.results)
  {
    var c := CycleBatches(input);
    assert c.microsoft.rows == Created(c.microsoft.results);
    assert c.google.rows == c.microsoft.rows + Created(c.google.results);
    assert c.amazon.rows == c.google.rows + Created(c.amazon.results);
  }

  lemma ScrapeKeepsKeysUnique(rows: seq<Job>, attempts: Option<seq<Attempt>>, failed: set<nat>, s: Source)
    requires attempts.Some? ==> forall k :: 0 <= k < |attempts.value| ==> Keyed(attempts.value[k])
    requires KeysUnique(rows, s)
    ensures KeysUnique(ScrapeSpec(rows, attempts, failed).rows, s)
  {
    if attempts.Some? {
      BatchKeepsKeysUnique(rows, attempts.value, failed, s);
    }
  }

  /** After a cycle, every lookup key of every source is answered by at
      most one row (batches processed one job after another). */
  lemma CycleKeysUnique(rows: seq<Job>, input: CycleInput, s: Source)
    requires input.wipeFails ==> KeysUnique(rows, s)
    ensures KeysUnique(CycleRows(rows, input), s)
  {
    if !input.wipeFails {
      var c := CycleBatches(input);
      if input.microsoft.Some? {
        forall k | 0 <= k < |input.microsoft.value|
          ensures Keyed(MicrosoftAttempts(input.microsoft.value)[k])
        {
          MicrosoftAttemptKeyed(input.microsoft.value[k]);
        }
      }
      if input.google.Some? {
        forall k | 0 <= k < |input.google.value|
          ensures Keyed(GoogleAttempts(input.google.value)[k])
        {
          GoogleAttemptKeyed(input.google.value[k]);
        }
      }
      if input.amazon.Some? {
        forall k | 0 <= k < |input.amazon.value|
          ensures Keyed(AmazonAttempts(input.amazon.value)[k])
        {
          AmazonAttemptKeyed(input.amazon.value[k]);
        }
      }
      ScrapeKeepsKeysUnique([], MicrosoftBatch(input.microsoft), input.microsoftFailed, s);
      ScrapeKeepsKeysUnique(c.microsoft.rows, GoogleBatch(input.google), input.googleFailed, s);
      ScrapeKeepsKeysUnique(c.google.rows, AmazonBatch(input.amazon), input.amazonFailed, s);
    }
  }

  /** One job decides the same way when rows its key does not find come first. */
  lemma StepIgnoresUnmatchedRows(other: seq<Job>, rows: seq<Job>, a: Attempt, failed: bool)
    requires NoneMatch(other, a.key)
    ensures var s := InsertIfAbsent(rows, a, failed);
            InsertIfAbsent(other + rows, a, failed) == Step(other + s.rows, s.created)
  {
    var all := other + rows;
    if NoneMatch(rows, a.key) {
      forall i | 0 <= i < |all| ensures !Matches(all[i], a.key) {
        if i >= |other| { assert all[i] == rows[i - |other|]; }
      }
    } else {
      var i :| 0 <= i < |rows| && Matches(rows[i], a.key);
      assert all[i + |other|] == rows[i];
    }
  }

  /** The last job of a batch runs against the table the others left. */
  lemma IngestBatchLast(rows: seq<Job>, attempts: seq<Attempt>, failed: set<nat>)
    requires |attempts| > 0
    ensures var n := |attempts| - 1;
            var prev := IngestBatch(rows, attempts[..n], failed);
            var s := InsertIfAbsent(prev.rows, attempts[n], n in failed);
            IngestBatch(rows, attempts, failed) == Batch(s.rows, prev.results + [s.created])
  {
  }

  /** Rows no lookup of the batch can find do not change what the batch
      does: it makes the same decisions and adds the same rows after them. */
  lemma {:induction false} BatchIgnoresUnmatchedRows(other: seq<Job>, rows: seq<Job>, attempts: seq<Attempt>, failed: set<nat>)
    requires forall k :: 0 <= k < |attempts| ==> NoneMatch(other, attempts[k].key)
    ensures var b := IngestBatch(rows, attempts, failed);
            IngestBatch(other + rows, attempts, failed) == Batch(other + b.rows, b.results)
    decreases |attempts|
  {
    if |attempts| > 0 {
      var n := |attempts| - 1;
      var front := attempts[..n];
      forall k | 0 <= k < n ensures NoneMatch(other, front[k].key) {
        assert front[k] == attempts[k];
      }
      BatchIgnoresUnmatchedRows(other, rows, front, failed);
      var prev := IngestBatch(rows, front, failed);
      StepIgnoresUnmatchedRows(other, prev.rows, attempts[n], n in failed);
      IngestBatchLast(rows, attempts, failed);
      IngestBatchLast(other + rows, attempts, failed);
    }
  }

  /** A source's batch: every lookup and every row carries that source's company. */
  ghost predicate OfCompany(attempts: Option<seq<Attempt>>, company: string)
  {
    attempts.Some? ==> forall k :: 0 <= k < |attempts.value| ==>
      attempts.value[k].key.company == company &&
      (attempts.value[k].row.Some? ==> attempts.value[k].row.value.company == company)
  }

  lemma BatchesOfCompany(input: CycleInput)
    ensures OfCompany(MicrosoftBatch(input.microsoft), "Microsoft")
    ensures OfCompany(GoogleBatch(input.google), "Google")
    ensures OfCompany(AmazonBatch(input.amazon), "Amazon")
  {
  }

  /** Running a batch of one company after rows of other companies adds
      rows of that company only, and creates what it would create alone. */
  lemma ScrapeAfterOtherCompanies(other: seq<Job>, attempts: Option<seq<Attempt>>, failed: set<nat>, company: string)
    requires OfCompany(attempts, company)
    requires forall i :: 0 <= i < |other| ==> other[i].company != company
    ensures ScrapeSpec(other, attempts, failed).results == ScrapeSpec([], attempts, failed).results
    ensures forall r :: r in Created(ScrapeSpec(other, attempts, failed).results) ==> r.company == company
  {
    if attempts.Some? {
      assert other + [] == other;
      BatchIgnoresUnmatchedRows(other, [], attempts.value, failed);
      CreatedFromAttempts(other, attempts.value, failed);
    }
  }

  /** A batch of one company leaves a table free of another company's rows
      free of them. */
  lemma ScrapeAddsNoOtherCompany(rows: seq<Job>, attempts: Option<seq<Attempt>>, failed: set<nat>, company: string, absent: string)
    requires OfCompany(attempts, company) && company != absent
    requires forall i :: 0 <= i < |rows| ==> rows[i].company != absent
    ensures var after := ScrapeSpec(rows, attempts, failed).rows;
            forall i :: 0 <= i < |after| ==> after[i].company != absent
  {
    var b := ScrapeSpec(rows, attempts, failed);
    if attempts.Some? {
      CreatedFromAttempts(rows, attempts.value, failed);
    }
    forall i | 0 <= i < |b.rows| ensures b.rows[i].company != absent {
      if i >= |rows| {
        var r := Created(b.results)[i - |rows|];
        assert b.rows[i] == r;
        var k :| 0 <= k < |attempts.value| && attempts.value[k].row == Some(r);
      }
    }
  }

  /** The order of the sources does not matter: in a cycle, each source
      creates exactly the rows it would create on its own on an empty table. */
  lemma CycleSourcesIndependent(input: CycleInput)
    ensures var c := CycleBatches(input);
            && c.google.results == ScrapeSpec([], GoogleBatch(input.google), input.googleFailed).results
            && c.amazon.results == ScrapeSpec([], AmazonBatch(input.amazon), input.amazonFailed).results
  {
    var c := CycleBatches(input);
    BatchesOfCompany(input);
    ScrapeAddsNoOtherCompany([], MicrosoftBatch(input.microsoft), input.microsoftFailed, "Microsoft", "Google");
    ScrapeAddsNoOtherCompany([], MicrosoftBatch(input.microsoft), input.microsoftFailed, "Microsoft", "Amazon");
    ScrapeAfterOtherCompanies(c.microsoft.rows, GoogleBatch(input.google), input.googleFailed, "Google");
    ScrapeAddsNoOtherCompany(c.microsoft.rows, GoogleBatch(input.google), input.googleFailed, "Google", "Amazon");
    ScrapeAfterOtherCompanies(c.google.rows, AmazonBatch(input.amazon), input.amazonFailed, "Amazon");
  }
}
