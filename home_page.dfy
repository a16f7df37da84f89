/** The state of the home page that lists jobs in the browser: the job list
    it fetched, the filter the user sets, and the error it shows. The
    filtered list it renders is a pure function of the list and the filter:
    an exact match on the job type and a case-insensitive keyword search in
    the title or the company. Deleting a job drops it from the local list
    once the server has confirmed. */
module HomePage {
  import opened Text

  /** A job as the page receives it from the server. */
  datatype Posting = Posting(
    id: string, title: string, company: string, location: string,
    jobType: string, description: string)

  /** The filter state; the empty string means "no constraint". */
  datatype Filter = Filter(jobType: string, keyword: string)

  /** The `name` of the input a change event comes from. */
  datatype FilterField = JobTypeInput | KeywordInput

  /** The initial filter: `{ jobType: "", keyword: "" }`. */
  const NoFilter := Filter("", "")

  const DeleteFailed := "Failed to delete job."

  /** `Array.prototype.filter`: the elements of `s` that satisfy `p`, in
      their order. */
  function Keep(s: seq<Posting>, p: Posting -> bool): (r: seq<Posting>)
    ensures |r| <= |s|
    ensures forall x :: x in r <==> x in s && p(x)
    ensures forall x :: multiset(r)[x] == if p(x) then multiset(s)[x] else 0
  {
    if s == [] then []
    else
      assert s == [s[0]] + s[1..];
      (if p(s[0]) then [s[0]] else []) + Keep(s[1..], p)
  }

  /** `a` is `b` with some elements left out and the rest in their order. */
  predicate IsSubsequence(a: seq<Posting>, b: seq<Posting>)
    decreases |b|
  {
    a == [] || (b != [] && ((a[0] == b[0] && IsSubsequence(a[1..], b[1..])) || IsSubsequence(a, b[1..])))
  }

  /** Filtering keeps the order of what it keeps. */
  lemma {:induction false} KeepIsSubsequence(s: seq<Posting>, p: Posting -> bool)
    ensures IsSubsequence(Keep(s, p), s)
  {
    if s != [] {
      KeepIsSubsequence(s[1..], p);
      var r := Keep(s, p);
      if p(s[0]) {
        assert r == [s[0]] + Keep(s[1..], p);
        assert r[1..] == Keep(s[1..], p);
      } else {
        assert r == Keep(s[1..], p);
      }
    }
  }

  /** Filtering what has already been filtered by the same test changes
      nothing. */
  lemma {:induction false} KeepIdempotent(s: seq<Posting>, p: Posting -> bool)
    ensures Keep(Keep(s, p), p) == Keep(s, p)
  {
    if s != [] {
      KeepIdempotent(s[1..], p);
      if p(s[0]) {
        var r := Keep(s, p);
        assert r == [s[0]] + Keep(s[1..], p);
        assert r[0] == s[0] && r[1..] == Keep(s[1..], p);
        assert Keep(r, p) == [r[0]] + Keep(r[1..], p);
      } else {
        assert Keep(s, p) == Keep(s[1..], p);
      }
    }
  }

  /** A test that every element passes keeps the whole list. */
  lemma {:induction false} KeepAll(s: seq<Posting>, p: Posting -> bool)
    requires forall x :: x in s ==> p(x)
    ensures Keep(s, p) == s
  {
    if s != [] {
      KeepAll(s[1..], p);
      assert s == [s[0]] + s[1..];
    }
  }

  /** How many elements of `s` have the id `id`. */
  function CountId(s: seq<Posting>, id: string): nat {
    if s == [] then 0 else (if s[0].id == id then 1 else 0) + CountId(s[1..], id)
  }

  // ---------------------------------------------------------------- filter

  /** `job.title.toLowerCase().includes(keyword.toLowerCase())`, and the same
      for the company. */
  predicate KeywordIn(job: Posting, keyword: string) {
    Includes(Lower(job.title), Lower(keyword)) || Includes(Lower(job.company), Lower(keyword))
  }

  /** The test `filteredJobs` applies to each job. */
  predicate Matches(job: Posting, filter: Filter) {
    && (filter.jobType == "" || job.jobType == filter.jobType)
    && (filter.keyword == "" || KeywordIn(job, filter.keyword))
  }

  function MatchesFilter(filter: Filter): Posting -> bool {
    (j: Posting) => Matches(j, filter)
  }

  /** `filteredJobs`: the jobs that match the filter, in list order. */
  function Filtered(jobs: seq<Posting>, filter: Filter): (r: seq<Posting>)
    ensures forall j :: j in r <==> j in jobs && Matches(j, filter)
    ensures forall j :: multiset(r)[j] == if Matches(j, filter) then multiset(jobs)[j] else 0
    ensures filter.jobType != "" ==> forall j :: j in r ==> j.jobType == filter.jobType
    ensures IsSubsequence(r, jobs)
  {
    KeepIsSubsequence(jobs, MatchesFilter(filter));
    Keep(jobs, MatchesFilter(filter))
  }

  /** With both filter fields empty, every job is shown. */
  lemma EmptyFilterShowsAll(jobs: seq<Posting>)
    ensures Filtered(jobs, NoFilter) == jobs
  {
    KeepAll(jobs, MatchesFilter(NoFilter));
  }

  /** Filtering the filtered list again with the same filter changes
      nothing. */
  lemma FilterIdempotent(jobs: seq<Posting>, filter: Filter)
    ensures Filtered(Filtered(jobs, filter), filter) == Filtered(jobs, filter)
  {
    KeepIdempotent(jobs, MatchesFilter(filter));
  }

  /** The keyword is looked for in the title and the company only: the
      location and the description never decide whether a job is shown. */
  lemma KeywordIgnoresLocationAndDescription(job: Posting, filter: Filter, location: string,
                                             description: string)
    ensures Matches(job.(location := location, description := description), filter)
      == Matches(job, filter)
  {
  }

  /** The keyword search ignores the case of ASCII letters: two keywords
      that differ only in case select the same jobs. */
  lemma KeywordCaseInsensitive(job: Posting, jobType: string, k1: string, k2: string)
    requires Lower(k1) == Lower(k2)
    ensures Matches(job, Filter(jobType, k1)) == Matches(job, Filter(jobType, k2))
  {
    assert |k1| == |Lower(k1)| == |Lower(k2)| == |k2|;
  }

  /** A title written in another case than the keyword still matches: the
      keyword "ENG" does not occur in "Eng", yet selects it. */
  lemma KeywordOtherCase()
    ensures !Includes("Eng", "ENG")
    ensures Matches(Posting("1", "Eng", "Acme", "Remote", "Full-time", ""), Filter("", "ENG"))
  {
    assert "Eng"[1] != "ENG"[1];
    assert Lower("Eng") == "eng" && Lower("ENG") == "eng";
    assert "eng" <= "eng"[0..];
  }

  // ------------------------------------------------------------------ delete

  function NotId(jobId: string): Posting -> bool {
    (j: Posting) => j.id != jobId
  }

  /** `jobs.filter((job) => job._id !== jobId)`. */
  function WithoutId(jobs: seq<Posting>, jobId: string): (r: seq<Posting>)
    ensures forall j :: j in r <==> j in jobs && j.id != jobId
    ensures forall j :: multiset(r)[j] == if j.id != jobId then multiset(jobs)[j] else 0
    ensures IsSubsequence(r, jobs)
    ensures |r| + CountId(jobs, jobId) == |jobs|
  {
    KeepIsSubsequence(jobs, NotId(jobId));
    CountDropped(jobs, jobId);
    Keep(jobs, NotId(jobId))
  }

  lemma {:induction false} CountDropped(jobs: seq<Posting>, jobId: string)
    ensures |Keep(jobs, NotId(jobId))| + CountId(jobs, jobId) == |jobs|
  {
    if jobs != [] {
      CountDropped(jobs[1..], jobId);
    }
  }

  /** What the `DELETE` request reported: success, or a failure with the
      server's `message`, if any. */
  datatype DeleteReply = Confirmed | Failed(message: Option<string>)

  /** The page's state and its event handlers. */
  class Page {
    var jobs: seq<Posting>
    var filter: Filter
    var error: Option<string>

    constructor()
      ensures jobs == [] && filter == NoFilter && error.None?
    {
      jobs := [];
      filter := NoFilter;
      error := None;
    }

    /** The list the page renders. */
    function FilteredJobs(): (r: seq<Posting>)
      reads this
      ensures forall j :: j in r <==> j in jobs && Matches(j, filter)
      ensures forall j :: multiset(r)[j] == if Matches(j, filter) then multiset(jobs)[j] else 0
      ensures IsSubsequence(r, jobs)
    {
      Filtered(jobs, filter)
    }

    /** `handleFilterChange`: `setFilter({ ...filter, [name]: value })`. Only
        the named field changes. */
    method HandleFilterChange(name: FilterField, value: string)
      modifies this`filter
      ensures name == JobTypeInput ==> filter == Filter(value, old(filter).keyword)
      ensures name == KeywordInput ==> filter == Filter(old(filter).jobType, value)
    {
      match name
      case JobTypeInput => filter := filter.(jobType := value);
      case KeywordInput => filter := filter.(keyword := value);
    }

    /** `handleDelete(jobId)` once the `DELETE` request has settled: on
        success the local list loses exactly the entries with that id and
        keeps the rest in order; on failure the list stays and the error is
        the server's message, or a fixed text when there is none. */
    method HandleDelete(jobId: string, reply: DeleteReply)
      modifies this`jobs, this`error
      ensures reply.Confirmed? ==> jobs == WithoutId(old(jobs), jobId) && error == old(error)
      ensures reply.Confirmed? ==> forall j :: j in jobs <==> j in old(jobs) && j.id != jobId
      ensures reply.Failed? ==> jobs == old(jobs)
      ensures reply.Failed? ==> error == Some(
        if reply.message.Some? && reply.message.value != "" then reply.message.value else DeleteFailed)
    {
      match reply
      case Confirmed =>
        jobs := WithoutId(jobs, jobId);
      case Failed(message) =>
        error := Some(if message.Some? && message.value != "" then message.value else DeleteFailed);
    }
  }
}
