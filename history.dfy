/**
 * The detection-history store: one metadata record per job, kept under the
 * job's id.  The JSON files of the job directories become a map from job
 * id to record; the clock, the timeline file and the report files become
 * parameters.
 */
module History {

  import opened Wrappers
  import opened Sorting
  import opened Sampling
  import Smoothing
  import opened Stats

  /** The parts of a (non-empty) result dictionary that the history reads. */
  datatype JobResult = JobResult(verdict: Option<string>, score: Option<real>)

  /** `metadata.json` of one job. */
  datatype Job = Job(
    jobId: string,
    username: string,
    filename: string,
    detectionType: string,
    model: Option<string>,
    createdAt: string,
    status: string,
    completedAt: Option<string>,
    result: Option<JobResult>,
    error: Option<string>)

  /** The lightweight entry of a history listing. */
  datatype Summary = Summary(
    jobId: string,
    filename: string,
    detectionType: string,
    model: Option<string>,
    createdAt: string,
    completedAt: Option<string>,
    status: string,
    verdict: Option<string>,
    score: Option<real>)

  datatype HistoryPage = HistoryPage(total: nat, offset: int, limit: int, jobs: seq<Summary>)

  datatype JobDetails<T> = JobDetails(job: Job, timeline: Option<T>, hasPdf: bool, hasZip: bool)

  datatype Statistics = Statistics(
    totalJobs: nat,
    completed: nat,
    failed: nat,
    processing: nat,
    realCount: nat,
    fakeCount: nat,
    averageScore: real)

  datatype HistoryError =
    | JobNotFound(id: string)       // ValueError
    | PermissionDenied              // PermissionError("You can only delete your own jobs")
    | IncomparableTime(id: string)  // TypeError comparing the job's creation time with the cutoff

  /** Admins see every job, everybody else only their own. */
  predicate CanAccess(role: string, username: string, owner: string) {
    role == "admin" || owner == username
  }

  /** The record `create_job_metadata` writes. */
  function NewJob(jobId: string, username: string, filename: string, detectionType: string,
                  model: Option<string>, now: string): (j: Job)
    ensures j.jobId == jobId && j.username == username && j.createdAt == now
    ensures j.status == "processing" && j.completedAt.None? && j.result.None? && j.error.None?
  {
    Job(jobId, username, filename, detectionType, model, now, "processing", None, None, None)
  }

  /**
   * The record after `update_job_status`: the status always, the completion
   * time for "completed" and "failed" only, the result and the error only
   * when given (a falsy result or error leaves the old one).
   */
  function Updated(j: Job, status: string, result: Option<JobResult>, error: string, now: string): (u: Job)
    ensures u.status == status
    ensures status == "completed" || status == "failed" ==> u.completedAt == Some(now)
    ensures status != "completed" && status != "failed" ==> u.completedAt == j.completedAt
    ensures u.result == if result.Some? then result else j.result
    ensures u.error == if error != "" then Some(error) else j.error
    ensures u.jobId == j.jobId && u.username == j.username && u.filename == j.filename &&
            u.detectionType == j.detectionType && u.model == j.model && u.createdAt == j.createdAt
  {
    j.(status := status,
       completedAt := if status == "completed" || status == "failed" then Some(now) else j.completedAt,
       result := if result.Some? then result else j.result,
       error := if error != "" then Some(error) else j.error)
  }

  function SummaryOf(j: Job): (s: Summary)
    ensures s.jobId == j.jobId && s.createdAt == j.createdAt && s.status == j.status
    ensures s.verdict == (if j.result.Some? then j.result.value.verdict else None)
    ensures s.score == (if j.result.Some? then j.result.value.score else None)
  {
    Summary(j.jobId, j.filename, j.detectionType, j.model, j.createdAt, j.completedAt, j.status,
            if j.result.Some? then j.result.value.verdict else None,
            if j.result.Some? then j.result.value.score else None)
  }

  /** A job appears in a listing: visible to the caller and, when a status filter is given, of that status. */
  predicate Listed(j: Job, username: string, role: string, status: string) {
    CanAccess(role, username, j.username) && (status == "" || j.status == status)
  }

  /** Newest first by `created_at`, compared as strings. */
  predicate NewestFirst(a: Summary, b: Summary) {
    LexLe(b.createdAt, a.createdAt)
  }

  lemma {:induction false} NewestFirstIsOrder()
    ensures TotalPreorder(NewestFirst)
  {
    forall a: Summary, b: Summary ensures NewestFirst(a, b) || NewestFirst(b, a) {
      LexLeTotal(a.createdAt, b.createdAt);
    }
    forall a: Summary, b: Summary, c: Summary | NewestFirst(a, b) && NewestFirst(b, c)
      ensures NewestFirst(a, c)
    {
      LexLeTrans(c.createdAt, b.createdAt, a.createdAt);
    }
  }

  /** `s[start:stop]` with Python's treatment of negative and out-of-range bounds. */
  function PySlice<T>(s: seq<T>, start: int, stop: int): (r: seq<T>)
    ensures |r| <= |s|
    ensures 0 <= start <= |s| && start <= stop ==> r == s[start..if stop <= |s| then stop else |s|]
    ensures forall k :: 0 <= k < |r| ==> r[k] in s
  {
    var lo := SliceBound(start, |s|);
    var hi := SliceBound(stop, |s|);
    if lo < hi then s[lo..hi] else []
  }

  /** A slice bound: negative counts from the end, then clamped to `[0, n]`. */
  function SliceBound(i: int, n: nat): (b: nat)
    ensures b <= n
    ensures 0 <= i ==> b == if i <= n then i else n
    ensures i < 0 ==> b == if i + n >= 0 then i + n else 0
  {
    var j := if i < 0 then i + n else i;
    if j < 0 then 0 else if j > n then n else j
  }

  /** For non-negative offset and limit a page holds `min(limit, total − offset)` entries, none when past the end. */
  lemma PageSize<T>(s: seq<T>, offset: int, limit: int)
    requires 0 <= offset && 0 <= limit
    ensures |PySlice(s, offset, offset + limit)| ==
              if offset >= |s| then 0 else if limit <= |s| - offset then limit else |s| - offset
  {
  }

  // ---------------------------------------------------------------------------
  // Counting over a listing.

  function CountStatus(jobs: seq<Summary>, status: string): (n: nat)
    ensures n <= |jobs|
  {
    if jobs == [] then 0
    else CountStatus(jobs[..|jobs| - 1], status) + (if jobs[|jobs| - 1].status == status then 1 else 0)
  }

  function CountVerdict(jobs: seq<Summary>, verdict: string): (n: nat)
    ensures n <= |jobs|
  {
    if jobs == [] then 0
    else CountVerdict(jobs[..|jobs| - 1], verdict) + (if jobs[|jobs| - 1].verdict == Some(verdict) then 1 else 0)
  }

  /** The scores that are present, in listing order. */
  function Scores(jobs: seq<Summary>): (r: seq<real>)
    ensures |r| <= |jobs|
  {
    if jobs == [] then []
    else Scores(jobs[..|jobs| - 1]) + (if jobs[|jobs| - 1].score.Some? then [jobs[|jobs| - 1].score.value] else [])
  }

  /** `round(x, 2)`: to the nearest hundredth, ties to even. */
  function Round2(x: real): (r: real)
    ensures -1.0 / 200.0 <= r - x <= 1.0 / 200.0
  {
    RoundHalfEven(x * 100.0) as real / 100.0
  }

  /** `get_statistics` over the listing it reads. */
  function StatisticsOf(jobs: seq<Summary>): (st: Statistics)
    ensures st.totalJobs == |jobs|
    ensures Scores(jobs) == [] ==> st.averageScore == 0.0
    ensures Scores(jobs) != [] ==> st.averageScore == Round2(Total(Scores(jobs)) / |Scores(jobs)| as real)
  {
    var scores := Scores(jobs);
    Statistics(|jobs|, CountStatus(jobs, "completed"), CountStatus(jobs, "failed"), CountStatus(jobs, "processing"),
               CountVerdict(jobs, "real"), CountVerdict(jobs, "fake"),
               if scores == [] then 0.0 else Round2(Total(scores) / |scores| as real))
  }

  /** The three status counts never exceed the number of jobs read. */
  lemma {:induction false} StatusCountsBounded(jobs: seq<Summary>)
    ensures CountStatus(jobs, "completed") + CountStatus(jobs, "failed") + CountStatus(jobs, "processing") <= |jobs|
  {
    if jobs != [] {
      StatusCountsBounded(jobs[..|jobs| - 1]);
    }
  }

  /** Likewise the two verdict counts. */
  lemma {:induction false} VerdictCountsBounded(jobs: seq<Summary>)
    ensures CountVerdict(jobs, "real") + CountVerdict(jobs, "fake") <= |jobs|
  {
    if jobs != [] {
      VerdictCountsBounded(jobs[..|jobs| - 1]);
    }
  }

  /**
   * Verdicts are counted as the lower-case strings only: jobs whose result
   * carries the video adapter's "FAKE" or "REAL" are counted as neither.
   */
  lemma {:induction false} UpperCaseVerdictsUncounted(jobs: seq<Summary>)
    requires forall k :: 0 <= k < |jobs| ==> jobs[k].verdict == Some("FAKE") || jobs[k].verdict == Some("REAL")
    ensures StatisticsOf(jobs).realCount == 0 && StatisticsOf(jobs).fakeCount == 0
  {
    if jobs != [] {
      UpperCaseVerdictsUncounted(jobs[..|jobs| - 1]);
    }
  }

  /** With every present score in [0, 1], so is the rounded average. */
  lemma {:induction false} AverageScoreInUnitInterval(jobs: seq<Summary>)
    requires forall k :: 0 <= k < |Scores(jobs)| ==> 0.0 <= Scores(jobs)[k] <= 1.0
    ensures 0.0 <= StatisticsOf(jobs).averageScore <= 1.0
  {
    var scores := Scores(jobs);
    if scores != [] {
      var n := |scores| as real;
      TotalLower(scores, 0.0);
      TotalUpper(scores, 1.0);
      var m := Total(scores) / n;
      assert 0.0 <= m <= 1.0 by {
        Smoothing.MeanBound(Total(scores), |scores|, |scores|, 1.0);
      }
      RoundWithinUnit(m);
    }
  }

  lemma {:induction false} RoundWithinUnit(m: real)
    requires 0.0 <= m <= 1.0
    ensures 0.0 <= Round2(m) <= 1.0
  {
    var k := RoundHalfEven(m * 100.0);
    assert -1.0 / 2.0 <= k as real - m * 100.0 <= 1.0 / 2.0;
    assert 0 <= k <= 100;
  }

  // ---------------------------------------------------------------------------
  // The store.

  class HistoryManager {
    /** The job directories that hold readable metadata, by job id. */
    var jobs: map<string, Job>

    /** Every record is stored under its own id. */
    ghost predicate Valid()
      reads this
    {
      forall id :: id in jobs ==> jobs[id].jobId == id
    }

    constructor()
      ensures Valid() && jobs == map[]
    {
      jobs := map[];
    }

    /** `create_job_metadata`: (over)writes the job's record; every other job is unchanged. */
    method CreateJobMetadata(jobId: string, username: string, filename: string, detectionType: string,
                             model: Option<string>, now: string) returns (job: Job)
      requires Valid()
      modifies this
      ensures Valid()
      ensures job == NewJob(jobId, username, filename, detectionType, model, now)
      ensures jobs == old(jobs)[jobId := job]
    {
      job := NewJob(jobId, username, filename, detectionType, model, now);
      jobs := jobs[jobId := job];
    }

    /** `update_job_status`: an unknown job is an error and changes nothing. */
    method UpdateJobStatus(jobId: string, status: string, result: Option<JobResult>, error: string, now: string)
      returns (r: Result<(), HistoryError>)
      requires Valid()
      modifies this
      ensures Valid()
      ensures jobId !in old(jobs) ==> r == Err(JobNotFound(jobId)) && jobs == old(jobs)
      ensures jobId in old(jobs) ==> r == Ok(()) && jobs == old(jobs)[jobId := Updated(old(jobs)[jobId], status, result, error, now)]
    {
      if jobId !in jobs {
        return Err(JobNotFound(jobId));
      }
      jobs := jobs[jobId := Updated(jobs[jobId], status, result, error, now)];
      return Ok(());
    }

    /**
     * `get_job_details`: the record with the timeline (when there is one)
     * and the report flags, for the owner or an admin; nothing otherwise.
     * The store is only read.
     */
    function GetJobDetails<T>(jobId: string, username: string, role: string,
                              timeline: Option<T>, hasPdf: bool, hasZip: bool): (r: Option<JobDetails<T>>)
      reads this
      ensures r.Some? <==> jobId in jobs && CanAccess(role, username, jobs[jobId].username)
      ensures r.Some? ==> r.value == JobDetails(jobs[jobId], timeline, hasPdf, hasZip)
    {
      if jobId !in jobs then None
      else if !CanAccess(role, username, jobs[jobId].username) then None
      else Some(JobDetails(jobs[jobId], timeline, hasPdf, hasZip))
    }

    /**
     * `get_user_history`: every listed job exactly once, newest first (equal
     * creation times in directory order, which is not modelled), the total
     * before pagination and the page `[offset, offset + limit)`.
     */
    method GetUserHistory(username: string, role: string, limit: int, offset: int, status: string)
      returns (page: HistoryPage, ghost all: seq<Summary>)
      requires Valid()
      ensures forall s :: s in all <==> exists id :: id in jobs && Listed(jobs[id], username, role, status) && s == SummaryOf(jobs[id])
      ensures forall s :: multiset(all)[s] <= 1
      ensures SortedBy(all, NewestFirst)
      ensures page == HistoryPage(|all|, offset, limit, PySlice(all, offset, offset + limit))
    {
      var listed: seq<Summary> := [];
      var remaining := jobs.Keys;
      while remaining != {}
        invariant remaining <= jobs.Keys
        invariant forall s :: s in listed <==>
                    exists id :: id in jobs && id !in remaining && Listed(jobs[id], username, role, status) && s == SummaryOf(jobs[id])
        invariant forall s :: s in listed ==> s.jobId !in remaining
        invariant forall s :: multiset(listed)[s] <= 1
        decreases |remaining|
      {
        var id :| id in remaining;
        var job := jobs[id];
        if CanAccess(role, username, job.username) && (status == "" || job.status == status) {
          var s := SummaryOf(job);
          assert s !in listed;
          listed := listed + [s];
        }
        remaining := remaining - {id};
      }
      NewestFirstIsOrder();
      SortSorted(listed, NewestFirst);
      var sorted := Sort(listed, NewestFirst);
      assert forall s :: s in sorted <==> s in listed by {
        forall s ensures s in sorted <==> s in listed {
          assert s in sorted <==> s in multiset(sorted);
          assert s in listed <==> s in multiset(listed);
        }
      }
      all := sorted;
      page := HistoryPage(|sorted|, offset, limit, PySlice(sorted, offset, offset + limit));
    }

    /** `get_statistics`: the counts over at most the 10000 newest listed jobs. */
    method GetStatistics(username: string, role: string) returns (st: Statistics, ghost all: seq<Summary>)
      requires Valid()
      ensures forall s :: s in all <==> exists id :: id in jobs && CanAccess(role, username, jobs[id].username) && s == SummaryOf(jobs[id])
      ensures SortedBy(all, NewestFirst)
      ensures st == StatisticsOf(all[..if |all| <= 10000 then |all| else 10000])
    {
      var history;
      history, all := GetUserHistory(username, role, 10000, 0, "");
      st := StatisticsOf(history.jobs);
    }

    /** `delete_job`: false for a missing job, an error for a stranger, otherwise exactly that job goes. */
    method DeleteJob(jobId: string, username: string, role: string) returns (r: Result<bool, HistoryError>)
      requires Valid()
      modifies this
      ensures Valid()
      ensures jobId !in old(jobs) ==> r == Ok(false) && jobs == old(jobs)
      ensures jobId in old(jobs) && !CanAccess(role, username, old(jobs)[jobId].username) ==>
                r == Err(PermissionDenied) && jobs == old(jobs)
      ensures jobId in old(jobs) && CanAccess(role, username, old(jobs)[jobId].username) ==>
                r == Ok(true) && jobs == old(jobs) - {jobId}
    {
      if jobId !in jobs {
        return Ok(false);
      }
      if !CanAccess(role, username, jobs[jobId].username) {
        return Err(PermissionDenied);
      }
      jobs := jobs - {jobId};
      return Ok(true);
    }

    /**
     * `cleanup_old_jobs`: times are in seconds and `parse` stands for reading
     * `created_at` with `datetime.fromisoformat`.  When every creation time
     * can be compared with the cutoff `now − days`, exactly the jobs created
     * strictly before it are removed and counted.  Otherwise the TypeError of
     * a job whose time cannot be compared escapes; that job stays, and the
     * expired jobs visited before it are already gone.
     */
    method CleanupOldJobs(days: int, now: int, parse: string -> CreatedAt) returns (r: Result<nat, HistoryError>)
      requires Valid()
      modifies this
      ensures Valid()
      ensures AllComparable(old(jobs), parse) ==>
                r == Ok(|ExpiredIds(old(jobs), now - days * 86400, parse)|) &&
                jobs == old(jobs) - ExpiredIds(old(jobs), now - days * 86400, parse)
      ensures !AllComparable(old(jobs), parse) ==>
                r.Err? && r.error.IncomparableTime? && r.error.id in jobs &&
                parse(jobs[r.error.id].createdAt).Incomparable? &&
                jobs == old(jobs) - (old(jobs).Keys - jobs.Keys) &&
                old(jobs).Keys - jobs.Keys <= ExpiredIds(old(jobs), now - days * 86400, parse)
    {
      var kept;
      kept, r := RemoveExpired(jobs, now - days * 86400, parse);
      jobs := kept;
    }
  }

  /**
   * The scan of `cleanup_old_jobs` over the job directories, removing as it
   * goes, until a creation time cannot be compared with the cutoff.
   */
  method RemoveExpired(jobs: map<string, Job>, cutoff: int, parse: string -> CreatedAt)
    returns (kept: map<string, Job>, r: Result<nat, HistoryError>)
    ensures AllComparable(jobs, parse) ==>
              r == Ok(|ExpiredIds(jobs, cutoff, parse)|) && kept == jobs - ExpiredIds(jobs, cutoff, parse)
    ensures !AllComparable(jobs, parse) ==>
              r.Err? && r.error.IncomparableTime? && r.error.id in kept &&
              parse(kept[r.error.id].createdAt).Incomparable? &&
              kept == jobs - (jobs.Keys - kept.Keys) && jobs.Keys - kept.Keys <= ExpiredIds(jobs, cutoff, parse)
  {
    ghost var removed: set<string> := {};
    kept := jobs;
    var remaining := jobs.Keys;
    var count := 0;
    while remaining != {}
      invariant Sweeping(jobs, cutoff, parse, remaining, removed, kept, count)
      decreases |remaining|
    {
      var id :| id in remaining;
      if parse(kept[id].createdAt).Incomparable? {
        SweepStopped(jobs, cutoff, parse, remaining, removed, kept, count, id);
        return kept, Err(IncomparableTime(id));
      }
      removed, kept, count := VisitJob(jobs, cutoff, parse, remaining, removed, kept, count, id);
      remaining := remaining - {id};
    }
    assert removed == ExpiredIds(jobs, cutoff, parse);
    r := Ok(count);
  }

  /**
   * The sweep so far: the visited jobs all have comparable times, the
   * expired ones among them have been removed and counted, and nothing else.
   */
  ghost predicate Sweeping(jobs: map<string, Job>, cutoff: int, parse: string -> CreatedAt,
                           remaining: set<string>, removed: set<string>, kept: map<string, Job>, count: nat)
  {
    remaining <= jobs.Keys &&
    (forall id :: id in jobs && id !in remaining ==> !parse(jobs[id].createdAt).Incomparable?) &&
    removed == ExpiredIds(jobs, cutoff, parse) - remaining &&
    kept == jobs - removed &&
    count == |removed|
  }

  /** A sweep that meets an incomparable time has removed only expired jobs, and keeps the one it stopped at. */
  lemma SweepStopped(jobs: map<string, Job>, cutoff: int, parse: string -> CreatedAt,
                     remaining: set<string>, removed: set<string>, kept: map<string, Job>, count: nat, id: string)
    requires Sweeping(jobs, cutoff, parse, remaining, removed, kept, count) && id in remaining
    requires parse(kept[id].createdAt).Incomparable?
    ensures !AllComparable(jobs, parse)
    ensures id in kept && kept == jobs - (jobs.Keys - kept.Keys) && jobs.Keys - kept.Keys <= ExpiredIds(jobs, cutoff, parse)
  {
    assert jobs.Keys - kept.Keys == removed;
  }

  /** One job directory of the sweep: removed when its creation time parses and lies before the cutoff. */
  method VisitJob(jobs: map<string, Job>, cutoff: int, parse: string -> CreatedAt, remaining: set<string>,
                  ghost removed: set<string>, kept: map<string, Job>, count: nat, id: string)
    returns (ghost removed': set<string>, kept': map<string, Job>, count': nat)
    requires Sweeping(jobs, cutoff, parse, remaining, removed, kept, count) && id in remaining
    requires !parse(jobs[id].createdAt).Incomparable?
    ensures Sweeping(jobs, cutoff, parse, remaining - {id}, removed', kept', count')
  {
    ghost var expired := ExpiredIds(jobs, cutoff, parse);
    assert id in kept && kept[id] == jobs[id];
    var created := parse(kept[id].createdAt);
    assert id in expired <==> created.Seconds? && created.t < cutoff;
    RemovedStep(expired, remaining, id);
    if created.Seconds? && created.t < cutoff {
      kept' := kept - {id};
      removed' := removed + {id};
      count' := count + 1;
    } else {
      kept', removed', count' := kept, removed, count;
    }
  }

  /** Taking one more id out of the unvisited set adds it to the removed ones exactly when it is expired. */
  lemma RemovedStep(expired: set<string>, remaining: set<string>, id: string)
    requires id in remaining
    ensures id in expired ==> expired - (remaining - {id}) == (expired - remaining) + {id}
    ensures id in expired ==> |(expired - remaining) + {id}| == |expired - remaining| + 1
    ensures id !in expired ==> expired - (remaining - {id}) == expired - remaining
  {
  }

  /**
   * What reading a job's `created_at` and comparing it with the naive cutoff
   * gives: a time in seconds; a ValueError or KeyError, which skips the job;
   * or a TypeError, which escapes the sweep (a time with a zone offset).
   */
  datatype CreatedAt = Seconds(t: int) | Unparsed | Incomparable

  /** Every job's creation time either parses to a comparable time or is skipped. */
  predicate AllComparable(jobs: map<string, Job>, parse: string -> CreatedAt) {
    forall id :: id in jobs ==> !parse(jobs[id].createdAt).Incomparable?
  }

  /** The jobs `cleanup_old_jobs` removes. */
  ghost function ExpiredIds(jobs: map<string, Job>, cutoff: int, parse: string -> CreatedAt): set<string> {
    set id | id in jobs && Expired(jobs[id], cutoff, parse)
  }

  /** A record `cleanup_old_jobs` removes. */
  predicate Expired(j: Job, cutoff: int, parse: string -> CreatedAt) {
    parse(j.createdAt).Seconds? && parse(j.createdAt).t < cutoff
  }
}
