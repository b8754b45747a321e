/**
 * The potential-jobs endpoint (bin/potential.py): a node posts its name as
 * a JSON string and gets back a short description of every job it has not
 * been offered before, which `potential_jobs` tags with that name.
 *
 * `Answered` says what the endpoint answers and how the job directory ends
 * up; `Serve` does it through `Jobs.Scheduler.PotentialJobs` and the append
 * loop of lines 34-41, and is proved to agree.
 */
module Potential {
  import opened Lists
  import opened Jobs

  /** The posted body as far as the endpoint looks at it: a JSON string, or anything else. */
  datatype Body = Name(tag: string) | NotAString

  /** Line 39: the eight keys of a returned job. */
  datatype Snapshot = Snapshot(uuid: string, name: string, created: real, file: string,
                               priority: int, video: bool, requirements: seq<string>, frames: int)

  /** The HTTP outcome: 418 (RFC 2324, section 2.3.2), or the JSON list of snapshots. */
  datatype Answer = Teapot | Listed(snapshots: seq<Snapshot>)

  /**
   * Lines 37-39: the projection of one job.  Counted frames are the ones
   * waiting, being rendered and finished; failed frames are not counted.
   */
  function SnapshotOf(job: Job): (r: Snapshot)
    ensures r.frames >= 0
  {
    Snapshot(job.uuid, job.name, job.created, job.file, job.priority, job.video, job.requirements,
             |job.todo| + |job.working| + |job.done|)
  }

  /** Lines 34-41: one snapshot per job, in order. */
  function Snapshots(jobs: seq<Job>): (r: seq<Snapshot>)
    ensures |r| == |jobs|
    decreases |jobs|
  {
    if |jobs| == 0 then [] else Snapshots(jobs[..|jobs| - 1]) + [SnapshotOf(jobs[|jobs| - 1])]
  }

  /** Lines 22-46: the answer and the job directory afterwards. */
  function Answered(body: Body, order: seq<string>, jobs: map<string, Stored<Job>>): (Answer, map<string, Stored<Job>>) {
    match body
    case NotAString => (Teapot, jobs)
    case Name(tag) =>
      var (ret, js) := Tagging(order, jobs, tag);
      (Listed(Snapshots(ret)), js)
  }

  /** The k-th snapshot describes the k-th job. */
  lemma {:induction false} SnapshotsAt(jobs: seq<Job>, k: nat)
    requires k < |jobs|
    ensures Snapshots(jobs)[k] == SnapshotOf(jobs[k])
    decreases |jobs|
  {
    if k < |jobs| - 1 {
      assert jobs[..|jobs| - 1][k] == jobs[k];
      SnapshotsAt(jobs[..|jobs| - 1], k);
    }
  }

  /**
   * Line 37: the frame count is the frames the job still owes plus those
   * done; the failed list does not enter it.
   */
  lemma SnapshotFrames(job: Job, failed: seq<int>)
    ensures SnapshotOf(job).frames == |Outstanding(job)| + |job.done|
    ensures SnapshotOf(job.(failed := failed)) == SnapshotOf(job)
  {
  }

  /**
   * Handing a frame of a plain job to a node does not change the job's
   * frame count: the frame moves from todo (or a timed-out entry) to working.
   */
  lemma ClaimKeepsFrames(job: Job, ident: string, now: real, retry: bool, tooOld: real)
    requires Claim(job, ident, now, retry, tooOld).Some? && !job.video
    ensures SnapshotOf(Claim(job, ident, now, retry, tooOld).value.0).frames == SnapshotOf(job).frames
  {
    ClaimConserves(job, ident, now, retry, tooOld);
    SnapshotFrames(job, job.failed);
    SnapshotFrames(Claim(job, ident, now, retry, tooOld).value.0, job.failed);
    ClaimShape(job, ident, now, retry, tooOld);
  }

  /** Lines 24-26: anything but a string is a teapot and nothing is tagged. */
  lemma TeapotUnlessString(body: Body, order: seq<string>, jobs: map<string, Stored<Job>>)
    ensures Answered(body, order, jobs).0 == Teapot <==> body.NotAString?
    ensures body.NotAString? ==> Answered(body, order, jobs).1 == jobs
  {
  }

  /**
   * Lines 30-41: one snapshot per readable job not yet offered to the name,
   * in listing order, and each describes that job.
   */
  lemma ListedExactly(tag: string, order: seq<string>, jobs: map<string, Stored<Job>>)
    requires Distinct(order)
    ensures var a := Answered(Name(tag), order, jobs).0;
      var names := TaggableNames(order, jobs, tag);
      a.Listed? && |a.snapshots| == |names|
      && forall k :: 0 <= k < |names| ==>
        names[k] in order && Taggable(names[k], jobs, tag)
        && a.snapshots[k] == SnapshotOf(jobs[names[k]].value)
  {
    TaggingExactly(order, jobs, tag);
    var ret := Tagging(order, jobs, tag).0;
    var names := TaggableNames(order, jobs, tag);
    forall k | 0 <= k < |names|
      ensures Snapshots(ret)[k] == SnapshotOf(jobs[names[k]].value)
    {
      SnapshotsAt(ret, k);
    }
  }

  /** Asking again under the same name lists nothing and changes nothing. */
  lemma SecondAskEmpty(tag: string, order: seq<string>, jobs: map<string, Stored<Job>>)
    requires Distinct(order)
    ensures var js := Answered(Name(tag), order, jobs).1;
      Answered(Name(tag), order, js) == (Listed([]), js)
  {
    TaggingOnce(order, jobs, tag);
  }

  /** Lines 20-46 through the scheduler. */
  method Serve(s: Scheduler, body: Body) returns (a: Answer)
    requires s.Valid()
    modifies s
    ensures s.Valid()
    ensures (a, s.jobs) == Answered(body, old(s.jobOrder), old(s.jobs))
    ensures unchanged(s`jobOrder, s`nodes, s`nodeOrder, s`requireRate, s`requireInit)
  {
    if body.NotAString? {
      return Teapot;
    }
    var jobs := s.PotentialJobs(body.tag);
    var ret: seq<Snapshot> := [];
    var i := 0;
    while i < |jobs|
      invariant 0 <= i <= |jobs|
      invariant ret == Snapshots(jobs[..i])
    {
      var job := jobs[i];
      var frames := |job.todo| + |job.working| + |job.done|;
      var tweaked := Snapshot(job.uuid, job.name, job.created, job.file, job.priority, job.video, job.requirements, frames);
      assert jobs[..i + 1][..i] == jobs[..i];
      ret := ret + [tweaked];
      i := i + 1;
    }
    assert jobs[..i] == jobs;
    return Listed(ret);
  }
}
