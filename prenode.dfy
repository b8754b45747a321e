/**
 * The counting step of the cluster launcher (prenode/run.py lines 51-73):
 * from the snapshots the potential endpoint returns, the number of jobs to
 * issue to the cluster, and whether the cluster command is issued at all.
 */
module Prenode {
  import opened Py
  import opened Potential

  /** Lines 55-59: every capability the job requires is provided. */
  predicate Runnable(job: Snapshot, offered: seq<string>) {
    forall r :: r in job.requirements ==> r in offered
  }

  /** Lines 61-66: what one job adds to the count. */
  function Share(job: Snapshot, offered: seq<string>): int {
    if !Runnable(job, offered) then 0 else if job.video then 1 else job.frames
  }

  /** Lines 51-66: the count over the jobs `jobs`. */
  function Total(jobs: seq<Snapshot>, offered: seq<string>): int {
    if |jobs| == 0 then 0 else Total(jobs[..|jobs| - 1], offered) + Share(jobs[|jobs| - 1], offered)
  }

  /** Lines 71-73: the count handed to the cluster command, when there is one. */
  function Issued(total: int): (r: Option<int>)
    ensures r.Some? <==> total != 0
    ensures r.Some? ==> r.value == total
  {
    if total != 0 then Some(total) else None
  }

  /** The count of two runs of jobs is the sum of their counts. */
  lemma {:induction false} TotalAppend(js: seq<Snapshot>, ks: seq<Snapshot>, offered: seq<string>)
    ensures Total(js + ks, offered) == Total(js, offered) + Total(ks, offered)
    decreases |ks|
  {
    if |ks| == 0 {
      assert js + ks == js;
    } else {
      var all := js + ks;
      assert all[..|all| - 1] == js + ks[..|ks| - 1];
      TotalAppend(js, ks[..|ks| - 1], offered);
    }
  }

  /**
   * With frame counts that are never negative, as `SnapshotOf` makes them,
   * the count is zero exactly when no runnable job is a video job or has
   * a frame, so the command is issued exactly when some runnable job has
   * work.
   */
  lemma {:induction false} TotalZero(jobs: seq<Snapshot>, offered: seq<string>)
    requires forall i :: 0 <= i < |jobs| ==> jobs[i].frames >= 0
    ensures Total(jobs, offered) >= 0
    ensures Total(jobs, offered) == 0 <==> forall i :: 0 <= i < |jobs| ==> Share(jobs[i], offered) == 0
  {
    if |jobs| > 0 {
      var n := |jobs| - 1;
      var front := jobs[..n];
      assert forall i :: 0 <= i < n ==> front[i] == jobs[i];
      TotalZero(front, offered);
    }
  }

  /** Lines 55-59 as the source runs them: stop at the first capability not provided. */
  method Runs(job: Snapshot, offered: seq<string>) returns (run: bool)
    ensures run == Runnable(job, offered)
  {
    run := true;
    for k := 0 to |job.requirements|
      invariant forall i :: 0 <= i < k ==> job.requirements[i] in offered
    {
      if job.requirements[k] !in offered {
        run := false;
        break;
      }
    }
  }

  /** Lines 51-66 as the source runs them. */
  method CountJobs(jobs: seq<Snapshot>, offered: seq<string>) returns (total: int)
    ensures total == Total(jobs, offered)
  {
    total := 0;
    for k := 0 to |jobs|
      invariant total == Total(jobs[..k], offered)
    {
      var job := jobs[k];
      var run := Runs(job, offered);
      if run {
        if job.video {
          total := total + 1;
        } else {
          total := total + job.frames;
        }
      }
      assert jobs[..k + 1][..k] == jobs[..k];
    }
    assert jobs[..|jobs|] == jobs;
  }
}
