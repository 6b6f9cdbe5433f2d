/**
 * One collection cycle: for every scheduler, correlate its currently
 * executing invocations by key, then snapshot every job it knows. One
 * scheduler whose jobs cannot be listed or snapshotted empties the whole
 * cycle; a failure to list the executing invocations escalates.
 */
module JobInformationsList {
  import opened Wrappers
  import opened JobTriggerInformations
  import opened JobInformations

  /**
   * What the scheduler adapter reads from one scheduler: `None` when listing
   * its currently executing invocations, or its jobs, raises.
   */
  datatype Scheduler = Scheduler(
    currentlyExecutingJobs: Option<seq<ExecutionContext>>,
    jobs: Option<seq<JobDetail>>)

  /** The outcome of a cycle: a list of snapshots, or an escaping `IllegalStateException`. */
  datatype Outcome = Collected(jobs: seq<JobInfo>) | IllegalState

  /** Where a cycle stands after some schedulers: still running, emptied, or failed. */
  datatype Sweep = Continue(result: seq<JobInfo>) | ReturnEmpty | ThrowIllegalState

  /** The correlation map: each context under its key, a later one replacing an earlier one. */
  function ContextsById(contexts: seq<ExecutionContext>): map<string, ExecutionContext>
  {
    if |contexts| == 0 then map[]
    else
      var last := contexts[|contexts| - 1];
      ContextsById(contexts[..|contexts| - 1])[last.jobAndTriggerId := last]
  }

  /**
   * How one job is snapshotted given the correlation map. The cycle is
   * stated for any such function; the one the constructor implements is
   * `JobSnapshots`.
   */
  type Snapshotter = (JobDetail, map<string, ExecutionContext>) -> Result<JobInfo>

  /** The job constructor, with the cycle's clock reading and process identity. */
  function JobSnapshots(now: int, identity: ProcessIdentity): Snapshotter
  {
    (job, contexts) => JobOf(job, contexts, now, identity)
  }

  /** The snapshots of `jobs`, or `Err` as soon as one of them raises. */
  function JobsOf(jobs: seq<JobDetail>, contexts: map<string, ExecutionContext>, snapshot: Snapshotter)
    : Result<seq<JobInfo>>
  {
    if |jobs| == 0 then Ok([])
    else
      match JobsOf(jobs[..|jobs| - 1], contexts, snapshot)
      case Err => Err
      case Ok(infos) =>
        match snapshot(jobs[|jobs| - 1], contexts)
        case Err => Err
        case Ok(info) => Ok(infos + [info])
  }

  /** What one scheduler contributes to the cycle. */
  function SchedulerStep(scheduler: Scheduler, snapshot: Snapshotter): Sweep
  {
    match scheduler.currentlyExecutingJobs
    case None => ThrowIllegalState
    case Some(executing) =>
      match scheduler.jobs
      case None => ReturnEmpty
      case Some(jobs) =>
        match JobsOf(jobs, ContextsById(executing), snapshot)
        case Err => ReturnEmpty
        case Ok(infos) => Continue(infos)
  }

  /** The cycle over `schedulers` in order; the first scheduler that does not continue ends it. */
  function SweepOf(schedulers: seq<Scheduler>, snapshot: Snapshotter): Sweep
  {
    if |schedulers| == 0 then Continue([])
    else
      match SweepOf(schedulers[..|schedulers| - 1], snapshot)
      case Continue(result) =>
        (match SchedulerStep(schedulers[|schedulers| - 1], snapshot)
         case Continue(infos) => Continue(result + infos)
         case other => other)
      case other => other
  }

  /** The result of `buildJobInformationsList`. */
  function Collect(quartzAvailable: bool, schedulers: seq<Scheduler>, snapshot: Snapshotter): Outcome
  {
    if !quartzAvailable then Collected([])
    else
      match SweepOf(schedulers, snapshot)
      case Continue(result) => Collected(result)
      case ReturnEmpty => Collected([])
      case ThrowIllegalState => IllegalState
  }

  /** The number of jobs the schedulers list (a scheduler that cannot list counts none). */
  function JobCount(schedulers: seq<Scheduler>): nat
  {
    if |schedulers| == 0 then 0
    else
      var last := schedulers[|schedulers| - 1];
      JobCount(schedulers[..|schedulers| - 1]) + (if last.jobs.Some? then |last.jobs.value| else 0)
  }

  // ---------------------------------------------------------------------
  // The cycle, step by step.
  // ---------------------------------------------------------------------

  /**
   * `buildJobInformationsList`: gated on Quartz being available, builds
   * the correlation map of each scheduler, then a snapshot of each of its
   * jobs, appending to one result list.
   */
  method BuildJobInformationsList(quartzAvailable: bool, schedulers: seq<Scheduler>, now: int,
                                  identity: ProcessIdentity)
    returns (r: Outcome)
    ensures r == Collect(quartzAvailable, schedulers, JobSnapshots(now, identity))
  {
    if !quartzAvailable {
      return Collected([]);
    }
    ghost var snapshot := JobSnapshots(now, identity);
    var result: seq<JobInfo> := [];
    var i := 0;
    while i < |schedulers|
      invariant 0 <= i <= |schedulers|
      invariant SweepOf(schedulers[..i], snapshot) == Continue(result)
    {
      var scheduler := schedulers[i];
      assert schedulers[..i + 1][..i] == schedulers[..i];
      if scheduler.currentlyExecutingJobs.None? {
        SweepStops(schedulers, i + 1, snapshot);
        return IllegalState;
      }
      var currentlyExecutingJobsByContextId := CorrelateExecutingJobs(scheduler.currentlyExecutingJobs.value);
      if scheduler.jobs.None? {
        SweepStops(schedulers, i + 1, snapshot);
        return Collected([]);
      }
      var added := AddJobsOfScheduler(result, scheduler.jobs.value, currentlyExecutingJobsByContextId,
                                      now, identity);
      if added.Err? {
        SweepStops(schedulers, i + 1, snapshot);
        return Collected([]);
      }
      result := added.value;
      i := i + 1;
    }
    assert schedulers[..i] == schedulers;
    r := Collected(result);
  }

  /** The correlation map of one scheduler, filled by successive puts. */
  method CorrelateExecutingJobs(executing: seq<ExecutionContext>)
    returns (currentlyExecutingJobsByContextId: map<string, ExecutionContext>)
    ensures currentlyExecutingJobsByContextId == ContextsById(executing)
  {
    currentlyExecutingJobsByContextId := map[];
    var c := 0;
    while c < |executing|
      invariant 0 <= c <= |executing|
      invariant currentlyExecutingJobsByContextId == ContextsById(executing[..c])
    {
      assert executing[..c + 1][..c] == executing[..c];
      currentlyExecutingJobsByContextId :=
        currentlyExecutingJobsByContextId[executing[c].jobAndTriggerId := executing[c]];
      c := c + 1;
    }
    assert executing[..c] == executing;
  }

  /**
   * The inner loop of the cycle: snapshots the jobs of one scheduler,
   * appending each to `result`; `Err` when one of them raises.
   */
  method AddJobsOfScheduler(result: seq<JobInfo>, jobs: seq<JobDetail>,
                            contexts: map<string, ExecutionContext>, now: int, identity: ProcessIdentity)
    returns (r: Result<seq<JobInfo>>)
    ensures var built := JobsOf(jobs, contexts, JobSnapshots(now, identity));
      && (r.Err? <==> built.Err?)
      && (r.Ok? ==> r.value == result + built.value)
  {
    ghost var snapshot := JobSnapshots(now, identity);
    ghost var built: seq<JobInfo> := [];
    var extended := result;
    var j := 0;
    while j < |jobs|
      invariant 0 <= j <= |jobs|
      invariant JobsOf(jobs[..j], contexts, snapshot) == Ok(built)
      invariant extended == result + built
    {
      assert jobs[..j + 1][..j] == jobs[..j];
      var job := NewJobInformations(jobs[j], contexts, now, identity);
      assert snapshot(jobs[j], contexts) == job;
      if job.Err? {
        JobsOfStops(jobs, j + 1, contexts, snapshot);
        return Err;
      }
      extended := extended + [job.value];
      built := built + [job.value];
      j := j + 1;
    }
    assert jobs[..j] == jobs;
    r := Ok(extended);
  }

  // ---------------------------------------------------------------------
  // Properties of the cycle.
  // ---------------------------------------------------------------------

  /** Once a prefix of the jobs fails, the whole list fails. */
  lemma {:induction false} JobsOfStops(jobs: seq<JobDetail>, n: nat, contexts: map<string, ExecutionContext>,
                                       snapshot: Snapshotter)
    requires n <= |jobs|
    requires JobsOf(jobs[..n], contexts, snapshot).Err?
    ensures JobsOf(jobs, contexts, snapshot).Err?
    decreases |jobs| - n
  {
    if n < |jobs| {
      assert jobs[..n + 1][..n] == jobs[..n];
      JobsOfStops(jobs, n + 1, contexts, snapshot);
    } else {
      assert jobs[..n] == jobs;
    }
  }

  /** Once a prefix of the schedulers ends the cycle, the later ones change nothing. */
  lemma {:induction false} SweepStops(schedulers: seq<Scheduler>, n: nat, snapshot: Snapshotter)
    requires n <= |schedulers|
    requires !SweepOf(schedulers[..n], snapshot).Continue?
    ensures SweepOf(schedulers, snapshot) == SweepOf(schedulers[..n], snapshot)
    decreases |schedulers| - n
  {
    if n < |schedulers| {
      assert schedulers[..n + 1][..n] == schedulers[..n];
      SweepStops(schedulers, n + 1, snapshot);
    } else {
      assert schedulers[..n] == schedulers;
    }
  }

  /**
   * The correlation map holds a key iff some executing invocation has it,
   * and then holds the last such invocation.
   */
  lemma {:induction false} ContextsByIdLastWins(contexts: seq<ExecutionContext>, key: string)
    ensures var m := ContextsById(contexts);
      && (key in m <==> exists i :: 0 <= i < |contexts| && contexts[i].jobAndTriggerId == key)
      && (key in m ==>
            exists i :: 0 <= i < |contexts| && contexts[i] == m[key] && m[key].jobAndTriggerId == key
              && forall j :: i < j < |contexts| ==> contexts[j].jobAndTriggerId != key)
  {
    if |contexts| > 0 {
      var n := |contexts| - 1;
      ContextsByIdLastWins(contexts[..n], key);
      assert forall i :: 0 <= i < n ==> contexts[..n][i] == contexts[i];
      var m := ContextsById(contexts);
      if contexts[n].jobAndTriggerId != key && key in m {
        var i :| 0 <= i < n && contexts[..n][i] == m[key] && m[key].jobAndTriggerId == key
          && forall j :: i < j < n ==> contexts[..n][j].jobAndTriggerId != key;
        assert contexts[i] == m[key];
      }
    }
  }

  /** The snapshots of a list of jobs: one per job, in order, or a failure iff some job's fails. */
  lemma {:induction false} JobsOfSpec(jobs: seq<JobDetail>, contexts: map<string, ExecutionContext>,
                                      snapshot: Snapshotter)
    ensures var r := JobsOf(jobs, contexts, snapshot);
      && (r.Err? <==> exists k :: 0 <= k < |jobs| && snapshot(jobs[k], contexts).Err?)
      && (r.Ok? ==>
            && |r.value| == |jobs|
            && forall k :: 0 <= k < |jobs| ==> snapshot(jobs[k], contexts) == Ok(r.value[k]))
  {
    if |jobs| > 0 {
      var n := |jobs| - 1;
      JobsOfSpec(jobs[..n], contexts, snapshot);
      assert forall k :: 0 <= k < n ==> jobs[..n][k] == jobs[k];
      if JobsOf(jobs[..n], contexts, snapshot).Err? {
        var k :| 0 <= k < n && snapshot(jobs[..n][k], contexts).Err?;
        assert snapshot(jobs[k], contexts).Err?;
      }
    }
  }

  /**
   * The cycle keeps going through every scheduler iff each of them
   * continues, and then it has as many snapshots as listed jobs (which
   * ones, and where, is `SweepContents`).
   */
  lemma {:induction false} SweepContinuesIff(schedulers: seq<Scheduler>, snapshot: Snapshotter)
    ensures var s := SweepOf(schedulers, snapshot);
      && (s.Continue? <==> forall k :: 0 <= k < |schedulers| ==> SchedulerStep(schedulers[k], snapshot).Continue?)
      && (s.Continue? ==> |s.result| == JobCount(schedulers))
  {
    if |schedulers| > 0 {
      var n := |schedulers| - 1;
      SweepContinuesIff(schedulers[..n], snapshot);
      assert forall k :: 0 <= k < n ==> schedulers[..n][k] == schedulers[k];
      var last := schedulers[n];
      if SchedulerStep(last, snapshot).Continue? {
        JobsOfSpec(last.jobs.value, ContextsById(last.currentlyExecutingJobs.value), snapshot);
      }
    }
  }

  /**
   * The snapshot of job `j` of scheduler `k` sits in `s` right after the
   * snapshots of the jobs of the schedulers before `k` and of the jobs
   * listed before `j`.
   */
  predicate PlacedAt(schedulers: seq<Scheduler>, s: seq<JobInfo>, snapshot: Snapshotter, k: nat, j: nat)
    requires k < |schedulers|
    requires schedulers[k].currentlyExecutingJobs.Some? && schedulers[k].jobs.Some?
    requires j < |schedulers[k].jobs.value|
  {
    var at := JobCount(schedulers[..k]) + j;
    && at < |s|
    && snapshot(schedulers[k].jobs.value[j], ContextsById(schedulers[k].currentlyExecutingJobs.value)) == Ok(s[at])
  }

  /**
   * A cycle that goes through every scheduler holds, scheduler after
   * scheduler and job after job, the snapshot of each listed job built with
   * its scheduler's correlation map.
   */
  lemma {:induction false} SweepContents(schedulers: seq<Scheduler>, snapshot: Snapshotter)
    requires SweepOf(schedulers, snapshot).Continue?
    ensures forall k: nat, j: nat | k < |schedulers| && schedulers[k].currentlyExecutingJobs.Some?
                                  && schedulers[k].jobs.Some? && j < |schedulers[k].jobs.value| ::
              PlacedAt(schedulers, SweepOf(schedulers, snapshot).result, snapshot, k, j)
  {
    if |schedulers| > 0 {
      var n := |schedulers| - 1;
      var init, last := schedulers[..n], schedulers[n];
      assert SweepOf(init, snapshot).Continue?;
      SweepContinuesIff(init, snapshot);
      SweepContents(init, snapshot);
      JobsOfSpec(last.jobs.value, ContextsById(last.currentlyExecutingJobs.value), snapshot);
      var s0, infos := SweepOf(init, snapshot).result, SchedulerStep(last, snapshot).result;
      var s := SweepOf(schedulers, snapshot).result;
      assert s == s0 + infos;
      forall k: nat, j: nat | k < |schedulers| && schedulers[k].currentlyExecutingJobs.Some?
                            && schedulers[k].jobs.Some? && j < |schedulers[k].jobs.value|
        ensures PlacedAt(schedulers, s, snapshot, k, j)
      {
        if k < n {
          assert init[..k] == schedulers[..k];
          assert PlacedAt(init, s0, snapshot, k, j);
        } else {
          assert schedulers[..k] == init;
        }
      }
    }
  }

  /**
   * With the job constructor, a scheduler whose listings succeed empties the
   * cycle iff one of its jobs cannot be snapshotted; otherwise it
   * contributes one snapshot per job, in listing order, each built with the
   * scheduler's correlation map.
   */
  lemma SchedulerStepOfJobs(scheduler: Scheduler, now: int, identity: ProcessIdentity)
    requires scheduler.currentlyExecutingJobs.Some? && scheduler.jobs.Some?
    ensures var contexts := ContextsById(scheduler.currentlyExecutingJobs.value);
      var jobs := scheduler.jobs.value;
      var step := SchedulerStep(scheduler, JobSnapshots(now, identity));
      && (step == ReturnEmpty <==> exists k :: 0 <= k < |jobs| && JobOf(jobs[k], contexts, now, identity).Err?)
      && (step.Continue? ==>
            && |step.result| == |jobs|
            && forall k :: 0 <= k < |jobs| ==> JobOf(jobs[k], contexts, now, identity) == Ok(step.result[k]))
  {
    var contexts := ContextsById(scheduler.currentlyExecutingJobs.value);
    var snapshot := JobSnapshots(now, identity);
    JobsOfSpec(scheduler.jobs.value, contexts, snapshot);
    forall job: JobDetail ensures snapshot(job, contexts) == JobOf(job, contexts, now, identity) {
    }
  }

  /** Without Quartz, the cycle is empty. */
  lemma UnavailableIsEmpty(schedulers: seq<Scheduler>, snapshot: Snapshotter)
    ensures Collect(false, schedulers, snapshot) == Collected([])
  {
  }

  /**
   * Never a partial picture: a cycle that returns snapshots went through
   * every scheduler successfully, and returns exactly the snapshot of each
   * listed job, scheduler after scheduler, in listing order.
   */
  lemma NonEmptyMeansComplete(schedulers: seq<Scheduler>, snapshot: Snapshotter)
    requires Collect(true, schedulers, snapshot).Collected?
    requires Collect(true, schedulers, snapshot).jobs != []
    ensures forall k :: 0 <= k < |schedulers| ==> SchedulerStep(schedulers[k], snapshot).Continue?
    ensures |Collect(true, schedulers, snapshot).jobs| == JobCount(schedulers)
    ensures forall k: nat, j: nat | k < |schedulers| && schedulers[k].currentlyExecutingJobs.Some?
                                  && schedulers[k].jobs.Some? && j < |schedulers[k].jobs.value| ::
              PlacedAt(schedulers, Collect(true, schedulers, snapshot).jobs, snapshot, k, j)
  {
    SweepContinuesIff(schedulers, snapshot);
    SweepContents(schedulers, snapshot);
  }

  /**
   * A scheduler whose jobs cannot be listed or snapshotted, reached with
   * every earlier scheduler fine, empties the cycle, discarding the
   * snapshots of the earlier schedulers.
   */
  lemma SchedulerFailureEmptiesCycle(schedulers: seq<Scheduler>, i: nat, snapshot: Snapshotter)
    requires i < |schedulers|
    requires forall k :: 0 <= k < i ==> SchedulerStep(schedulers[k], snapshot).Continue?
    requires SchedulerStep(schedulers[i], snapshot) == ReturnEmpty
    ensures Collect(true, schedulers, snapshot) == Collected([])
  {
    SweepContinuesIff(schedulers[..i], snapshot);
    assert schedulers[..i + 1][..i] == schedulers[..i];
    SweepStops(schedulers, i + 1, snapshot);
  }

  /**
   * A scheduler whose executing invocations cannot be listed, reached with
   * every earlier scheduler fine, makes the cycle raise.
   */
  lemma ListingFailureEscalates(schedulers: seq<Scheduler>, i: nat, snapshot: Snapshotter)
    requires i < |schedulers|
    requires forall k :: 0 <= k < i ==> SchedulerStep(schedulers[k], snapshot).Continue?
    requires schedulers[i].currentlyExecutingJobs.None?
    ensures Collect(true, schedulers, snapshot) == IllegalState
  {
    SweepContinuesIff(schedulers[..i], snapshot);
    assert schedulers[..i + 1][..i] == schedulers[..i];
    SweepStops(schedulers, i + 1, snapshot);
  }
}
