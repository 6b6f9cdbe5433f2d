/**
 * The snapshot of one Quartz job: its identity, the snapshots of its
 * triggers in enumeration order, and job-level fields folded from them.
 */
module JobInformations {
  import opened Wrappers
  import opened JavaLang
  import opened JobTriggerInformations

  /**
   * What the scheduler adapter reads from one job. `fullName` is the
   * adapter's fully qualified job name; `triggers` is `None` when listing
   * the job's triggers raises.
   */
  datatype JobDetail = JobDetail(
    group: string,
    name: string,
    description: string,
    jobClassName: string,
    fullName: string,
    triggers: Option<seq<Trigger>>)

  /** The identity of the monitored process: its PID and its host address. */
  datatype ProcessIdentity = ProcessIdentity(pid: string, hostAddress: string)

  /** The immutable snapshot of a job; its getters are the fields. */
  datatype JobInfo = JobInfo(
    group: string,
    name: string,
    description: string,
    jobClassName: string,
    previousFireTime: Option<int>,
    nextFireTime: Option<int>,
    elapsedTime: int,
    repeatInterval: int,
    cronExpression: Option<string>,
    paused: bool,
    globalJobId: GlobalJobId,
    triggerInformations: seq<TriggerInfo>)

  // ---------------------------------------------------------------------
  // Specification of the fold: one function per aggregated field, each
  // defined over the trigger snapshots by peeling off the last one.
  // ---------------------------------------------------------------------

  /** The later of two optional times, ignoring an absent one. */
  function Later(a: Option<int>, b: Option<int>): Option<int>
  {
    match (a, b)
    case (None, _) => b
    case (_, None) => a
    case (Some(x), Some(y)) => Some(if x < y then y else x)
  }

  /** The earlier of two optional times, ignoring an absent one. */
  function Earlier(a: Option<int>, b: Option<int>): Option<int>
  {
    match (a, b)
    case (None, _) => b
    case (_, None) => a
    case (Some(x), Some(y)) => Some(if y < x then y else x)
  }

  function LatestPreviousFireTime(infos: seq<TriggerInfo>): Option<int>
  {
    if |infos| == 0 then None
    else Later(LatestPreviousFireTime(infos[..|infos| - 1]), infos[|infos| - 1].previousFireTime)
  }

  function EarliestNextFireTime(infos: seq<TriggerInfo>): Option<int>
  {
    if |infos| == 0 then None
    else Earlier(EarliestNextFireTime(infos[..|infos| - 1]), infos[|infos| - 1].nextFireTime)
  }

  function AllPaused(infos: seq<TriggerInfo>): bool
  {
    if |infos| == 0 then true
    else AllPaused(infos[..|infos| - 1]) && infos[|infos| - 1].paused
  }

  function MaxElapsedTime(infos: seq<TriggerInfo>): int
  {
    if |infos| == 0 then NOT_EXECUTING
    else
      var m := MaxElapsedTime(infos[..|infos| - 1]);
      var e := infos[|infos| - 1].elapsedTime;
      if m < e then e else m
  }

  function LastRepeatInterval(infos: seq<TriggerInfo>): int
  {
    if |infos| == 0 then NO_REPEAT_INTERVAL
    else if infos[|infos| - 1].repeatInterval != NO_REPEAT_INTERVAL then infos[|infos| - 1].repeatInterval
    else LastRepeatInterval(infos[..|infos| - 1])
  }

  function LastCronExpression(infos: seq<TriggerInfo>): Option<string>
  {
    if |infos| == 0 then None
    else if infos[|infos| - 1].cronExpression.Some? then infos[|infos| - 1].cronExpression
    else LastCronExpression(infos[..|infos| - 1])
  }

  /** The context the correlation map holds under `key`, if any. */
  function Lookup(contexts: map<string, ExecutionContext>, key: string): Option<ExecutionContext>
  {
    if key in contexts then Some(contexts[key]) else None
  }

  /** The snapshots of `triggers`, each built with its correlated context. */
  function TriggerInfosOf(triggers: seq<Trigger>, contexts: map<string, ExecutionContext>, now: int)
    : Result<seq<TriggerInfo>>
  {
    if |triggers| == 0 then Ok([])
    else
      var last := triggers[|triggers| - 1];
      match TriggerInfosOf(triggers[..|triggers| - 1], contexts, now)
      case Err => Err
      case Ok(infos) =>
        match Build(last, Lookup(contexts, last.jobAndTriggerId), now)
        case Err => Err
        case Ok(info) => Ok(infos + [info])
  }

  /**
   * The fleet-wide identifier of a job, kept as its parts: the process
   * identity and the `String.hashCode` of the job's full name. `Text` is the
   * string the source builds from them.
   */
  datatype GlobalJobId = GlobalJobId(identity: ProcessIdentity, fullNameHash: int)
  {
    function Text(): (t: string)
      ensures var p := |identity.pid| + |identity.hostAddress| + 2;
        && p < |t|
        && t[..p] == identity.pid + "_" + identity.hostAddress + "_"
        && t[p..] == IntToString(fullNameHash)
    {
      identity.pid + "_" + identity.hostAddress + "_" + IntToString(fullNameHash)
    }
  }

  /** The snapshot of `job`, or `Err` when reading its triggers raises. */
  function JobOf(job: JobDetail, contexts: map<string, ExecutionContext>, now: int, identity: ProcessIdentity)
    : Result<JobInfo>
  {
    match job.triggers
    case None => Err
    case Some(triggers) =>
      match TriggerInfosOf(triggers, contexts, now)
      case Err => Err
      case Ok(infos) =>
        Ok(JobInfo(
          job.group,
          job.name,
          job.description,
          job.jobClassName,
          LatestPreviousFireTime(infos),
          EarliestNextFireTime(infos),
          MaxElapsedTime(infos),
          LastRepeatInterval(infos),
          LastCronExpression(infos),
          AllPaused(infos),
          GlobalJobId(identity, HashCode(job.fullName)),
          infos))
  }

  /** `isCurrentlyExecuting`: some trigger's execution is in progress. */
  function IsCurrentlyExecuting(job: JobInfo): (r: bool)
    ensures r ==> job.elapsedTime != NOT_EXECUTING
    ensures !r ==> job.elapsedTime <= NOT_EXECUTING
  {
    job.elapsedTime >= 0
  }

  // ---------------------------------------------------------------------
  // The constructor: one pass over the triggers with six accumulators.
  // ---------------------------------------------------------------------

  /**
   * Builds the snapshot of `job`: enumerates its triggers, builds each
   * trigger's snapshot with the context correlated under its key, and folds
   * them into the job-level fields.
   */
  method NewJobInformations(job: JobDetail, contexts: map<string, ExecutionContext>, now: int,
                            identity: ProcessIdentity)
    returns (r: Result<JobInfo>)
    ensures r == JobOf(job, contexts, now, identity)
  {
    if job.triggers.None? {
      return Err;
    }
    var triggers := job.triggers.value;
    var triggerInformations: seq<TriggerInfo> := [];
    var groupJobPaused := true;
    var groupPreviousFireTime: Option<int> := None;
    var groupNextFireTime: Option<int> := None;
    var groupElapsedTime := NOT_EXECUTING;
    var groupRepeatInterval := NO_REPEAT_INTERVAL;
    var groupCronExpression: Option<string> := None;
    var i := 0;
    while i < |triggers|
      invariant 0 <= i <= |triggers|
      invariant TriggerInfosOf(triggers[..i], contexts, now) == Ok(triggerInformations)
      invariant groupPreviousFireTime == LatestPreviousFireTime(triggerInformations)
      invariant groupNextFireTime == EarliestNextFireTime(triggerInformations)
      invariant groupJobPaused == AllPaused(triggerInformations)
      invariant groupElapsedTime == MaxElapsedTime(triggerInformations)
      invariant groupRepeatInterval == LastRepeatInterval(triggerInformations)
      invariant groupCronExpression == LastCronExpression(triggerInformations)
    {
      var trigger := triggers[i];
      var built := Build(trigger, Lookup(contexts, trigger.jobAndTriggerId), now);
      if built.Err? {
        assert trigger.pausedState.None?;
        TriggerInfosOfSpec(triggers, contexts, now);
        return Err;
      }
      var info := built.value;
      assert triggers[..i + 1][..i] == triggers[..i];
      FoldStep(triggerInformations, info);
      triggerInformations := triggerInformations + [info];

      if groupPreviousFireTime.None?
        || (info.previousFireTime.Some? && groupPreviousFireTime.value < info.previousFireTime.value)
      {
        groupPreviousFireTime := info.previousFireTime;
      }
      if groupNextFireTime.None?
        || (info.nextFireTime.Some? && groupNextFireTime.value > info.nextFireTime.value)
      {
        groupNextFireTime := info.nextFireTime;
      }
      groupJobPaused := groupJobPaused && info.paused;
      groupElapsedTime := if groupElapsedTime >= info.elapsedTime then groupElapsedTime else info.elapsedTime;
      if info.repeatInterval != NO_REPEAT_INTERVAL {
        groupRepeatInterval := info.repeatInterval;
      }
      if info.cronExpression.Some? {
        groupCronExpression := info.cronExpression;
      }
      i := i + 1;
    }
    assert triggers[..i] == triggers;
    r := Ok(JobInfo(
      job.group,
      job.name,
      job.description,
      job.jobClassName,
      groupPreviousFireTime,
      groupNextFireTime,
      groupElapsedTime,
      groupRepeatInterval,
      groupCronExpression,
      groupJobPaused,
      GlobalJobId(identity, HashCode(job.fullName)),
      triggerInformations));
  }

  /** Each specification function, one trigger snapshot further. */
  lemma FoldStep(infos: seq<TriggerInfo>, info: TriggerInfo)
    ensures var next := infos + [info];
      && LatestPreviousFireTime(next) == Later(LatestPreviousFireTime(infos), info.previousFireTime)
      && EarliestNextFireTime(next) == Earlier(EarliestNextFireTime(infos), info.nextFireTime)
      && AllPaused(next) == (AllPaused(infos) && info.paused)
      && MaxElapsedTime(next) == (if MaxElapsedTime(infos) < info.elapsedTime then info.elapsedTime
                                  else MaxElapsedTime(infos))
      && LastRepeatInterval(next) == (if info.repeatInterval != NO_REPEAT_INTERVAL then info.repeatInterval
                                      else LastRepeatInterval(infos))
      && LastCronExpression(next) == (if info.cronExpression.Some? then info.cronExpression
                                      else LastCronExpression(infos))
  {
  }

  // ---------------------------------------------------------------------
  // What the fold computes.
  // ---------------------------------------------------------------------

  /**
   * The trigger snapshots are one per trigger, in enumeration order, each
   * built with the context the map holds under the trigger's key; building
   * fails exactly when some trigger's pause lookup fails.
   */
  lemma {:induction false} TriggerInfosOfSpec(triggers: seq<Trigger>, contexts: map<string, ExecutionContext>, now: int)
    ensures var r := TriggerInfosOf(triggers, contexts, now);
      && (r.Err? <==> exists k :: 0 <= k < |triggers| && triggers[k].pausedState.None?)
      && (r.Ok? ==>
            && |r.value| == |triggers|
            && forall k :: 0 <= k < |triggers| ==>
                 Build(triggers[k], Lookup(contexts, triggers[k].jobAndTriggerId), now) == Ok(r.value[k]))
  {
    if |triggers| > 0 {
      var n := |triggers| - 1;
      var init := triggers[..n];
      TriggerInfosOfSpec(init, contexts, now);
      assert forall k :: 0 <= k < n ==> init[k] == triggers[k];
      var r := TriggerInfosOf(triggers, contexts, now);
      if TriggerInfosOf(init, contexts, now).Err? {
        var k :| 0 <= k < n && init[k].pausedState.None?;
        assert triggers[k].pausedState.None?;
      }
    }
  }

  /**
   * Snapshotting a job fails exactly when listing its triggers or the pause
   * lookup of one of them fails; otherwise the job's identity is copied and
   * it has one trigger snapshot per trigger, in order, each built with the
   * context correlated under that trigger's key.
   */
  lemma JobOfSpec(job: JobDetail, contexts: map<string, ExecutionContext>, now: int, identity: ProcessIdentity)
    ensures var r := JobOf(job, contexts, now, identity);
      && (r.Err? <==>
            job.triggers.None?
            || exists k :: 0 <= k < |job.triggers.value| && job.triggers.value[k].pausedState.None?)
      && (r.Ok? ==>
            && r.value.group == job.group
            && r.value.name == job.name
            && r.value.description == job.description
            && r.value.jobClassName == job.jobClassName
            && r.value.globalJobId == GlobalJobId(identity, HashCode(job.fullName))
            && |r.value.triggerInformations| == |job.triggers.value|
            && forall k :: 0 <= k < |job.triggers.value| ==>
                 var trigger := job.triggers.value[k];
                 Build(trigger, Lookup(contexts, trigger.jobAndTriggerId), now) == Ok(r.value.triggerInformations[k]))
  {
    if job.triggers.Some? {
      TriggerInfosOfSpec(job.triggers.value, contexts, now);
    }
  }

  /** Job `previousFireTime` is the latest trigger one; absent iff every trigger's is. */
  lemma {:induction false} LatestPreviousFireTimeIsMax(infos: seq<TriggerInfo>)
    ensures var r := LatestPreviousFireTime(infos);
      && (r.None? <==> forall k :: 0 <= k < |infos| ==> infos[k].previousFireTime.None?)
      && (r.Some? ==> exists k :: 0 <= k < |infos| && infos[k].previousFireTime == r)
      && (forall k :: 0 <= k < |infos| && infos[k].previousFireTime.Some? ==>
            r.Some? && infos[k].previousFireTime.value <= r.value)
  {
    if |infos| > 0 {
      var n := |infos| - 1;
      LatestPreviousFireTimeIsMax(infos[..n]);
      assert forall k :: 0 <= k < n ==> infos[..n][k] == infos[k];
      var r0 := LatestPreviousFireTime(infos[..n]);
      if r0.Some? && infos[n].previousFireTime.Some? {
        var k :| 0 <= k < n && infos[..n][k].previousFireTime == r0;
      } else if r0.Some? {
        var k :| 0 <= k < n && infos[..n][k].previousFireTime == r0;
      }
    }
  }

  /** Job `nextFireTime` is the earliest trigger one; absent iff every trigger's is. */
  lemma {:induction false} EarliestNextFireTimeIsMin(infos: seq<TriggerInfo>)
    ensures var r := EarliestNextFireTime(infos);
      && (r.None? <==> forall k :: 0 <= k < |infos| ==> infos[k].nextFireTime.None?)
      && (r.Some? ==> exists k :: 0 <= k < |infos| && infos[k].nextFireTime == r)
      && (forall k :: 0 <= k < |infos| && infos[k].nextFireTime.Some? ==>
            r.Some? && r.value <= infos[k].nextFireTime.value)
  {
    if |infos| > 0 {
      var n := |infos| - 1;
      EarliestNextFireTimeIsMin(infos[..n]);
      assert forall k :: 0 <= k < n ==> infos[..n][k] == infos[k];
      var r0 := EarliestNextFireTime(infos[..n]);
      if r0.Some? {
        var k :| 0 <= k < n && infos[..n][k].nextFireTime == r0;
      }
    }
  }

  /** Job `paused` holds iff every trigger is paused (so a job without triggers is paused). */
  lemma {:induction false} AllPausedIff(infos: seq<TriggerInfo>)
    ensures AllPaused(infos) <==> forall k :: 0 <= k < |infos| ==> infos[k].paused
  {
    if |infos| > 0 {
      var n := |infos| - 1;
      AllPausedIff(infos[..n]);
      assert forall k :: 0 <= k < n ==> infos[..n][k] == infos[k];
    }
  }

  /** Job `elapsedTime` is the maximum of -1 and every trigger's elapsed time. */
  lemma {:induction false} MaxElapsedTimeIsMax(infos: seq<TriggerInfo>)
    ensures var r := MaxElapsedTime(infos);
      && r >= NOT_EXECUTING
      && (forall k :: 0 <= k < |infos| ==> infos[k].elapsedTime <= r)
      && (r == NOT_EXECUTING || exists k :: 0 <= k < |infos| && infos[k].elapsedTime == r)
  {
    if |infos| > 0 {
      var n := |infos| - 1;
      MaxElapsedTimeIsMax(infos[..n]);
      assert forall k :: 0 <= k < n ==> infos[..n][k] == infos[k];
      var r0 := MaxElapsedTime(infos[..n]);
      if r0 != NOT_EXECUTING {
        var k :| 0 <= k < n && infos[..n][k].elapsedTime == r0;
      }
    }
  }

  /**
   * Job `repeatInterval` is the value of the last trigger whose interval is
   * not -1 (every later trigger has -1), and -1 iff every trigger has -1.
   */
  lemma {:induction false} LastRepeatIntervalWins(infos: seq<TriggerInfo>)
    ensures var r := LastRepeatInterval(infos);
      && (r == NO_REPEAT_INTERVAL <==> forall k :: 0 <= k < |infos| ==> infos[k].repeatInterval == NO_REPEAT_INTERVAL)
      && (r != NO_REPEAT_INTERVAL ==>
            exists k :: 0 <= k < |infos| && infos[k].repeatInterval == r
              && forall j :: k < j < |infos| ==> infos[j].repeatInterval == NO_REPEAT_INTERVAL)
  {
    if |infos| > 0 {
      var n := |infos| - 1;
      LastRepeatIntervalWins(infos[..n]);
      assert forall k :: 0 <= k < n ==> infos[..n][k] == infos[k];
      var r := LastRepeatInterval(infos);
      if infos[n].repeatInterval == NO_REPEAT_INTERVAL && r != NO_REPEAT_INTERVAL {
        var k :| 0 <= k < n && infos[..n][k].repeatInterval == r
          && forall j :: k < j < n ==> infos[..n][j].repeatInterval == NO_REPEAT_INTERVAL;
        assert infos[k].repeatInterval == r;
      }
    }
  }

  /**
   * Job `cronExpression` is the expression of the last trigger that has one,
   * and absent iff no trigger has one.
   */
  lemma {:induction false} LastCronExpressionWins(infos: seq<TriggerInfo>)
    ensures var r := LastCronExpression(infos);
      && (r.None? <==> forall k :: 0 <= k < |infos| ==> infos[k].cronExpression.None?)
      && (r.Some? ==>
            exists k :: 0 <= k < |infos| && infos[k].cronExpression == r
              && forall j :: k < j < |infos| ==> infos[j].cronExpression.None?)
  {
    if |infos| > 0 {
      var n := |infos| - 1;
      LastCronExpressionWins(infos[..n]);
      assert forall k :: 0 <= k < n ==> infos[..n][k] == infos[k];
      var r := LastCronExpression(infos);
      if infos[n].cronExpression.None? && r.Some? {
        var k :| 0 <= k < n && infos[..n][k].cronExpression == r
          && forall j :: k < j < n ==> infos[..n][j].cronExpression.None?;
        assert infos[k].cronExpression == r;
      }
    }
  }

  /**
   * The job-level fields of a snapshot, stated against its trigger
   * snapshots: latest previous fire time, earliest next fire time, paused
   * iff every trigger is, elapsed time the maximum of -1 and the triggers',
   * and the last repeat interval and cron expression that are set.
   */
  lemma JobAggregates(job: JobDetail, contexts: map<string, ExecutionContext>, now: int, identity: ProcessIdentity)
    requires JobOf(job, contexts, now, identity).Ok?
    ensures var j := JobOf(job, contexts, now, identity).value;
      var ts := j.triggerInformations;
      && (j.previousFireTime.None? <==> forall k :: 0 <= k < |ts| ==> ts[k].previousFireTime.None?)
      && (forall k :: 0 <= k < |ts| && ts[k].previousFireTime.Some? ==>
            j.previousFireTime.Some? && ts[k].previousFireTime.value <= j.previousFireTime.value)
      && (j.previousFireTime.Some? ==> exists k :: 0 <= k < |ts| && ts[k].previousFireTime == j.previousFireTime)
      && (j.nextFireTime.None? <==> forall k :: 0 <= k < |ts| ==> ts[k].nextFireTime.None?)
      && (forall k :: 0 <= k < |ts| && ts[k].nextFireTime.Some? ==>
            j.nextFireTime.Some? && j.nextFireTime.value <= ts[k].nextFireTime.value)
      && (j.nextFireTime.Some? ==> exists k :: 0 <= k < |ts| && ts[k].nextFireTime == j.nextFireTime)
      && (j.paused <==> forall k :: 0 <= k < |ts| ==> ts[k].paused)
      && j.elapsedTime >= NOT_EXECUTING
      && (forall k :: 0 <= k < |ts| ==> ts[k].elapsedTime <= j.elapsedTime)
      && (j.elapsedTime == NOT_EXECUTING || exists k :: 0 <= k < |ts| && ts[k].elapsedTime == j.elapsedTime)
      && (j.repeatInterval == NO_REPEAT_INTERVAL <==>
            forall k :: 0 <= k < |ts| ==> ts[k].repeatInterval == NO_REPEAT_INTERVAL)
      && (j.repeatInterval != NO_REPEAT_INTERVAL ==>
            exists k :: 0 <= k < |ts| && ts[k].repeatInterval == j.repeatInterval
              && forall i :: k < i < |ts| ==> ts[i].repeatInterval == NO_REPEAT_INTERVAL)
      && (j.cronExpression.None? <==> forall k :: 0 <= k < |ts| ==> ts[k].cronExpression.None?)
      && (j.cronExpression.Some? ==>
            exists k :: 0 <= k < |ts| && ts[k].cronExpression == j.cronExpression
              && forall i :: k < i < |ts| ==> ts[i].cronExpression.None?)
  {
    var ts := JobOf(job, contexts, now, identity).value.triggerInformations;
    LatestPreviousFireTimeIsMax(ts);
    EarliestNextFireTimeIsMin(ts);
    AllPausedIff(ts);
    MaxElapsedTimeIsMax(ts);
    LastRepeatIntervalWins(ts);
    LastCronExpressionWins(ts);
  }

  /** A job without triggers carries the seed values of every aggregate. */
  lemma JobWithoutTriggers(job: JobDetail, contexts: map<string, ExecutionContext>, now: int,
                           identity: ProcessIdentity)
    requires job.triggers == Some([])
    ensures JobOf(job, contexts, now, identity).Ok?
    ensures var j := JobOf(job, contexts, now, identity).value;
      && j.paused
      && j.elapsedTime == NOT_EXECUTING
      && j.repeatInterval == NO_REPEAT_INTERVAL
      && j.cronExpression.None?
      && j.previousFireTime.None?
      && j.nextFireTime.None?
      && j.triggerInformations == []
  {
  }

  /**
   * A job is currently executing iff one of its triggers has a non-negative
   * elapsed time, and then the job's elapsed time is at least that trigger's.
   */
  lemma CurrentlyExecutingIff(job: JobDetail, contexts: map<string, ExecutionContext>, now: int,
                              identity: ProcessIdentity)
    requires JobOf(job, contexts, now, identity).Ok?
    ensures var j := JobOf(job, contexts, now, identity).value;
      && (IsCurrentlyExecuting(j) <==>
            exists k :: 0 <= k < |j.triggerInformations| && j.triggerInformations[k].elapsedTime >= 0)
      && (forall k :: 0 <= k < |j.triggerInformations| && j.triggerInformations[k].elapsedTime >= 0 ==>
            j.triggerInformations[k].elapsedTime <= j.elapsedTime)
  {
    var j := JobOf(job, contexts, now, identity).value;
    MaxElapsedTimeIsMax(j.triggerInformations);
  }

  /** Within one process identity, different full-name hashes give different global id strings. */
  lemma GlobalJobIdSeparatesHashes(identity: ProcessIdentity, hashA: int, hashB: int)
    requires hashA != hashB
    ensures GlobalJobId(identity, hashA).Text() != GlobalJobId(identity, hashB).Text()
  {
    var prefix := identity.pid + "_" + identity.hostAddress + "_";
    if GlobalJobId(identity, hashA).Text() == GlobalJobId(identity, hashB).Text() {
      assert (prefix + IntToString(hashA))[|prefix|..] == IntToString(hashA);
      assert (prefix + IntToString(hashB))[|prefix|..] == IntToString(hashB);
      IntToStringInjective(hashA, hashB);
    }
  }

}
