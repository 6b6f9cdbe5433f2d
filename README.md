# Quartz job snapshots (javamelody), modelled in Dafny

javamelody monitors the Quartz schedulers of an application. Once per
collection cycle it takes read-only, immutable snapshots of every job:
`JobTriggerInformations` describes one trigger (identity, previous and next
fire times, cron expression or repeat interval, pause flag, and how long
the execution it fired has been running), and `JobInformations` describes a
job, folding its triggers' snapshots into job-level fields.
`buildJobInformationsList` runs the cycle over all schedulers. It correlates
each trigger with the invocation it has in progress through a
job-and-trigger key. It also applies the failure policy: one scheduler
whose jobs cannot be listed or snapshotted empties the whole cycle.

The model has five modules, one per file:

- `Wrappers` (`wrappers.dfy`): `Option` stands for a Java reference that may
  be `null`, and `Result` for a call that returns or raises.
- `JavaLang` (`java_lang.dfy`): the Java arithmetic the snapshots rely on.
  This is `long` subtraction with two's complement wrap-around for elapsed
  times, and `String.hashCode` and `Integer.toString` for the global job id.
  `Integer.toString` comes with a parse function and a round-trip lemma.
- `JobTriggerInformations` (`job_trigger_informations.dfy`): the trigger
  snapshot as a pure function `Build` from the trigger record, the
  correlated execution context (if any) and the clock reading `now`.
  Trigger kinds are a sum type: `Cron`, `Simple` or `Other`.
- `JobInformations` (`job_informations.dfy`): the job constructor as a method
  `NewJobInformations`. It makes one pass over the triggers with the
  source's six accumulators and its exact update conditions. It is proved
  equal to `JobOf`, which is built from independent specification
  functions: latest, earliest, all, maximum and last-set. Lemmas state what
  each of those computes.
- `JobInformationsList` (`job_informations_list.dfy`): the cycle as a method
  `BuildJobInformationsList`. It has nested loops, fills the correlation map
  with map updates, appends to one result list and returns early on failure.
  It is proved equal to `Collect`. `Collect` is stated for any job-snapshot
  function (`Snapshotter`), and `JobSnapshots` is the instance the
  constructor implements.

The global job id is kept as its parts: the process identity and the
`String.hashCode` of the job's full name. `GlobalJobId.Text` renders it as
the source's string `pid_host_hash`.

Times are milliseconds since the epoch (`Option<int>` for a `Date` that may
be `null`). The sentinel `-1` means "no repeat interval" (`NO_REPEAT_INTERVAL`)
and "not executing" (`NOT_EXECUTING`). Failures that the source can raise are
inputs. `Trigger.pausedState` is `None` when the pause lookup raises.
`JobDetail.triggers` is `None` when listing a job's triggers raises.
`Scheduler.currentlyExecutingJobs` and `Scheduler.jobs` are `None` when
those listings raise.

Two rules of the code are worth stating on their own:

- A snapshot has neither a repeat interval nor a cron expression for an
  unknown trigger kind, a cron trigger whose expression is `null`, or a
  simple trigger whose interval is -1. It never has both
  (`ScheduleKindsExclusive`).
- Any exception while listing or snapshotting a scheduler's jobs empties
  the cycle (JobInformations.java:150-161). A failure to list the executing
  invocations escapes as `IllegalStateException` (163-165).

Two edge cases of the elapsed time are stated as lemmas. The `long`
subtraction `now - fireTime` wraps around on overflow, so
`ElapsedTimeMeansExecuting` promises a non-negative elapsed time only when
it does not overflow. An execution whose fire time is one millisecond after
`now` gets an elapsed time of -1, the "not executing" sentinel
(`ElapsedTimeSentinelCollision`).

## Model

| member | source | states |
|---|---|---|
| `JavaLang.LongSub` | javamelody-core/src/main/java/net/bull/javamelody/internal/model/JobTriggerInformations.java:46-47 | Java `long` subtraction: always a `long`, equal to the exact difference modulo 2^64 (two's complement wrap-around), and the exact difference when that fits |
| `JavaLang.HashCode` | javamelody-core/src/main/java/net/bull/javamelody/internal/model/JobInformations.java:119-120 | `String.hashCode` of the job's full name is an `int`, 0 for the empty string |
| `JavaLang.IntToStringRoundTrip` | javamelody-core/src/main/java/net/bull/javamelody/internal/model/JobInformations.java:119-120 | the decimal rendering of the hash parses back to the same `int` |
| `JavaLang.IntToStringInjective` | javamelody-core/src/main/java/net/bull/javamelody/internal/model/JobInformations.java:119-120 | two different hashes never render to the same text |
| `JobTriggerInformations.CronExpressionOf` | javamelody-core/src/main/java/net/bull/javamelody/internal/model/JobTriggerInformations.java:32-35 | a cron trigger yields its own expression; no other kind yields one |
| `JobTriggerInformations.RepeatIntervalOf` | javamelody-core/src/main/java/net/bull/javamelody/internal/model/JobTriggerInformations.java:33-40 | a simple trigger yields its own interval; every other kind yields -1 |
| `JobTriggerInformations.ElapsedTime` | javamelody-core/src/main/java/net/bull/javamelody/internal/model/JobTriggerInformations.java:43-48 | -1 without a correlated context; otherwise `now - fireTime` in `long` arithmetic, the exact difference when it fits |
| `JobTriggerInformations.Build` | javamelody-core/src/main/java/net/bull/javamelody/internal/model/JobTriggerInformations.java:23-49 | fails exactly when the pause lookup fails; copies group, name, description, fire times and pause flag; cron gives the expression and interval -1, simple gives the interval and no expression, other kinds give both sentinels; elapsed time -1 without a context, `now - fireTime` with one |
| `JobTriggerInformations.ScheduleKindsExclusive` | javamelody-core/src/main/java/net/bull/javamelody/internal/model/JobTriggerInformations.java:32-41 | a snapshot never has both a repeat interval and a cron expression, and has one iff the trigger is cron with an expression or simple with an interval other than -1 |
| `JobTriggerInformations.ElapsedTimeSentinelCollision` | javamelody-core/src/main/java/net/bull/javamelody/internal/model/JobTriggerInformations.java:43-48 | an execution that fired one millisecond after `now` gets the elapsed time -1, the same as no execution |
| `JobTriggerInformations.ElapsedTimeMeansExecuting` | javamelody-core/src/main/java/net/bull/javamelody/internal/model/JobTriggerInformations.java:43-48 | a non-negative elapsed time implies a correlated context; a context that fired no later than `now` gives a non-negative one unless the subtraction overflows |
| `JobInformations.NewJobInformations` | javamelody-core/src/main/java/net/bull/javamelody/internal/model/JobInformations.java:63-122 | the constructor's single pass with six accumulators yields exactly the specified snapshot `JobOf` (or the failure) |
| `JobInformations.TriggerInfosOfSpec` | javamelody-core/src/main/java/net/bull/javamelody/internal/model/JobInformations.java:84-91 | one trigger snapshot per trigger, in enumeration order, each built with the context the map holds under the trigger's key; fails iff some trigger's pause lookup fails |
| `JobInformations.JobOfSpec` | javamelody-core/src/main/java/net/bull/javamelody/internal/model/JobInformations.java:63-122 | a job snapshot fails iff listing the triggers or some pause lookup fails; otherwise group, name, description and class name are copied, the global id is the process identity with the hash of the full name, and the trigger snapshots are one per trigger in order |
| `JobInformations.LatestPreviousFireTimeIsMax` | javamelody-core/src/main/java/net/bull/javamelody/internal/model/JobInformations.java:93-97 | the folded previous fire time is absent iff every trigger's is, is one of the triggers' values, and is at least every present one |
| `JobInformations.EarliestNextFireTimeIsMin` | javamelody-core/src/main/java/net/bull/javamelody/internal/model/JobInformations.java:98-101 | the folded next fire time is absent iff every trigger's is, is one of the triggers' values, and is at most every present one |
| `JobInformations.AllPausedIff` | javamelody-core/src/main/java/net/bull/javamelody/internal/model/JobInformations.java:102 | the folded pause flag holds iff every trigger is paused |
| `JobInformations.MaxElapsedTimeIsMax` | javamelody-core/src/main/java/net/bull/javamelody/internal/model/JobInformations.java:103 | the folded elapsed time is at least -1 and every trigger's, and is -1 or some trigger's value |
| `JobInformations.LastRepeatIntervalWins` | javamelody-core/src/main/java/net/bull/javamelody/internal/model/JobInformations.java:104-106 | the folded repeat interval is -1 iff every trigger's is; otherwise it is the value of a trigger after which every trigger has -1 (last one wins) |
| `JobInformations.LastCronExpressionWins` | javamelody-core/src/main/java/net/bull/javamelody/internal/model/JobInformations.java:107-109 | the folded cron expression is absent iff every trigger's is; otherwise it is that of a trigger after which no trigger has one (last one wins) |
| `JobInformations.JobAggregates` | javamelody-core/src/main/java/net/bull/javamelody/internal/model/JobInformations.java:84-117 | a job snapshot's six job-level fields against its own trigger snapshots: latest, earliest, all paused, maximum with -1, last interval set, last expression set |
| `JobInformations.JobWithoutTriggers` | javamelody-core/src/main/java/net/bull/javamelody/internal/model/JobInformations.java:78-83 | a job with no triggers is snapshotted with the seeds: paused, elapsed -1, interval -1, no cron expression, no fire times, no trigger snapshots |
| `JobInformations.CurrentlyExecutingIff` | javamelody-core/src/main/java/net/bull/javamelody/internal/model/JobInformations.java:198-200 | a job is currently executing iff one of its trigger snapshots has a non-negative elapsed time, and then the job's elapsed time is at least that trigger's |
| `JobInformations.GlobalJobIdSeparatesHashes` | javamelody-core/src/main/java/net/bull/javamelody/internal/model/JobInformations.java:119-120 | within one process and host, two different full-name hashes always give two different id strings |
| `JobInformations.GlobalJobId.Text` | javamelody-core/src/main/java/net/bull/javamelody/internal/model/JobInformations.java:119-120 | the id string starts with the process id and host address, each followed by `_`, and ends with the decimal rendering of the full name's hash |
| `JobInformations.IsCurrentlyExecuting` | javamelody-core/src/main/java/net/bull/javamelody/internal/model/JobInformations.java:198-200 | a job is currently executing only with an elapsed time other than the -1 sentinel, and not executing only with one at or below it |
| `JobInformationsList.BuildJobInformationsList` | javamelody-core/src/main/java/net/bull/javamelody/internal/model/JobInformations.java:135-167 | the cycle's nested loops, map updates, appends and early returns yield exactly the specified outcome `Collect` |
| `JobInformationsList.ContextsByIdLastWins` | javamelody-core/src/main/java/net/bull/javamelody/internal/model/JobInformations.java:143-149 | the correlation map has a key iff some executing invocation has it, and holds the last invocation with that key |
| `JobInformationsList.CorrelateExecutingJobs` | javamelody-core/src/main/java/net/bull/javamelody/internal/model/JobInformations.java:143-149 | the `put` loop over the executing invocations yields exactly the correlation map `ContextsById` |
| `JobInformationsList.AddJobsOfScheduler` | javamelody-core/src/main/java/net/bull/javamelody/internal/model/JobInformations.java:151-155 | the inner job loop fails iff some job's snapshot fails, and otherwise appends one snapshot per job, in listing order, to the result so far |
| `JobInformationsList.JobsOfSpec` | javamelody-core/src/main/java/net/bull/javamelody/internal/model/JobInformations.java:151-155 | a scheduler's jobs give one snapshot per job in listing order, or a failure iff one of them fails |
| `JobInformationsList.SchedulerStepOfJobs` | javamelody-core/src/main/java/net/bull/javamelody/internal/model/JobInformations.java:143-161 | with the job constructor, a scheduler whose listings succeed empties the cycle iff one job's snapshot fails; otherwise it contributes one snapshot per job built with its correlation map |
| `JobInformationsList.SweepContinuesIff` | javamelody-core/src/main/java/net/bull/javamelody/internal/model/JobInformations.java:142-162 | the cycle gets through all schedulers iff each of them succeeds, and then holds as many snapshots as the schedulers list jobs |
| `JobInformationsList.SweepContents` | javamelody-core/src/main/java/net/bull/javamelody/internal/model/JobInformations.java:142-162 | a cycle that gets through all schedulers holds, at position (jobs of earlier schedulers + j), the snapshot of job j of scheduler k built with that scheduler's correlation map: every listed job's snapshot, scheduler after scheduler, in listing order |
| `JobInformationsList.UnavailableIsEmpty` | javamelody-core/src/main/java/net/bull/javamelody/internal/model/JobInformations.java:136-138 | without Quartz the cycle returns the empty list |
| `JobInformationsList.NonEmptyMeansComplete` | javamelody-core/src/main/java/net/bull/javamelody/internal/model/JobInformations.java:139-166 | a non-empty result means every scheduler succeeded, and it is exactly the snapshot of each listed job, scheduler after scheduler, in listing order: never a partial picture |
| `JobInformationsList.SchedulerFailureEmptiesCycle` | javamelody-core/src/main/java/net/bull/javamelody/internal/model/JobInformations.java:156-161 | a scheduler whose jobs cannot be listed or snapshotted empties the result, discarding earlier schedulers' snapshots |
| `JobInformationsList.ListingFailureEscalates` | javamelody-core/src/main/java/net/bull/javamelody/internal/model/JobInformations.java:140-165 | failing to list a scheduler's executing invocations, after earlier schedulers succeeded, escalates as `IllegalStateException` |

## Left out

- The Quartz library and `QuartzAdapter` are not part of this model. Every
  accessor is a field of an input record (`Trigger`, `JobDetail`,
  `Scheduler`, `ExecutionContext`). The failures they can raise are `None`
  fields.
- `getJobAndTriggerId` is not part of this model. The correlation key is
  whatever string the adapter gives the trigger and the execution context.
- Exceptions from the other adapter accessors (names, descriptions, fire
  times, job class) and runtime exceptions are not modelled. Those calls
  are plain getters in Quartz.
- `getAllSchedulers` reads a global registry. Here the scheduler list is a
  parameter, and a failure of the registry lookup (which would escalate) is
  not modelled.
- `isQuartzAvailable` uses reflection. `QUARTZ_AVAILABLE` is the boolean
  parameter `quartzAvailable`.
- `System.currentTimeMillis` is read once per correlated trigger in the
  source. The model takes one clock reading `now` for the whole cycle.
- The process id and host address behind `globalJobId` are inputs
  (`ProcessIdentity`).
- `JavaLang.HashCode` works on Dafny characters, which are Unicode scalar
  values. Java hashes UTF-16 code units, so the two differ for characters
  outside the Basic Multilingual Plane.
- Group, name, description and class name are plain strings. A `null`
  description is copied through unchanged in the source, so its value plays
  no part in any rule.
- Warning logs, serialization, `toString` and the Java `assert` statements
  are not modelled.
- Getters are the fields of `TriggerInfo` and `JobInfo`, which return them
  unchanged.
- Concurrent changes to a scheduler during a cycle are not modelled. The
  inputs are one consistent read.
