/**
 * The snapshot of one Quartz trigger: identity and fire times copied from
 * the trigger, a kind-specific schedule (cron expression or repeat
 * interval), the pause flag, and how long the execution it started has been
 * running, if any.
 */
module JobTriggerInformations {
  import opened Wrappers
  import opened JavaLang

  /** "Not applicable" repeat interval (cron and unknown triggers). */
  const NO_REPEAT_INTERVAL: int := -1
  /** Elapsed time of a trigger with no execution in progress. */
  const NOT_EXECUTING: int := -1

  /** The trigger classes the snapshot distinguishes. */
  datatype TriggerKind =
    | Cron(expression: Option<string>)   // a CronTrigger and its cron expression
    | Simple(repeatInterval: int)        // a SimpleTrigger and its interval in milliseconds
    | Other                              // any other trigger class

  /**
   * What the scheduler adapter reads from one trigger. Times are
   * milliseconds since the epoch; `pausedState` is `None` when the pause
   * lookup (a round trip to the scheduler) raises. `jobAndTriggerId` is the
   * adapter's correlation key for the trigger and the job it fires.
   */
  datatype Trigger = Trigger(
    group: string,
    name: string,
    description: string,
    previousFireTime: Option<int>,
    nextFireTime: Option<int>,
    kind: TriggerKind,
    pausedState: Option<bool>,
    jobAndTriggerId: string)

  /** A currently executing invocation: its correlation key and when it fired. */
  datatype ExecutionContext = ExecutionContext(jobAndTriggerId: string, fireTime: int)

  /** The immutable snapshot of a trigger; its getters are the fields. */
  datatype TriggerInfo = TriggerInfo(
    group: string,
    name: string,
    description: string,
    elapsedTime: int,
    previousFireTime: Option<int>,
    nextFireTime: Option<int>,
    repeatInterval: int,
    cronExpression: Option<string>,
    paused: bool)

  /** The snapshot's cron expression: only a cron trigger has one. */
  function CronExpressionOf(kind: TriggerKind): (e: Option<string>)
    ensures kind.Cron? ==> e == kind.expression
    ensures e.Some? ==> kind.Cron?
  {
    if kind.Cron? then kind.expression else None
  }

  /** The snapshot's repeat interval: only a simple trigger has one. */
  function RepeatIntervalOf(kind: TriggerKind): (i: int)
    ensures kind.Simple? ==> i == kind.repeatInterval
    ensures !kind.Simple? ==> i == NO_REPEAT_INTERVAL
  {
    if kind.Simple? then kind.repeatInterval else NO_REPEAT_INTERVAL
  }

  /** Milliseconds since the correlated execution fired, in `long` arithmetic. */
  function ElapsedTime(context: Option<ExecutionContext>, now: int): (e: int)
    ensures context.None? ==> e == NOT_EXECUTING
    ensures context.Some? ==> e == LongSub(now, context.value.fireTime)
    ensures context.Some? && IsLong(now - context.value.fireTime) ==> e == now - context.value.fireTime
  {
    match context
    case None => NOT_EXECUTING
    case Some(c) => LongSub(now, c.fireTime)
  }

  /**
   * Builds the snapshot of `trigger`, given the execution context correlated
   * with it (if any) and the clock reading `now`. Fails exactly when the
   * pause lookup fails.
   */
  function Build(trigger: Trigger, context: Option<ExecutionContext>, now: int): (r: Result<TriggerInfo>)
    ensures r.Err? <==> trigger.pausedState.None?
    ensures r.Ok? ==>
      && r.value.group == trigger.group
      && r.value.name == trigger.name
      && r.value.description == trigger.description
      && r.value.previousFireTime == trigger.previousFireTime
      && r.value.nextFireTime == trigger.nextFireTime
      && r.value.paused == trigger.pausedState.value
    ensures r.Ok? && trigger.kind.Cron? ==>
      r.value.cronExpression == trigger.kind.expression && r.value.repeatInterval == NO_REPEAT_INTERVAL
    ensures r.Ok? && trigger.kind.Simple? ==>
      r.value.repeatInterval == trigger.kind.repeatInterval && r.value.cronExpression == None
    ensures r.Ok? && trigger.kind.Other? ==>
      r.value.repeatInterval == NO_REPEAT_INTERVAL && r.value.cronExpression == None
    ensures r.Ok? && context.None? ==> r.value.elapsedTime == NOT_EXECUTING
    ensures r.Ok? && context.Some? ==> r.value.elapsedTime == LongSub(now, context.value.fireTime)
    ensures r.Ok? && context.Some? && IsLong(now - context.value.fireTime) ==>
      r.value.elapsedTime == now - context.value.fireTime
  {
    match trigger.pausedState
    case None => Err
    case Some(paused) =>
      Ok(TriggerInfo(
        trigger.group,
        trigger.name,
        trigger.description,
        ElapsedTime(context, now),
        trigger.previousFireTime,
        trigger.nextFireTime,
        RepeatIntervalOf(trigger.kind),
        CronExpressionOf(trigger.kind),
        paused))
  }

  /**
   * A snapshot never carries both a repeat interval and a cron expression;
   * it carries one of them exactly when the trigger is a cron trigger with an
   * expression or a simple trigger with an interval other than -1.
   */
  lemma ScheduleKindsExclusive(trigger: Trigger, context: Option<ExecutionContext>, now: int)
    requires Build(trigger, context, now).Ok?
    ensures var info := Build(trigger, context, now).value;
      && !(info.repeatInterval != NO_REPEAT_INTERVAL && info.cronExpression.Some?)
      && ((info.repeatInterval != NO_REPEAT_INTERVAL || info.cronExpression.Some?) <==>
          (trigger.kind.Cron? && trigger.kind.expression.Some?)
          || (trigger.kind.Simple? && trigger.kind.repeatInterval != NO_REPEAT_INTERVAL))
  {
  }

  /**
   * An execution that fired one millisecond after `now` yields exactly the
   * snapshot of a trigger with no execution: its elapsed time is the
   * "not executing" sentinel.
   */
  lemma ElapsedTimeSentinelCollision(trigger: Trigger, key: string, now: int)
    requires trigger.pausedState.Some?
    requires LONG_MIN <= now < LONG_MAX
    ensures Build(trigger, Some(ExecutionContext(key, now + 1)), now).value.elapsedTime == NOT_EXECUTING
    ensures Build(trigger, Some(ExecutionContext(key, now + 1)), now) == Build(trigger, None, now)
  {
  }

  /**
   * A non-negative elapsed time proves an execution is correlated; an
   * execution that fired no later than `now` gives a non-negative one as
   * long as the `long` subtraction does not overflow.
   */
  lemma ElapsedTimeMeansExecuting(trigger: Trigger, context: Option<ExecutionContext>, now: int)
    requires Build(trigger, context, now).Ok?
    ensures var info := Build(trigger, context, now).value;
      && (info.elapsedTime >= 0 ==> context.Some?)
      && (context.Some? && context.value.fireTime <= now && IsLong(now - context.value.fireTime)
          ==> info.elapsedTime >= 0)
  {
  }
}
