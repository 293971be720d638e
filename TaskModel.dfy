/** The state a scheduled task carries, and the effect of each of its lifecycle
    operations on that state, as values. The class in ScheduledTask.dfy keeps the
    same state in fields; each of its methods is specified by the function of the
    same name here. */
module TaskModel {

  /** The source's signed 32-bit `Int32`. */
  newtype int32 = x: int | -0x8000_0000 <= x < 0x8000_0000

  const MinimumProgress: real := 0.0
  const MaximumProgress: real := 100.0
  const DefaultProgressCompletionThreshold: real := 100.0
  /** Declared by the task but never assigned to its update interval. */
  const DefaultUpdateTime: int32 := 400

  datatype Option<T> = None | Some(value: T)

  /** The dependency policy the external scheduler consults. The task only stores
      it, so its contents are not modelled: a policy is either the default one the
      task builds itself or one handed in by the caller, known by its identity. */
  datatype DependencyBehavior = DefaultBehavior | Supplied(handle: nat)

  const ProtocolErrorPrefix: string := "Error in task scheduler. "

  /** The ways `Begin` and `Update` can fail. The first two are the protocol
      violations the task reports itself (as a fatal exception). The last two come
      from the pause at the end of `Update`, after the hook has run: an interval
      below -1 is rejected by the runtime's sleep with an out-of-range exception,
      and an interval of -1 waits forever, so the call never returns. */
  datatype SchedulerError =
    | BeginBeforeBusy
    | UpdateBeforeBusy
    | IntervalOutOfRange
    | WaitsForever
  {
    predicate IsProtocolError()
    {
      BeginBeforeBusy? || UpdateBeforeBusy?
    }

    /** The text of each protocol error; the sleep failures are described, not quoted. */
    function Message(): (r: string)
      ensures IsProtocolError() ==> ProtocolErrorPrefix <= r
    {
      match this
      case BeginBeforeBusy =>
        ProtocolErrorPrefix + "Attempting to start before flagging action as busy."
      case UpdateBeforeBusy =>
        ProtocolErrorPrefix + "Attempting to update before flagging action as busy."
      case IntervalOutOfRange =>
        "ArgumentOutOfRangeException: negative sleep interval other than -1"
      case WaitsForever =>
        "Sleep with an interval of -1 does not return"
    }
  }

  datatype Result<T> = Ok(value: T) | Err(error: SchedulerError)

  /** The clamp extension the task applies to progress. Its definition is not part
      of this model; it is taken to return `min` below the range, `max` above it,
      and the value itself inside it. */
  function Clamp(value: real, min: real, max: real): (r: real)
    requires min <= max
    ensures min <= r <= max
    ensures r == value <==> min <= value <= max
  {
    if value < min then min else if value > max then max else value
  }

  /** The progress percentage reported for `subtotal` out of `total`; a total
      that is zero or negative counts as no progress. */
  function RatioProgress(subtotal: int32, total: int32): (r: real)
    ensures total <= 0 ==> r == 0.0
    ensures total > 0 ==> r * (total as real) == (subtotal as real) * MaximumProgress
  {
    if total <= 0 then 0.0
    else (subtotal as real) / (total as real) * MaximumProgress + MinimumProgress
  }

  datatype TaskState = TaskState(
    taskName: string,
    isRepeated: bool,
    trackProgress: bool,
    dependencyBehavior: Option<DependencyBehavior>,
    updateInterval: int32,
    progress: real,
    progressCompletionThreshold: real,
    isCanceled: bool,
    hasStarted: bool,
    hasUpdated: bool,
    isBusy: bool,
    isTaskComplete: bool)
  {
    /** Progress stays within its bounds. */
    predicate Valid()
    {
      MinimumProgress <= progress <= MaximumProgress
    }

    /** The three predicates the scheduler polls. */
    predicate CanStart()
    {
      !isCanceled && !hasStarted
    }

    predicate CanUpdate()
    {
      !isCanceled && !isBusy && (!hasUpdated || isRepeated)
    }

    predicate CanEnd()
    {
      !isBusy && (hasUpdated || isCanceled)
    }

    function InitializeStart(): TaskState
    {
      this.(hasStarted := true, isBusy := true)
    }

    function InitializeUpdate(): TaskState
    {
      this.(hasUpdated := true, isBusy := true)
    }

    function Cancel(): TaskState
    {
      this.(isCanceled := true)
    }

    function UpdateProgress(value: real, canFinalize: bool): TaskState
    {
      var p := Clamp(value, MinimumProgress, MaximumProgress);
      this.(progress := p,
            isTaskComplete := if canFinalize && p >= progressCompletionThreshold then true else isTaskComplete)
    }

    function UpdateProgressRatio(subtotal: int32, total: int32, canFinalize: bool): TaskState
    {
      UpdateProgress(RatioProgress(subtotal, total), canFinalize)
    }

    /** `Begin` with the default (empty) `OnBegin` hook. */
    function Begin(): Result<TaskState>
    {
      if !isBusy then Err(BeginBeforeBusy) else Ok(this.(isBusy := false))
    }

    /** `Update` with the default (empty) `OnUpdate` hook. A pause of zero or more
        changes no state; a negative one fails after the hook and before the busy
        flag is cleared, so the task stays busy. */
    function Update(): Result<TaskState>
    {
      if !isBusy then Err(UpdateBeforeBusy)
      else if updateInterval < -1 then Err(IntervalOutOfRange)
      else if updateInterval == -1 then Err(WaitsForever)
      else Ok(this.(isBusy := false))
    }

    function ResetState(): TaskState
    {
      this.(isCanceled := false, hasStarted := false, hasUpdated := false,
            isBusy := false, isTaskComplete := false)
    }

    /** `End` with the default (empty) `OnEnd` hook. */
    function End(): TaskState
    {
      ResetState().(isTaskComplete := true)
    }

    function SetTaskName(name: string): TaskState
    {
      this.(taskName := name)
    }

    function SetUpdateInterval(interval: int32): TaskState
    {
      this.(updateInterval := interval)
    }

    function SetDependencyBehavior(behavior: Option<DependencyBehavior>): TaskState
    {
      this.(dependencyBehavior := behavior)
    }

    function SetIsTaskComplete(complete: bool): TaskState
    {
      this.(isTaskComplete := complete)
    }

    function SetTrackProgress(track: bool): TaskState
    {
      this.(trackProgress := track)
    }

    function SetProgressCompletionThreshold(threshold: real): TaskState
    {
      this.(progressCompletionThreshold := threshold)
    }
  }

  /** The state both constructors produce; a missing (null) policy is replaced by
      the default one. */
  function Initial(taskName: string, isRepeated: bool, trackProgress: bool,
                   dependencyBehavior: Option<DependencyBehavior>): TaskState
  {
    TaskState(
      taskName, isRepeated, trackProgress,
      if dependencyBehavior.None? then Some(DefaultBehavior) else dependencyBehavior,
      0, 0.0, DefaultProgressCompletionThreshold,
      false, false, false, false, false)
  }

  /** Every operation a scheduler, the task's owner or a subclass can apply: the
      lifecycle operations and every public or protected setter. */
  datatype Op =
    | InitializeStart
    | InitializeUpdate
    | Cancel
    | UpdateProgress(value: real, canFinalize: bool)
    | UpdateProgressRatio(subtotal: int32, total: int32, canFinalize: bool)
    | Begin
    | Update
    | End
    | SetTaskName(name: string)
    | SetUpdateInterval(interval: int32)
    | SetDependencyBehavior(behavior: Option<DependencyBehavior>)
    | SetIsTaskComplete(complete: bool)
    | SetTrackProgress(track: bool)
    | SetProgressCompletionThreshold(threshold: real)

  /** One operation; a `Begin` or `Update` that fails leaves the state as it was
      (for an `Update` whose pause fails, still busy). */
  function Step(s: TaskState, op: Op): TaskState
  {
    match op
    case InitializeStart => s.InitializeStart()
    case InitializeUpdate => s.InitializeUpdate()
    case Cancel => s.Cancel()
    case UpdateProgress(value, canFinalize) => s.UpdateProgress(value, canFinalize)
    case UpdateProgressRatio(subtotal, total, canFinalize) =>
      s.UpdateProgressRatio(subtotal, total, canFinalize)
    case Begin => (match s.Begin() case Ok(t) => t case Err(_) => s)
    case Update => (match s.Update() case Ok(t) => t case Err(_) => s)
    case End => s.End()
    case SetTaskName(name) => s.SetTaskName(name)
    case SetUpdateInterval(interval) => s.SetUpdateInterval(interval)
    case SetDependencyBehavior(behavior) => s.SetDependencyBehavior(behavior)
    case SetIsTaskComplete(complete) => s.SetIsTaskComplete(complete)
    case SetTrackProgress(track) => s.SetTrackProgress(track)
    case SetProgressCompletionThreshold(threshold) => s.SetProgressCompletionThreshold(threshold)
  }

  /** A sequence of operations, applied one at a time. */
  function Run(s: TaskState, ops: seq<Op>): TaskState
    decreases |ops|
  {
    if ops == [] then s else Run(Step(s, ops[0]), ops[1..])
  }

  predicate NoEnd(ops: seq<Op>)
  {
    forall op <- ops :: !op.End?
  }
}
