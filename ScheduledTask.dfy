/** The scheduled task as an object whose methods update its fields in place.
    Each method is one atomic step (the source guards the flag changes with a
    per-task lock). Its new state is the function of the same name in TaskModel
    applied to its old state. */
module ActionScheduler {
  import opened TaskModel

  datatype Outcome = Pass | Fail(error: SchedulerError)

  class ScheduledTask {
    var taskName: string
    var isRepeated: bool
    var trackProgress: bool
    var dependencyBehavior: Option<DependencyBehavior>
    var updateInterval: int32
    var progress: real
    var progressCompletionThreshold: real
    var isCanceled: bool
    var hasStarted: bool
    var hasUpdated: bool
    var isBusy: bool
    var isTaskComplete: bool

    /** The task's fields as a value. */
    function State(): TaskState
      reads this
    {
      TaskState(taskName, isRepeated, trackProgress, dependencyBehavior, updateInterval,
                progress, progressCompletionThreshold,
                isCanceled, hasStarted, hasUpdated, isBusy, isTaskComplete)
    }

    /** Progress lies between its minimum and its maximum. */
    predicate Valid()
      reads this
    {
      State().Valid()
    }

    /** The start callback may be called: the task is neither canceled nor started. */
    function CanStart(): (r: bool)
      reads this
      ensures r <==> !isCanceled && !hasStarted
    {
      State().CanStart()
    }

    /** The update callback may be called: not canceled, not busy, and either not
        yet updated or repeated. */
    function CanUpdate(): (r: bool)
      reads this
      ensures r <==> !isCanceled && !isBusy && (!hasUpdated || isRepeated)
    {
      State().CanUpdate()
    }

    /** The end callback may be called: not busy, and either updated or canceled. */
    function CanEnd(): (r: bool)
      reads this
      ensures r <==> !isBusy && (hasUpdated || isCanceled)
    {
      State().CanEnd()
    }

    /** The constructor that builds its own default dependency policy. */
    constructor (taskName: string, isRepeated: bool, trackProgress: bool)
      ensures State() == Initial(taskName, isRepeated, trackProgress, Some(DefaultBehavior))
      ensures Valid() && CanStart() && CanUpdate() && !CanEnd()
    {
      new;
      ResetState();
      this.taskName := taskName;
      this.trackProgress := trackProgress;
      this.isRepeated := isRepeated;
      this.dependencyBehavior := Some(DefaultBehavior);
      progress := 0.0;
      progressCompletionThreshold := DefaultProgressCompletionThreshold;
      // Never assigned by the source, so it keeps the runtime's zero default.
      updateInterval := 0;
    }

    /** The constructor that takes a dependency policy, `None` standing for null. */
    constructor WithDependencyBehavior(taskName: string, isRepeated: bool, trackProgress: bool,
                                       dependencyBehavior: Option<DependencyBehavior>)
      ensures State() == Initial(taskName, isRepeated, trackProgress, dependencyBehavior)
      ensures this.dependencyBehavior.Some?
      ensures Valid() && CanStart() && CanUpdate() && !CanEnd()
    {
      new;
      ResetState();
      this.taskName := taskName;
      this.trackProgress := trackProgress;
      this.isRepeated := isRepeated;
      this.dependencyBehavior :=
        if dependencyBehavior.None? then Some(DefaultBehavior) else dependencyBehavior;
      progress := 0.0;
      progressCompletionThreshold := DefaultProgressCompletionThreshold;
      // Never assigned by the source, so it keeps the runtime's zero default.
      updateInterval := 0;
    }

    /** Flags the task as started and busy; must precede `Begin`. */
    method InitializeStart()
      modifies this
      ensures State() == old(State()).InitializeStart()
      ensures !CanStart() && !CanUpdate() && !CanEnd()
      ensures old(Valid()) ==> Valid()
    {
      hasStarted := true;
      isBusy := true;
    }

    /** Flags the task as updated and busy; must precede `Update`. */
    method InitializeUpdate()
      modifies this
      ensures State() == old(State()).InitializeUpdate()
      ensures !CanUpdate() && !CanEnd() && CanStart() == old(CanStart())
      ensures old(Valid()) ==> Valid()
    {
      hasUpdated := true;
      isBusy := true;
    }

    method Cancel()
      modifies this
      ensures State() == old(State()).Cancel()
      ensures !CanStart() && !CanUpdate() && (!isBusy ==> CanEnd())
      ensures old(Valid()) ==> Valid()
    {
      isCanceled := true;
    }

    /** Stores the reported progress, clamped to its bounds, and marks the task
        complete when finalizing is allowed and the threshold is reached. */
    method UpdateProgress(value: real, canFinalize: bool := true)
      modifies this
      ensures State() == old(State()).UpdateProgress(value, canFinalize)
      ensures Valid()
      ensures isTaskComplete <==>
                old(isTaskComplete) || (canFinalize && progress >= progressCompletionThreshold)
    {
      progress := Clamp(value, MinimumProgress, MaximumProgress);
      if canFinalize {
        if progress >= progressCompletionThreshold {
          isTaskComplete := true;
        }
      }
    }

    /** Reports progress as `subtotal` out of `total`. */
    method UpdateProgressRatio(subtotal: int32, total: int32, canFinalize: bool := true)
      modifies this
      ensures State() == old(State()).UpdateProgressRatio(subtotal, total, canFinalize)
      ensures Valid()
      ensures total <= 0 ==> progress == 0.0
    {
      UpdateProgress(RatioProgress(subtotal, total), canFinalize);
    }

    /** Runs the start hook; fails, changing nothing, if the task was not flagged busy. */
    method Begin() returns (outcome: Outcome)
      modifies this
      ensures outcome == Fail(BeginBeforeBusy) <==> !old(isBusy)
      ensures outcome.Pass? <==> old(isBusy)
      ensures old(State()).Begin().Ok? ==> State() == old(State()).Begin().value
      ensures old(State()).Begin().Err? ==> State() == old(State())
      ensures old(Valid()) ==> Valid()
    {
      if !isBusy {
        return Fail(BeginBeforeBusy);
      }
      OnBegin();
      isBusy := false;
      outcome := Pass;
    }

    /** Runs the update hook, then waits the update interval, then clears the busy
        flag. Fails, changing nothing, if the task was not flagged busy; fails after
        the hook, leaving the task busy, if the interval is negative. */
    method Update() returns (outcome: Outcome)
      modifies this
      ensures outcome == Fail(UpdateBeforeBusy) <==> !old(isBusy)
      ensures outcome.Pass? <==> old(isBusy) && old(updateInterval) >= 0
      ensures old(State()).Update().Ok? ==> State() == old(State()).Update().value
      ensures old(State()).Update().Err? ==>
                outcome == Fail(old(State()).Update().error) && State() == old(State())
      ensures old(Valid()) ==> Valid()
    {
      if !isBusy {
        return Fail(UpdateBeforeBusy);
      }
      OnUpdate();
      // The pause itself changes no state, but the runtime rejects an interval
      // below -1, and an interval of -1 never returns.
      if updateInterval < -1 {
        return Fail(IntervalOutOfRange);
      }
      if updateInterval == -1 {
        return Fail(WaitsForever);
      }
      isBusy := false;
      outcome := Pass;
    }

    /** Runs the end hook, clears the lifecycle flags and marks the task complete. */
    method End()
      modifies this
      ensures State() == old(State()).End()
      ensures !isCanceled && !hasStarted && !hasUpdated && !isBusy && isTaskComplete
      ensures CanStart() && CanUpdate() && !CanEnd()
      ensures old(Valid()) ==> Valid()
    {
      OnEnd();
      ResetState();
      isTaskComplete := true;
    }

    /** The default hooks do nothing; a concrete task would do its work here. */
    method OnBegin()
      ensures State() == old(State())
    {
    }

    method OnUpdate()
      ensures State() == old(State())
    {
    }

    method OnEnd()
      ensures State() == old(State())
    {
    }

    method ResetState()
      modifies this
      ensures State() == old(State()).ResetState()
      ensures !isCanceled && !hasStarted && !hasUpdated && !isBusy && !isTaskComplete
      ensures old(Valid()) ==> Valid()
    {
      isCanceled := false;
      hasStarted := false;
      hasUpdated := false;
      isBusy := false;
      isTaskComplete := false;
    }

    method SetTaskName(name: string)
      modifies this
      ensures State() == old(State()).SetTaskName(name)
      ensures old(Valid()) ==> Valid()
    {
      taskName := name;
    }

    method SetUpdateInterval(interval: int32)
      modifies this
      ensures State() == old(State()).SetUpdateInterval(interval)
      ensures old(Valid()) ==> Valid()
    {
      updateInterval := interval;
    }

    method SetDependencyBehavior(behavior: Option<DependencyBehavior>)
      modifies this
      ensures State() == old(State()).SetDependencyBehavior(behavior)
      ensures old(Valid()) ==> Valid()
    {
      dependencyBehavior := behavior;
    }

    method SetIsTaskComplete(complete: bool)
      modifies this
      ensures State() == old(State()).SetIsTaskComplete(complete)
      ensures old(Valid()) ==> Valid()
    {
      isTaskComplete := complete;
    }

    method SetTrackProgress(track: bool)
      modifies this
      ensures State() == old(State()).SetTrackProgress(track)
      ensures old(Valid()) ==> Valid()
    {
      trackProgress := track;
    }

    method SetProgressCompletionThreshold(threshold: real)
      modifies this
      ensures State() == old(State()).SetProgressCompletionThreshold(threshold)
      ensures old(Valid()) ==> Valid()
    {
      progressCompletionThreshold := threshold;
    }
  }
}
