/** What the lifecycle promises: the effect of each operation on the flags and on
    progress, and the invariants that hold across whole sequences of operations. */
module TaskProperties {
  import opened TaskModel

  // ---------------------------------------------------------------------------
  // Clamping and progress

  /** The clamp returns the point of the range nearest to the value. */
  lemma ClampIsNearest(value: real, min: real, max: real, y: real)
    requires min <= y <= max
    ensures var r := Clamp(value, min, max);
      (if r >= value then r - value else value - r) <= (if y >= value then y - value else value - y)
  {
  }

  /** Whatever value is reported, the stored progress ends up within bounds, the
      value itself when it already was; nothing but progress and completion moves. */
  lemma UpdateProgressInRange(s: TaskState, value: real, canFinalize: bool)
    ensures s.UpdateProgress(value, canFinalize).Valid()
    ensures MinimumProgress <= value <= MaximumProgress ==>
              s.UpdateProgress(value, canFinalize).progress == value
    ensures value < MinimumProgress ==> s.UpdateProgress(value, canFinalize).progress == MinimumProgress
    ensures value > MaximumProgress ==> s.UpdateProgress(value, canFinalize).progress == MaximumProgress
    ensures s.UpdateProgress(value, canFinalize)
              == s.(progress := s.UpdateProgress(value, canFinalize).progress,
                    isTaskComplete := s.UpdateProgress(value, canFinalize).isTaskComplete)
  {
  }

  /** Completion is set exactly when finalizing is allowed and the clamped progress
      reaches the threshold; otherwise it is left alone, and it is never cleared. */
  lemma UpdateProgressCompletion(s: TaskState, value: real, canFinalize: bool)
    ensures var t := s.UpdateProgress(value, canFinalize);
      t.isTaskComplete <==>
        s.isTaskComplete || (canFinalize && t.progress >= s.progressCompletionThreshold)
    ensures s.isTaskComplete ==> s.UpdateProgress(value, canFinalize).isTaskComplete
    ensures !canFinalize ==> s.UpdateProgress(value, canFinalize).isTaskComplete == s.isTaskComplete
  {
  }

  /** A threshold above the maximum progress can never be reached by reporting. */
  lemma UnreachableThreshold(s: TaskState, value: real, canFinalize: bool)
    requires s.progressCompletionThreshold > MaximumProgress
    ensures s.UpdateProgress(value, canFinalize).isTaskComplete == s.isTaskComplete
  {
  }

  /** A total of zero or less reports no progress; it completes the task only when
      finalizing is allowed and the threshold is itself zero or less. */
  lemma NonPositiveTotal(s: TaskState, subtotal: int32, total: int32, canFinalize: bool)
    requires total <= 0
    ensures s.UpdateProgressRatio(subtotal, total, canFinalize).progress == 0.0
    ensures s.UpdateProgressRatio(subtotal, total, canFinalize).isTaskComplete <==>
              s.isTaskComplete || (canFinalize && s.progressCompletionThreshold <= 0.0)
  {
  }

  /** A positive total stores the clamped percentage subtotal * 100 / total. */
  lemma PositiveTotal(s: TaskState, subtotal: int32, total: int32, canFinalize: bool)
    requires total > 0
    ensures var p := s.UpdateProgressRatio(subtotal, total, canFinalize).progress;
      (subtotal <= 0 ==> p == 0.0) &&
      (subtotal >= total ==> p == 100.0) &&
      (0 <= subtotal <= total ==> p * (total as real) == (subtotal as real) * 100.0)
  {
    var r := RatioProgress(subtotal, total);
    ScaledBounds(r, total as real, subtotal as real);
  }

  /** If r * t == a * 100 with t positive, r lies on the same side of 0 and of 100
      as a does of 0 and of t. */
  lemma ScaledBounds(r: real, t: real, a: real)
    requires t > 0.0 && r * t == a * 100.0
    ensures a <= 0.0 ==> r <= 0.0
    ensures a >= 0.0 ==> r >= 0.0
    ensures a >= t ==> r >= 100.0
    ensures a <= t ==> r <= 100.0
  {
  }

  /** Half of the total gives 50. */
  lemma HalfwayProgress(s: TaskState)
    ensures s.UpdateProgressRatio(50, 100, true).progress == 50.0
  {
  }

  /** More than the total gives 100, which completes a task with the default threshold. */
  lemma OverfullProgress(s: TaskState)
    requires s.progressCompletionThreshold == DefaultProgressCompletionThreshold
    ensures s.UpdateProgressRatio(150, 100, true).progress == 100.0
    ensures s.UpdateProgressRatio(150, 100, true).isTaskComplete
  {
  }

  // ---------------------------------------------------------------------------
  // Construction and the scheduler's predicates

  /** A new task: all flags clear, no progress, the default threshold, an update
      interval of 0 (not `DefaultUpdateTime`), and a policy in place of a null one.
      It can start and update, but not end, since `CanUpdate` ignores `hasStarted`. */
  lemma FreshTask(name: string, isRepeated: bool, trackProgress: bool,
                  behavior: Option<DependencyBehavior>)
    ensures var s := Initial(name, isRepeated, trackProgress, behavior);
      && !s.isCanceled && !s.hasStarted && !s.hasUpdated && !s.isBusy && !s.isTaskComplete
      && s.progress == 0.0 && s.Valid()
      && s.progressCompletionThreshold == DefaultProgressCompletionThreshold
      && s.updateInterval == 0 && s.updateInterval != DefaultUpdateTime
      && s.dependencyBehavior == (if behavior.None? then Some(DefaultBehavior) else behavior)
      && s.taskName == name && s.isRepeated == isRepeated && s.trackProgress == trackProgress
      && s.CanStart() && s.CanUpdate() && !s.CanEnd()
  {
  }

  /** `Cancel` sets only the cancellation flag, and doing it twice is doing it once. */
  lemma CancelOnlyCancels(s: TaskState)
    ensures s.Cancel().isCanceled
    ensures s.Cancel().(isCanceled := s.isCanceled) == s
    ensures s.Cancel().Cancel() == s.Cancel()
  {
  }

  /** Each initialize step sets exactly its two flags. `InitializeStart` closes all
      three predicates; `InitializeUpdate` closes `CanUpdate` and `CanEnd` but leaves
      `CanStart` as it was, since that predicate does not consult the busy flag. */
  lemma InitializeClosesPredicates(s: TaskState)
    ensures s.InitializeStart() == s.(hasStarted := true, isBusy := true)
    ensures s.InitializeUpdate() == s.(hasUpdated := true, isBusy := true)
    ensures !s.InitializeStart().CanStart() && !s.InitializeStart().CanUpdate()
    ensures !s.InitializeStart().CanEnd()
    ensures s.InitializeUpdate().CanStart() == s.CanStart()
    ensures !s.InitializeUpdate().CanUpdate() && !s.InitializeUpdate().CanEnd()
  {
  }

  /** `Begin` fails, changing nothing, exactly when the task is not busy; otherwise
      it clears the busy flag and nothing else. */
  lemma BeginGuard(s: TaskState)
    ensures s.Begin().Err? <==> !s.isBusy
    ensures s.Begin().Err? ==> s.Begin().error == BeginBeforeBusy && Step(s, Begin) == s
    ensures s.isBusy ==> s.Begin() == Ok(s.(isBusy := false))
  {
  }

  /** `Update` reports the protocol error exactly when the task is not busy. When
      busy, it clears the busy flag and nothing else if the update interval is zero
      or more; a negative interval makes the pause fail (below -1) or never end
      (-1), and the task is left unchanged and still busy. */
  lemma UpdateGuard(s: TaskState)
    ensures s.Update().Err? <==> !s.isBusy || s.updateInterval < 0
    ensures s.Update().Err? ==> Step(s, Update) == s
    ensures !s.isBusy ==> s.Update() == Err(UpdateBeforeBusy)
    ensures s.isBusy && s.updateInterval < -1 ==> s.Update() == Err(IntervalOutOfRange)
    ensures s.isBusy && s.updateInterval == -1 ==> s.Update() == Err(WaitsForever)
    ensures s.isBusy && s.updateInterval >= 0 ==> s.Update() == Ok(s.(isBusy := false))
  {
  }

  /** Once its update has been flagged and run with a pause of zero or more, a task
      may end. */
  lemma UpdateThenEnd(s: TaskState)
    requires s.updateInterval >= 0
    ensures Run(s, [InitializeUpdate, Update]).CanEnd()
  {
  }

  /** With a negative update interval the same two steps leave the task busy: it can
      neither update nor end until some other operation clears the flag. */
  lemma {:induction false} NegativeIntervalStaysBusy(s: TaskState)
    requires s.updateInterval < 0
    ensures Run(s, [InitializeUpdate, Update]).isBusy
    ensures !Run(s, [InitializeUpdate, Update]).CanUpdate() && !Run(s, [InitializeUpdate, Update]).CanEnd()
  {
  }

  /** `End` clears every lifecycle flag and marks completion from any state, and
      touches neither progress nor the task's configuration. Afterwards the task can
      be started and updated again. */
  lemma EndResets(s: TaskState)
    ensures var t := s.End();
      && !t.isCanceled && !t.hasStarted && !t.hasUpdated && !t.isBusy && t.isTaskComplete
      && t.progress == s.progress && t.taskName == s.taskName && t.isRepeated == s.isRepeated
      && t.trackProgress == s.trackProgress && t.updateInterval == s.updateInterval
      && t.progressCompletionThreshold == s.progressCompletionThreshold
      && t.dependencyBehavior == s.dependencyBehavior
      && t.CanStart() && t.CanUpdate() && !t.CanEnd()
  {
  }

  /** A whole legal cycle as a scheduler drives it: start, one update, end. */
  lemma DispatcherCycle(name: string, isRepeated: bool, trackProgress: bool,
                        behavior: Option<DependencyBehavior>)
    ensures var s0 := Initial(name, isRepeated, trackProgress, behavior);
      && s0.CanStart()
      && s0.InitializeStart().Begin().Ok?
      && var s1 := s0.InitializeStart().Begin().value;
      && s1.CanUpdate()
      && s1.InitializeUpdate().Update().Ok?
      && var s2 := s1.InitializeUpdate().Update().value;
      && s2.CanEnd() && (s2.CanUpdate() <==> isRepeated)
      && s2.End().isTaskComplete
  {
  }

  // ---------------------------------------------------------------------------
  // Invariants over sequences of operations

  /** No single operation can push progress out of bounds. */
  lemma StepKeepsProgressInRange(s: TaskState, op: Op)
    requires s.Valid()
    ensures Step(s, op).Valid()
  {
    match op
    case UpdateProgress(value, canFinalize) =>
      UpdateProgressInRange(s, value, canFinalize);
    case UpdateProgressRatio(subtotal, total, canFinalize) =>
      UpdateProgressInRange(s, RatioProgress(subtotal, total), canFinalize);
    case _ =>
  }

  /** No sequence of operations can push progress out of bounds. */
  lemma {:induction false} RunKeepsProgressInRange(s: TaskState, ops: seq<Op>)
    requires s.Valid()
    ensures Run(s, ops).Valid()
    decreases |ops|
  {
    if ops != [] {
      StepKeepsProgressInRange(s, ops[0]);
      RunKeepsProgressInRange(Step(s, ops[0]), ops[1..]);
    }
  }

  /** After cancellation, and until `End`, the task can neither start nor update,
      and it can end whenever it is not busy. */
  lemma {:induction false} CancelIsSticky(s: TaskState, ops: seq<Op>)
    requires s.isCanceled
    requires NoEnd(ops)
    ensures Run(s, ops).isCanceled
    ensures !Run(s, ops).CanStart() && !Run(s, ops).CanUpdate()
    ensures !Run(s, ops).isBusy ==> Run(s, ops).CanEnd()
    decreases |ops|
  {
    if ops != [] {
      assert ops[0] in ops;
      assert NoEnd(ops[1..]) by {
        forall op <- ops[1..] ensures !op.End? { assert op in ops; }
      }
      CancelIsSticky(Step(s, ops[0]), ops[1..]);
    }
  }

  /** Cancelling from any state and then applying any operations but `End`. */
  lemma CancelThenAnything(s: TaskState, ops: seq<Op>)
    requires NoEnd(ops)
    ensures !Run(s.Cancel(), ops).CanStart() && !Run(s.Cancel(), ops).CanUpdate()
    ensures !Run(s.Cancel(), ops).isBusy ==> Run(s.Cancel(), ops).CanEnd()
  {
    CancelIsSticky(s.Cancel(), ops);
  }

  /** Once started, a task cannot start again until `End`. */
  lemma {:induction false} StartsOnceUntilEnd(s: TaskState, ops: seq<Op>)
    requires s.hasStarted
    requires NoEnd(ops)
    ensures Run(s, ops).hasStarted && !Run(s, ops).CanStart()
    decreases |ops|
  {
    if ops != [] {
      assert ops[0] in ops;
      assert NoEnd(ops[1..]) by {
        forall op <- ops[1..] ensures !op.End? { assert op in ops; }
      }
      StartsOnceUntilEnd(Step(s, ops[0]), ops[1..]);
    }
  }

  /** A task that is not repeated cannot update again once its update has been
      flagged, until `End`. */
  lemma {:induction false} NonRepeatedUpdatesOnce(s: TaskState, ops: seq<Op>)
    requires !s.isRepeated && s.hasUpdated
    requires NoEnd(ops)
    ensures !Run(s, ops).isRepeated && Run(s, ops).hasUpdated
    ensures !Run(s, ops).CanUpdate()
    decreases |ops|
  {
    if ops != [] {
      assert ops[0] in ops;
      assert NoEnd(ops[1..]) by {
        forall op <- ops[1..] ensures !op.End? { assert op in ops; }
      }
      NonRepeatedUpdatesOnce(Step(s, ops[0]), ops[1..]);
    }
  }

  /** The first `InitializeUpdate` of a task that is not repeated closes `CanUpdate`
      for every later operation before `End`. */
  lemma InitializeUpdateOnce(s: TaskState, ops: seq<Op>)
    requires !s.isRepeated
    requires NoEnd(ops)
    ensures !Run(s.InitializeUpdate(), ops).CanUpdate()
  {
    NonRepeatedUpdatesOnce(s.InitializeUpdate(), ops);
  }
}
