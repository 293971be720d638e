# ScheduledTask lifecycle model

A Dafny model of Squalr's `ScheduledTask`, the base class of every unit of work
that the action scheduler drives. The scheduler polls three predicates: `CanStart`,
`CanUpdate` and `CanEnd`. To run a step it first calls `InitializeStart` or
`InitializeUpdate`, which set the busy flag, and then calls `Begin` or `Update`.
Those two check the busy flag, run the subclass hook and clear the flag. `End`
runs the end hook, clears every lifecycle flag and marks the task complete. While
it runs, the task reports progress through the two `UpdateProgress` overloads.
Progress is clamped to [0, 100]. When finalizing is allowed and progress reaches
the completion threshold, the task is marked complete.

The project has three files:

- `TaskModel.dfy` (module `TaskModel`) holds the task's state as a value,
  `TaskState`. It has one function per operation, the pure helpers `Clamp` and
  `RatioProgress`, and the `Op`/`Step`/`Run` functions that apply any sequence of
  operations.
- `ScheduledTask.dfy` (module `ActionScheduler`) holds the class `ScheduledTask`.
  Its fields are the source's fields, and its methods update them in place.
  Every method ensures `State() == old(State()).<Op>(…)`, which gives the whole new
  state, including what does not change. Every method also keeps progress in
  range. `Begin` and `Update` return an `Outcome` instead of throwing. The default hooks `OnBegin`, `OnUpdate` and
  `OnEnd` are empty methods with no `modifies` clause, so they cannot change the
  task.
- `TaskProperties.dfy` (module `TaskProperties`) holds lemmas about the value
  model. Some cover single operations. Others are proved by induction over any
  sequence of operations: cancellation is sticky until `End`, a task is started
  at most once and a non-repeated task updated at most once between `End`s, and
  progress always stays in range.

The model rests on two assumptions:

- `Clamp` comes from `Utils.Extensions`, which is not part of this model. It is
  taken to return `min` for values below the range, `max` for values above it,
  and the value itself otherwise. `TaskProperties.ClampIsNearest` shows that this
  is the point of the range nearest to the value.
- `Double` is modelled as `real`. `Int32` is the newtype `int32`.

Behaviour of the source worth knowing, as the model states it:

- A throwing hook leaves `IsBusy` set. `Begin` and `Update` clear the flag only
  after the hook returns, with no `finally` (ScheduledTask.cs:334-335,
  :353-355). Throwing hooks are not modelled, so the model claims no cleanup
  guarantee.
- A total of 0 or less completes the task when `canFinalize` holds and the
  threshold is 0 or less (`NonPositiveTotal`).
- `InitializeUpdate` leaves `CanStart` unchanged, because `CanStart` does not
  consult the busy flag. It closes only `CanUpdate` and `CanEnd`. On a fresh task,
  `InitializeUpdate` leaves `CanStart` true.
- `Update` pauses for `UpdateInterval` milliseconds after its hook and before it
  clears the busy flag. The interval has a public setter and may be negative. The
  runtime's sleep rejects an interval below -1 with an out-of-range exception,
  and an interval of -1 waits forever. Either way the task stays busy, so it can
  neither update nor end (`UpdateGuard`, `NegativeIntervalStaysBusy`).

## Model

| member | source | states |
|---|---|---|
| `TaskModel.Clamp` | SqualrCore/Source/ActionScheduler/ScheduledTask.cs:298 | the result lies in [min, max], and equals the input exactly when the input is already in range (the assumed meaning of the unseen extension) |
| `TaskModel.RatioProgress` | SqualrCore/Source/ActionScheduler/ScheduledTask.cs:315-318 | a total of 0 or less gives 0; otherwise result × total = subtotal × 100, the percentage subtotal is of total |
| `ActionScheduler.ScheduledTask.CanStart` | SqualrCore/Source/ActionScheduler/ScheduledTask.cs:145-151 | true exactly when the task is neither canceled nor started |
| `ActionScheduler.ScheduledTask.CanUpdate` | SqualrCore/Source/ActionScheduler/ScheduledTask.cs:156-162 | true exactly when not canceled, not busy, and not yet updated or repeated |
| `ActionScheduler.ScheduledTask.CanEnd` | SqualrCore/Source/ActionScheduler/ScheduledTask.cs:167-173 | true exactly when not busy and either updated or canceled |
| `ActionScheduler.ScheduledTask.constructor` | SqualrCore/Source/ActionScheduler/ScheduledTask.cs:63-68 | the state is `Initial` with a freshly built default policy: flags clear, progress 0, threshold 100, interval 0; the task can start and update but not end |
| `ActionScheduler.ScheduledTask.WithDependencyBehavior` | SqualrCore/Source/ActionScheduler/ScheduledTask.cs:80-97 | the state is `Initial` with the given policy, or the default one in place of null; the policy is never missing afterwards |
| `ActionScheduler.ScheduledTask.InitializeStart` | SqualrCore/Source/ActionScheduler/ScheduledTask.cs:254-261 | sets exactly the started and busy flags; afterwards none of the three predicates holds |
| `ActionScheduler.ScheduledTask.InitializeUpdate` | SqualrCore/Source/ActionScheduler/ScheduledTask.cs:266-273 | sets exactly the updated and busy flags; afterwards the task can neither update nor end, and `CanStart` is as before |
| `ActionScheduler.ScheduledTask.Cancel` | SqualrCore/Source/ActionScheduler/ScheduledTask.cs:278-281 | sets only the cancel flag; afterwards the task can neither start nor update, and can end if not busy |
| `ActionScheduler.ScheduledTask.UpdateProgress` | SqualrCore/Source/ActionScheduler/ScheduledTask.cs:296-307 | stores the clamped value, so progress is in [0, 100]; completion becomes its old value or (canFinalize and progress ≥ threshold); nothing else changes |
| `ActionScheduler.ScheduledTask.UpdateProgressRatio` | SqualrCore/Source/ActionScheduler/ScheduledTask.cs:315-318 | reports `RatioProgress(subtotal, total)` through `UpdateProgress`; progress stays in range and is 0 for a total of 0 or less |
| `ActionScheduler.ScheduledTask.Begin` | SqualrCore/Source/ActionScheduler/ScheduledTask.cs:323-337 | fails with the start protocol error exactly when the task is not busy, and then changes nothing; otherwise clears the busy flag and nothing else |
| `ActionScheduler.ScheduledTask.Update` | SqualrCore/Source/ActionScheduler/ScheduledTask.cs:342-357 | fails with the update protocol error exactly when the task is not busy, and then changes nothing; when busy, succeeds exactly when the update interval is 0 or more, and then clears the busy flag and nothing else; a negative interval fails after the hook with the state unchanged, still busy |
| `ActionScheduler.ScheduledTask.OnBegin` | SqualrCore/Source/ActionScheduler/ScheduledTask.cs:374-376 | the default start hook does nothing; it has no `modifies` clause, so it cannot change the task |
| `ActionScheduler.ScheduledTask.OnUpdate` | SqualrCore/Source/ActionScheduler/ScheduledTask.cs:381-383 | the default update hook does nothing; it has no `modifies` clause, so it cannot change the task |
| `ActionScheduler.ScheduledTask.OnEnd` | SqualrCore/Source/ActionScheduler/ScheduledTask.cs:388-390 | the default end hook does nothing; it has no `modifies` clause, so it cannot change the task |
| `TaskModel.SchedulerError.Message` | SqualrCore/Source/ActionScheduler/ScheduledTask.cs:327-350 | the exact text of each protocol error; both start with the task scheduler's error prefix |
| `ActionScheduler.ScheduledTask.End` | SqualrCore/Source/ActionScheduler/ScheduledTask.cs:362-369 | from any state, clears canceled, started, updated and busy, and sets complete; the task can then start and update but not end |
| `ActionScheduler.ScheduledTask.ResetState` | SqualrCore/Source/ActionScheduler/ScheduledTask.cs:404-411 | clears all five lifecycle flags and nothing else |
| `ActionScheduler.ScheduledTask.SetTaskName` | SqualrCore/Source/ActionScheduler/ScheduledTask.cs:140 | replaces the name and nothing else |
| `ActionScheduler.ScheduledTask.SetUpdateInterval` | SqualrCore/Source/ActionScheduler/ScheduledTask.cs:112 | replaces the update interval and nothing else |
| `ActionScheduler.ScheduledTask.SetDependencyBehavior` | SqualrCore/Source/ActionScheduler/ScheduledTask.cs:107 | replaces the policy, null included, and nothing else |
| `ActionScheduler.ScheduledTask.SetIsTaskComplete` | SqualrCore/Source/ActionScheduler/ScheduledTask.cs:200-212 | replaces the completion flag and nothing else |
| `ActionScheduler.ScheduledTask.SetTrackProgress` | SqualrCore/Source/ActionScheduler/ScheduledTask.cs:52 | replaces the tracking flag, a public field, and nothing else |
| `ActionScheduler.ScheduledTask.SetProgressCompletionThreshold` | SqualrCore/Source/ActionScheduler/ScheduledTask.cs:234 | replaces the completion threshold and nothing else |
| `TaskProperties.ClampIsNearest` | SqualrCore/Source/ActionScheduler/ScheduledTask.cs:298 | the clamped value is at least as close to the input as any point of the range |
| `TaskProperties.UpdateProgressInRange` | SqualrCore/Source/ActionScheduler/ScheduledTask.cs:296-298 | whatever value is reported, progress ends in [0, 100]: the value itself inside the range, 0 below it, 100 above it; only progress and completion change |
| `TaskProperties.UpdateProgressCompletion` | SqualrCore/Source/ActionScheduler/ScheduledTask.cs:300-306 | completion holds afterwards exactly when it held before or (canFinalize and clamped progress ≥ threshold); it is never cleared; without canFinalize it is untouched |
| `TaskProperties.UnreachableThreshold` | SqualrCore/Source/ActionScheduler/ScheduledTask.cs:300-306 | a threshold above 100 is never reached by reporting progress |
| `TaskProperties.NonPositiveTotal` | SqualrCore/Source/ActionScheduler/ScheduledTask.cs:315-318 | a total of 0 or less stores progress 0, and completes the task only if canFinalize holds and the threshold is 0 or less |
| `TaskProperties.PositiveTotal` | SqualrCore/Source/ActionScheduler/ScheduledTask.cs:315-318 | with a positive total, progress is 0 for a subtotal of 0 or less, 100 for a subtotal of at least the total, and subtotal × 100 / total in between |
| `TaskProperties.HalfwayProgress` | SqualrCore/Source/ActionScheduler/ScheduledTask.cs:315-318 | 50 out of 100 stores progress 50 |
| `TaskProperties.OverfullProgress` | SqualrCore/Source/ActionScheduler/ScheduledTask.cs:315-318 | 150 out of 100 stores progress 100, and marks the task complete under the default threshold |
| `TaskProperties.FreshTask` | SqualrCore/Source/ActionScheduler/ScheduledTask.cs:80-97 | a new task has all flags clear, progress 0, threshold 100, interval 0 (not the declared default 400), a policy in place of null, and can start and update but not end |
| `TaskProperties.CancelOnlyCancels` | SqualrCore/Source/ActionScheduler/ScheduledTask.cs:278-281 | cancel sets the cancel flag, changes nothing else, and is idempotent |
| `TaskProperties.InitializeClosesPredicates` | SqualrCore/Source/ActionScheduler/ScheduledTask.cs:254-273 | each initialize step sets exactly its two flags; after `InitializeStart` no predicate holds; after `InitializeUpdate` neither `CanUpdate` nor `CanEnd` holds and `CanStart` is unchanged |
| `TaskProperties.BeginGuard` | SqualrCore/Source/ActionScheduler/ScheduledTask.cs:323-337 | begin fails exactly when the task is not busy, with its own error and no state change; otherwise it only clears the busy flag |
| `TaskProperties.UpdateGuard` | SqualrCore/Source/ActionScheduler/ScheduledTask.cs:342-357 | update fails with the protocol error exactly when not busy; when busy, an interval below -1 fails with the out-of-range error and -1 never returns, both leaving the task unchanged and busy; an interval of 0 or more only clears the busy flag |
| `TaskProperties.UpdateThenEnd` | SqualrCore/Source/ActionScheduler/ScheduledTask.cs:266-273 | for an update interval of 0 or more, `InitializeUpdate` followed by `Update` leaves the task able to end, from any other state |
| `TaskProperties.NegativeIntervalStaysBusy` | SqualrCore/Source/ActionScheduler/ScheduledTask.cs:353-355 | for a negative update interval, `InitializeUpdate` followed by `Update` leaves the task busy, unable to update or end |
| `TaskProperties.EndResets` | SqualrCore/Source/ActionScheduler/ScheduledTask.cs:362-369 | from any state, end clears canceled, started, updated and busy, sets complete, and keeps progress, name, repeat, tracking, interval, threshold and policy |
| `TaskProperties.DispatcherCycle` | SqualrCore/Source/ActionScheduler/ScheduledTask.cs:145-173 | on a new task, the scheduler's sequence start, begin, update, end succeeds with each predicate true when it is used; after the update the task can update again exactly when it is repeated |
| `TaskProperties.StepKeepsProgressInRange` | SqualrCore/Source/ActionScheduler/ScheduledTask.cs:296-318 | no single operation moves progress out of [0, 100] |
| `TaskProperties.RunKeepsProgressInRange` | SqualrCore/Source/ActionScheduler/ScheduledTask.cs:296-318 | no sequence of operations moves progress out of [0, 100] |
| `TaskProperties.CancelIsSticky` | SqualrCore/Source/ActionScheduler/ScheduledTask.cs:145-173 | once canceled, through any operations except end, the task stays canceled, can neither start nor update, and can end whenever it is not busy |
| `TaskProperties.CancelThenAnything` | SqualrCore/Source/ActionScheduler/ScheduledTask.cs:278-281 | cancel from any state, followed by any operations except end, leaves start and update closed and end open when not busy |
| `TaskProperties.StartsOnceUntilEnd` | SqualrCore/Source/ActionScheduler/ScheduledTask.cs:145-151 | once started, through any operations except end, the task cannot start again |
| `TaskProperties.NonRepeatedUpdatesOnce` | SqualrCore/Source/ActionScheduler/ScheduledTask.cs:156-162 | a non-repeated task that has updated stays unable to update through any operations except end |
| `TaskProperties.InitializeUpdateOnce` | SqualrCore/Source/ActionScheduler/ScheduledTask.cs:266-273 | for a non-repeated task, the first `InitializeUpdate` closes `CanUpdate` through any later operations except end |

## Left out

- `Start()` hands the task to the global scheduler singleton. That scheduler is not part of this model.
- The `lock` on the access object is not modelled. Each method is one atomic step, so nothing is claimed about callers that run at the same time.
- `Cancel` and `End` are not taken under the lock in the source; that interleaving is not modelled.
- The wall-clock pause in `Update` is not modelled as time. A pause of 0 or more changes no state, and `UpdateInterval` is a field that `Update` does not change.
- Update: an interval of -1 is modelled as the failure outcome `WaitsForever` with the state unchanged. In the source the call never returns and keeps holding the lock.
- Property-change notifications are not modelled. This includes the `IsCanceled` setter announcing the backing-field name `isCanceled` instead of the property name.
- The fatal log entry written before each protocol error is left out. Only the error outcome is kept, with its message.
- IEEE `Double` rounding, NaN and infinities are not modelled; progress and the ratio are exact reals.
- Overrides of `OnBegin`, `OnUpdate` and `OnEnd`, and exceptions they throw, are not modelled; only the empty default hooks are. In the source a throwing hook leaves `IsBusy` set.
- `DependencyBehavior` is opaque. It is stored as either the default policy or a supplied one known by a handle.
- `TaskName` may be null in the source; here it is a plain string.
- The ChromiumFX interop files (`cfx_dialog_handler.c`, `CfxCompletionCallback.cs`) are native marshalling glue and are not part of this model.
