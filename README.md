# exclusive-task in Dafny

A model, with proofs, of the sequential core of *exclusive-task*, a small JavaScript library that:

- runs asynchronous steps as a pipeline;
- lets several callers share one logical operation.

It has four parts:

- **`Process`** (`Processes`, `ProcessStates`, `ProcessSteps`, `ProcessRuns`). This is the builder and state machine for a pipeline.
  - `tasks` holds TASK work steps and COMPLETE, ERROR and ALWAYS pseudo-steps.
  - `successes`, `fails` and `failStops` are feedback arrays, aligned by index.
  - It keeps flags, a current index and three history arrays.
  - `exec` drains pseudo-steps until it reaches a step it can call; the step's promise continues later in a `.then` or `.catch` handler.
  - In the model, `exec` returns the step it called. The promise continuation is `Deliver`, which takes `Ok(value)` or `Err(error)`.
  - Every call into client code is appended to an event log, so the order of calls and their arguments are part of the state.
- **`ExclusiveTask`** (`ExclusiveTasks`). This is the list of waiters for one operation: `push`, `drop`, `isFirst`, `_getIndex`, `allResolve`, `allReject` and `reset`.
- **`Deferred`** and **`Task`** (`Deferreds`, `Tasks`). A `Deferred` is a settle-once cell that can be re-armed, with a `status` string and handler lists on its current promise. A `Task` wraps one `Deferred` and forwards to it.
- **`SampleAuthTask`** (`SampleAuthTasks`). This is the lead/follower authentication protocol.
  - Every task registers with a shared manager.
  - Only the head of the list runs the check → modal → auth chain.
  - The head's outcome is fanned out to the other waiters.

Each JavaScript class is a Dafny class that keeps the source's state, regrouped as follows:

- `Process` groups its boolean flags into a `Flags` record and its `results`/`errors`/`task_statuses` arrays into a `History` record. It adds `pending`, the number of step calls in flight, and `log`, the calls made into client code.
- `Deferred` replaces the native promise and its captured `_resolve`/`_reject` with the promise's observable state: `settled`, the settlement of the current arming; `handlers`, the handlers attached to that arming; `fired`, every handler invocation so far; and `armings`, how many promises it has created.
- `ExclusiveTask` keeps only the option it reads from `settings`, as `continueAfterRejected`.
- `Task`'s `continue` is named `continuation`, because `continue` is a Dafny keyword.
- `SampleAuthTask` holds its Task part as `base` rather than extending `Task`. It adds `inFlight` and `issued`, the mocked calls it has made.

The methods change these fields in place. In `Process` and `Deferred`, `State()` bundles the fields into a value, and each method is proved equal to a function on that value, for example `ensures State() == AfterReset(old(State()))`; the lemmas about those functions state what the library promises. `Task`, `ExclusiveTask` and `SampleAuthTask` state their effects directly: the new value of each field they change, and for every waiter in the old list its Deferred's new `State()` in terms of that Deferred's functions (`AfterResolve`, `AfterReject`).

`ProcessRuns.Walk` is an independent reading of a whole run: it goes through the descriptors left to right. `RunMatchesWalk` proves that the `exec`/`Deliver` state machine makes exactly the hook calls of `Walk`. The properties of whole runs are then proved about `Walk`.

## Model

| member | source | states |
|---|---|---|
| Deferreds.CreatedIsPending | src/class/Deferred.js:2-16 | a new Deferred is armed once, `'pendding'`, unsettled and has no handlers |
| Deferreds.Deferred.constructor | src/class/Deferred.js:2-8 | the state after construction is `Created()`: 'initial', then `_setPromise` |
| Deferreds.Deferred.SetPromise | src/class/Deferred.js:10-16 | status 'pendding', a new unsettled promise with no handlers, one more arming; the firing log is kept |
| Deferreds.Deferred.SettlePromise | src/class/Deferred.js:12-15 | the native resolver: the first settlement of an arming runs the matching handlers, and a later one is a no-op |
| Deferreds.Deferred.Resolve | src/class/Deferred.js:18-21 | status becomes 'fulfilled' unconditionally, then the promise is settled with the value |
| Deferreds.Deferred.Reject | src/class/Deferred.js:23-26 | status becomes 'rejected' unconditionally, then the promise is settled with the reason |
| Deferreds.Deferred.Reset | src/class/Deferred.js:28-30 | `reset` re-arms: same effect as `_setPromise` |
| Deferreds.Deferred.Then | src/class/Deferred.js:32-37 | attaches a fulfilment handler only while the status is 'pendding' or 'initial', and returns itself |
| Deferreds.Deferred.Catch | src/class/Deferred.js:39-44 | attaches a rejection handler only while the status is 'pendding' or 'initial', and returns itself |
| Deferreds.FireRunsMatchingHandlers | src/class/Deferred.js:32-44 | a settlement runs exactly the handlers of its kind (`then` on fulfilment, `catch` on rejection), each with the payload, and no others |
| Deferreds.ReplayKeepsValid | src/class/Deferred.js:10-30 | under any sequence of calls, the status is 'pendding' exactly while the current promise is unsettled, and 'initial' is never seen again |
| Deferreds.ReplayExtendsFired | src/class/Deferred.js:12-15 | handler invocations are never undone: the firing log only grows |
| Deferreds.SettlesOnce | src/class/Deferred.js:12-26 | once an arming is settled, no call short of `reset` changes the settlement or runs a handler |
| Deferreds.SecondSettlementOnlyOverwritesStatus | src/class/Deferred.js:18-26 | repeating resolve/reject is a no-op; the opposite call only overwrites `status` |
| Deferreds.LateHandlerNeverRuns | src/class/Deferred.js:32-44 | `then`/`catch` on a settled Deferred attach nothing, and nothing short of `reset` runs a handler afterwards |
| Deferreds.ResetDiscardsHandlers | src/class/Deferred.js:10-30 | after `reset`, a handler that is not attached again never fires, whatever is called later |
| Tasks.Task.constructor | src/class/Task.js:4-7 | a new Task holds a fresh Deferred in its created state, and `continue` is null |
| Tasks.Task.Reject | src/class/Task.js:13-15 | forwards to `dfd.reject`; nothing but the Deferred changes |
| Tasks.Task.Resolve | src/class/Task.js:21-23 | forwards to `dfd.resolve`; nothing but the Deferred changes |
| ExclusiveTasks.FirstIndex | src/class/ExclusiveTask.js:81-89 | the first position holding the identical task, or none exactly when the task is absent |
| ExclusiveTasks.FirstIndexIsUnique | src/class/ExclusiveTask.js:81-89 | a position with the task and no earlier occurrence is the first index |
| ExclusiveTasks.DropPresentRemovesFirstOccurrence | src/class/ExclusiveTask.js:24-26 | dropping a registered task removes exactly its first occurrence and keeps the others in order |
| ExclusiveTasks.DropAbsentRemovesHead | src/class/ExclusiveTask.js:24-26 | dropping an unregistered task removes the head (`splice(false, 1)`), or nothing from an empty list |
| ExclusiveTasks.ExclusiveTask.constructor | src/class/ExclusiveTask.js:5-10 | `continue_after_rejected` is false unless the options set it; the list starts empty |
| ExclusiveTasks.ExclusiveTask.Push | src/class/ExclusiveTask.js:16-18 | appends at the end, duplicates included |
| ExclusiveTasks.ExclusiveTask.Drop | src/class/ExclusiveTask.js:24-26 | the list becomes `Dropped(old list, t)` |
| ExclusiveTasks.ExclusiveTask.IsFirst | src/class/ExclusiveTask.js:33-35 | true exactly when the list is non-empty and its head is the task |
| ExclusiveTasks.ExclusiveTask.GetIndex | src/class/ExclusiveTask.js:81-89 | the loop finds `FirstIndex` |
| ExclusiveTasks.ExclusiveTask.AllResolve | src/class/ExclusiveTask.js:41-46 | every waiter's Deferred is resolved with the data, and the list is emptied |
| ExclusiveTasks.ExclusiveTask.AllReject | src/class/ExclusiveTask.js:52-66 | without the option, every waiter is rejected with the data; with it, no waiter's Deferred changes; either way the list is emptied |
| ExclusiveTasks.ExclusiveTask.RejectEach | src/class/ExclusiveTask.js:53-57 | the rejecting loop of `allReject`: every waiter's Deferred is rejected with the data |
| ExclusiveTasks.ExclusiveTask.Reset | src/class/ExclusiveTask.js:71-73 | the list is emptied |
| SampleAuthTasks.NewManager | src/task/SampleAuthTask.js:40 | the shared manager starts empty with `continue_after_rejected` false |
| SampleAuthTasks.SampleAuthTask.constructor | src/task/SampleAuthTask.js:45-52 | a new task is appended to the manager with a fresh Deferred, and `continue` is set to `start` |
| SampleAuthTasks.SampleAuthTask.Start | src/task/SampleAuthTask.js:55-61 | always returns the task's own Deferred; issues `isLogin` exactly when the task heads the manager |
| SampleAuthTasks.SampleAuthTask.RespondTo | src/task/SampleAuthTask.js:64-98 | the answer to a call in flight is removed and follows the transition table. If it leads to another call, that call is issued and no Deferred or list changes. If it leads to `complete` or `error`, the task's own Deferred and every waiter end exactly as `Complete` or `Error` state it, for a lead and a non-lead, with and without `continue_after_rejected` |
| SampleAuthTasks.SampleAuthTask.Complete | src/task/SampleAuthTask.js:101-108 | resolves the own Deferred with `undefined`; a lead empties the manager and resolves every other waiter with `{}`; a non-lead changes nothing else |
| SampleAuthTasks.SampleAuthTask.Error | src/task/SampleAuthTask.js:110-117 | rejects the own Deferred; a lead empties the manager and rejects every other waiter with `{}`; a non-lead changes nothing else |
| SampleAuthTasks.ChainAlternates | src/task/SampleAuthTask.js:64-98 | a chain starts at its first call, never repeats the check, and calls auth exactly after a modal; it ends only by `complete` or `error` |
| SampleAuthTasks.ChainEnds | src/task/SampleAuthTask.js:64-98 | the chain fails only by a dismissed modal, and succeeds only by a successful check or auth |
| SampleAuthTasks.LeadAndFollowers | src/task/SampleAuthTask.js:55-117 | with three registered tasks only the lead calls anything, and all three Deferreds settle the same way as the modal's answer |
| ProcessStates.AddFeedback | src/class/Process.js:76-86 | pads with null up to the last descriptor's index and stores the hook there, or warns and keeps the array when that slot is taken |
| ProcessSteps.FeedbackAttachesToLastStep | src/class/Process.js:76-116 | `success`/`fail`/`failStop` put the hook at index `tasks.length - 1`, padding the gap with null and changing nothing else; a duplicate, or a hook before any task, only warns |
| ProcessSteps.TaskKeepsNames | src/class/Process.js:59-67 | after `task(fn)`, `fn_name_index` maps each name to the last TASK descriptor with that name |
| ProcessSteps.NamesStayLatest | src/class/Process.js:59-314 | no sequence of operations without `destroy` breaks that name invariant |
| ProcessSteps.DestroyStrandsNames | src/class/Process.js:158-165 | `destroy` empties `tasks` but keeps `fn_name_index`, so every registered name then points past the end |
| ProcessSteps.ExecFrame | src/class/Process.js:248-282 | `exec` changes only the index, the log and the pending count; it calls one step, with the previous step's data and status, or stops: killed, aborted or at the end |
| ProcessSteps.IdleWhenDoneOrKilled | src/class/Process.js:250-253 | at the end of `tasks`, or when killed, `exec` calls nothing and changes nothing |
| ProcessSteps.AbortFiresEveryExec | src/class/Process.js:256-259 | while aborted, every `exec` that finds a descriptor calls the aborted hook (again each time) and changes nothing else |
| ProcessSteps.FirstStepGetsNothing | src/class/Process.js:211-282 | the first step of a run receives `null` and `null` |
| ProcessSteps.NextStepSeesOutcome | src/class/Process.js:279-313 | the step called after an outcome gets (value, true) after a success, and (error, false) after a failure with no fail-stop hook |
| ProcessSteps.GettersSeeLatestOutcome | src/class/Process.js:211-299 | after an outcome, the three getters report it |
| ProcessSteps.ContinuedFrame | src/class/Process.js:283-313 | a continuation appends one aligned entry to each history, sets `has_error` on failure and `stop` on a fail-stop, keeps the index on a fail-stop and moves it on otherwise, and calls at most one feedback hook |
| ProcessSteps.KilledDeliveryOnlyRecords | src/class/Process.js:253-313 | a step in flight when killed still records its outcome and runs its own feedback hook, and nothing more |
| ProcessSteps.AbortedDeliveryStopsPipeline | src/class/Process.js:256-313 | a step in flight when aborted runs its feedback hook and at most the aborted hook, and no further step or pseudo-step |
| ProcessSteps.AlwaysConsistent | src/class/Process.js:25-314 | in every reachable state the histories are aligned with null in the unused column, `has_error` says whether some step failed, `stop` implies `has_error`, and no feedback array is longer than `tasks` |
| ProcessRuns.RunMatchesWalk | src/class/Process.js:248-314 | from any state that is neither killed nor aborted and has no step in flight, a run makes exactly the hook calls of `Walk` and ends with its histories |
| ProcessRuns.WalkIndicesFrom | src/class/Process.js:262-311 | every hook call from index i on belongs to a descriptor at i or later |
| ProcessRuns.TerminalHooksFire | src/class/Process.js:262-277 | a descriptor the run reaches calls ALWAYS once; COMPLETE once if no step failed, else never; ERROR once if some step failed, else never |
| ProcessRuns.CompleteSeesAllResults | src/class/Process.js:265-294 | when every step succeeds, a COMPLETE hook receives the earlier results plus one value per step before it, in order |
| ProcessRuns.AllOkRecordsEveryResult | src/class/Process.js:283-294 | when every step succeeds, `results` gains one value per step, in order, and the run never fails or stops |
| ProcessRuns.AllOkCallsNoFailureHook | src/class/Process.js:271-313 | when every step succeeds, no fail, fail-stop or ERROR hook is called |
| ProcessRuns.StoppedWalkSkipsSteps | src/class/Process.js:262-277 | once `stop` is set, no step is called and no outcome is used; only pseudo-steps run |
| ProcessRuns.FailStopSkipsLaterSteps | src/class/Process.js:301-306 | a failure at a step with a fail-stop hook calls that hook with the error and calls no later step |
| ProcessRuns.RestartReplaysFirstRun | src/class/Process.js:128-146 | `restart` from any state with no step in flight replays a fresh first run with the same registrations and outcomes |
| ProcessRuns.FailStopPipeline | src/class/Process.js:248-314 | a concrete pipeline: step 2 receives (r1, true), the fail-stop hook gets the error, step 3 is skipped, ALWAYS gets [r1, null] and [null, error] |
| ProcessRuns.ResultByPositionMissesNamedStep | src/class/Process.js:238-242 | with a COMPLETE descriptor before step `login`, the lookup as written returns `undefined` and the corrected one returns that step's value |
| ProcessRuns.NamedResultIsThatStepsValue | src/class/Process.js:238-242 | in a run whose steps succeed, the corrected lookup returns the outcome of the named step, or `undefined` when the indexed position holds a step of another name |
| ProcessRuns.StaleNameIsUndefined | src/class/Process.js:238-242 | after `task(login)`, `destroy` and an anonymous `task(g)`, the lookup as written returns `g`'s value for `login`; the corrected one returns `undefined` |
| Processes.Process.constructor | src/class/Process.js:25-52 | all flags false, index 0, empty histories, descriptors and hooks |
| Processes.Process.Task | src/class/Process.js:59-67 | appends one TASK descriptor and, for a named function, maps the name to its position; returns itself |
| Processes.Process.AddFeedbackFn | src/class/Process.js:76-86 | the recursive padding reaches `WithFeedback` |
| Processes.Process.Success | src/class/Process.js:93-96 | registers a success hook for the last descriptor; returns itself |
| Processes.Process.Fail | src/class/Process.js:103-106 | registers a fail hook for the last descriptor; returns itself |
| Processes.Process.FailStop | src/class/Process.js:113-116 | registers a fail-stop hook for the last descriptor; returns itself |
| Processes.Process.Abort | src/class/Process.js:121-123 | sets only the abort flag |
| Processes.Process.Reset | src/class/Process.js:128-138 | clears the flags, the index and the histories and counts the reset; descriptors and hooks stay |
| Processes.Process.Restart | src/class/Process.js:143-146 | `reset` then `exec` |
| Processes.Process.Kill | src/class/Process.js:151-153 | sets only the kill flag |
| Processes.Process.Destroy | src/class/Process.js:158-165 | resets, then drops descriptors, feedback arrays and the aborted hook, and keeps the name index |
| Processes.Process.Complete | src/class/Process.js:172-175 | appends a COMPLETE descriptor; returns itself |
| Processes.Process.Always | src/class/Process.js:182-185 | appends an ALWAYS descriptor; returns itself |
| Processes.Process.Aborted | src/class/Process.js:192-195 | overwrites the aborted hook; returns itself |
| Processes.Process.Error | src/class/Process.js:202-205 | appends an ERROR descriptor; returns itself |
| Processes.Process.GetLastResult | src/class/Process.js:211-214 | null on an empty history, else the last result |
| Processes.Process.GetLastError | src/class/Process.js:220-223 | null on an empty history, else the last error |
| Processes.Process.GetLastStatus | src/class/Process.js:229-232 | null on an empty history, else the last status |
| Processes.Process.GetResultByFnName | src/class/Process.js:238-242 | the corrected lookup: `undefined` unless the indexed position holds a TASK descriptor of that name; otherwise the loop counts the TASK descriptors before it |
| Processes.Process.Exec | src/class/Process.js:248-282 | the loop of drained pseudo-steps ends in the state and step call of `Executed` |
| Processes.Process.DrainOne | src/class/Process.js:262-274 | one drained descriptor: COMPLETE only without error, ERROR only with error, ALWAYS always, a skipped TASK nothing; the index moves on |
| Processes.Process.Deliver | src/class/Process.js:282-313 | the arrival of an outcome runs the `.then` or `.catch` handler |
| Processes.Process.HandleSuccess | src/class/Process.js:283-294 | records (value, null, true), calls the success hook at the index with the value, advances and re-enters `exec` |
| Processes.Process.HandleFailure | src/class/Process.js:295-313 | records (null, error, false) and sets `has_error`; a fail-stop hook gets the error and sets `stop` at the same index, otherwise the fail hook gets it and the index advances |

## Behaviour as written

On these points the code does something other than its documentation or its evident intention. The model follows the code.

- The aborted hook is called on every `exec` while `abort_flag` is set and a descriptor is left, not once per abort.
- The aborted hook is not called when the index is already past the last descriptor.
- The step after a failure receives the last error and `false`, not `null`: the getters return the error, and `last_status` selects it.
- `kill` does not cancel a step in flight. Its outcome is still recorded and its own feedback hook still runs; only the re-entered `exec` stops.
- `abort` while a step is in flight lets that step's feedback hook run, then the aborted hook.
- The ALWAYS hook is documented to run "except on abort", and it does not run then. It also does not run after `kill`.
- A COMPLETE, ERROR or ALWAYS descriptor registered before some steps fires as soon as `exec` reaches it, with the histories at that point.
- `push` admits duplicates, and `drop` of an absent task removes the head of the list.
- With `continue_after_rejected` set, `allReject` continues nobody, because the `typeof === 'function'` test is false for a task object. It only empties the list.
- `reset` while a step is in flight: the late continuation uses the current `current_index`, so it records into the new run.
- The guard of `getResultByFnName` is always true, and the lookup uses a `tasks` position as a `results` position. See Findings.
- `destroy` keeps `fn_name_index`, so after it a name can point at a position now held by another step, and `getResultByFnName` returns that step's result. The corrected lookup answers only when the indexed descriptor carries the name asked for (`ProcessRuns.StaleNameIsUndefined`).
- `exec` returns `false` or nothing in the source. The model's `Exec` returns the step call it made, if any.

## Findings

| source | as written | input that shows it | evidently intended | confidence | as-written member | corrected member |
|---|---|---|---|---|---|---|
| src/class/Process.js:238-242 | `results[fn_name_index[name]]` uses the named step's position in `tasks`, but `results` holds one entry per step called, not per descriptor | `complete(h).task(function login(){…})`, where `login` succeeds with 7: `fn_name_index.login` is 1 and `results` is `[7]`, so the lookup returns `undefined` | return the result of the named step | not executed | ProcessRuns.ResultByPositionMissesNamedStep (uses ProcessRuns.ResultByFnNameAsWritten) | ProcessRuns.NamedResultIsThatStepsValue (uses ProcessRuns.ResultByFnName, which Processes.Process.GetResultByFnName computes) |

## Left out

- Timing, `setTimeout` and the microtask order of native promises are left out. An outcome arrives when `Deliver` (or `RespondTo`) is called. Several `Process` instances are not interleaved.
- Exceptions thrown by hooks or step functions are left out. Hooks are assumed not to throw and not to call back into the Process. What a throw would do depends on the step. When a step returns a native Promise, a throwing success hook falls into the `.catch` handler. When it returns a `Deferred`, as `SampleAuthTask.start` does, `then` and `catch` attach to the same underlying promise and return the Deferred. A throwing success hook then rejects only the unobserved promise made by `promise.then(fn, noop)`, and the `.catch` handler does not run.
- A step's outcome is an unconstrained input to `Deliver`, whatever object the step returned. A step that returns a `Deferred` which is already settled is one case. `then`/`catch` attach nothing to it (src/class/Deferred.js:32-44), so the source never continues the pipeline; for instance, `restart` on a process whose step is `() => authTask.start()` after that task completed. `Processes.Process.Deliver` still accepts an outcome for such a step, so the model does not capture a pipeline that gets stuck this way.
- `console.warn` becomes a `DuplicateFeedbackWarned` event. `console.log` in the sample task is dropped.
- Values a hook returns, and the chaining helpers' return values beyond `this`, are left out. Hooks and step functions are identities, and their calls are log entries.
- Unhandled-rejection reporting of native promises is left out.
- The mocks `isLogin`, `showModal` and `auth` (src/task/SampleAuthTask.js:7-37) become calls whose outcome is an input, supplied by `RespondTo`. With the mocks as written, `isLogin` always rejects because `is_login` stays 0, and the modal always resolves. The model allows every outcome.
- The order in which `allResolve`/`allReject` settle the waiters is not stated: the contracts give every waiter's final state, not the order of events.
- What `Deferred` handlers do when they run is left out. Each firing is recorded, but its effect is not modelled. In `SampleAuthTask` the effect of each `then`/`catch` continuation is `RespondTo`.
- `exec`'s boolean return value is left out. No caller reads it.
- src/app.js is not part of this model: it only wires DOM events to a `Process`.
- The module-wide `sampleAuthTaskManager` (src/task/SampleAuthTask.js:40) is a constructor parameter of `SampleAuthTask`. A caller that passes the same `NewManager()` to every task gets the source's singleton; the model also admits several managers.
- COMPLETE, ERROR and ALWAYS hooks receive the live `results`/`errors` arrays in the source (src/class/Process.js:265-271). The log records a copy taken at the call. This assumes that hooks do not mutate the arrays, and the model does not capture a later change being seen through the shared reference.
- ExclusiveTasks.ExclusiveTask.AllResolve: does not state the order in which the waiters' handlers run, only each waiter's resulting state.
- SampleAuthTasks.SampleAuthTask.Start: does not model the identity of the `isLogin` callback's Deferred; the call is recorded as a `CheckAuth` request.
