/**
 * The state of a `Process` (src/class/Process.js) as a value, and each
 * operation of the class as a function from state to state.
 *
 * Hooks and step functions are opaque identities. Calling one appends an
 * `Event` to `log`, which makes the order of calls and their arguments part of
 * the state. A step function returns a promise; its `.then`/`.catch`
 * continuation is modelled by `Delivered`, and `pending` counts the
 * continuations that are still to come.
 */
module ProcessStates {
  import opened Values

  type HookId = nat

  /** A step function: its identity and its `fn.name` ("" for an anonymous function). */
  datatype StepFn = StepFn(id: nat, name: string)

  /** The entries of `tasks`: a TASK with its step function, or a COMPLETE, ERROR or ALWAYS pseudo-step. */
  datatype Descriptor = Work(step: StepFn) | OnComplete(hook: HookId) | OnError(hook: HookId) | OnAlways(hook: HookId)

  /** How the promise returned by a step function settles. */
  datatype Outcome = Ok(value: Value) | Err(error: Value)

  /** The call of a step function: its position in `tasks` and the two arguments it receives. */
  datatype StepCall = StepCall(index: nat, step: StepFn, lastData: Value, lastStatus: Option<bool>)

  /** Every call the process makes into client code, and the duplicate-registration warning. */
  datatype Event =
    | StepInvoked(call: StepCall)
    | SuccessCalled(index: nat, hook: HookId, data: Value)
    | FailCalled(index: nat, hook: HookId, error: Value)
    | FailStopCalled(index: nat, hook: HookId, error: Value)
    | CompleteCalled(index: nat, hook: HookId, results: seq<Value>)
    | ErrorCalled(index: nat, hook: HookId, errors: seq<Value>)
    | AlwaysCalled(index: nat, hook: HookId, results: seq<Value>, errors: seq<Value>)
    | AbortedCalled(hook: HookId)
    | DuplicateFeedbackWarned

  /** The three feedback arrays. */
  datatype Feedback = OnSuccess | OnFail | OnFailStop

  /** The fields of a Process. */
  datatype PState = PState(
    hasError: bool,
    stop: bool,
    abortFlag: bool,
    killFlag: bool,
    currentIndex: nat,
    resetCount: nat,
    results: seq<Value>,
    errors: seq<Value>,
    taskStatuses: seq<bool>,
    fnNameIndex: map<string, nat>,
    tasks: seq<Descriptor>,
    successes: seq<Option<HookId>>,
    fails: seq<Option<HookId>>,
    failStops: seq<Option<HookId>>,
    abortedFn: Option<HookId>,
    pending: nat,
    log: seq<Event>)

  function Constructed(): PState {
    PState(false, false, false, false, 0, 0, [], [], [], map[], [], [], [], [], None, 0, [])
  }

  // ---------------------------------------------------------------- registration

  /** `task(fn)`: append a TASK descriptor; a named function's name now maps to its position. */
  function WithTask(s: PState, fn: StepFn): PState {
    var t := s.(tasks := s.tasks + [Work(fn)]);
    if fn.name != "" then t.(fnNameIndex := t.fnNameIndex[fn.name := |t.tasks| - 1]) else t
  }

  /** `complete(fn)`, `error(fn)`, `always(fn)`: append a pseudo-step at the current position. */
  function WithDescriptor(s: PState, d: Descriptor): PState
    requires !d.Work?
  {
    s.(tasks := s.tasks + [d])
  }

  /** `aborted(fn)`: the slot is overwritten. */
  function WithAborted(s: PState, fn: HookId): PState {
    s.(abortedFn := Some(fn))
  }

  /** The array `_addFeedbackFn` returns, and whether it warned. */
  datatype Padded = Padded(arr: seq<Option<HookId>>, warned: bool)

  /**
   * `_addFeedbackFn(array, fn)` with `task_index` the index of the last
   * descriptor: pad with `null` up to that index and store the hook there; if
   * the slot is already taken (or there is no descriptor, index -1), warn and
   * keep the array.
   */
  function AddFeedback(arr: seq<Option<HookId>>, taskIndex: int, fn: HookId): (r: Padded)
    ensures taskIndex >= |arr| ==>
      !r.warned && |r.arr| == taskIndex + 1 && r.arr[..|arr|] == arr && r.arr[taskIndex] == Some(fn) &&
      forall k :: |arr| <= k < taskIndex ==> r.arr[k] == None
    ensures taskIndex < |arr| ==> r.warned && r.arr == arr
    decreases taskIndex - |arr|
  {
    if |arr| == taskIndex then Padded(arr + [Some(fn)], false)
    else if |arr| > taskIndex then Padded(arr, true)
    else AddFeedback(arr + [None], taskIndex, fn)
  }

  function FeedbackArray(s: PState, which: Feedback): seq<Option<HookId>> {
    match which
    case OnSuccess => s.successes
    case OnFail => s.fails
    case OnFailStop => s.failStops
  }

  function WithFeedbackArray(s: PState, which: Feedback, arr: seq<Option<HookId>>): PState {
    match which
    case OnSuccess => s.(successes := arr)
    case OnFail => s.(fails := arr)
    case OnFailStop => s.(failStops := arr)
  }

  /** `success(fn)`, `fail(fn)`, `failStop(fn)`. */
  function WithFeedback(s: PState, which: Feedback, fn: HookId): PState {
    var r := AddFeedback(FeedbackArray(s, which), |s.tasks| - 1, fn);
    var t := WithFeedbackArray(s, which, r.arr);
    if r.warned then t.(log := t.log + [DuplicateFeedbackWarned]) else t
  }

  // ---------------------------------------------------------------- control

  function Aborting(s: PState): PState {
    s.(abortFlag := true)
  }

  function Killing(s: PState): PState {
    s.(killFlag := true)
  }

  /** `reset()`: clear the run (flags, index, histories) and count the reset; keep steps and hooks. */
  function AfterReset(s: PState): PState {
    s.(resetCount := s.resetCount + 1, hasError := false, stop := false, abortFlag := false,
       killFlag := false, currentIndex := 0, results := [], errors := [], taskStatuses := [])
  }

  /** `destroy()`: reset, then drop the steps, the feedback arrays and the aborted hook (not the name index). */
  function AfterDestroy(s: PState): PState {
    AfterReset(s).(tasks := [], successes := [], fails := [], failStops := [], abortedFn := None)
  }

  // ---------------------------------------------------------------- getters

  /** The last element, or `null` for an empty array. */
  function LastOf(xs: seq<Value>): Value {
    if |xs| == 0 then Null else xs[|xs| - 1]
  }

  function LastResult(s: PState): Value {
    LastOf(s.results)
  }

  function LastError(s: PState): Value {
    LastOf(s.errors)
  }

  function LastStatus(s: PState): Option<bool> {
    if |s.taskStatuses| == 0 then None else Some(s.taskStatuses[|s.taskStatuses| - 1])
  }

  /** `last_status ? getLastResult() : getLastError()`: only `true` is truthy. */
  function PreviousData(results: seq<Value>, errors: seq<Value>, statuses: seq<bool>): Value {
    if |statuses| > 0 && statuses[|statuses| - 1] then LastOf(results) else LastOf(errors)
  }

  function PreviousStatus(statuses: seq<bool>): Option<bool> {
    if |statuses| == 0 then None else Some(statuses[|statuses| - 1])
  }

  /** `typeof array[i] === 'function'`: a hook, not a `null` pad and not past the end. */
  function HookAt(arr: seq<Option<HookId>>, i: nat): Option<HookId> {
    if i < |arr| then arr[i] else None
  }

  // ---------------------------------------------------------------- exec

  /** What `exec` returns in the model: the state reached and the step function called, if any. */
  datatype Advance = Advance(state: PState, call: Option<StepCall>)

  /** The hook a pseudo-step calls while draining, given the error flag and the two histories. */
  function DrainEvents(d: Descriptor, i: nat, hasError: bool, results: seq<Value>, errors: seq<Value>): seq<Event> {
    match d
    case Work(_) => []
    case OnComplete(h) => if !hasError then [CompleteCalled(i, h, results)] else []
    case OnError(h) => if hasError then [ErrorCalled(i, h, errors)] else []
    case OnAlways(h) => [AlwaysCalled(i, h, results, errors)]
  }

  /** `exec()`: returns at once, calls the aborted hook, drains a pseudo-step and re-enters, or calls a step. */
  function Executed(s: PState): Advance
    decreases |s.tasks| - s.currentIndex
  {
    if s.currentIndex >= |s.tasks| then Advance(s, None)
    else if s.killFlag then Advance(s, None)
    else if s.abortFlag then
      Advance(s.(log := s.log + (if s.abortedFn.Some? then [AbortedCalled(s.abortedFn.value)] else [])), None)
    else
      var d := s.tasks[s.currentIndex];
      if !d.Work? || s.stop then
        Executed(s.(log := s.log + DrainEvents(d, s.currentIndex, s.hasError, s.results, s.errors),
                    currentIndex := s.currentIndex + 1))
      else
        var call := StepCall(s.currentIndex, d.step, PreviousData(s.results, s.errors, s.taskStatuses),
                             PreviousStatus(s.taskStatuses));
        Advance(s.(log := s.log + [StepInvoked(call)], pending := s.pending + 1), Some(call))
  }

  /** The `.then` continuation: record a success, call the success hook, advance, re-enter `exec`. */
  function Succeeded(s: PState, v: Value): PState {
    var t := s.(results := s.results + [v], errors := s.errors + [Null], taskStatuses := s.taskStatuses + [true]);
    var ev := match HookAt(t.successes, t.currentIndex)
              case Some(h) => [SuccessCalled(t.currentIndex, h, v)]
              case None => [];
    t.(log := t.log + ev, currentIndex := t.currentIndex + 1)
  }

  /**
   * The `.catch` continuation: record a failure; a fail-stop hook sets `stop`
   * without advancing (the re-entered `exec` then skips the step), otherwise
   * the fail hook, if any, is called and the index advances.
   */
  function Failed(s: PState, e: Value): PState {
    var t := s.(results := s.results + [Null], errors := s.errors + [e], taskStatuses := s.taskStatuses + [false],
                hasError := true);
    match HookAt(t.failStops, t.currentIndex)
    case Some(h) => t.(log := t.log + [FailStopCalled(t.currentIndex, h, e)], stop := true)
    case None =>
      var ev := match HookAt(t.fails, t.currentIndex)
                case Some(h) => [FailCalled(t.currentIndex, h, e)]
                case None => [];
      t.(log := t.log + ev, currentIndex := t.currentIndex + 1)
  }

  /** The arrival of an outcome for a step that was called, followed by the re-entered `exec`. */
  function Delivered(s: PState, o: Outcome): Advance
    requires s.pending > 0
  {
    var t := s.(pending := s.pending - 1);
    match o
    case Ok(v) => Executed(Succeeded(t, v))
    case Err(e) => Executed(Failed(t, e))
  }

  /** `restart()`. */
  function Restarted(s: PState): Advance {
    Executed(AfterReset(s))
  }
}
