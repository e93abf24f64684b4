/**
 * The `Process` class (src/class/Process.js): a builder for an asynchronous
 * pipeline whose fields are updated in place.
 *
 * Every method is proved against the state function of the same operation
 * in ProcessStates. `exec` returns the step function it called, if any (the
 * source returns `false`, or nothing when it calls a step); the continuation
 * of that step's promise is `Deliver`.
 */
module Processes {
  import opened Values
  import opened ProcessStates
  import opened ProcessRuns

  /** The flags of a Process (`has_error`, `stop`, `abort_flag`, `kill_flag`). */
  datatype Flags = Flags(hasError: bool, stop: bool, abortFlag: bool, killFlag: bool)

  /** The three histories, one entry per finished step (`results`, `errors`, `task_statuses`). */
  datatype History = History(results: seq<Value>, errors: seq<Value>, taskStatuses: seq<bool>)

  class Process {
    var flags: Flags
    var currentIndex: nat
    var resetCount: nat
    var history: History
    var fnNameIndex: map<string, nat>
    var tasks: seq<Descriptor>
    var successes: seq<Option<HookId>>
    var fails: seq<Option<HookId>>
    var failStops: seq<Option<HookId>>
    var abortedFn: Option<HookId>
    /** Step functions called whose promise has not settled yet. */
    var pending: nat
    /** Every call into client code so far. */
    var log: seq<Event>

    function State(): PState
      reads this
    {
      PState(flags.hasError, flags.stop, flags.abortFlag, flags.killFlag, currentIndex, resetCount,
             history.results, history.errors, history.taskStatuses,
             fnNameIndex, tasks, successes, fails, failStops, abortedFn, pending, log)
    }

    constructor ()
      ensures State() == Constructed()
    {
      flags := Flags(false, false, false, false);
      currentIndex, resetCount := 0, 0;
      history := History([], [], []);
      fnNameIndex := map[];
      tasks, successes, fails, failStops := [], [], [], [];
      abortedFn := None;
      pending := 0;
      log := [];
    }

    method Task(fn: StepFn) returns (self: Process)
      modifies this
      ensures self == this && State() == WithTask(old(State()), fn)
    {
      tasks := tasks + [Work(fn)];
      if fn.name != "" {
        fnNameIndex := fnNameIndex[fn.name := |tasks| - 1];
      }
      self := this;
    }

    function Feedbacks(which: Feedback): seq<Option<HookId>>
      reads this
    {
      FeedbackArray(State(), which)
    }

    method PushFeedback(which: Feedback, h: Option<HookId>)
      modifies this
      ensures State() == WithFeedbackArray(old(State()), which, old(Feedbacks(which)) + [h])
    {
      match which
      case OnSuccess => successes := successes + [h];
      case OnFail => fails := fails + [h];
      case OnFailStop => failStops := failStops + [h];
    }

    /** `_addFeedbackFn`: pads with `null` one slot per call, then stores the hook, or warns. */
    method AddFeedbackFn(which: Feedback, fn: HookId)
      modifies this
      ensures State() == WithFeedback(old(State()), which, fn)
      decreases |tasks| - 1 - |Feedbacks(which)|
    {
      var taskIndex := |tasks| - 1;
      var arr := Feedbacks(which);
      if |arr| == taskIndex {
        PushFeedback(which, Some(fn));
      } else if |arr| > taskIndex {
        log := log + [DuplicateFeedbackWarned];
      } else {
        PushFeedback(which, None);
        assert AddFeedback(arr + [None], taskIndex, fn) == AddFeedback(arr, taskIndex, fn);
        AddFeedbackFn(which, fn);
      }
    }

    method Success(fn: HookId) returns (self: Process)
      modifies this
      ensures self == this && State() == WithFeedback(old(State()), OnSuccess, fn)
    {
      AddFeedbackFn(OnSuccess, fn);
      self := this;
    }

    method Fail(fn: HookId) returns (self: Process)
      modifies this
      ensures self == this && State() == WithFeedback(old(State()), OnFail, fn)
    {
      AddFeedbackFn(OnFail, fn);
      self := this;
    }

    method FailStop(fn: HookId) returns (self: Process)
      modifies this
      ensures self == this && State() == WithFeedback(old(State()), OnFailStop, fn)
    {
      AddFeedbackFn(OnFailStop, fn);
      self := this;
    }

    method Abort()
      modifies this
      ensures State() == Aborting(old(State()))
    {
      flags := flags.(abortFlag := true);
    }

    method Reset()
      modifies this
      ensures State() == AfterReset(old(State()))
    {
      resetCount := resetCount + 1;
      flags := Flags(false, false, false, false);
      currentIndex := 0;
      history := History([], [], []);
    }

    method Restart() returns (call: Option<StepCall>)
      modifies this
      ensures Advance(State(), call) == Restarted(old(State()))
    {
      Reset();
      call := Exec();
    }

    method Kill()
      modifies this
      ensures State() == Killing(old(State()))
    {
      flags := flags.(killFlag := true);
    }

    method Destroy()
      modifies this
      ensures State() == AfterDestroy(old(State()))
    {
      Reset();
      tasks, successes, fails, failStops := [], [], [], [];
      abortedFn := None;
    }

    method Complete(fn: HookId) returns (self: Process)
      modifies this
      ensures self == this && State() == WithDescriptor(old(State()), OnComplete(fn))
    {
      tasks := tasks + [OnComplete(fn)];
      self := this;
    }

    method Always(fn: HookId) returns (self: Process)
      modifies this
      ensures self == this && State() == WithDescriptor(old(State()), OnAlways(fn))
    {
      tasks := tasks + [OnAlways(fn)];
      self := this;
    }

    method Aborted(fn: HookId) returns (self: Process)
      modifies this
      ensures self == this && State() == WithAborted(old(State()), fn)
    {
      abortedFn := Some(fn);
      self := this;
    }

    method Error(fn: HookId) returns (self: Process)
      modifies this
      ensures self == this && State() == WithDescriptor(old(State()), OnError(fn))
    {
      tasks := tasks + [OnError(fn)];
      self := this;
    }

    method GetLastResult() returns (r: Value)
      ensures r == LastResult(State())
    {
      if |history.results| == 0 {
        return Null;
      }
      r := history.results[|history.results| - 1];
    }

    method GetLastError() returns (r: Value)
      ensures r == LastError(State())
    {
      if |history.errors| == 0 {
        return Null;
      }
      r := history.errors[|history.errors| - 1];
    }

    method GetLastStatus() returns (r: Option<bool>)
      ensures r == LastStatus(State())
    {
      if |history.taskStatuses| == 0 {
        return None;
      }
      r := Some(history.taskStatuses[|history.taskStatuses| - 1]);
    }

    /**
     * The corrected `getResultByFnName`: counts the TASK descriptors before
     * the named one to find its entry in `results`.
     */
    method GetResultByFnName(name: string) returns (r: Value)
      ensures r == ResultByFnName(State(), name)
    {
      if name !in fnNameIndex || !IndexNames(tasks, fnNameIndex[name], name) {
        return Undefined;
      }
      var idx := fnNameIndex[name];
      var k := 0;
      var i := 0;
      while i < idx
        invariant 0 <= i <= idx && k == CountWork(tasks[..i])
      {
        CountWorkAppend(tasks[..i], [tasks[i]]);
        assert tasks[..i + 1] == tasks[..i] + [tasks[i]];
        if tasks[i].Work? {
          k := k + 1;
        }
        i := i + 1;
      }
      r := if k < |history.results| then history.results[k] else Undefined;
    }

    /**
     * `exec`: the re-entry after a drained pseudo-step is a loop. Returns
     * the step called, if any.
     */
    method Exec() returns (call: Option<StepCall>)
      modifies this
      ensures Advance(State(), call) == Executed(old(State()))
    {
      while currentIndex < |tasks|
        invariant Executed(State()) == Executed(old(State()))
        decreases |tasks| - currentIndex
      {
        if flags.killFlag {
          return None;
        }
        if flags.abortFlag {
          if abortedFn.Some? {
            log := log + [AbortedCalled(abortedFn.value)];
          }
          return None;
        }
        if tasks[currentIndex].Work? && !flags.stop {
          var h := history;
          var c := StepCall(currentIndex, tasks[currentIndex].step, PreviousData(h.results, h.errors, h.taskStatuses),
                            PreviousStatus(h.taskStatuses));
          log := log + [StepInvoked(c)];
          pending := pending + 1;
          return Some(c);
        }
        ghost var s := State();
        DrainOne();
        ExecDrains(s);
      }
      return None;
    }

    /** One pass of `exec` over a pseudo-step, or over a step skipped after a fail-stop: call its hook, if due, and move on. */
    method DrainOne()
      requires currentIndex < |tasks| && (!tasks[currentIndex].Work? || flags.stop)
      modifies this
      ensures State() == old(State().(log := log + DrainEvents(tasks[currentIndex], currentIndex, flags.hasError,
                                                               history.results, history.errors),
                                      currentIndex := currentIndex + 1))
    {
      var h := history;
      match tasks[currentIndex] {
        case OnComplete(fn) =>
          if !flags.hasError {
            log := log + [CompleteCalled(currentIndex, fn, h.results)];
          }
        case OnAlways(fn) =>
          log := log + [AlwaysCalled(currentIndex, fn, h.results, h.errors)];
        case OnError(fn) =>
          if flags.hasError {
            log := log + [ErrorCalled(currentIndex, fn, h.errors)];
          }
        case Work(_) =>
      }
      currentIndex := currentIndex + 1;
    }

    /** The continuation of the step in flight: the `.then` handler or the `.catch` handler. */
    method Deliver(o: Outcome) returns (call: Option<StepCall>)
      requires pending > 0
      modifies this
      ensures Advance(State(), call) == Delivered(old(State()), o)
    {
      pending := pending - 1;
      match o
      case Ok(v) => call := HandleSuccess(v);
      case Err(e) => call := HandleFailure(e);
    }

    /** The `.then` handler: record the value, run the success hook, advance, re-enter `exec`. */
    method HandleSuccess(v: Value) returns (call: Option<StepCall>)
      modifies this
      ensures Advance(State(), call) == Executed(Succeeded(old(State()), v))
    {
      var h := history;
      history := History(h.results + [v], h.errors + [Null], h.taskStatuses + [true]);
      var fn := HookAt(successes, currentIndex);
      if fn.Some? {
        log := log + [SuccessCalled(currentIndex, fn.value, v)];
      } else {
        assert log == log + [];
      }
      currentIndex := currentIndex + 1;
      assert State() == Succeeded(old(State()), v);
      call := Exec();
    }

    /**
     * The `.catch` handler: record the error; a fail-stop hook sets `stop`
     * and re-enters `exec` at the same index, otherwise the fail hook runs and
     * the index advances.
     */
    method HandleFailure(e: Value) returns (call: Option<StepCall>)
      modifies this
      ensures Advance(State(), call) == Executed(Failed(old(State()), e))
    {
      var h := history;
      history := History(h.results + [Null], h.errors + [e], h.taskStatuses + [false]);
      var stopFn := HookAt(failStops, currentIndex);
      if stopFn.Some? {
        log := log + [FailStopCalled(currentIndex, stopFn.value, e)];
        flags := flags.(hasError := true, stop := true);
        assert State() == Failed(old(State()), e);
        call := Exec();
        return;
      }
      flags := flags.(hasError := true);
      var fn := HookAt(fails, currentIndex);
      if fn.Some? {
        log := log + [FailCalled(currentIndex, fn.value, e)];
      } else {
        assert log == log + [];
      }
      currentIndex := currentIndex + 1;
      assert State() == Failed(old(State()), e);
      call := Exec();
    }
  }
}
