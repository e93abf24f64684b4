/**
 * Properties of single `Process` operations (src/class/Process.js), and the
 * invariants that every sequence of operations keeps.
 */
module ProcessSteps {
  import opened Values
  import opened ProcessStates

  /** The hook `exec` calls under abort: the aborted hook, if one is set. */
  function AbortEvents(s: PState): seq<Event> {
    if s.abortedFn.Some? then [AbortedCalled(s.abortedFn.value)] else []
  }

  /**
   * `exec` changes only the index, the log and the pending count. It either
   * calls exactly one step function, with the arguments taken from the
   * histories, or stops without one: killed, aborted, or past the last
   * descriptor.
   */
  lemma {:induction false} ExecFrame(s: PState)
    ensures var r := Executed(s);
      r.state == s.(currentIndex := r.state.currentIndex, log := r.state.log, pending := r.state.pending) &&
      s.currentIndex <= r.state.currentIndex &&
      |s.log| <= |r.state.log| && r.state.log[..|s.log|] == s.log
    ensures var r := Executed(s);
      r.call.None? ==>
        r.state.pending == s.pending && (s.killFlag || s.abortFlag || r.state.currentIndex >= |s.tasks|)
    ensures var r := Executed(s);
      r.call.Some? ==>
        !s.killFlag && !s.abortFlag && !s.stop &&
        r.state.pending == s.pending + 1 && |r.state.log| > |s.log| &&
        r.call.value.index == r.state.currentIndex < |s.tasks| &&
        s.tasks[r.state.currentIndex] == Work(r.call.value.step) &&
        r.call.value.lastData == PreviousData(s.results, s.errors, s.taskStatuses) &&
        r.call.value.lastStatus == PreviousStatus(s.taskStatuses) &&
        r.state.log[|r.state.log| - 1] == StepInvoked(r.call.value)
    decreases |s.tasks| - s.currentIndex
  {
    if s.currentIndex < |s.tasks| && !s.killFlag && !s.abortFlag {
      var d := s.tasks[s.currentIndex];
      if !d.Work? || s.stop {
        var t := s.(log := s.log + DrainEvents(d, s.currentIndex, s.hasError, s.results, s.errors),
                    currentIndex := s.currentIndex + 1);
        assert Executed(s) == Executed(t);
        ExecFrame(t);
        assert Executed(t).state.log[..|s.log|] == Executed(t).state.log[..|t.log|][..|s.log|];
      }
    }
  }

  /** The state a continuation hands to the re-entered `exec`: the outcome recorded and its feedback hook called. */
  function Continued(s: PState, o: Outcome): PState
    requires s.pending > 0
  {
    var t := s.(pending := s.pending - 1);
    match o
    case Ok(v) => Succeeded(t, v)
    case Err(e) => Failed(t, e)
  }

  /** The feedback events a continuation may add to the log. */
  predicate FeedbackOnly(log: seq<Event>) {
    forall e :: e in log ==> e.SuccessCalled? || e.FailCalled? || e.FailStopCalled?
  }

  /** The fields a continuation leaves alone: descriptors, names, hooks, control flags and the reset count. */
  predicate SameSetup(s: PState, u: PState) {
    u.tasks == s.tasks && u.fnNameIndex == s.fnNameIndex && u.successes == s.successes &&
    u.fails == s.fails && u.failStops == s.failStops && u.abortedFn == s.abortedFn &&
    u.abortFlag == s.abortFlag && u.killFlag == s.killFlag && u.resetCount == s.resetCount
  }

  /** The `.then` continuation: one success recorded, at most its success hook called, the index advanced. */
  lemma SucceededFrame(s: PState, v: Value)
    ensures var u := Succeeded(s, v);
      SameSetup(s, u) && u.pending == s.pending && u.hasError == s.hasError && u.stop == s.stop &&
      u.results == s.results + [v] && u.errors == s.errors + [Null] && u.taskStatuses == s.taskStatuses + [true] &&
      u.currentIndex == s.currentIndex + 1 &&
      |s.log| <= |u.log| <= |s.log| + 1 && u.log[..|s.log|] == s.log && FeedbackOnly(u.log[|s.log|..])
  {
    assert Succeeded(s, v).log[..|s.log|] == s.log;
  }

  /** The `.catch` continuation: one failure recorded; a fail-stop hook sets `stop` and keeps the index. */
  lemma FailedFrame(s: PState, e: Value)
    ensures var u := Failed(s, e);
      SameSetup(s, u) && u.pending == s.pending && u.hasError &&
      u.stop == (s.stop || HookAt(s.failStops, s.currentIndex).Some?) &&
      u.results == s.results + [Null] && u.errors == s.errors + [e] && u.taskStatuses == s.taskStatuses + [false] &&
      u.currentIndex == (if HookAt(s.failStops, s.currentIndex).Some? then s.currentIndex else s.currentIndex + 1) &&
      |s.log| <= |u.log| <= |s.log| + 1 && u.log[..|s.log|] == s.log && FeedbackOnly(u.log[|s.log|..])
  {
    assert Failed(s, e).log[..|s.log|] == s.log;
  }

  /**
   * A continuation appends one entry to each history, pops the pending count,
   * sets `has_error` on a failure and `stop` on a fail-stop, calls at most one
   * feedback hook and leaves the descriptors, hooks and control flags alone.
   */
  lemma ContinuedFrame(s: PState, o: Outcome)
    requires s.pending > 0
    ensures Delivered(s, o) == Executed(Continued(s, o))
    ensures var u := Continued(s, o);
      SameSetup(s, u) && u.pending == s.pending - 1 &&
      u.results == s.results + [if o.Ok? then o.value else Null] &&
      u.errors == s.errors + [if o.Err? then o.error else Null] &&
      u.taskStatuses == s.taskStatuses + [o.Ok?] &&
      u.hasError == (s.hasError || o.Err?) &&
      u.stop == (s.stop || (o.Err? && HookAt(s.failStops, s.currentIndex).Some?)) &&
      u.currentIndex == (if o.Err? && HookAt(s.failStops, s.currentIndex).Some? then s.currentIndex else s.currentIndex + 1) &&
      |s.log| <= |u.log| <= |s.log| + 1 && u.log[..|s.log|] == s.log && FeedbackOnly(u.log[|s.log|..])
  {
    var t := s.(pending := s.pending - 1);
    match o
    case Ok(v) => SucceededFrame(t, v);
    case Err(e) => FailedFrame(t, e);
  }

  /** With no descriptor at the current index, or killed, `exec` does nothing at all. */
  lemma IdleWhenDoneOrKilled(s: PState)
    requires s.currentIndex >= |s.tasks| || s.killFlag
    ensures Executed(s) == Advance(s, None)
  {
  }

  /**
   * While the abort flag is set, every `exec` that finds a descriptor calls
   * the aborted hook again, and nothing else happens.
   */
  lemma AbortFiresEveryExec(s: PState)
    requires s.abortFlag && !s.killFlag && s.currentIndex < |s.tasks|
    ensures Executed(s) == Advance(s.(log := s.log + AbortEvents(s)), None)
    ensures s.abortedFn.Some? ==>
      Executed(Executed(s).state).state.log == s.log + [AbortedCalled(s.abortedFn.value), AbortedCalled(s.abortedFn.value)]
    ensures s.abortedFn.None? ==> Executed(Executed(s).state).state == s
  {
  }

  /**
   * A step still in flight when the process is killed records its outcome and
   * runs its own feedback hook, but calls nothing further.
   */
  lemma KilledDeliveryOnlyRecords(s: PState, o: Outcome)
    requires s.killFlag && s.pending > 0
    ensures var r := Delivered(s, o);
      r.call.None? && r.state.pending == s.pending - 1 &&
      r.state.taskStatuses == s.taskStatuses + [o.Ok?] &&
      |s.log| <= |r.state.log| <= |s.log| + 1 && r.state.log[..|s.log|] == s.log &&
      FeedbackOnly(r.state.log[|s.log|..])
  {
    ContinuedFrame(s, o);
  }

  /**
   * A step in flight when the process is aborted runs its feedback hook and
   * then, at most, the aborted hook: no further step and no COMPLETE, ERROR
   * or ALWAYS hook.
   */
  lemma AbortedDeliveryStopsPipeline(s: PState, o: Outcome)
    requires s.abortFlag && !s.killFlag && s.pending > 0
    ensures var r := Delivered(s, o);
      r.call.None? && r.state.pending == s.pending - 1 &&
      |s.log| <= |r.state.log| <= |s.log| + 2 && r.state.log[..|s.log|] == s.log &&
      forall e :: e in r.state.log[|s.log|..] ==>
        e.SuccessCalled? || e.FailCalled? || e.FailStopCalled? || e.AbortedCalled?
  {
    ContinuedFrame(s, o);
    var u := Continued(s, o);
    if u.currentIndex < |u.tasks| {
      assert Executed(u).state.log == u.log + AbortEvents(u);
      assert Executed(u).state.log[..|s.log|] == u.log[..|s.log|];
      assert Executed(u).state.log[|s.log|..] == u.log[|s.log|..] + AbortEvents(u);
    }
  }

  /**
   * The step called after an outcome receives that outcome: the value and
   * `true` after a success, the error and `false` after a failure whose step
   * had no fail-stop hook (after a fail-stop no step is called at all).
   */
  lemma NextStepSeesOutcome(s: PState, o: Outcome)
    requires s.pending > 0
    ensures var r := Delivered(s, o);
      r.call.Some? ==>
        (o.Ok? ==> r.call.value.lastData == o.value && r.call.value.lastStatus == Some(true)) &&
        (o.Err? ==> r.call.value.lastData == o.error && r.call.value.lastStatus == Some(false) &&
                    HookAt(s.failStops, s.currentIndex).None?)
  {
    ContinuedFrame(s, o);
    ExecFrame(Continued(s, o));
  }

  /** The first step of a run receives `null` and `null`. */
  lemma FirstStepGetsNothing(s: PState)
    requires s.taskStatuses == [] && s.errors == []
    ensures Executed(s).call.Some? ==> Executed(s).call.value.lastData == Null && Executed(s).call.value.lastStatus == None
  {
    ExecFrame(s);
  }

  /**
   * After an outcome, `getLastResult`, `getLastError` and `getLastStatus`
   * report it, whatever the re-entered `exec` did.
   */
  lemma GettersSeeLatestOutcome(s: PState, o: Outcome)
    requires s.pending > 0
    ensures var r := Delivered(s, o).state;
      LastStatus(r) == Some(o.Ok?) &&
      LastResult(r) == (if o.Ok? then o.value else Null) &&
      LastError(r) == (if o.Err? then o.error else Null)
  {
    ContinuedFrame(s, o);
    ExecFrame(Continued(s, o));
  }

  /**
   * A feedback hook attaches to the last descriptor registered, padding the
   * descriptors before it with `null`; a second hook of the same kind for that
   * descriptor only adds a warning.
   */
  lemma FeedbackAttachesToLastStep(s: PState, which: Feedback, h: HookId)
    ensures var arr := FeedbackArray(s, which); var r := WithFeedback(s, which, h);
      |arr| < |s.tasks| ==>
        FeedbackArray(r, which) == arr + seq(|s.tasks| - 1 - |arr|, _ => None) + [Some(h)] &&
        HookAt(FeedbackArray(r, which), |s.tasks| - 1) == Some(h) &&
        r == WithFeedbackArray(s, which, FeedbackArray(r, which))
    ensures var arr := FeedbackArray(s, which);
      |arr| >= |s.tasks| ==> WithFeedback(s, which, h) == s.(log := s.log + [DuplicateFeedbackWarned])
  {
    var arr := FeedbackArray(s, which);
    var p := AddFeedback(arr, |s.tasks| - 1, h);
    if |arr| < |s.tasks| {
      var want := arr + seq(|s.tasks| - 1 - |arr|, _ => None) + [Some(h)];
      assert |p.arr| == |want|;
      forall k | 0 <= k < |want|
        ensures p.arr[k] == want[k]
      {
        if k < |arr| {
          assert p.arr[k] == p.arr[..|arr|][k];
        }
      }
      assert p.arr == want;
    } else {
      match which
      case OnSuccess =>
      case OnFail =>
      case OnFailStop =>
    }
  }

  // ---------------------------------------------------------------- invariants

  /** Every operation of a Process; `Arrive` is the continuation of a step that was called. */
  datatype Op =
    | RegisterTask(fn: StepFn)
    | RegisterFeedback(which: Feedback, hook: HookId)
    | RegisterComplete(completeHook: HookId)
    | RegisterError(errorHook: HookId)
    | RegisterAlways(alwaysHook: HookId)
    | RegisterAborted(abortedHook: HookId)
    | DoAbort
    | DoKill
    | DoReset
    | DoRestart
    | DoDestroy
    | DoExec
    | Arrive(outcome: Outcome)

  /** The state after an operation; an outcome with no step in flight cannot arrive and changes nothing. */
  function Perform(s: PState, op: Op): PState {
    match op
    case RegisterTask(fn) => WithTask(s, fn)
    case RegisterFeedback(which, h) => WithFeedback(s, which, h)
    case RegisterComplete(h) => WithDescriptor(s, OnComplete(h))
    case RegisterError(h) => WithDescriptor(s, OnError(h))
    case RegisterAlways(h) => WithDescriptor(s, OnAlways(h))
    case RegisterAborted(h) => WithAborted(s, h)
    case DoAbort => Aborting(s)
    case DoKill => Killing(s)
    case DoReset => AfterReset(s)
    case DoRestart => Restarted(s).state
    case DoDestroy => AfterDestroy(s)
    case DoExec => Executed(s).state
    case Arrive(o) => if s.pending > 0 then Delivered(s, o).state else s
  }

  function PerformAll(s: PState, ops: seq<Op>): PState
    decreases |ops|
  {
    if ops == [] then s else PerformAll(Perform(s, ops[0]), ops[1..])
  }

  /**
   * The histories stay aligned (one entry per finished step, `null` in the
   * column that does not apply), `has_error` says whether some step failed,
   * `stop` is only set after a failure, and no feedback array outgrows the
   * descriptors.
   */
  predicate Consistent(s: PState) {
    |s.results| == |s.errors| == |s.taskStatuses| &&
    (forall k :: 0 <= k < |s.taskStatuses| && s.taskStatuses[k] ==> s.errors[k] == Null) &&
    (forall k :: 0 <= k < |s.taskStatuses| && !s.taskStatuses[k] ==> s.results[k] == Null) &&
    (s.hasError <==> false in s.taskStatuses) &&
    (s.stop ==> s.hasError) &&
    |s.successes| <= |s.tasks| && |s.fails| <= |s.tasks| && |s.failStops| <= |s.tasks|
  }

  lemma ConstructedIsConsistent()
    ensures Consistent(Constructed())
  {
  }

  lemma {:induction false} ExecKeepsConsistent(s: PState)
    requires Consistent(s)
    ensures Consistent(Executed(s).state)
  {
    ExecFrame(s);
  }

  lemma {:induction false} DeliverKeepsConsistent(s: PState, o: Outcome)
    requires Consistent(s) && s.pending > 0
    ensures Consistent(Delivered(s, o).state)
  {
    ContinuedFrame(s, o);
    var u := Continued(s, o);
    assert u.taskStatuses[|s.taskStatuses|] == o.Ok?;
    assert false in u.taskStatuses <==> false in s.taskStatuses || o.Err?;
    assert Consistent(u);
    ExecKeepsConsistent(u);
  }

  lemma FeedbackKeepsConsistent(s: PState, which: Feedback, h: HookId)
    requires Consistent(s)
    ensures Consistent(WithFeedback(s, which, h))
  {
    var p := AddFeedback(FeedbackArray(s, which), |s.tasks| - 1, h);
    assert |p.arr| <= |s.tasks|;
    match which {
      case OnSuccess =>
      case OnFail =>
      case OnFailStop =>
    }
  }

  /** Operations that touch neither the histories nor the feedback arrays, and only grow the descriptors, keep consistency. */
  lemma SetupKeepsConsistent(s: PState, r: PState)
    requires Consistent(s)
    requires r.results == s.results && r.errors == s.errors && r.taskStatuses == s.taskStatuses
    requires r.hasError == s.hasError && r.stop == s.stop
    requires r.successes == s.successes && r.fails == s.fails && r.failStops == s.failStops && |s.tasks| <= |r.tasks|
    ensures Consistent(r)
  {
  }

  /** Registering a descriptor or a hook keeps consistency. */
  lemma RegistrationKeepsConsistent(s: PState, op: Op)
    requires Consistent(s)
    requires op.RegisterTask? || op.RegisterFeedback? || op.RegisterComplete? || op.RegisterError? ||
             op.RegisterAlways? || op.RegisterAborted?
    ensures Consistent(Perform(s, op))
  {
    if op.RegisterTask? || op.RegisterFeedback? || op.RegisterAborted? {
      match op {
        case RegisterTask(fn) => SetupKeepsConsistent(s, WithTask(s, fn));
        case RegisterFeedback(which, h) => FeedbackKeepsConsistent(s, which, h);
        case RegisterAborted(h) => SetupKeepsConsistent(s, WithAborted(s, h));
      }
    } else {
      DescriptorKeepsConsistent(s, op);
    }
  }

  /** Helper for RegistrationKeepsConsistent: the three pseudo-step registrations. */
  lemma DescriptorKeepsConsistent(s: PState, op: Op)
    requires Consistent(s)
    requires op.RegisterComplete? || op.RegisterError? || op.RegisterAlways?
    ensures Consistent(Perform(s, op))
  {
    match op {
      case RegisterComplete(h) => SetupKeepsConsistent(s, WithDescriptor(s, OnComplete(h)));
      case RegisterError(h) => SetupKeepsConsistent(s, WithDescriptor(s, OnError(h)));
      case RegisterAlways(h) => SetupKeepsConsistent(s, WithDescriptor(s, OnAlways(h)));
    }
  }

  lemma {:induction false} PerformKeepsConsistent(s: PState, op: Op)
    requires Consistent(s)
    ensures Consistent(Perform(s, op))
  {
    if op.RegisterTask? || op.RegisterFeedback? || op.RegisterComplete? || op.RegisterError? ||
       op.RegisterAlways? || op.RegisterAborted? {
      RegistrationKeepsConsistent(s, op);
    } else {
      match op {
        case DoAbort => SetupKeepsConsistent(s, Aborting(s));
        case DoKill => SetupKeepsConsistent(s, Killing(s));
        case DoReset =>
        case DoDestroy =>
        case DoRestart => ExecKeepsConsistent(AfterReset(s));
        case DoExec => ExecKeepsConsistent(s);
        case Arrive(o) =>
          if s.pending > 0 {
            DeliverKeepsConsistent(s, o);
          }
      }
    }
  }

  /** Every reachable state is consistent. */
  lemma {:induction false} AlwaysConsistent(s: PState, ops: seq<Op>)
    requires Consistent(s)
    ensures Consistent(PerformAll(s, ops))
    decreases |ops|
  {
    if ops != [] {
      PerformKeepsConsistent(s, ops[0]);
      AlwaysConsistent(Perform(s, ops[0]), ops[1..]);
    }
  }

  /** Position i holds the last TASK descriptor whose function is named n. */
  predicate LatestNamed(ts: seq<Descriptor>, n: string, i: nat) {
    i < |ts| && ts[i].Work? && ts[i].step.name == n &&
    forall k :: i < k < |ts| ==> !(ts[k].Work? && ts[k].step.name == n)
  }

  /**
   * `fn_name_index` maps exactly the names of named step functions, each to
   * the position of the last TASK descriptor with that name.
   */
  predicate NamesLatest(s: PState) {
    NamesIndexed(s.tasks, s.fnNameIndex)
  }

  /** The name invariant, stated of the descriptors and the name index alone. */
  predicate NamesIndexed(ts: seq<Descriptor>, m: map<string, nat>) {
    (forall n :: n in m ==> n != "" && LatestNamed(ts, n, m[n])) &&
    (forall k :: 0 <= k < |ts| && ts[k].Work? && ts[k].step.name != "" ==> ts[k].step.name in m)
  }

  /** A name other than the new function's keeps its position, and that position stays the latest. */
  lemma TaskKeepsOtherName(ts: seq<Descriptor>, m: map<string, nat>, fn: StepFn, n: string)
    requires n in m && LatestNamed(ts, n, m[n]) && n != fn.name
    ensures LatestNamed(ts + [Work(fn)], n, m[n])
  {
    var us := ts + [Work(fn)];
    var i := m[n];
    assert us[i] == ts[i];
    forall k | i < k < |us|
      ensures !(us[k].Work? && us[k].step.name == n)
    {
      if k < |ts| {
        assert us[k] == ts[k];
      }
    }
  }

  lemma TaskKeepsNames(s: PState, fn: StepFn)
    requires NamesLatest(s)
    ensures NamesLatest(WithTask(s, fn))
  {
    var r := WithTask(s, fn);
    assert r.tasks == s.tasks + [Work(fn)];
    assert r.fnNameIndex == if fn.name != "" then s.fnNameIndex[fn.name := |s.tasks|] else s.fnNameIndex;
    TaskKeepsIndexed(s.tasks, s.fnNameIndex, fn);
  }

  /** Helper for TaskKeepsNames: appending a step and indexing its name keeps the name invariant. */
  lemma TaskKeepsIndexed(ts: seq<Descriptor>, m: map<string, nat>, fn: StepFn)
    requires NamesIndexed(ts, m)
    ensures NamesIndexed(ts + [Work(fn)], if fn.name != "" then m[fn.name := |ts|] else m)
  {
    var us := ts + [Work(fn)];
    var m1 := if fn.name != "" then m[fn.name := |ts|] else m;
    forall n | n in m1
      ensures n != "" && LatestNamed(us, n, m1[n])
    {
      if n != fn.name {
        TaskKeepsOtherName(ts, m, fn, n);
      }
    }
    forall k | 0 <= k < |us| && us[k].Work? && us[k].step.name != ""
      ensures us[k].step.name in m1
    {
      if k < |ts| {
        assert us[k] == ts[k];
      }
    }
  }

  /** The name invariant depends only on the descriptors and the index. */
  lemma SameNames(s: PState, r: PState)
    requires NamesLatest(s) && r.tasks == s.tasks && r.fnNameIndex == s.fnNameIndex
    ensures NamesLatest(r)
  {
  }

  /** A feedback registration changes one feedback array and, on a duplicate, the log. */
  lemma FeedbackKeepsDescriptors(s: PState, which: Feedback, h: HookId)
    ensures WithFeedback(s, which, h).tasks == s.tasks && WithFeedback(s, which, h).fnNameIndex == s.fnNameIndex
  {
    var r := AddFeedback(FeedbackArray(s, which), |s.tasks| - 1, h);
    var t := WithFeedbackArray(s, which, r.arr);
    assert t.tasks == s.tasks && t.fnNameIndex == s.fnNameIndex by {
      match which {
        case OnSuccess =>
        case OnFail =>
        case OnFailStop =>
      }
    }
  }

  lemma DeliverKeepsDescriptors(s: PState, o: Outcome)
    requires s.pending > 0
    ensures Delivered(s, o).state.tasks == s.tasks && Delivered(s, o).state.fnNameIndex == s.fnNameIndex
  {
    ContinuedFrame(s, o);
    ExecFrame(Continued(s, o));
  }

  /** The operations that register no descriptor leave the descriptors and the name index alone. */
  lemma {:induction false} PerformKeepsDescriptors(s: PState, op: Op)
    requires !op.RegisterTask? && !op.RegisterComplete? && !op.RegisterError? && !op.RegisterAlways? && !op.DoDestroy?
    ensures Perform(s, op).tasks == s.tasks && Perform(s, op).fnNameIndex == s.fnNameIndex
  {
    match op {
      case RegisterFeedback(which, h) => FeedbackKeepsDescriptors(s, which, h);
      case DoRestart => ExecFrame(AfterReset(s));
      case DoExec => ExecFrame(s);
      case Arrive(o) =>
        if s.pending > 0 {
          DeliverKeepsDescriptors(s, o);
        }
      case _ =>
    }
  }

  lemma {:induction false} PerformKeepsNames(s: PState, op: Op)
    requires NamesLatest(s) && !op.DoDestroy?
    ensures NamesLatest(Perform(s, op))
  {
    if op.RegisterTask? {
      TaskKeepsNames(s, op.fn);
    } else if op.RegisterComplete? || op.RegisterError? || op.RegisterAlways? {
      var r := Perform(s, op);
      assert r.tasks[..|s.tasks|] == s.tasks && |r.tasks| == |s.tasks| + 1 && !r.tasks[|s.tasks|].Work?;
      assert forall k :: 0 <= k < |s.tasks| ==> r.tasks[k] == s.tasks[k];
    } else {
      PerformKeepsDescriptors(s, op);
      SameNames(s, Perform(s, op));
    }
  }

  /** Without `destroy`, the name index stays exact. */
  lemma {:induction false} NamesStayLatest(s: PState, ops: seq<Op>)
    requires NamesLatest(s)
    requires forall k :: 0 <= k < |ops| ==> !ops[k].DoDestroy?
    ensures NamesLatest(PerformAll(s, ops))
    decreases |ops|
  {
    if ops != [] {
      PerformKeepsNames(s, ops[0]);
      NamesStayLatest(Perform(s, ops[0]), ops[1..]);
    }
  }

  /**
   * `destroy` clears the descriptors but not `fn_name_index`: every name
   * registered before it is left pointing past the end of the new list.
   */
  lemma DestroyStrandsNames(s: PState, n: string)
    requires n in s.fnNameIndex
    ensures var r := AfterDestroy(s);
      r.tasks == [] && n in r.fnNameIndex && !LatestNamed(r.tasks, n, r.fnNameIndex[n]) && !NamesLatest(r)
  {
  }
}
