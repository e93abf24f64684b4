/**
 * Whole runs of a `Process` (src/class/Process.js).
 *
 * `Walk` is a reference reading of a pipeline: go through the descriptors
 * left to right; a TASK consumes the next outcome and runs its feedback hook;
 * a COMPLETE, ERROR or ALWAYS descriptor runs its hook by the rules of the
 * class. `RunMatchesWalk` proves that the state machine of `exec` and its
 * continuations produces exactly the hook calls of that reading, and the
 * other lemmas state what a run promises in terms of `Walk`.
 */
module ProcessRuns {
  import opened Values
  import opened ProcessStates
  import opened ProcessSteps

  /** What a run reads: the descriptors and the feedback arrays. */
  datatype Config = Config(
    tasks: seq<Descriptor>,
    successes: seq<Option<HookId>>,
    fails: seq<Option<HookId>>,
    failStops: seq<Option<HookId>>)

  /** What a run accumulates. */
  datatype Acc = Acc(results: seq<Value>, errors: seq<Value>, statuses: seq<bool>, hasError: bool, stop: bool)

  /** The hook calls of a walk and what it accumulated. */
  datatype Walked = Walked(events: seq<Event>, acc: Acc)

  function ConfigOf(s: PState): Config {
    Config(s.tasks, s.successes, s.fails, s.failStops)
  }

  function AccOf(s: PState): Acc {
    Acc(s.results, s.errors, s.taskStatuses, s.hasError, s.stop)
  }

  const Fresh: Acc := Acc([], [], [], false, false)

  /** The feedback hook an outcome of the step at i runs: a fail-stop hook takes precedence over a fail hook. */
  function FeedbackEvents(c: Config, i: nat, o: Outcome): seq<Event> {
    match o
    case Ok(v) =>
      (match HookAt(c.successes, i) case Some(h) => [SuccessCalled(i, h, v)] case None => [])
    case Err(e) =>
      (match HookAt(c.failStops, i)
       case Some(h) => [FailStopCalled(i, h, e)]
       case None => (match HookAt(c.fails, i) case Some(h) => [FailCalled(i, h, e)] case None => []))
  }

  /** The call of the step at i, with the arguments taken from the histories, and the feedback hook its outcome runs. */
  function StepEvents(c: Config, i: nat, step: StepFn, a: Acc, o: Outcome): seq<Event> {
    [StepInvoked(StepCall(i, step, PreviousData(a.results, a.errors, a.statuses), PreviousStatus(a.statuses)))]
    + FeedbackEvents(c, i, o)
  }

  /** One entry per finished step; a failure with a fail-stop hook stops the remaining steps. */
  function Recorded(a: Acc, c: Config, i: nat, o: Outcome): Acc {
    match o
    case Ok(v) => a.(results := a.results + [v], errors := a.errors + [Null], statuses := a.statuses + [true])
    case Err(e) =>
      a.(results := a.results + [Null], errors := a.errors + [e], statuses := a.statuses + [false],
         hasError := true, stop := HookAt(c.failStops, i).Some?)
  }

  /** The reference reading of a run from descriptor i, the k-th step called receiving `outs[k]`. */
  function Walk(c: Config, i: nat, a: Acc, outs: seq<Outcome>): Walked
    decreases |c.tasks| - i
  {
    if i >= |c.tasks| then Walked([], a)
    else
      var d := c.tasks[i];
      if !d.Work? || a.stop then
        var r := Walk(c, i + 1, a, outs);
        Walked(DrainEvents(d, i, a.hasError, a.results, a.errors) + r.events, r.acc)
      else
        var ev := StepInvoked(StepCall(i, d.step, PreviousData(a.results, a.errors, a.statuses), PreviousStatus(a.statuses)));
        if outs == [] then Walked([ev], a)
        else
          var r := Walk(c, i + 1, Recorded(a, c, i, outs[0]), outs[1..]);
          Walked(StepEvents(c, i, d.step, a, outs[0]) + r.events, r.acc)
  }

  /** Feeds the outcomes, one per step called, while a step is in flight. */
  function Drive(s: PState, outs: seq<Outcome>): PState
    decreases |outs|
  {
    if outs == [] || s.pending == 0 then s else Drive(Delivered(s, outs[0]).state, outs[1..])
  }

  /** `exec()` followed by the arrival of the outcomes. */
  function Run(s: PState, outs: seq<Outcome>): PState {
    Drive(Executed(s).state, outs)
  }

  /**
   * The state machine agrees with the reference reading: from any state that
   * is neither killed nor aborted and has no step in flight, a run adds
   * exactly the hook calls of `Walk` and ends with its histories.
   */
  lemma {:induction false} RunMatchesWalk(s: PState, outs: seq<Outcome>)
    requires !s.killFlag && !s.abortFlag && s.pending == 0
    ensures var w := Walk(ConfigOf(s), s.currentIndex, AccOf(s), outs); var f := Run(s, outs);
      f.log == s.log + w.events && AccOf(f) == w.acc
    decreases |outs|, |s.tasks| - s.currentIndex, 1
  {
    if s.currentIndex < |s.tasks| {
      var d := s.tasks[s.currentIndex];
      if !d.Work? || s.stop {
        RunMatchesWalkDrain(s, outs);
      } else if outs != [] {
        RunMatchesWalkStep(s, outs);
      }
    }
  }

  /** The outcomes arriving change neither the descriptors, nor the hooks, nor the name index. */
  lemma {:induction false} DriveKeepsSetup(s: PState, outs: seq<Outcome>)
    ensures var f := Drive(s, outs);
      ConfigOf(f) == ConfigOf(s) && f.fnNameIndex == s.fnNameIndex && f.abortedFn == s.abortedFn
    decreases |outs|
  {
    if outs != [] && s.pending > 0 {
      ContinuedFrame(s, outs[0]);
      ExecFrame(Continued(s, outs[0]));
      DriveKeepsSetup(Delivered(s, outs[0]).state, outs[1..]);
    }
  }

  /** A run changes neither the descriptors, nor the hooks, nor the name index. */
  lemma RunKeepsSetup(s: PState, outs: seq<Outcome>)
    ensures var f := Run(s, outs);
      ConfigOf(f) == ConfigOf(s) && f.fnNameIndex == s.fnNameIndex && f.abortedFn == s.abortedFn
  {
    ExecFrame(s);
    DriveKeepsSetup(Executed(s).state, outs);
  }

  /** `exec` at a pseudo-step, or at a step skipped by `stop`, drains it and re-enters at the next index. */
  lemma ExecDrains(s: PState)
    requires !s.killFlag && !s.abortFlag
    requires s.currentIndex < |s.tasks| && (!s.tasks[s.currentIndex].Work? || s.stop)
    ensures Executed(s) ==
      Executed(s.(log := s.log + DrainEvents(s.tasks[s.currentIndex], s.currentIndex, s.hasError, s.results, s.errors),
                  currentIndex := s.currentIndex + 1))
  {
  }

  /** RunMatchesWalk at a pseudo-step, or at a step skipped by `stop`. */
  lemma {:induction false} RunMatchesWalkDrain(s: PState, outs: seq<Outcome>)
    requires !s.killFlag && !s.abortFlag && s.pending == 0
    requires s.currentIndex < |s.tasks| && (!s.tasks[s.currentIndex].Work? || s.stop)
    ensures var w := Walk(ConfigOf(s), s.currentIndex, AccOf(s), outs); var f := Run(s, outs);
      f.log == s.log + w.events && AccOf(f) == w.acc
    decreases |outs|, |s.tasks| - s.currentIndex, 0
  {
    var c, a, i := ConfigOf(s), AccOf(s), s.currentIndex;
    var d := s.tasks[i];
    var head := DrainEvents(d, i, s.hasError, s.results, s.errors);
    var t := s.(log := s.log + head, currentIndex := i + 1);
    ExecDrains(s);
    assert Run(s, outs) == Run(t, outs);
    assert ConfigOf(t) == c && AccOf(t) == a;
    RunMatchesWalk(t, outs);
    var r := Walk(c, i + 1, a, outs);
    var f := Run(t, outs);
    assert f.log == t.log + r.events && AccOf(f) == r.acc;
    WalkDrains(c, i, a, outs);
    EventsRegroup(s.log, head, r.events);
  }

  lemma EventsRegroup(x: seq<Event>, y: seq<Event>, z: seq<Event>)
    ensures x + y + z == x + (y + z)
  {
  }

  /** RunMatchesWalk at a step that is called and receives outs[0]. */
  lemma {:induction false} RunMatchesWalkStep(s: PState, outs: seq<Outcome>)
    requires !s.killFlag && !s.abortFlag && s.pending == 0 && !s.stop && outs != []
    requires s.currentIndex < |s.tasks| && s.tasks[s.currentIndex].Work?
    ensures var w := Walk(ConfigOf(s), s.currentIndex, AccOf(s), outs); var f := Run(s, outs);
      f.log == s.log + w.events && AccOf(f) == w.acc
    decreases |outs|, |s.tasks| - s.currentIndex, 0
  {
    var c, a, i := ConfigOf(s), AccOf(s), s.currentIndex;
    var t := StepThenDeliver(s, outs);
    RunMatchesWalk(t, outs[1..]);
    WalkAfterStep(c, i, a, outs, t.currentIndex);
    var r := Walk(c, t.currentIndex, AccOf(t), outs[1..]);
    var head := StepEvents(c, i, s.tasks[i].step, a, outs[0]);
    assert Run(t, outs[1..]).log == s.log + head + r.events;
    EventsRegroup(s.log, head, r.events);
  }

  /**
   * Walk at a step that is called: the call, its feedback hook, then the rest
   * of the walk from the next descriptor, or from the same one when the
   * outcome set `stop`.
   */
  lemma WalkAfterStep(c: Config, i: nat, a: Acc, outs: seq<Outcome>, j: nat)
    requires i < |c.tasks| && c.tasks[i].Work? && !a.stop && outs != []
    requires j == i + 1 || (j == i && Recorded(a, c, i, outs[0]).stop)
    ensures var r := Walk(c, j, Recorded(a, c, i, outs[0]), outs[1..]);
      Walk(c, i, a, outs) ==
        Walked(StepEvents(c, i, c.tasks[i].step, a, outs[0]) + r.events, r.acc)
  {
    WalkAtStep(c, i, a, outs);
    if j == i {
      WalkSkipsStopped(c, i, Recorded(a, c, i, outs[0]), outs[1..]);
    }
  }

  /** Walk at a step that is called: the call, its feedback hook, then the rest of the walk. */
  lemma WalkAtStep(c: Config, i: nat, a: Acc, outs: seq<Outcome>)
    requires i < |c.tasks| && c.tasks[i].Work? && !a.stop && outs != []
    ensures var r := Walk(c, i + 1, Recorded(a, c, i, outs[0]), outs[1..]);
      Walk(c, i, a, outs) ==
        Walked(StepEvents(c, i, c.tasks[i].step, a, outs[0]) + r.events, r.acc)
  {
  }

  /** Walk at a pseudo-step, or at a step skipped by `stop`: the drained hook, then the rest of the walk. */
  lemma WalkDrains(c: Config, i: nat, a: Acc, outs: seq<Outcome>)
    requires i < |c.tasks| && (!c.tasks[i].Work? || a.stop)
    ensures var r := Walk(c, i + 1, a, outs);
      Walk(c, i, a, outs) == Walked(DrainEvents(c.tasks[i], i, a.hasError, a.results, a.errors) + r.events, r.acc)
  {
  }

  /** What a walk accumulates is what the walk from the next descriptor accumulates, after any outcome it consumes. */
  lemma WalkAccFront(c: Config, i: nat, a: Acc, outs: seq<Outcome>)
    requires i < |c.tasks|
    ensures !c.tasks[i].Work? || a.stop ==> Walk(c, i, a, outs).acc == Walk(c, i + 1, a, outs).acc
    ensures c.tasks[i].Work? && !a.stop && outs != [] ==>
      Walk(c, i, a, outs).acc == Walk(c, i + 1, Recorded(a, c, i, outs[0]), outs[1..]).acc
  {
  }

  /** Walk passes over a step once `stop` is set. */
  lemma WalkSkipsStopped(c: Config, i: nat, a: Acc, outs: seq<Outcome>)
    requires i < |c.tasks| && c.tasks[i].Work? && a.stop
    ensures Walk(c, i, a, outs) == Walk(c, i + 1, a, outs)
  {
    assert [] + Walk(c, i + 1, a, outs).events == Walk(c, i + 1, a, outs).events;
  }

  /**
   * Helper for RunMatchesWalk: calling the step at the current index and
   * delivering its outcome re-enters `exec` from a state that has recorded
   * the outcome, logged the call and the feedback hook, and either advanced
   * or set `stop`.
   */
  lemma StepThenDeliver(s: PState, outs: seq<Outcome>) returns (t: PState)
    requires !s.killFlag && !s.abortFlag && s.pending == 0 && !s.stop && outs != []
    requires s.currentIndex < |s.tasks| && s.tasks[s.currentIndex].Work?
    ensures Run(s, outs) == Run(t, outs[1..])
    ensures ConfigOf(t) == ConfigOf(s) && AccOf(t) == Recorded(AccOf(s), ConfigOf(s), s.currentIndex, outs[0])
    ensures t.pending == 0 && !t.killFlag && !t.abortFlag && t.fnNameIndex == s.fnNameIndex && t.abortedFn == s.abortedFn
    ensures t.log == s.log + StepEvents(ConfigOf(s), s.currentIndex, s.tasks[s.currentIndex].step, AccOf(s), outs[0])
    ensures t.currentIndex == s.currentIndex + 1 || (t.currentIndex == s.currentIndex && t.stop)
  {
    var o := outs[0];
    var i := s.currentIndex;
    var call := StepCall(i, s.tasks[i].step, PreviousData(s.results, s.errors, s.taskStatuses),
                         PreviousStatus(s.taskStatuses));
    var s1 := Executed(s).state;
    assert s1 == s.(log := s.log + [StepInvoked(call)], pending := 1);
    t := Continued(s1, o);
    ContinuedFrame(s1, o);
    ContinuedMatchesRecorded(s1, o);
    assert Drive(s1, outs) == Drive(Executed(t).state, outs[1..]);
    EventsRegroup(s.log, [StepInvoked(call)], FeedbackEvents(ConfigOf(s), i, o));
  }

  /** Helper for StepThenDeliver: the continuation of a step records its outcome as `Recorded` does and runs the hook of `FeedbackEvents`. */
  lemma ContinuedMatchesRecorded(s: PState, o: Outcome)
    requires s.pending > 0 && !s.stop
    ensures var u := Continued(s, o);
      ConfigOf(u) == ConfigOf(s) && AccOf(u) == Recorded(AccOf(s), ConfigOf(s), s.currentIndex, o) &&
      u.log == s.log + FeedbackEvents(ConfigOf(s), s.currentIndex, o) &&
      u.pending == s.pending - 1 && u.killFlag == s.killFlag && u.abortFlag == s.abortFlag &&
      u.fnNameIndex == s.fnNameIndex && u.abortedFn == s.abortedFn &&
      (u.currentIndex == s.currentIndex + 1 || (u.currentIndex == s.currentIndex && u.stop))
  {
    var t := s.(pending := s.pending - 1);
    match o
    case Ok(v) =>
      assert Continued(s, o) == Succeeded(t, v);
      if HookAt(s.successes, s.currentIndex).None? {
        assert Succeeded(t, v).log == s.log + [];
      }
    case Err(e) =>
      assert Continued(s, o) == Failed(t, e);
      if HookAt(s.failStops, s.currentIndex).None? && HookAt(s.fails, s.currentIndex).None? {
        assert Failed(t, e).log == s.log + [];
      }
  }

  // ---------------------------------------------------------------- counting steps

  /** The number of TASK descriptors in ts. */
  function CountWork(ts: seq<Descriptor>): nat {
    if ts == [] then 0 else (if ts[0].Work? then 1 else 0) + CountWork(ts[1..])
  }

  lemma {:induction false} CountWorkFront(ts: seq<Descriptor>, i: nat, p: nat)
    requires i < p <= |ts|
    ensures CountWork(ts[i..p]) == (if ts[i].Work? then 1 else 0) + CountWork(ts[i + 1..p])
  {
    assert ts[i..p][1..] == ts[i + 1..p];
  }

  lemma {:induction false} CountWorkAppend(x: seq<Descriptor>, y: seq<Descriptor>)
    ensures CountWork(x + y) == CountWork(x) + CountWork(y)
    decreases |x|
  {
    if x == [] {
      assert x + y == y;
    } else {
      assert (x + y)[1..] == x[1..] + y;
      CountWorkAppend(x[1..], y);
    }
  }

  lemma {:induction false} CountWorkSplit(ts: seq<Descriptor>, i: nat, p: nat)
    requires i <= p <= |ts|
    ensures CountWork(ts[i..p]) + CountWork(ts[p..]) == CountWork(ts[i..])
    decreases p - i
  {
    if i < p {
      CountWorkFront(ts, i, p);
      CountWorkFront(ts, i, |ts|);
      CountWorkSplit(ts, i + 1, p);
    } else {
      assert ts[i..p] == [];
    }
  }

  /** The values of successful outcomes. */
  function OkValues(outs: seq<Outcome>): seq<Value> {
    if outs == [] then [] else [match outs[0] case Ok(v) => v case Err(_) => Null] + OkValues(outs[1..])
  }

  lemma ValuesFront(outs: seq<Outcome>, n: nat)
    requires 0 < n <= |outs|
    ensures OkValues(outs[..n]) == [match outs[0] case Ok(v) => v case Err(_) => Null] + OkValues(outs[1..][..n - 1])
  {
    assert outs[..n][1..] == outs[1..][..n - 1];
  }

  /** The descriptor position an event belongs to (-1 for the aborted hook and the warning). */
  function EventIndex(e: Event): int {
    match e
    case StepInvoked(call) => call.index
    case SuccessCalled(i, _, _) => i
    case FailCalled(i, _, _) => i
    case FailStopCalled(i, _, _) => i
    case CompleteCalled(i, _, _) => i
    case ErrorCalled(i, _, _) => i
    case AlwaysCalled(i, _, _, _) => i
    case AbortedCalled(_) => -1
    case DuplicateFeedbackWarned => -1
  }

  /** The COMPLETE, ERROR and ALWAYS hook calls at descriptor p. */
  function TerminalAt(evs: seq<Event>, p: nat): seq<Event> {
    if evs == [] then []
    else
      var e := evs[0];
      (if (e.CompleteCalled? || e.ErrorCalled? || e.AlwaysCalled?) && EventIndex(e) == p then [e] else [])
      + TerminalAt(evs[1..], p)
  }

  lemma {:induction false} TerminalAtAppend(x: seq<Event>, y: seq<Event>, p: nat)
    ensures TerminalAt(x + y, p) == TerminalAt(x, p) + TerminalAt(y, p)
    decreases |x|
  {
    if x != [] {
      assert (x + y)[1..] == x[1..] + y;
      TerminalAtAppend(x[1..], y, p);
    } else {
      assert x + y == y;
    }
  }

  lemma {:induction false} TerminalAtNone(evs: seq<Event>, p: nat)
    requires forall e :: e in evs ==> EventIndex(e) != p
    ensures TerminalAt(evs, p) == []
    decreases |evs|
  {
    if evs != [] {
      assert evs[0] in evs;
      assert forall e :: e in evs[1..] ==> e in evs;
      TerminalAtNone(evs[1..], p);
    }
  }

  /** Every hook call of a walk from i belongs to a descriptor at i or later. */
  lemma {:induction false} WalkIndicesFrom(c: Config, i: nat, a: Acc, outs: seq<Outcome>)
    ensures forall e :: e in Walk(c, i, a, outs).events ==> EventIndex(e) >= i
    decreases |c.tasks| - i
  {
    if i < |c.tasks| {
      var d := c.tasks[i];
      if !d.Work? || a.stop {
        WalkDrains(c, i, a, outs);
        DrainEventsAt(d, i, a.hasError, a.results, a.errors);
        WalkIndicesFrom(c, i + 1, a, outs);
      } else if outs != [] {
        WalkAtStep(c, i, a, outs);
        StepEventsAt(c, i, d.step, a, outs[0]);
        WalkIndicesFrom(c, i + 1, Recorded(a, c, i, outs[0]), outs[1..]);
      }
    }
  }

  lemma StepEventsAt(c: Config, i: nat, step: StepFn, a: Acc, o: Outcome)
    ensures forall e :: e in StepEvents(c, i, step, a, o) ==> EventIndex(e) == i
  {
  }

  // ---------------------------------------------------------------- what a run promises

  /** Whether one of the outcomes of the first n steps is a failure. */
  predicate FailsWithin(outs: seq<Outcome>, n: nat) {
    exists k :: 0 <= k < n && k < |outs| && outs[k].Err?
  }

  /**
   * How many terminal hook calls a COMPLETE, ERROR or ALWAYS descriptor
   * makes: ALWAYS once, COMPLETE once when nothing failed, ERROR once when
   * something failed.
   */
  function TerminalCount(d: Descriptor, failed: bool): nat {
    match d
    case Work(_) => 0
    case OnAlways(_) => 1
    case OnComplete(_) => if failed then 0 else 1
    case OnError(_) => if failed then 1 else 0
  }

  /**
   * A run that reaches descriptor p calls its ALWAYS hook exactly once, its
   * COMPLETE hook exactly once when no step failed (before or during the run)
   * and never otherwise, and its ERROR hook exactly once when some step failed
   * and never otherwise.
   */
  lemma {:induction false} TerminalHooksFire(c: Config, i: nat, a: Acc, outs: seq<Outcome>, p: nat)
    requires i <= p < |c.tasks| && !c.tasks[p].Work?
    requires CountWork(c.tasks[i..p]) <= |outs|
    requires a.stop ==> a.hasError
    ensures |TerminalAt(Walk(c, i, a, outs).events, p)| ==
            TerminalCount(c.tasks[p], a.hasError || FailsWithin(outs, CountWork(c.tasks[i..p])))
    decreases p - i, 1
  {
    if i == p {
      TerminalHooksAtOwnDescriptor(c, p, a, outs);
    } else if !c.tasks[i].Work? || a.stop {
      TerminalHooksFireDrain(c, i, a, outs, p);
    } else {
      TerminalHooksFireStep(c, i, a, outs, p);
    }
  }

  /** TerminalHooksFire at a pseudo-step before p, or at a step skipped by `stop`. */
  lemma {:induction false} TerminalHooksFireDrain(c: Config, i: nat, a: Acc, outs: seq<Outcome>, p: nat)
    requires i < p < |c.tasks| && !c.tasks[p].Work? && (!c.tasks[i].Work? || a.stop)
    requires CountWork(c.tasks[i..p]) <= |outs|
    requires a.stop ==> a.hasError
    ensures |TerminalAt(Walk(c, i, a, outs).events, p)| ==
            TerminalCount(c.tasks[p], a.hasError || FailsWithin(outs, CountWork(c.tasks[i..p])))
    decreases p - i, 0
  {
    var d := c.tasks[i];
    var n := CountWork(c.tasks[i..p]);
    CountWorkFront(c.tasks, i, p);
    var r := Walk(c, i + 1, a, outs);
    var head := DrainEvents(d, i, a.hasError, a.results, a.errors);
    WalkDrains(c, i, a, outs);
    TerminalAtAppend(head, r.events, p);
    DrainEventsAt(d, i, a.hasError, a.results, a.errors);
    TerminalAtNone(head, p);
    TerminalHooksFire(c, i + 1, a, outs, p);
    if !a.stop {
      assert n == CountWork(c.tasks[i + 1..p]);
    }
  }

  /** A drained pseudo-step's hook call belongs to that pseudo-step. */
  lemma DrainEventsAt(d: Descriptor, i: nat, hasError: bool, results: seq<Value>, errors: seq<Value>)
    ensures forall e :: e in DrainEvents(d, i, hasError, results, errors) ==> EventIndex(e) == i
  {
  }

  /** TerminalHooksFire at a step before p that is called and receives outs[0]. */
  lemma {:induction false} TerminalHooksFireStep(c: Config, i: nat, a: Acc, outs: seq<Outcome>, p: nat)
    requires i < p < |c.tasks| && !c.tasks[p].Work? && c.tasks[i].Work? && !a.stop
    requires CountWork(c.tasks[i..p]) <= |outs|
    requires a.stop ==> a.hasError
    ensures |TerminalAt(Walk(c, i, a, outs).events, p)| ==
            TerminalCount(c.tasks[p], a.hasError || FailsWithin(outs, CountWork(c.tasks[i..p])))
    decreases p - i, 0
  {
    var d := c.tasks[i];
    var n := CountWork(c.tasks[i..p]);
    CountWorkFront(c.tasks, i, p);
    var o := outs[0];
    var a1 := Recorded(a, c, i, o);
    var r := Walk(c, i + 1, a1, outs[1..]);
    WalkAtStep(c, i, a, outs);
    var head := StepEvents(c, i, d.step, a, o);
    StepEventsNotTerminal(c, i, d.step, a, o, p);
    TerminalAtAppend(head, r.events, p);
    assert a1.hasError == (a.hasError || o.Err?) && (a1.stop ==> a1.hasError);
    TerminalHooksFire(c, i + 1, a1, outs[1..], p);
    FailsWithinFront(outs, n);
  }

  /** A step call and its feedback hook are no terminal hook calls. */
  lemma StepEventsNotTerminal(c: Config, i: nat, step: StepFn, a: Acc, o: Outcome, p: nat)
    ensures TerminalAt(StepEvents(c, i, step, a, o), p) == []
  {
    var evs := StepEvents(c, i, step, a, o);
    assert forall e :: e in evs ==> e.StepInvoked? || e.SuccessCalled? || e.FailCalled? || e.FailStopCalled?;
    TerminalAtNoTerminal(evs, p);
  }

  lemma {:induction false} TerminalAtNoTerminal(evs: seq<Event>, p: nat)
    requires forall e :: e in evs ==> e.StepInvoked? || e.SuccessCalled? || e.FailCalled? || e.FailStopCalled?
    ensures TerminalAt(evs, p) == []
    decreases |evs|
  {
    if evs != [] {
      assert evs[0] in evs;
      assert forall e :: e in evs[1..] ==> e in evs;
      TerminalAtNoTerminal(evs[1..], p);
    }
  }

  /** Helper for TerminalHooksFire: the descriptor's own hook is the only one with its index. */
  lemma TerminalHooksAtOwnDescriptor(c: Config, p: nat, a: Acc, outs: seq<Outcome>)
    requires p < |c.tasks| && !c.tasks[p].Work?
    ensures |TerminalAt(Walk(c, p, a, outs).events, p)| == TerminalCount(c.tasks[p], a.hasError)
    ensures CountWork(c.tasks[p..p]) == 0 && !FailsWithin(outs, 0)
  {
    var d := c.tasks[p];
    var r := Walk(c, p + 1, a, outs);
    var head := DrainEvents(d, p, a.hasError, a.results, a.errors);
    assert Walk(c, p, a, outs).events == head + r.events;
    TerminalAtAppend(head, r.events, p);
    WalkIndicesFrom(c, p + 1, a, outs);
    TerminalAtNone(r.events, p);
    assert c.tasks[p..p] == [];
  }

  lemma FailsWithinFront(outs: seq<Outcome>, n: nat)
    requires 0 < n <= |outs|
    ensures FailsWithin(outs, n) <==> outs[0].Err? || FailsWithin(outs[1..], n - 1)
  {
    if FailsWithin(outs, n) && !outs[0].Err? {
      var k :| 0 <= k < n && k < |outs| && outs[k].Err?;
      assert outs[1..][k - 1] == outs[k];
    }
    if FailsWithin(outs[1..], n - 1) {
      var k :| 0 <= k < n - 1 && k < |outs[1..]| && outs[1..][k].Err?;
      assert outs[k + 1] == outs[1..][k];
    }
  }

  /**
   * When every step succeeds, each COMPLETE hook reached receives the results
   * of all the steps before it, in order: those of earlier runs' history and
   * then one value per step.
   */
  lemma {:induction false} CompleteSeesAllResults(c: Config, i: nat, a: Acc, outs: seq<Outcome>, p: nat)
    requires i <= p < |c.tasks| && c.tasks[p].OnComplete?
    requires CountWork(c.tasks[i..p]) <= |outs|
    requires forall k :: 0 <= k < |outs| ==> outs[k].Ok?
    requires !a.hasError && !a.stop
    ensures CompleteCalled(p, c.tasks[p].hook, a.results + OkValues(outs[..CountWork(c.tasks[i..p])])) in
            Walk(c, i, a, outs).events
    decreases p - i
  {
    var d := c.tasks[i];
    if i == p {
      assert c.tasks[i..p] == [] && outs[..0] == [];
      assert a.results + OkValues(outs[..0]) == a.results;
      WalkDrains(c, i, a, outs);
      assert DrainEvents(d, p, a.hasError, a.results, a.errors) == [CompleteCalled(p, d.hook, a.results)];
    } else {
      CountWorkFront(c.tasks, i, p);
      if !d.Work? {
        WalkDrains(c, i, a, outs);
        CompleteSeesAllResults(c, i + 1, a, outs, p);
      } else {
        var o := outs[0];
        var a1 := Recorded(a, c, i, o);
        assert forall k :: 0 <= k < |outs[1..]| ==> outs[1..][k] == outs[k + 1];
        CompleteSeesAllResults(c, i + 1, a1, outs[1..], p);
        OkResultsFront(a, c, i, outs, CountWork(c.tasks[i..p]));
        WalkAtStep(c, i, a, outs);
      }
    }
  }

  /** Helper for CompleteSeesAllResults: recording a first success, then the next n - 1 values, records the first n values. */
  lemma OkResultsFront(a: Acc, c: Config, i: nat, outs: seq<Outcome>, n: nat)
    requires 0 < n <= |outs| && outs[0].Ok?
    ensures Recorded(a, c, i, outs[0]).results + OkValues(outs[1..][..n - 1]) == a.results + OkValues(outs[..n])
  {
    ValuesFront(outs, n);
    assert Recorded(a, c, i, outs[0]).results == a.results + [outs[0].value];
  }

  /** No fail, fail-stop or ERROR hook among the events. */
  predicate NoFailureHooks(evs: seq<Event>) {
    forall e :: e in evs ==> !e.FailCalled? && !e.FailStopCalled? && !e.ErrorCalled?
  }

  lemma CountWorkTail(ts: seq<Descriptor>, i: nat)
    requires i < |ts|
    ensures CountWork(ts[i..]) == (if ts[i].Work? then 1 else 0) + CountWork(ts[i + 1..])
  {
    assert ts[i..][1..] == ts[i + 1..];
  }

  /**
   * When every step succeeds, a run that gets through all its steps records
   * one result per step, in order, and never fails.
   */
  lemma {:induction false} AllOkRecordsEveryResult(c: Config, i: nat, a: Acc, outs: seq<Outcome>)
    requires i <= |c.tasks| && CountWork(c.tasks[i..]) <= |outs|
    requires forall k :: 0 <= k < |outs| ==> outs[k].Ok?
    requires !a.hasError && !a.stop
    ensures var w := Walk(c, i, a, outs);
      w.acc.results == a.results + OkValues(outs[..CountWork(c.tasks[i..])]) && !w.acc.hasError && !w.acc.stop
    decreases |c.tasks| - i
  {
    if i == |c.tasks| {
      assert c.tasks[i..] == [];
      assert outs[..0] == [];
      assert a.results + [] == a.results;
    } else {
      var d := c.tasks[i];
      CountWorkTail(c.tasks, i);
      WalkAccFront(c, i, a, outs);
      if !d.Work? {
        AllOkRecordsEveryResult(c, i + 1, a, outs);
      } else {
        var o := outs[0];
        var a1 := Recorded(a, c, i, o);
        assert forall k :: 0 <= k < |outs[1..]| ==> outs[1..][k] == outs[k + 1];
        AllOkRecordsEveryResult(c, i + 1, a1, outs[1..]);
        var n := CountWork(c.tasks[i..]);
        ValuesFront(outs, n);
        assert a1.results == a.results + [o.value];
        assert a1.results + OkValues(outs[1..][..n - 1]) == a.results + OkValues(outs[..n]);
      }
    }
  }

  /** When every step succeeds, no fail, fail-stop or ERROR hook is ever called. */
  lemma {:induction false} AllOkCallsNoFailureHook(c: Config, i: nat, a: Acc, outs: seq<Outcome>)
    requires forall k :: 0 <= k < |outs| ==> outs[k].Ok?
    requires !a.hasError && !a.stop
    ensures NoFailureHooks(Walk(c, i, a, outs).events)
    decreases |c.tasks| - i
  {
    if i < |c.tasks| {
      var d := c.tasks[i];
      if !d.Work? {
        WalkDrains(c, i, a, outs);
        AllOkCallsNoFailureHook(c, i + 1, a, outs);
      } else if outs != [] {
        WalkAtStep(c, i, a, outs);
        assert forall k :: 0 <= k < |outs[1..]| ==> outs[1..][k] == outs[k + 1];
        AllOkCallsNoFailureHook(c, i + 1, Recorded(a, c, i, outs[0]), outs[1..]);
      }
    }
  }

  /** Once `stop` is set, no step is called and no outcome is consumed: only pseudo-steps run. */
  lemma {:induction false} StoppedWalkSkipsSteps(c: Config, i: nat, a: Acc, outs: seq<Outcome>)
    requires a.stop
    ensures Walk(c, i, a, outs) == Walk(c, i, a, [])
    ensures Walk(c, i, a, outs).acc == a
    ensures forall e :: e in Walk(c, i, a, outs).events ==> e.CompleteCalled? || e.ErrorCalled? || e.AlwaysCalled?
    decreases |c.tasks| - i
  {
    if i < |c.tasks| {
      StoppedWalkSkipsSteps(c, i + 1, a, outs);
    }
  }

  /**
   * A failure of a step with a fail-stop hook calls that hook and skips every
   * later step; COMPLETE, ERROR and ALWAYS descriptors after it still run.
   */
  lemma FailStopSkipsLaterSteps(c: Config, i: nat, a: Acc, outs: seq<Outcome>)
    requires i < |c.tasks| && c.tasks[i].Work? && !a.stop
    requires HookAt(c.failStops, i).Some? && outs != [] && outs[0].Err?
    ensures var w := Walk(c, i, a, outs);
      FailStopCalled(i, HookAt(c.failStops, i).value, outs[0].error) in w.events &&
      (forall e :: e in w.events && e.StepInvoked? ==> e.call.index == i) &&
      w.acc.results == a.results + [Null] && w.acc.errors == a.errors + [outs[0].error] && w.acc.hasError
  {
    StoppedWalkSkipsSteps(c, i + 1, Recorded(a, c, i, outs[0]), outs[1..]);
  }

  /**
   * `reset()` then `exec()` (or `restart()`) replays the pipeline: whatever
   * state the process was in, the new run calls the same hooks with the same
   * arguments as a first run of the same registrations, given the same
   * outcomes.
   */
  lemma RestartReplaysFirstRun(s: PState, first: PState, outs: seq<Outcome>)
    requires s.pending == 0 && first.pending == 0 && ConfigOf(s) == ConfigOf(first)
    requires !first.killFlag && !first.abortFlag && first.currentIndex == 0 && AccOf(first) == Fresh
    ensures var again := Drive(Restarted(s).state, outs);
      again.log == s.log + Walk(ConfigOf(s), 0, Fresh, outs).events &&
      Run(first, outs).log == first.log + Walk(ConfigOf(s), 0, Fresh, outs).events &&
      again.results == Run(first, outs).results && again.errors == Run(first, outs).errors
  {
    RunMatchesWalk(AfterReset(s), outs);
    RunMatchesWalk(first, outs);
  }

  // ---------------------------------------------------------------- getResultByFnName

  /**
   * `getResultByFnName(name)` as written: `results` indexed by the position
   * of the named TASK descriptor in `tasks` (a missing name, or a position
   * past the end, gives `undefined`).
   */
  function ResultByFnNameAsWritten(s: PState, name: string): Value {
    if name in s.fnNameIndex && s.fnNameIndex[name] < |s.results| then s.results[s.fnNameIndex[name]] else Undefined
  }

  /**
   * The lookup as intended: `results` has one entry per step called, so the
   * entry of the named step sits after one entry per TASK descriptor before it.
   * A name whose position no longer holds a step of that name (after
   * `destroy`) gives `undefined`.
   */
  function ResultByFnName(s: PState, name: string): Value {
    if name in s.fnNameIndex && IndexNames(s.tasks, s.fnNameIndex[name], name) then
      var k := CountWork(s.tasks[..s.fnNameIndex[name]]);
      if k < |s.results| then s.results[k] else Undefined
    else Undefined
  }

  /** Position i of `ts` holds a TASK descriptor whose function is named n. */
  predicate IndexNames(ts: seq<Descriptor>, i: nat, n: string) {
    i < |ts| && ts[i].Work? && ts[i].step.name == n
  }

  /** The pipeline `complete(h).task(login)`, registered on a new process. */
  function CompleteThenLogin(): PState {
    WithTask(WithDescriptor(Constructed(), OnComplete(5)), StepFn(1, "login"))
  }

  /**
   * A COMPLETE descriptor before a named step shifts the positions: the
   * lookup as written misses the value the step `login` produced, the
   * corrected lookup finds it.
   */
  lemma ResultByPositionMissesNamedStep()
    ensures var f := Run(CompleteThenLogin(), [Ok(Datum(7))]);
      f.results == [Datum(7)] && f.fnNameIndex["login"] == 1 &&
      ResultByFnNameAsWritten(f, "login") == Undefined && ResultByFnName(f, "login") == Datum(7)
  {
    var s := CompleteThenLogin();
    RunMatchesWalk(s, [Ok(Datum(7))]);
    RunKeepsSetup(s, [Ok(Datum(7))]);
    assert s.tasks[..1] == [OnComplete(5)];
    assert CountWork([OnComplete(5)]) == 0;
  }

  lemma {:induction false} OkValuesAt(outs: seq<Outcome>, k: nat)
    requires k < |outs|
    ensures |OkValues(outs)| == |outs| && OkValues(outs)[k] == match outs[k] case Ok(v) => v case Err(_) => Null
    decreases |outs|
  {
    if k > 0 {
      OkValuesAt(outs[1..], k - 1);
    } else if |outs| > 1 {
      OkValuesAt(outs[1..], 0);
    }
  }

  /**
   * The corrected lookup returns the outcome of the named step: in a first
   * run whose steps all succeed, the k-th step called is the k-th TASK
   * descriptor, and its value is where the corrected lookup looks.
   */
  lemma {:induction false} NamedResultIsThatStepsValue(s: PState, outs: seq<Outcome>, name: string)
    requires !s.killFlag && !s.abortFlag && s.pending == 0 && s.currentIndex == 0 && AccOf(s) == Fresh
    requires name in s.fnNameIndex && s.fnNameIndex[name] < |s.tasks| && s.tasks[s.fnNameIndex[name]].Work?
    requires forall k :: 0 <= k < |outs| ==> outs[k].Ok?
    requires CountWork(s.tasks) <= |outs|
    ensures CountWork(s.tasks[..s.fnNameIndex[name]]) < |outs|
    ensures s.tasks[s.fnNameIndex[name]].step.name == name ==>
      ResultByFnName(Run(s, outs), name) == outs[CountWork(s.tasks[..s.fnNameIndex[name]])].value
    ensures s.tasks[s.fnNameIndex[name]].step.name != name ==> ResultByFnName(Run(s, outs), name) == Undefined
  {
    var idx := s.fnNameIndex[name];
    var c := ConfigOf(s);
    RunMatchesWalk(s, outs);
    RunKeepsSetup(s, outs);
    assert s.tasks[0..] == s.tasks;
    AllOkRecordsEveryResult(c, 0, Fresh, outs);
    CountWorkSplit(s.tasks, 0, idx);
    CountWorkFront(s.tasks, idx, |s.tasks|);
    assert s.tasks[0..idx] == s.tasks[..idx] && s.tasks[idx..|s.tasks|] == s.tasks[idx..];
    var k := CountWork(s.tasks[..idx]);
    var n := CountWork(s.tasks);
    var f := Run(s, outs);
    assert f.results == OkValues(outs[..n]);
    OkValuesAt(outs[..n], k);
  }

  /** `task(login)`, then `destroy`, then an anonymous `task(g)`. */
  function StaleLogin(): PState {
    WithTask(AfterDestroy(WithTask(Constructed(), StepFn(1, "login"))), StepFn(2, ""))
  }

  /**
   * After `destroy`, `fn_name_index.login` still points at position 0, now
   * held by the anonymous step: the lookup as written returns that step's
   * value, the corrected lookup returns `undefined`.
   */
  lemma StaleNameIsUndefined(v: Value)
    ensures var f := Run(StaleLogin(), [Ok(v)]);
      f.results == [v] && "login" in f.fnNameIndex && f.fnNameIndex["login"] == 0 &&
      ResultByFnNameAsWritten(f, "login") == v && ResultByFnName(f, "login") == Undefined
  {
    var s := StaleLogin();
    RunMatchesWalk(s, [Ok(v)]);
    RunKeepsSetup(s, [Ok(v)]);
  }

  // ---------------------------------------------------------------- a fail-stop pipeline

  /** `task(f1).success(1).task(f2).failStop(2).task(f3).always(9)` on a new process. */
  function FailStopExample(): PState {
    var s1 := WithFeedback(WithTask(Constructed(), StepFn(1, "")), OnSuccess, 1);
    var s2 := WithFeedback(WithTask(s1, StepFn(2, "")), OnFailStop, 2);
    WithDescriptor(WithTask(s2, StepFn(3, "")), OnAlways(9))
  }

  /** The descriptors and hooks FailStopExample registers. */
  const FailStopExampleConfig: Config :=
    Config([Work(StepFn(1, "")), Work(StepFn(2, "")), Work(StepFn(3, "")), OnAlways(9)], [Some(1)], [], [None, Some(2)])

  lemma FailStopExampleIsFresh()
    ensures var s := FailStopExample();
      ConfigOf(s) == FailStopExampleConfig && AccOf(s) == Fresh && s.log == [] && s.currentIndex == 0 &&
      !s.killFlag && !s.abortFlag && s.pending == 0
  {
    var s := FailStopExample();
    assert s.tasks == FailStopExampleConfig.tasks;
  }

  /** The reference reading of FailStopExample from the second step, which fails after the first succeeded. */
  lemma FailStopWalkTail(r1: Value, bad: Value)
    ensures Walk(FailStopExampleConfig, 1, Acc([r1], [Null], [true], false, false), [Err(bad)]).events == [
        StepInvoked(StepCall(1, StepFn(2, ""), r1, Some(true))),
        FailStopCalled(1, 2, bad),
        AlwaysCalled(3, 9, [r1, Null], [Null, bad])]
  {
    var c := FailStopExampleConfig;
    var a1 := Acc([r1], [Null], [true], false, false);
    var a2 := Acc([r1, Null], [Null, bad], [true, false], true, true);
    assert Recorded(a1, c, 1, Err(bad)) == a2;
    assert FeedbackEvents(c, 1, Err(bad)) == [FailStopCalled(1, 2, bad)];
    assert StepEvents(c, 1, StepFn(2, ""), a1, Err(bad)) ==
      [StepInvoked(StepCall(1, StepFn(2, ""), r1, Some(true))), FailStopCalled(1, 2, bad)];
    assert [Err(bad)][1..] == [];
    WalkAtStep(c, 1, a1, [Err(bad)]);
    WalkSkipsStopped(c, 2, a2, []);
    WalkDrains(c, 3, a2, []);
    assert Walk(c, 4, a2, []).events == [];
    assert DrainEvents(OnAlways(9), 3, true, [r1, Null], [Null, bad]) == [AlwaysCalled(3, 9, [r1, Null], [Null, bad])];
    assert Walk(c, 2, a2, []).events == [AlwaysCalled(3, 9, [r1, Null], [Null, bad])];
  }

  /** The reference reading of FailStopExample when the first step succeeds and the second fails. */
  lemma FailStopWalk(r1: Value, bad: Value)
    ensures Walk(FailStopExampleConfig, 0, Fresh, [Ok(r1), Err(bad)]).events == [
        StepInvoked(StepCall(0, StepFn(1, ""), Null, None)),
        SuccessCalled(0, 1, r1),
        StepInvoked(StepCall(1, StepFn(2, ""), r1, Some(true))),
        FailStopCalled(1, 2, bad),
        AlwaysCalled(3, 9, [r1, Null], [Null, bad])]
  {
    var c := FailStopExampleConfig;
    var outs := [Ok(r1), Err(bad)];
    var a1 := Acc([r1], [Null], [true], false, false);
    var first := StepInvoked(StepCall(0, StepFn(1, ""), Null, None));
    assert Recorded(Fresh, c, 0, outs[0]) == a1;
    assert FeedbackEvents(c, 0, outs[0]) == [SuccessCalled(0, 1, r1)];
    assert StepEvents(c, 0, StepFn(1, ""), Fresh, outs[0]) == [first, SuccessCalled(0, 1, r1)];
    assert outs[1..] == [Err(bad)];
    WalkAtStep(c, 0, Fresh, outs);
    FailStopWalkTail(r1, bad);
  }

  /**
   * The first step succeeds with r1, the second fails: the second step
   * receives (r1, true), the fail-stop hook receives the error, the third
   * step is skipped and the ALWAYS hook receives [r1, null] and
   * [null, error].
   */
  lemma FailStopPipeline()
    ensures var r1, bad := Text("r1"), Text("bad-credentials");
      Run(FailStopExample(), [Ok(r1), Err(bad)]).log == [
        StepInvoked(StepCall(0, StepFn(1, ""), Null, None)),
        SuccessCalled(0, 1, r1),
        StepInvoked(StepCall(1, StepFn(2, ""), r1, Some(true))),
        FailStopCalled(1, 2, bad),
        AlwaysCalled(3, 9, [r1, Null], [Null, bad])]
  {
    var r1, bad := Text("r1"), Text("bad-credentials");
    FailStopExampleIsFresh();
    FailStopWalk(r1, bad);
    RunMatchesWalk(FailStopExample(), [Ok(r1), Err(bad)]);
  }
}
