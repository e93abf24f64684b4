/**
 * The lead/follower authentication task (src/task/SampleAuthTask.js).
 *
 * Every task registers with one shared manager when it is constructed. Only
 * the task at the head of the manager's list starts the check -> modal -> auth
 * chain; when it completes or fails it settles its own Deferred, drops itself
 * and fans the outcome out to the remaining tasks.
 *
 * The mocked I/O calls (`isLogin`, `showModal`, `auth`) are replaced by
 * requests whose outcome arrives later as an input: `inFlight` holds the
 * requests issued and not yet answered, `issued` records every request.
 * The JavaScript subclass is modelled by composition: `base` is the Task part,
 * and it is the Task part that the manager holds.
 */
module SampleAuthTasks {
  import opened Values
  import opened Deferreds
  import opened Tasks
  import opened ExclusiveTasks

  /** The asynchronous calls of the chain: `isLogin` (checkAuth), `showModal`, `auth`. */
  datatype Step = CheckAuth | ShowModal | Auth

  /** What a step's outcome leads to: another step, `complete()` or `error()`. */
  datatype Next = Go(step: Step) | ToComplete | ToError

  /** The transition table of `checkAuth`, `showModal` and `auth`. */
  function Transition(s: Step, ok: bool): Next {
    match s
    case CheckAuth => if ok then ToComplete else Go(ShowModal)
    case ShowModal => if ok then Go(Auth) else ToError
    case Auth => if ok then ToComplete else Go(ShowModal)
  }

  /** A run of the chain: the steps issued, in order, and how it ended, if it did. */
  datatype Trace = Trace(steps: seq<Step>, end: Option<Next>)

  /** The chain from `s`, the answer to the k-th issued step being `outcomes[k]`. */
  function Chain(s: Step, outcomes: seq<bool>): Trace
    decreases |outcomes|
  {
    if outcomes == [] then Trace([s], None)
    else
      match Transition(s, outcomes[0])
      case Go(t) => var r := Chain(t, outcomes[1..]); Trace([s] + r.steps, r.end)
      case ToComplete => Trace([s], Some(ToComplete))
      case ToError => Trace([s], Some(ToError))
  }

  /**
   * A chain that leaves `s` alternates between the modal and the auth call:
   * the check is never repeated, the modal follows an unsuccessful check or
   * auth, and auth follows a successful modal.
   */
  lemma {:induction false} ChainAlternates(s: Step, outcomes: seq<bool>)
    ensures var r := Chain(s, outcomes);
      1 <= |r.steps| <= |outcomes| + 1 && r.steps[0] == s &&
      (r.end.None? ==> |r.steps| == |outcomes| + 1) &&
      (r.end.Some? ==> |r.steps| <= |outcomes| && !r.end.value.Go? &&
                       r.end == Some(Transition(r.steps[|r.steps| - 1], outcomes[|r.steps| - 1]))) &&
      (forall k :: 1 <= k < |r.steps| ==> r.steps[k] != CheckAuth) &&
      (forall k :: 1 <= k < |r.steps| ==> (r.steps[k] == Auth <==> r.steps[k - 1] == ShowModal))
    decreases |outcomes|
  {
    if outcomes != [] {
      match Transition(s, outcomes[0])
      case Go(t) =>
        ChainAlternates(t, outcomes[1..]);
        var r := Chain(t, outcomes[1..]);
        assert Chain(s, outcomes).steps == [s] + r.steps;
        assert (s == ShowModal) == (t == Auth);
      case ToComplete =>
      case ToError =>
    }
  }

  /** The chain fails only by a modal that is dismissed, and succeeds only by a successful check or auth. */
  lemma {:induction false} ChainEnds(s: Step, outcomes: seq<bool>)
    ensures var r := Chain(s, outcomes);
      (r.end.Some? ==> |r.steps| <= |outcomes|) &&
      (r.end == Some(ToError) ==> r.steps[|r.steps| - 1] == ShowModal && !outcomes[|r.steps| - 1]) &&
      (r.end == Some(ToComplete) ==> r.steps[|r.steps| - 1] != ShowModal && outcomes[|r.steps| - 1])
  {
    ChainAlternates(s, outcomes);
  }

  /** The module-wide manager of the source, created with `continue_after_rejected: false`. */
  method NewManager() returns (m: ExclusiveTask)
    ensures fresh(m) && !m.continueAfterRejected && m.tasks == []
  {
    m := new ExclusiveTask(Some(false));
  }

  class SampleAuthTask {
    const base: Task
    const manager: ExclusiveTask
    /** Mocked calls issued by this task whose outcome has not arrived yet. */
    var inFlight: seq<Step>
    /** Every mocked call this task has issued, in order. */
    var issued: seq<Step>

    /** This task leads a manager list `ts` when its Task part is at the head. */
    predicate Leads(ts: seq<Task>) {
      |ts| > 0 && ts[0] == base
    }

    constructor (manager: ExclusiveTask)
      modifies manager
      ensures this.manager == manager && fresh(base) && fresh(base.dfd)
      ensures base.dfd.State() == Created() && base.continuation == StartAgain
      ensures manager.tasks == old(manager.tasks) + [base]
      ensures inFlight == [] && issued == []
    {
      base := new Task();
      this.manager := manager;
      inFlight := [];
      issued := [];
      new;
      manager.Push(base);
      base.continuation := StartAgain;
    }

    /** Only the head of the manager's list calls `checkAuth`; every caller gets the task's own Deferred. */
    method Start() returns (d: Deferred)
      modifies this
      ensures d == base.dfd
      ensures Leads(manager.tasks) ==> inFlight == old(inFlight) + [CheckAuth] && issued == old(issued) + [CheckAuth]
      ensures !Leads(manager.tasks) ==> inFlight == old(inFlight) && issued == old(issued)
    {
      var first := manager.IsFirst(base);
      if first {
        Issue(CheckAuth);
      }
      d := base.dfd;
    }

    /** Calls a mocked operation: its outcome arrives later through RespondTo. */
    method Issue(s: Step)
      modifies this
      ensures inFlight == old(inFlight) + [s] && issued == old(issued) + [s]
    {
      inFlight := inFlight + [s];
      issued := issued + [s];
    }

    /**
     * The outcome of the k-th call in flight arrives; its `then`/`catch`
     * continuation follows the transition table.
     */
    method RespondTo(k: nat, ok: bool)
      requires k < |inFlight|
      modifies this, base.dfd, manager, Dfds(manager.tasks)
      ensures var next := Transition(old(inFlight[k]), ok);
        var rest := old(inFlight[..k] + inFlight[k + 1..]);
        (next.Go? ==> inFlight == rest + [next.step] && issued == old(issued) + [next.step]) &&
        (!next.Go? ==> inFlight == rest && issued == old(issued))
      // Another call is issued: no Deferred and no list changes.
      ensures Transition(old(inFlight[k]), ok).Go? ==>
        base.dfd.State() == old(base.dfd.State()) && manager.tasks == old(manager.tasks) &&
        forall t :: t in old(manager.tasks) ==> t.dfd.State() == old(t.dfd.State())
      // `complete()`, as Complete states it.
      ensures Transition(old(inFlight[k]), ok) == ToComplete ==>
        base.dfd.State() == AfterResolve(old(base.dfd.State()), Undefined) &&
        (Leads(old(manager.tasks)) ==>
           manager.tasks == [] &&
           (forall t :: t in old(manager.tasks) && t.dfd != base.dfd ==>
              t.dfd.State() == AfterResolve(old(t.dfd.State()), EmptyObject)) &&
           (forall t :: t in old(manager.tasks) ==> t.dfd.status == Fulfilled)) &&
        (!Leads(old(manager.tasks)) ==>
           manager.tasks == old(manager.tasks) &&
           forall t :: t in old(manager.tasks) && t.dfd != base.dfd ==> t.dfd.State() == old(t.dfd.State()))
      // `error()`, as Error states it.
      ensures Transition(old(inFlight[k]), ok) == ToError ==>
        base.dfd.State() == AfterReject(old(base.dfd.State()), Undefined) &&
        (Leads(old(manager.tasks)) ==> manager.tasks == []) &&
        (Leads(old(manager.tasks)) && !manager.continueAfterRejected ==>
           (forall t :: t in old(manager.tasks) && t.dfd != base.dfd ==>
              t.dfd.State() == AfterReject(old(t.dfd.State()), EmptyObject)) &&
           (forall t :: t in old(manager.tasks) ==> t.dfd.status == Rejected)) &&
        (Leads(old(manager.tasks)) && manager.continueAfterRejected ==>
           forall t :: t in old(manager.tasks) && t.dfd != base.dfd ==> t.dfd.State() == old(t.dfd.State())) &&
        (!Leads(old(manager.tasks)) ==>
           manager.tasks == old(manager.tasks) &&
           forall t :: t in old(manager.tasks) && t.dfd != base.dfd ==> t.dfd.State() == old(t.dfd.State()))
    {
      var s := inFlight[k];
      inFlight := inFlight[..k] + inFlight[k + 1..];
      match Transition(s, ok)
      case Go(t) => Issue(t);
      case ToComplete => Complete();
      case ToError => Error();
    }

    /**
     * `complete`: resolve the own Deferred with `undefined`; a lead then drops
     * itself and resolves every other waiter with `{}`, leaving the list empty.
     * A non-lead changes only its own Deferred.
     */
    method Complete()
      modifies base.dfd, manager, Dfds(manager.tasks)
      ensures base.dfd.State() == AfterResolve(old(base.dfd.State()), Undefined)
      ensures Leads(old(manager.tasks)) ==> manager.tasks == []
      ensures Leads(old(manager.tasks)) ==>
        forall t :: t in old(manager.tasks) && t.dfd != base.dfd ==>
          t.dfd.State() == AfterResolve(old(t.dfd.State()), EmptyObject)
      ensures Leads(old(manager.tasks)) ==> forall t :: t in old(manager.tasks) ==> t.dfd.status == Fulfilled
      ensures !Leads(old(manager.tasks)) ==> manager.tasks == old(manager.tasks)
      ensures !Leads(old(manager.tasks)) ==>
        forall t :: t in old(manager.tasks) && t.dfd != base.dfd ==> t.dfd.State() == old(t.dfd.State())
    {
      base.Resolve(Undefined);
      var lead := manager.IsFirst(base);
      if lead {
        manager.Drop(base);
        assert FirstIndex(old(manager.tasks), base) == Some(0);
        assert manager.tasks == old(manager.tasks)[1..];
        if base.dfd in Dfds(manager.tasks) {
          SecondSettlementOnlyOverwritesStatus(old(base.dfd.State()), Undefined, EmptyObject);
        }
        manager.AllResolve(EmptyObject);
      }
    }

    /**
     * `error`: reject the own Deferred with `undefined`; a lead then drops
     * itself and fans the rejection out with `allReject({})`.
     */
    method Error()
      modifies base.dfd, manager, Dfds(manager.tasks)
      ensures base.dfd.State() == AfterReject(old(base.dfd.State()), Undefined)
      ensures Leads(old(manager.tasks)) ==> manager.tasks == []
      ensures Leads(old(manager.tasks)) && !manager.continueAfterRejected ==>
        forall t :: t in old(manager.tasks) && t.dfd != base.dfd ==>
          t.dfd.State() == AfterReject(old(t.dfd.State()), EmptyObject)
      ensures Leads(old(manager.tasks)) && !manager.continueAfterRejected ==>
        forall t :: t in old(manager.tasks) ==> t.dfd.status == Rejected
      ensures Leads(old(manager.tasks)) && manager.continueAfterRejected ==>
        forall t :: t in old(manager.tasks) && t.dfd != base.dfd ==> t.dfd.State() == old(t.dfd.State())
      ensures !Leads(old(manager.tasks)) ==> manager.tasks == old(manager.tasks)
      ensures !Leads(old(manager.tasks)) ==>
        forall t :: t in old(manager.tasks) && t.dfd != base.dfd ==> t.dfd.State() == old(t.dfd.State())
    {
      base.Reject(Undefined);
      var lead := manager.IsFirst(base);
      if lead {
        manager.Drop(base);
        assert FirstIndex(old(manager.tasks), base) == Some(0);
        assert manager.tasks == old(manager.tasks)[1..];
        if base.dfd in Dfds(manager.tasks) {
          SecondSettlementOnlyOverwritesStatus(old(base.dfd.State()), Undefined, EmptyObject);
        }
        manager.AllReject(EmptyObject);
      }
    }
  }

  /** Three tasks register with a new manager and start: only the first one calls `isLogin`. */
  method ThreeWaiters() returns (m: ExclusiveTask, a: SampleAuthTask, b: SampleAuthTask, c: SampleAuthTask)
    ensures fresh(m) && !m.continueAfterRejected && m.tasks == [a.base, b.base, c.base]
    ensures a != b && b != c && a != c && a.manager == m
    ensures fresh(a) && fresh(a.base.dfd) && fresh(b.base.dfd) && fresh(c.base.dfd)
    ensures a.base.dfd.State() == Created() && b.base.dfd.State() == Created() && c.base.dfd.State() == Created()
    ensures a.inFlight == [CheckAuth] && a.issued == [CheckAuth] && b.issued == [] && c.issued == []
  {
    m := NewManager();
    a := new SampleAuthTask(m);
    b := new SampleAuthTask(m);
    c := new SampleAuthTask(m);
    var da := a.Start();
    var db := b.Start();
    var dc := c.Start();
  }

  /**
   * Three tasks register before the first one finishes: only the lead calls
   * `isLogin`, and every task's Deferred ends in the lead's direction (the
   * modal is accepted and auth succeeds, or the modal is dismissed).
   */
  method LeadAndFollowers(modalOk: bool) returns (statuses: seq<Status>, leadCalls: seq<Step>, followerCalls: seq<Step>)
    ensures statuses == if modalOk then [Fulfilled, Fulfilled, Fulfilled] else [Rejected, Rejected, Rejected]
    ensures leadCalls == if modalOk then [CheckAuth, ShowModal, Auth] else [CheckAuth, ShowModal]
    ensures followerCalls == []
  {
    var m, a, b, c := ThreeWaiters();
    a.RespondTo(0, false);
    if modalOk {
      AcceptThenAuth(m, a, b, c);
    } else {
      a.RespondTo(0, false);
    }
    statuses := [a.base.dfd.status, b.base.dfd.status, c.base.dfd.status];
    leadCalls := a.issued;
    followerCalls := b.issued + c.issued;
  }

  /** The lead's modal is accepted and auth succeeds: every waiter is fulfilled. */
  method AcceptThenAuth(m: ExclusiveTask, a: SampleAuthTask, b: SampleAuthTask, c: SampleAuthTask)
    requires !m.continueAfterRejected && m.tasks == [a.base, b.base, c.base] && a.manager == m
    requires a != b && a != c && a.inFlight == [ShowModal]
    modifies a, a.base.dfd, m, Dfds(m.tasks)
    ensures a.issued == old(a.issued) + [Auth]
    ensures a.base.dfd.status == Fulfilled && b.base.dfd.status == Fulfilled && c.base.dfd.status == Fulfilled
  {
    a.RespondTo(0, true);
    a.RespondTo(0, true);
  }
}
