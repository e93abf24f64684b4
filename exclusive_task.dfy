/**
 * The single-flight waiter list (src/class/ExclusiveTask.js).
 *
 * The manager keeps the tasks that wait for one logical operation in
 * registration order; the task at index 0 leads. The code is modelled as
 * written: `push` admits duplicates, `drop` of an absent task removes the head
 * (`splice(false, 1)` treats `false` as index 0), and with
 * `continue_after_rejected` set, `allReject` continues nobody because a task
 * object never passes the `typeof === 'function'` test.
 */
module ExclusiveTasks {
  import opened Values
  import opened Deferreds
  import opened Tasks

  /** The Deferreds of a list of tasks: what fanning out an outcome may change. */
  ghost function Dfds(ts: seq<Task>): set<Deferred> {
    set t | t in ts :: t.dfd
  }

  /** `_getIndex`: the first position holding the identical task, or `false` (None). */
  function FirstIndex(ts: seq<Task>, t: Task): (r: Option<nat>)
    ensures r.Some? ==> r.value < |ts| && ts[r.value] == t && t !in ts[..r.value]
    ensures r.None? <==> t !in ts
    decreases |ts|
  {
    if ts == [] then None
    else if ts[0] == t then Some(0)
    else
      match FirstIndex(ts[1..], t)
      case None => None
      case Some(i) => Some(i + 1)
  }

  /** `splice(at, 1)`: removes the element at `at` when there is one. */
  function SpliceOne(ts: seq<Task>, at: nat): seq<Task> {
    if at < |ts| then ts[..at] + ts[at + 1..] else ts
  }

  /** `drop(t)`: splice at the first index of t, or at `false`, which is 0. */
  function Dropped(ts: seq<Task>, t: Task): seq<Task> {
    SpliceOne(ts, match FirstIndex(ts, t) case Some(i) => i case None => 0)
  }

  /**
   * Dropping a registered task removes exactly its first occurrence and keeps
   * every other entry, in order.
   */
  lemma DropPresentRemovesFirstOccurrence(ts: seq<Task>, t: Task)
    requires t in ts
    ensures exists k :: 0 <= k < |ts| && ts[k] == t && t !in ts[..k] && Dropped(ts, t) == ts[..k] + ts[k + 1..]
    ensures |Dropped(ts, t)| == |ts| - 1
    ensures multiset(Dropped(ts, t)) == multiset(ts) - multiset{t}
  {
    var k := FirstIndex(ts, t).value;
    assert ts == ts[..k] + [ts[k]] + ts[k + 1..];
  }

  /** Dropping an unregistered task removes the head of the list, if any. */
  lemma DropAbsentRemovesHead(ts: seq<Task>, t: Task)
    requires t !in ts
    ensures ts != [] ==> Dropped(ts, t) == ts[1..]
    ensures ts == [] ==> Dropped(ts, t) == []
  {
  }

  class ExclusiveTask {
    /** `settings.continue_after_rejected`. */
    const continueAfterRejected: bool
    var tasks: seq<Task>

    /** `Object.assign({continue_after_rejected: false}, options)`: an option given overrides the default. */
    constructor (option: Option<bool>)
      ensures continueAfterRejected == (option.Some? && option.value)
      ensures tasks == []
    {
      continueAfterRejected := option.Some? && option.value;
      tasks := [];
    }

    method Push(t: Task)
      modifies this
      ensures tasks == old(tasks) + [t]
    {
      tasks := tasks + [t];
    }

    method Drop(t: Task)
      modifies this
      ensures tasks == Dropped(old(tasks), t)
    {
      var i := GetIndex(t);
      var at := match i case Some(k) => k case None => 0;
      if at < |tasks| {
        tasks := tasks[..at] + tasks[at + 1..];
      }
    }

    method IsFirst(t: Task) returns (b: bool)
      ensures b <==> |tasks| > 0 && tasks[0] == t
    {
      var i := GetIndex(t);
      b := i == Some(0);
    }

    /** Resolves every waiter, in list order, then empties the list. */
    method AllResolve(data: Value)
      modifies this, Dfds(tasks)
      ensures tasks == []
      ensures forall t :: t in old(tasks) ==> t.dfd.State() == AfterResolve(old(t.dfd.State()), data)
    {
      var i := 0;
      ghost var done: set<Deferred> := {};
      while i < |tasks|
        invariant 0 <= i <= |tasks| && tasks == old(tasks)
        invariant done <= Dfds(tasks) && forall j :: 0 <= j < i ==> tasks[j].dfd in done
        invariant forall d :: d in done ==> d.State() == AfterResolve(old(d.State()), data)
        invariant forall t :: t in tasks && t.dfd !in done ==> t.dfd.State() == old(t.dfd.State())
      {
        var d := tasks[i].dfd;
        if d in done {
          SecondSettlementOnlyOverwritesStatus(old(d.State()), data, data);
        }
        tasks[i].Resolve(data);
        done := done + {d};
        i := i + 1;
      }
      Reset();
    }

    /**
     * Rejects every waiter, in list order, unless `continue_after_rejected` is
     * set; then the list is only emptied, because the source's
     * `typeof task === 'function'` test is false for every task object.
     */
    method AllReject(data: Value)
      modifies this, Dfds(tasks)
      ensures tasks == []
      ensures !continueAfterRejected ==>
        forall t :: t in old(tasks) ==> t.dfd.State() == AfterReject(old(t.dfd.State()), data)
      ensures continueAfterRejected ==>
        forall t :: t in old(tasks) ==> t.dfd.State() == old(t.dfd.State())
    {
      if !continueAfterRejected {
        RejectEach(data);
      }
      Reset();
    }

    /** The loop of `allReject`: rejects every waiter, in list order, and keeps the list. */
    method RejectEach(data: Value)
      modifies Dfds(tasks)
      ensures forall t :: t in tasks ==> t.dfd.State() == AfterReject(old(t.dfd.State()), data)
    {
      var i := 0;
      ghost var done: set<Deferred> := {};
      while i < |tasks|
        invariant 0 <= i <= |tasks|
        invariant done <= Dfds(tasks) && forall j :: 0 <= j < i ==> tasks[j].dfd in done
        invariant forall d :: d in done ==> d.State() == AfterReject(old(d.State()), data)
        invariant forall t :: t in tasks && t.dfd !in done ==> t.dfd.State() == old(t.dfd.State())
      {
        var d := tasks[i].dfd;
        if d in done {
          SecondSettlementOnlyOverwritesStatus(old(d.State()), data, data);
        }
        tasks[i].Reject(data);
        done := done + {d};
        i := i + 1;
      }
    }

    method Reset()
      modifies this
      ensures tasks == []
    {
      tasks := [];
    }

    /** `_getIndex`. */
    method GetIndex(t: Task) returns (r: Option<nat>)
      ensures r == FirstIndex(tasks, t)
    {
      var i := 0;
      while i < |tasks|
        invariant 0 <= i <= |tasks|
        invariant t !in tasks[..i]
      {
        if tasks[i] == t {
          FirstIndexIsUnique(tasks, t, i);
          return Some(i);
        }
        assert tasks[..i + 1] == tasks[..i] + [tasks[i]];
        i := i + 1;
      }
      assert tasks[..i] == tasks;
      return None;
    }
  }

  /** The first index is the only position k with ts[k] == t and no t before it. */
  lemma FirstIndexIsUnique(ts: seq<Task>, t: Task, k: nat)
    requires k < |ts| && ts[k] == t && t !in ts[..k]
    ensures FirstIndex(ts, t) == Some(k)
  {
  }
}
