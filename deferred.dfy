/**
 * A re-armable settle-once cell (src/class/Deferred.js).
 *
 * The JavaScript class wraps a native Promise. The model keeps the
 * observable parts of that promise as fields: whether the current arming has
 * been settled and how, the handlers attached to it, and a log of the handler
 * invocations it has caused. `armings` counts how many promises have been
 * created, so that a `reset` visibly replaces the promise.
 */
module Deferreds {
  import opened Values

  /** The values of the `status` string ('pendding' is the source's own spelling). */
  datatype Status = Initial | Pending | Fulfilled | Rejected

  type HandlerId = nat

  /** A handler attached by `then` (runs on fulfilment) or by `catch` (runs on rejection). */
  datatype Handler = OnFulfilled(id: HandlerId) | OnRejected(id: HandlerId)

  /** How the native promise of one arming was settled. */
  datatype Settlement = Fulfilment(value: Value) | Rejection(reason: Value)

  /** One invocation of a handler, with the argument it received. */
  datatype Firing = Firing(handler: Handler, arg: Value)

  /** The abstract state of a Deferred, field for field. */
  datatype DState = DState(
    status: Status,
    settled: Option<Settlement>,
    handlers: seq<Handler>,
    fired: seq<Firing>,
    armings: nat)

  /** The calls a client can make on a Deferred. */
  datatype Call = Resolve(value: Value) | Reject(reason: Value) | Reset | Then(thenId: HandlerId) | Catch(catchId: HandlerId)

  predicate Matches(h: Handler, o: Settlement) {
    h.OnFulfilled? == o.Fulfilment?
  }

  function Payload(o: Settlement): Value {
    match o
    case Fulfilment(v) => v
    case Rejection(r) => r
  }

  /**
   * The handlers a settlement runs, in attachment order. A `then` handler is
   * attached together with a no-op rejection handler, so it runs only on
   * fulfilment; a `catch` handler runs only on rejection.
   */
  function Fire(hs: seq<Handler>, o: Settlement): seq<Firing> {
    if hs == [] then []
    else (if Matches(hs[0], o) then [Firing(hs[0], Payload(o))] else []) + Fire(hs[1..], o)
  }

  /** `_setPromise`: status 'pendding' and a fresh, unsettled promise with no handlers. */
  function Armed(s: DState): DState {
    s.(status := Pending, settled := None, handlers := [], armings := s.armings + 1)
  }

  /** The native resolver: only the first settlement of an arming has an effect. */
  function Settle(s: DState, o: Settlement): DState {
    if s.settled.None? then s.(settled := Some(o), fired := s.fired + Fire(s.handlers, o)) else s
  }

  /** `resolve(value)`: the status is overwritten unconditionally, then the promise is settled. */
  function AfterResolve(s: DState, value: Value): DState {
    Settle(s.(status := Fulfilled), Fulfilment(value))
  }

  /** `reject(reason)`. */
  function AfterReject(s: DState, reason: Value): DState {
    Settle(s.(status := Rejected), Rejection(reason))
  }

  /** The guard of `then` and `catch` (the promise is never null once constructed). */
  predicate Attachable(s: DState) {
    s.status == Pending || s.status == Initial
  }

  function WithThen(s: DState, id: HandlerId): DState {
    if Attachable(s) then s.(handlers := s.handlers + [OnFulfilled(id)]) else s
  }

  function WithCatch(s: DState, id: HandlerId): DState {
    if Attachable(s) then s.(handlers := s.handlers + [OnRejected(id)]) else s
  }

  /** The state right after the constructor: 'initial', then `_setPromise`. */
  function Created(): DState {
    Armed(DState(Initial, None, [], [], 0))
  }

  function Apply(s: DState, c: Call): DState {
    match c
    case Resolve(v) => AfterResolve(s, v)
    case Reject(r) => AfterReject(s, r)
    case Reset => Armed(s)
    case Then(id) => WithThen(s, id)
    case Catch(id) => WithCatch(s, id)
  }

  function Replay(s: DState, cs: seq<Call>): DState
    decreases |cs|
  {
    if cs == [] then s else Replay(Apply(s, cs[0]), cs[1..])
  }

  /** The handler a call attaches, if it attaches one. */
  function Attaches(c: Call): Option<Handler> {
    match c
    case Then(id) => Some(OnFulfilled(id))
    case Catch(id) => Some(OnRejected(id))
    case _ => None
  }

  /**
   * The status is 'pendding' exactly while the current promise is unsettled,
   * and 'initial' is never observed after the constructor.
   */
  predicate Valid(s: DState) {
    s.status != Initial && (s.status == Pending <==> s.settled.None?)
  }

  lemma CreatedIsPending()
    ensures Created().status == Pending && Created().settled == None && Created().handlers == []
    ensures Created().armings == 1 && Valid(Created())
  {
  }

  /** Every sequence of calls keeps the status and the settlement in step. */
  lemma {:induction false} ReplayKeepsValid(s: DState, cs: seq<Call>)
    requires Valid(s)
    ensures Valid(Replay(s, cs))
    decreases |cs|
  {
    if cs != [] {
      ReplayKeepsValid(Apply(s, cs[0]), cs[1..]);
    }
  }

  /** A settlement runs exactly the matching handlers, each with the payload. */
  lemma {:induction false} FireRunsMatchingHandlers(hs: seq<Handler>, o: Settlement)
    ensures forall f :: f in Fire(hs, o) ==> f.handler in hs && Matches(f.handler, o) && f.arg == Payload(o)
    ensures forall h :: h in hs && Matches(h, o) ==> Firing(h, Payload(o)) in Fire(hs, o)
    decreases |hs|
  {
    if hs != [] {
      FireRunsMatchingHandlers(hs[1..], o);
      assert forall h :: h in hs ==> h == hs[0] || h in hs[1..];
    }
  }

  /** A handler log only grows. */
  lemma {:induction false} ReplayExtendsFired(s: DState, cs: seq<Call>)
    ensures |s.fired| <= |Replay(s, cs).fired|
    ensures Replay(s, cs).fired[..|s.fired|] == s.fired
    decreases |cs|
  {
    if cs != [] {
      var t := Apply(s, cs[0]);
      assert t.fired[..|s.fired|] == s.fired;
      ReplayExtendsFired(t, cs[1..]);
    }
  }

  /**
   * Once an arming is settled, nothing but `reset` changes its outcome or runs
   * another handler: later `resolve`/`reject` calls only overwrite `status`.
   */
  lemma {:induction false} SettlesOnce(s: DState, cs: seq<Call>)
    requires s.settled.Some?
    requires forall k :: 0 <= k < |cs| ==> !cs[k].Reset?
    ensures Replay(s, cs).settled == s.settled
    ensures Replay(s, cs).fired == s.fired
    decreases |cs|
  {
    if cs != [] {
      SettlesOnce(Apply(s, cs[0]), cs[1..]);
    }
  }

  /**
   * A second settlement changes nothing but the status: repeating it is a
   * no-op, and the opposite call only overwrites `status`.
   */
  lemma SecondSettlementOnlyOverwritesStatus(s: DState, a: Value, b: Value)
    ensures AfterResolve(AfterResolve(s, a), b) == AfterResolve(s, a)
    ensures AfterReject(AfterReject(s, a), b) == AfterReject(s, a)
    ensures AfterReject(AfterResolve(s, a), b) == AfterResolve(s, a).(status := Rejected)
    ensures AfterResolve(AfterReject(s, a), b) == AfterReject(s, a).(status := Fulfilled)
  {
  }

  /**
   * A handler offered by `then` or `catch` after the current arming settled is
   * not attached, and no later call short of `reset` runs any handler.
   */
  lemma {:induction false} LateHandlerNeverRuns(s: DState, c: Call, cs: seq<Call>)
    requires Valid(s) && s.settled.Some?
    requires c.Then? || c.Catch?
    requires forall k :: 0 <= k < |cs| ==> !cs[k].Reset?
    ensures Apply(s, c) == s
    ensures Replay(s, [c] + cs).fired == s.fired
  {
    assert ([c] + cs)[1..] == cs;
    SettlesOnce(s, cs);
  }

  /**
   * After `reset`, only handlers attached after it can run: the handlers of
   * the discarded promise never fire for a later settlement.
   */
  lemma {:induction false} ResetDiscardsHandlers(s: DState, cs: seq<Call>, h: Handler)
    requires forall k :: 0 <= k < |cs| ==> Attaches(cs[k]) != Some(h)
    ensures |s.fired| <= |Replay(Armed(s), cs).fired|
    ensures forall f :: f in Replay(Armed(s), cs).fired[|s.fired|..] ==> f.handler != h
  {
    FreshHandlersOnly(Armed(s), cs, h);
  }

  /** Helper for ResetDiscardsHandlers: h never enters the handler list, so never fires. */
  lemma {:induction false} FreshHandlersOnly(s: DState, cs: seq<Call>, h: Handler)
    requires h !in s.handlers
    requires forall k :: 0 <= k < |cs| ==> Attaches(cs[k]) != Some(h)
    ensures |s.fired| <= |Replay(s, cs).fired|
    ensures forall f :: f in Replay(s, cs).fired[|s.fired|..] ==> f.handler != h
    decreases |cs|
  {
    if cs != [] {
      var t := Apply(s, cs[0]);
      ApplyKeepsHandlerOut(s, cs[0], h);
      FreshHandlersOnly(t, cs[1..], h);
      var u := Replay(t, cs[1..]);
      assert Replay(s, cs) == u;
      ReplayExtendsFired(t, cs[1..]);
      FiredSuffix(u.fired, t.fired, |s.fired|, h);
    }
  }

  /** Helper for FreshHandlersOnly: one call neither attaches h nor fires it. */
  lemma ApplyKeepsHandlerOut(s: DState, c: Call, h: Handler)
    requires h !in s.handlers && Attaches(c) != Some(h)
    ensures var t := Apply(s, c);
      |s.fired| <= |t.fired| && h !in t.handlers && forall f :: f in t.fired[|s.fired|..] ==> f.handler != h
  {
    match c
    case Resolve(v) =>
      FireRunsMatchingHandlers(s.handlers, Fulfilment(v));
    case Reject(r) =>
      FireRunsMatchingHandlers(s.handlers, Rejection(r));
    case Reset =>
    case Then(id) =>
    case Catch(id) =>
  }

  /** Helper for FreshHandlersOnly: a property of two consecutive stretches of firings holds of both together. */
  lemma FiredSuffix(u: seq<Firing>, t: seq<Firing>, n: nat, h: Handler)
    requires n <= |t| <= |u| && u[..|t|] == t
    requires forall f :: f in t[n..] ==> f.handler != h
    requires forall f :: f in u[|t|..] ==> f.handler != h
    ensures forall f :: f in u[n..] ==> f.handler != h
  {
    forall f | f in u[n..]
      ensures f.handler != h
    {
      var j :| 0 <= j < |u| - n && u[n..][j] == f;
      var k := n + j;
      if k < |t| {
        assert u[..|t|][k] == f;
        assert t[n..][j] == f;
      } else {
        assert u[|t|..][k - |t|] == f;
      }
    }
  }

  /** The Deferred object; its fields are updated in place like the JavaScript ones. */
  class Deferred {
    var status: Status
    /** How the current promise was settled, if it was (the native promise's internal state). */
    var settled: Option<Settlement>
    /** Handlers attached to the current promise. */
    var handlers: seq<Handler>
    /** Every handler invocation so far, across armings. */
    var fired: seq<Firing>
    var armings: nat

    function State(): DState
      reads this
    {
      DState(status, settled, handlers, fired, armings)
    }

    constructor ()
      ensures State() == Created()
    {
      status := Initial;
      settled := None;
      handlers := [];
      fired := [];
      armings := 0;
      new;
      SetPromise();
    }

    method SetPromise()
      modifies this
      ensures State() == Armed(old(State()))
    {
      status := Pending;
      settled := None;
      handlers := [];
      armings := armings + 1;
    }

    /** The native `_resolve`/`_reject`: a no-op on a promise that is already settled. */
    method SettlePromise(o: Settlement)
      modifies this
      ensures State() == Settle(old(State()), o)
    {
      if settled.None? {
        settled := Some(o);
        fired := fired + Fire(handlers, o);
      }
    }

    method Resolve(value: Value)
      modifies this
      ensures State() == AfterResolve(old(State()), value)
    {
      status := Fulfilled;
      SettlePromise(Fulfilment(value));
    }

    method Reject(reason: Value)
      modifies this
      ensures State() == AfterReject(old(State()), reason)
    {
      status := Rejected;
      SettlePromise(Rejection(reason));
    }

    method Reset()
      modifies this
      ensures State() == Armed(old(State()))
    {
      SetPromise();
    }

    method Then(id: HandlerId) returns (self: Deferred)
      modifies this
      ensures self == this
      ensures State() == WithThen(old(State()), id)
    {
      if status == Pending || status == Initial {
        handlers := handlers + [OnFulfilled(id)];
      }
      self := this;
    }

    method Catch(id: HandlerId) returns (self: Deferred)
      modifies this
      ensures self == this
      ensures State() == WithCatch(old(State()), id)
    {
      if status == Pending || status == Initial {
        handlers := handlers + [OnRejected(id)];
      }
      self := this;
    }
  }
}
