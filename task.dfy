/**
 * The base task (src/class/Task.js): one Deferred and a `continue` slot,
 * with `resolve` and `reject` forwarding to the Deferred.
 */
module Tasks {
  import opened Values
  import opened Deferreds

  /** What `continue` holds: `null` in a plain Task; a subclass stores its `start` there. */
  datatype Continuation = NoContinuation | StartAgain

  class Task {
    /** Never reassigned after the constructor. */
    const dfd: Deferred
    var continuation: Continuation

    constructor ()
      ensures fresh(dfd) && dfd.State() == Created()
      ensures continuation == NoContinuation
    {
      dfd := new Deferred();
      continuation := NoContinuation;
    }

    /** Forwards to `dfd.reject` (the source's doc comments of the two methods are swapped). */
    method Reject(data: Value)
      modifies dfd
      ensures dfd.State() == AfterReject(old(dfd.State()), data)
    {
      dfd.Reject(data);
    }

    method Resolve(data: Value)
      modifies dfd
      ensures dfd.State() == AfterResolve(old(dfd.State()), data)
    {
      dfd.Resolve(data);
    }
  }
}
