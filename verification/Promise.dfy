/** The promise half of an action, as the object that its owner and its subclass share. */
module Promises {
  import opened Wrappers
  import opened Actions

  class Promise {
    var state: State
    var after: Option<Then>
    var timeout: Option<nat>

    function With(kind: Kind): Action
      reads this
    {
      Action(state, after, timeout, kind)
    }

    constructor ()
      ensures state == Pending && after == None && timeout == None
    {
      state, after, timeout := Pending, None, None;
    }

    method Then(k: Then, now: nat)
      modifies this
      ensures state == old(state) && after == Some(k)
      ensures timeout == if state == Resolved then Some(now) else old(timeout)
    {
      after := Some(k);
      ScheduleIfResolved(now);
    }

    method Resolve(now: nat)
      modifies this
      ensures state == (if old(state) == Pending then Resolved else old(state)) && after == old(after)
      ensures timeout == if old(state) == Pending && after.Some? then Some(now) else old(timeout)
    {
      if state == Pending {
        state := Resolved;
        ScheduleIfResolved(now);
      }
    }

    /** A resolved promise with a continuation schedules its firing. */
    method ScheduleIfResolved(now: nat)
      modifies this
      ensures state == old(state) && after == old(after)
      ensures timeout == if state == Resolved && after.Some? then Some(now) else old(timeout)
    {
      if state == Resolved && after.Some? {
        timeout := Some(now);
      }
    }

    /** The first half of terminate: the state changes and the timer is cleared before any callback runs. */
    method BeginTerminate() returns (wasPending: bool)
      modifies this
      ensures wasPending == (old(state) == Pending)
      ensures state == (if wasPending then Terminated else old(state)) && after == old(after)
      ensures timeout == if wasPending then None else old(timeout)
    {
      wasPending := state == Pending;
      if wasPending {
        state, timeout := Terminated, None;
      }
    }
  }
}
