/** The steps of the engine: continuations, termination, and the events that reach a node of the tree. */
module Steps {
  import opened Wrappers
  import opened Commands
  import opened Actions

  // ----- ownership -----

  function Children(a: Action): (r: seq<Action>)
    ensures forall c :: c in r ==> c < a
  {
    match a.kind
    case External => []
    case Waiting => []
    case Delaying(_, _, current) => if current.Some? then [current.value] else []
    case Scripting(_, _, _, _, step) => if step.Some? then [step.value] else []
    case Gathering(actions) => actions
  }

  function WithChild(a: Action, i: nat, c: Action): Action
    requires i < |Children(a)|
  {
    a.(kind :=
      match a.kind
      case External => a.kind
      case Waiting => a.kind
      case Delaying(_, _, _) => a.kind.(current := Some(c))
      case Scripting(_, _, _, _, _) => a.kind.(step := Some(c))
      case Gathering(actions) => Gathering(actions[i := c]))
  }

  /** The owner lets go of a child; the child's timers go with it. */
  function WithoutChild(a: Action, i: nat): Action
    requires i < |Children(a)|
  {
    a.(kind :=
      match a.kind
      case External => a.kind
      case Waiting => a.kind
      case Delaying(_, _, _) => a.kind.(current := None)
      case Scripting(_, _, _, _, _) => a.kind.(step := None)
      case Gathering(actions) => Gathering(actions[..i] + actions[i + 1..]))
  }

  // ----- what an owner does when a child finishes -----

  /** The continuation that child i was given, run on its owner. */
  function Continue(a: Action, i: nat, w: World): (Action, World)
    requires i < |Children(a)|
    requires a.kind.Scripting? ==> a.kind.next <= |a.kind.slots|
  {
    var a1 := WithoutChild(a, i);
    match a.kind
    case External => (a, w)
    case Waiting => (a, w)
    case Delaying(_, _, current) =>
      if current.value.after == Some(AfterDelay) then
        if a.state.Terminated? then (a1, w) else RunCommand(a1, w)
      else
        ResolveInternal(a1, w)
    case Scripting(_, _, _, _, _) =>
      if a.state.Terminated? then (a1, w) else Advance(a1, w)
    case Gathering(_) =>
      if a.state.Terminated? then (a, w)
      else if a1.kind.actions == [] then (Resolve(a1, w.now), w)
      else (a1, w)
  }

  /** The callback a DelayAction adds to the action of its command. */
  function ChildTerminated(a: Action, w: World): (r: (Action, World))
    requires a.kind.Delaying?
    ensures r.0.kind == a.kind.(current := None)
  {
    ResolveInternal(a.(kind := a.kind.(current := None)), w)
  }

  // ----- termination -----

  /** Terminating an action runs its callbacks, which terminate what it owns. */
  function Terminate(a: Action, w: World): (Action, World)
    decreases a
  {
    if !a.state.Pending? then (a, w)
    else
      var t := a.(state := Terminated, timeout := None);
      match a.kind
      case External => (t, w)
      case Waiting => (t, w)
      case Delaying(c, fast, current) =>
        var (t1, w1) :=
          if current.None? then (t, w)
          else
            var (child, w0) := Terminate(current.value, w);
            // the child was pending: its last callback re-enters the owner
            if current.value.state.Pending? && child.after == Some(AfterCommand) then ChildTerminated(t, w0)
                else (t, w0);
        (t1.(kind := Delaying(c, fast, None)), Complete(c, w1))
      case Scripting(slots, bailout, fast, next, step) =>
        var w1 := if step.None? then w else Terminate(step.value, w).1;
        (t.(kind := a.kind.(step := None)), HandOff(Remainder(slots, bailout, next), w1))
      case Gathering(actions) =>
        (t.(kind := Gathering([])), TerminateEach(actions, w))
  }

  function TerminateEach(actions: seq<Action>, w: World): World
    decreases actions
  {
    if actions == [] then w
    else
      assert actions[0] in actions;
      TerminateEach(actions[1..], Terminate(actions[0], w).1)
  }

  /** The sequencer ignores an empty command list. */
  function HandOff(rest: seq<Slot>, w: World): World {
    if rest == [] then w else Log(w, HandedOff(rest))
  }

  // ----- events -----

  datatype Signal = TimerFires | LeafResolves | LeafTerminates

  /** The node that a path of child indices leads to. */
  function At(a: Action, path: seq<nat>): Option<Action>
    decreases path
  {
    if path == [] then Some(a)
    else if path[0] < |Children(a)| then At(Children(a)[path[0]], path[1..])
    else None
  }

  predicate Receives(a: Action, sig: Signal) {
    match sig
    case TimerFires => a.timeout.Some?
    case LeafResolves => a.kind.External? && a.state.Pending?
    case LeafTerminates => a.kind.External? && a.state.Pending?
  }

  predicate Deliverable(a: Action, path: seq<nat>, sig: Signal) {
    At(a, path).Some? && Receives(At(a, path).value, sig)
  }

  /** What a node does itself.  The timer of a resolved action belongs to its owner's continuation. */
  function Own(a: Action, sig: Signal, now: nat): Action {
    match sig
    case TimerFires => Resolve(a.(timeout := None), now)
    case LeafResolves => Resolve(a, now)
    case LeafTerminates => a.(state := Terminated)
  }

  ghost predicate CursorsInRange(a: Action)
    decreases a
  {
    && (a.kind.Scripting? ==> a.kind.next <= |a.kind.slots|)
    && forall c :: c in Children(a) ==> CursorsInRange(c)
  }

  /** Deliver a signal to the node at a path, and let its owner react. */
  function Deliver(a: Action, path: seq<nat>, sig: Signal, w: World): (Action, World)
    requires Deliverable(a, path, sig)
    requires CursorsInRange(a)
    decreases path
  {
    if path == [] then (Own(a, sig, w.now), w)
    else
      var i := path[0];
      var c := Children(a)[i];
      assert c in Children(a);
      if |path| == 1 && sig.TimerFires? && c.state.Resolved? then
        Continue(a, i, w)
      else if |path| == 1 && sig.LeafTerminates? && a.kind.Delaying? && c.after == Some(AfterCommand) then
        ChildTerminated(a, w)
      else
        var (c', w') := Deliver(c, path[1..], sig, w);
        (WithChild(a, i, c'), w')
  }
}
