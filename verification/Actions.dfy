/** The run-time form of a command: what is left once a command list has been inflated. */
module Commands {

  /** A command as a DelayAction sees it: a delay, a wish for the screen lock, and a body to execute. */
  datatype Command = Command(delay: nat, screenLock: bool, body: Body)

  /** What executing the body returns. */
  datatype Body =
    | Instant                                   // no action, or one already resolved
    | Leaf                                      // an action that is resolved or terminated from outside
    | Dead                                      // an action that is already terminated when it is returned
    | Script(slots: seq<Slot>, bailout: Bailout)  // a SequentialAction or an ArrayAction
    | Fork(branches: seq<Slot>)                 // the makeAll of a Parallel command

  /** One entry of a command list. */
  datatype Slot =
    | Null                                   // inflates to nothing
    | Away(command: Command)                 // belongs to another sequencer and is sent there
    | Child(command: Command)                // runs here, inside a DelayAction
    | Row(row: seq<Slot>, bailout: Bailout)  // a list run by an ArrayAction, such as that of one datum
    | Join(branches: seq<Slot>)              // a makeAll of what the branches start

  /** What a script hands to the sequencer, in fast mode, when it is terminated. */
  datatype Bailout =
    | Drop
    | FinishAll
    | CatchFinally(tryLength: nat, catchSlots: seq<Slot>)

  /** The slots from index n on; empty when there is no such index. */
  function From(slots: seq<Slot>, n: nat): seq<Slot> {
    if n <= |slots| then slots[n..] else []
  }

  /** The slots handed over by a script that is terminated after `next` slots have been taken. */
  function Remainder(slots: seq<Slot>, bailout: Bailout, next: nat): seq<Slot> {
    match bailout
    case Drop => []
    case FinishAll => From(slots, next)
    case CatchFinally(n, catchSlots) =>
      if next <= n then catchSlots + From(slots, n) else From(slots, next)
  }
}

/**
 * The action engine as a step system over values.  A tree of actions owns its children, and a
 * pending timeout lives in the action that would clear it, so dropping a subtree drops its timers.
 */
module Actions {
  import opened Wrappers
  import opened Commands

  datatype State = Pending | Resolved | Terminated

  /** The continuation registered on an action by its owner. */
  datatype Then =
    | AfterDelay    // the delay of a DelayAction has passed
    | AfterCommand  // the command of a DelayAction has finished
    | AfterStep     // the current slot of a script has finished
    | AfterBranch   // a member of a makeAll has finished

  datatype Action = Action(state: State, after: Option<Then>, timeout: Option<nat>, kind: Kind)

  datatype Kind =
    | External
    | Waiting
    | Delaying(command: Command, fast: bool, current: Option<Action>)
    | Scripting(slots: seq<Slot>, bailout: Bailout, fast: bool, next: nat, step: Option<Action>)
    | Gathering(actions: seq<Action>)

  datatype Event = Started(command: Command) | SentAway(command: Command) | HandedOff(rest: seq<Slot>)

  /** Everything outside the tree that the engine touches: the clock, who took and released the screen lock, a log. */
  datatype World = World(now: nat, taken: multiset<Command>, released: multiset<Command>, log: seq<Event>)

  function NewWorld(now: nat): World {
    World(now, multiset{}, multiset{}, [])
  }

  function Log(w: World, e: Event): World {
    w.(log := w.log + [e])
  }

  function Prepare(c: Command, w: World): World {
    if c.screenLock then w.(taken := w.taken + multiset{c}) else w
  }

  function Complete(c: Command, w: World): World {
    if c.screenLock then w.(released := w.released + multiset{c}) else w
  }

  // ----- the promise protocol -----

  function Fresh(kind: Kind): Action {
    Action(Pending, None, None, kind)
  }

  /** A resolved action with a continuation schedules it; it never runs synchronously. */
  function DoResolve(a: Action, now: nat): Action {
    if a.state.Resolved? && a.after.Some? then a.(timeout := Some(now)) else a
  }

  function Resolve(a: Action, now: nat): Action {
    if a.state.Pending? then DoResolve(a.(state := Resolved), now) else a
  }

  function Register(a: Action, k: Then, now: nat): Action {
    DoResolve(a.(after := Some(k)), now)
  }

  function RegisterAll(actions: seq<Action>, k: Then, now: nat): (r: seq<Action>)
    ensures |r| == |actions|
    ensures forall i :: 0 <= i < |r| ==> r[i] == Register(actions[i], k, now)
  {
    seq(|actions|, i requires 0 <= i < |actions| => Register(actions[i], k, now))
  }

  // ----- DelayAction -----

  function MakeDelay(c: Command, fast: bool, w: World): (r: (Action, World))
    ensures r.0.kind.Delaying? && r.0.kind.command == c
    decreases c, 1
  {
    var w1 := Prepare(c, Log(w, Started(c)));
    var a := Fresh(Delaying(c, fast, None));
    if fast || c.delay == 0 then
      RunCommand(a, w1)
    else
      var timer := Fresh(Waiting).(timeout := Some(w.now + c.delay));
      (a.(kind := a.kind.(current := Some(Register(timer, AfterDelay, w.now)))), w1)
  }

  /** Execute the command; finish at once when there is nothing to wait for. */
  function RunCommand(a: Action, w: World): (r: (Action, World))
    requires a.kind.Delaying?
    ensures r.0.kind.Delaying? && r.0.kind.command == a.kind.command
    decreases a.kind.command, 0
  {
    var (child, w1) := Execute(a.kind.command.body, a.kind.fast, w);
    if child.None? || child.value.state.Resolved? then
      ResolveInternal(a.(kind := a.kind.(current := child)), w1)
    else
      (a.(kind := a.kind.(current := Some(Register(child.value, AfterCommand, w1.now)))), w1)
  }

  function ResolveInternal(a: Action, w: World): (r: (Action, World))
    requires a.kind.Delaying?
    ensures r.0.kind == a.kind
  {
    var w1 := if a.state.Terminated? then w else Complete(a.kind.command, w);
    (Resolve(a, w1.now), w1)
  }

  function Execute(b: Body, fast: bool, w: World): (Option<Action>, World)
    decreases b, 0
  {
    match b
    case Instant => (None, w)
    case Leaf => (Some(Fresh(External)), w)
    case Dead => (Some(Fresh(External).(state := Terminated)), w)
    case Script(slots, bailout) =>
      var (a, w1) := MakeScript(slots, bailout, fast, w);
      (Some(a), w1)
    case Fork(branches) => StartBranches(branches, fast, w)
  }

  // ----- SequentialAction and ArrayAction -----

  function MakeScript(slots: seq<Slot>, bailout: Bailout, fast: bool, w: World): (r: (Action, World))
    ensures r.0.kind.Scripting?
    decreases slots, |slots| + 1
  {
    Advance(Fresh(Scripting(slots, bailout, fast, 0, None)), w)
  }

  /** Take slots until one of them starts a child; resolve when there are none left. */
  function Advance(a: Action, w: World): (r: (Action, World))
    requires a.kind.Scripting? && a.kind.next <= |a.kind.slots|
    ensures r.0.kind.Scripting?
    decreases a.kind.slots, |a.kind.slots| - a.kind.next
  {
    var k := a.kind;
    if a.state.Terminated? then (a, w)
    else if k.next == |k.slots| then (Resolve(a, w.now), w)
    else
      var (child, w1) := StartSlot(k.slots[k.next], k.fast, w);
      var a1 := a.(kind := k.(next := k.next + 1));
      if child.None? then Advance(a1, w1)
      else (a1.(kind := a1.kind.(step := Some(Register(child.value, AfterStep, w1.now)))), w1)
  }

  /** Start what a slot asks for; some slots start nothing here. */
  function StartSlot(s: Slot, fast: bool, w: World): (Option<Action>, World)
    decreases s, 0
  {
    match s
    case Null => (None, w)
    case Away(c) => (None, Log(w, SentAway(c)))
    case Child(c) =>
      var (a, w1) := MakeDelay(c, fast, w);
      (Some(a), w1)
    case Row(row, bailout) =>
      var (a, w1) := MakeScript(row, bailout, fast, w);
      (Some(a), w1)
    case Join(branches) => StartBranches(branches, fast, w)
  }

  // ----- Parallel and makeAll -----

  function StartBranches(branches: seq<Slot>, fast: bool, w: World): (Option<Action>, World)
    decreases branches, |branches| + 1
  {
    var (actions, w1) := MakeBranches(branches, 0, fast, w);
    if actions == [] then (None, w1) else (Some(MakeAll(actions, w1.now)), w1)
  }

  /** Start the branches from index n on. */
  function MakeBranches(branches: seq<Slot>, n: nat, fast: bool, w: World): (seq<Action>, World)
    requires n <= |branches|
    decreases branches, |branches| - n
  {
    if n == |branches| then ([], w)
    else
      var (child, w1) := StartSlot(branches[n], fast, w);
      var (rest, w2) := MakeBranches(branches, n + 1, fast, w1);
      (if child.None? then rest else [child.value] + rest, w2)
  }

  function MakeAll(actions: seq<Action>, now: nat): Action {
    Fresh(Gathering(RegisterAll(actions, AfterBranch, now)))
  }
}
