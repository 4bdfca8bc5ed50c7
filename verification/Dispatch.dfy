/** What a command dispatches, in which order, and what is handed over when it is terminated. */
module Dispatch {
  import opened Wrappers
  import opened Commands
  import opened Actions
  import opened Steps
  import opened Invariant

  // ----- the flat list a command stands for -----

  function CommandTrace(c: Command): seq<Event> {
    [Started(c)] + BodyTrace(c.body)
  }

  function BodyTrace(b: Body): seq<Event> {
    match b
    case Instant => []
    case Leaf => []
    case Dead => []
    case Script(slots, _) => SlotsTrace(slots, 0)
    case Fork(branches) => SlotsTrace(branches, 0)
  }

  function SlotTrace(s: Slot): seq<Event> {
    match s
    case Null => []
    case Away(c) => [SentAway(c)]
    case Child(c) => CommandTrace(c)
    case Row(row, _) => SlotsTrace(row, 0)
    case Join(branches) => SlotsTrace(branches, 0)
  }

  function SlotsTrace(slots: seq<Slot>, n: nat): seq<Event>
    decreases slots, |slots| - n
  {
    if n >= |slots| then [] else SlotTrace(slots[n]) + SlotsTrace(slots, n + 1)
  }

  /** The events an action that is under way has still to produce, one step after the other. */
  function Ahead(a: Action): seq<Event>
    decreases a
  {
    if !a.state.Pending? then []
    else
      match a.kind
      case External => []
      case Waiting => []
      case Delaying(c, _, current) =>
        if current.None? then []
        else Ahead(current.value) + if current.value.after == Some(AfterDelay) then BodyTrace(c.body) else []
      case Scripting(slots, _, _, next, step) =>
        (if step.None? then [] else Ahead(step.value)) + SlotsTrace(slots, next)
      case Gathering(actions) => AheadOfAll(actions)
  }

  function AheadOfAll(actions: seq<Action>): seq<Event>
    decreases actions
  {
    if actions == [] then []
    else
      assert actions[0] in actions;
      Ahead(actions[0]) + AheadOfAll(actions[1..])
  }

  function AheadOf(a: Option<Action>): seq<Event> {
    if a.None? then [] else Ahead(a.value)
  }

  /** What the owner of a pending child will produce after the child. */
  function Tail(a: Action): seq<Event> {
    match a.kind
    case External => []
    case Waiting => []
    case Delaying(c, _, current) =>
      if current.Some? && current.value.after == Some(AfterDelay) then BodyTrace(c.body) else []
    case Scripting(slots, _, _, next, _) => SlotsTrace(slots, next)
    case Gathering(_) => []
  }

  // ----- commands that run one thing at a time -----

  predicate SerialCommand(c: Command) {
    SerialBody(c.body)
  }

  predicate SerialBody(b: Body) {
    match b
    case Instant => true
    case Leaf => true
    case Dead => true
    case Script(slots, _) => SerialSlots(slots, 0)
    case Fork(_) => false
  }

  predicate SerialSlot(s: Slot) {
    match s
    case Null => true
    case Away(_) => true
    case Child(c) => SerialCommand(c)
    case Row(row, _) => SerialSlots(row, 0)
    case Join(_) => false
  }

  predicate SerialSlots(slots: seq<Slot>, n: nat)
    decreases slots, |slots| - n
  {
    n >= |slots| || (SerialSlot(slots[n]) && SerialSlots(slots, n + 1))
  }

  ghost predicate Serial(a: Action)
    decreases a
  {
    match a.kind
    case External => true
    case Waiting => true
    case Delaying(c, _, current) => SerialCommand(c) && (current.Some? ==> Serial(current.value))
    case Scripting(slots, _, _, next, step) => SerialSlots(slots, next) && (step.Some? ==> Serial(step.value))
    case Gathering(_) => false
  }

  lemma RegisterSerial(a: Action, k: Then, now: nat)
    ensures Serial(a) ==> Serial(Register(a, k, now))
  {
  }

  // ----- creation -----

  lemma {:induction false} MakeDelaySerial(c: Command, fast: bool, w: World)
    requires SerialCommand(c)
    ensures Serial(MakeDelay(c, fast, w).0)
    decreases c, 1
  {
    if fast || c.delay == 0 {
      RunCommandSerial(Fresh(Delaying(c, fast, None)), Prepare(c, Log(w, Started(c))));
    } else {
      assert Serial(MakeDelay(c, fast, w).0.kind.current.value);
    }
  }

  lemma {:induction false} RunCommandSerial(a: Action, w: World)
    requires a.kind.Delaying? && a.kind.current.None? && SerialCommand(a.kind.command)
    ensures Serial(RunCommand(a, w).0)
    decreases a.kind.command, 0
  {
    var b := a.kind.command.body;
    var (child, w1) := Execute(b, a.kind.fast, w);
    if b.Script? {
      MakeScriptSerial(b.slots, b.bailout, a.kind.fast, w);
    }
    if child.Some? {
      RegisterSerial(child.value, AfterCommand, w1.now);
    }
  }

  lemma {:induction false} MakeScriptSerial(slots: seq<Slot>, bailout: Bailout, fast: bool, w: World)
    requires SerialSlots(slots, 0)
    ensures Serial(MakeScript(slots, bailout, fast, w).0)
    decreases slots, |slots| + 1
  {
    AdvanceSerial(Fresh(Scripting(slots, bailout, fast, 0, None)), w);
  }

  lemma {:induction false} AdvanceSerial(a: Action, w: World)
    requires a.kind.Scripting? && a.kind.next <= |a.kind.slots| && a.kind.step.None?
    requires SerialSlots(a.kind.slots, a.kind.next)
    ensures Serial(Advance(a, w).0)
    decreases a.kind.slots, |a.kind.slots| - a.kind.next
  {
    var k := a.kind;
    if k.next < |k.slots| {
      StartSlotSerial(k.slots[k.next], k.fast, w);
      var (child, w1) := StartSlot(k.slots[k.next], k.fast, w);
      if child.None? {
        AdvanceSerial(a.(kind := k.(next := k.next + 1)), w1);
      } else {
        RegisterSerial(child.value, AfterStep, w1.now);
      }
    }
  }

  lemma {:induction false} StartSlotSerial(s: Slot, fast: bool, w: World)
    requires SerialSlot(s)
    ensures var r := StartSlot(s, fast, w).0; r.Some? ==> Serial(r.value)
    decreases s, 0
  {
    match s {
      case Child(c) => MakeDelaySerial(c, fast, w);
      case Row(row, bailout) => MakeScriptSerial(row, bailout, fast, w);
      case _ =>
    }
  }

  // ----- delivery -----

  lemma ContinueSerial(a: Action, i: nat, w: World)
    requires WellFormed(a) && Serial(a) && i < |Children(a)|
    ensures Serial(Continue(a, i, w).0)
  {
    match a.kind {
      case Scripting(_, _, _, _, _) => if !a.state.Terminated? { AdvanceSerial(WithoutChild(a, i), w); }
      case Delaying(_, _, current) =>
        if current.value.after == Some(AfterDelay) && !a.state.Terminated? {
          RunCommandSerial(WithoutChild(a, i), w);
        }
    }
  }

  /** Whatever signal arrives, a tree that runs one thing at a time goes on doing so. */
  lemma {:induction false} DeliverSerial(a: Action, path: seq<nat>, sig: Signal, w: World)
    requires WellFormed(a) && Serial(a) && Deliverable(a, path, sig) && CursorsInRange(a)
    ensures Serial(Deliver(a, path, sig, w).0)
    decreases path
  {
    if path != [] {
      var c := Children(a)[path[0]];
      assert c in Children(a) && Serial(c);
      if |path| == 1 && sig.TimerFires? && c.state.Resolved? {
        ContinueSerial(a, path[0], w);
      } else if |path| == 1 && sig.LeafTerminates? && a.kind.Delaying? && c.after == Some(AfterCommand) {
      } else {
        DeliverSerial(c, path[1..], sig, w);
      }
    }
  }

  // ----- termination -----

  /** What the pending scripts of a tree hand over, the innermost first. */
  function HandOvers(a: Action): seq<Event>
    decreases a
  {
    if !a.state.Pending? then []
    else
      match a.kind
      case External => []
      case Waiting => []
      case Delaying(_, _, current) => if current.None? then [] else HandOvers(current.value)
      case Scripting(slots, bailout, _, next, step) =>
        (if step.None? then [] else HandOvers(step.value)) + HandOver(Remainder(slots, bailout, next))
      case Gathering(actions) => HandOversOf(actions)
  }

  function HandOversOf(actions: seq<Action>): seq<Event>
    decreases actions
  {
    if actions == [] then []
    else
      assert actions[0] in actions;
      HandOvers(actions[0]) + HandOversOf(actions[1..])
  }

  function HandOver(rest: seq<Slot>): seq<Event> {
    if rest == [] then [] else [HandedOff(rest)]
  }

  lemma {:induction false} TerminateHandsOver(a: Action, w: World)
    ensures Terminate(a, w).1.log == w.log + HandOvers(a)
    decreases a
  {
    if a.state.Pending? {
      match a.kind {
        case External =>
        case Waiting =>
        case Delaying(_, _, current) =>
          if current.Some? { TerminateHandsOver(current.value, w); }
        case Scripting(slots, bailout, _, next, step) =>
          if step.Some? { TerminateHandsOver(step.value, w); }
          var w1 := if step.None? then w else Terminate(step.value, w).1;
          assert HandOff(Remainder(slots, bailout, next), w1).log == w1.log + HandOver(Remainder(slots, bailout, next));
        case Gathering(actions) => TerminateEachHandsOver(actions, w);
      }
    }
  }

  lemma {:induction false} TerminateEachHandsOver(actions: seq<Action>, w: World)
    ensures TerminateEach(actions, w).log == w.log + HandOversOf(actions)
    decreases actions
  {
    if actions != [] {
      assert actions[0] in actions;
      TerminateHandsOver(actions[0], w);
      TerminateEachHandsOver(actions[1..], Terminate(actions[0], w).1);
      assert (w.log + HandOvers(actions[0])) + HandOversOf(actions[1..])
          == w.log + (HandOvers(actions[0]) + HandOversOf(actions[1..]));
    }
  }

  /** Two signals can only reach one and the same node: nothing runs beside the command that has been started last. */
  lemma {:induction false} SerialListensOnce(a: Action, p: seq<nat>, one: Signal, q: seq<nat>, other: Signal)
    requires WellFormed(a) && Serial(a) && Deliverable(a, p, one) && Deliverable(a, q, other)
    ensures p == q
    decreases a
  {
    if !a.state.Pending? {
      if p != [] { FinishedIsDeaf(a, p, one); }
      if q != [] { FinishedIsDeaf(a, q, other); }
    } else if p != [] && q != [] {
      assert |Children(a)| == 1 && p[0] == q[0] == 0;
      var c := Children(a)[0];
      assert c in Children(a);
      SerialListensOnce(c, p[1..], one, q[1..], other);
      assert p == [0] + p[1..] && q == [0] + q[1..];
    } else {
      assert Children(a) == [];
    }
  }
}
