/**
 * Scripts in whole runs, wherever they are in the tree: at whatever moment the root is terminated, what a script has
 * dispatched and what it hands over add up.
 */
module ScriptRuns {
  import opened Wrappers
  import opened Commands
  import opened Actions
  import opened Steps
  import opened Invariant
  import opened Attribution
  import opened Runs
  import Census
  import Dispatch
  import Order

  /** The state that a run of a command reaches. */
  ghost function Reached(c: Command, fast: bool, now: nat, steps: seq<Step>): System
    requires IsRun(Start(c, fast, now), steps)
  {
    After(Start(c, fast, now), steps)
  }

  /** A run without a termination of the root reaches a tree with an action at this path. */
  ghost predicate Reaches(c: Command, fast: bool, now: nat, steps: seq<Step>, path: seq<nat>) {
    && IsRun(Start(c, fast, now), steps) && Undisturbed(steps)
    && At(Reached(c, fast, now, steps).root, path).Some?
  }

  ghost function Node(c: Command, fast: bool, now: nat, steps: seq<Step>, path: seq<nat>): Action
    requires Reaches(c, fast, now, steps, path)
  {
    At(Reached(c, fast, now, steps).root, path).value
  }

  /** How often a list dispatches an event. */
  function CountOf(slots: seq<Slot>, e: Actions.Event): nat {
    Census.SlotsCount(slots, 0, e)
  }

  /** An event that the command dispatches only through this list. */
  predicate OnlyHere(c: Command, slots: seq<Slot>, e: Actions.Event) {
    Census.CommandCount(c, e) == CountOf(slots, e)
  }

  lemma {:induction false} RunWithin(s: System, steps: seq<Step>, e: Actions.Event)
    requires Inv(s) && IsRun(s, steps) && Undisturbed(steps) && Within(s.root, e)
    ensures Within(After(s, steps).root, e) && Total(After(s, steps).root, e) <= Total(s.root, e)
    decreases |steps|
  {
    if steps != [] {
      StepInv(s, steps[0]);
      if steps[0].Event? {
        var Event(path, sig) := steps[0];
        EventIsOnPending(s, path, sig);
        DeliverWithin(s.root, path, sig, WorldFor(s, path, sig), e);
      }
      assert forall i :: 0 <= i < |steps[1..]| ==> steps[1..][i] == steps[i + 1];
      RunWithin(Apply(s, steps[0]), steps[1..], e);
    }
  }

  /** What every run keeps, at its end. */
  lemma Reach(c: Command, fast: bool, now: nat, steps: seq<Step>, e: Actions.Event)
    requires IsRun(Start(c, fast, now), steps) && Undisturbed(steps)
    ensures var s := Reached(c, fast, now, steps);
            && Inv(s) && Within(s.root, e) && Total(s.root, e) <= Census.CommandCount(c, e)
            && Census.Logged(s.world, e) + Census.Coming(s.root, e) == Census.CommandCount(c, e)
  {
    StartInv(c, fast, now);
    MakeDelayWithin(c, fast, NewWorld(now), e);
    RunInv(Start(c, fast, now), steps);
    RunWithin(Start(c, fast, now), steps, e);
    DispatchIsConserved(c, fast, now, steps, e);
  }

  /** Dispatched, still to come around a node, and still to come from it, are all there is. */
  lemma NodeIsAccountedFor(c: Command, fast: bool, now: nat, steps: seq<Step>, path: seq<nat>, e: Actions.Event)
    requires Reaches(c, fast, now, steps, path) && Held(Reached(c, fast, now, steps).root, path)
    ensures var s, a := Reached(c, fast, now, steps), Node(c, fast, now, steps, path);
            && WellFormed(a)
            && Census.Logged(s.world, e) + Around(s.root, path, e) + Census.Coming(a, e) == Census.CommandCount(c, e)
            && (Total(a, e) == Census.CommandCount(c, e) ==> Around(s.root, path, e) == 0)
  {
    Reach(c, fast, now, steps, e);
    var s := Reached(c, fast, now, steps);
    NodeIsWellFormed(s.root, path);
    AroundFits(s.root, path, e);
  }

  /**
   * Wherever it is in the tree, and whatever runs beside it, a pending script has started the slot before its cursor.
   * An event that is dispatched only through its list has been dispatched as often as the slots before the cursor
   * say, less what the running slot has still to dispatch.
   */
  lemma ScriptInRun(c: Command, fast: bool, now: nat, steps: seq<Step>, path: seq<nat>, e: Actions.Event)
    requires Reaches(c, fast, now, steps, path)
    requires var a := Node(c, fast, now, steps, path); a.kind.Scripting? && a.state.Pending?
    ensures var s, k := Reached(c, fast, now, steps), Node(c, fast, now, steps, path).kind;
            && k.step.Some? && 0 < k.next <= |k.slots| && Matches(k.slots[k.next - 1], k.step.value)
            && Census.Logged(s.world, e) + Around(s.root, path, e) + Census.Coming(k.step.value, e)
                + CountOf(k.slots[k.next..], e)
               == Census.CommandCount(c, e)
            && (OnlyHere(c, k.slots, e) ==>
                  Census.Logged(s.world, e) + Census.Coming(k.step.value, e) == CountOf(k.slots[..k.next], e))
  {
    var s, a := Reached(c, fast, now, steps), Node(c, fast, now, steps, path);
    Reach(c, fast, now, steps, e);
    PendingIsHeld(s.root, path);
    NodeIsAccountedFor(c, fast, now, steps, path, e);
    SlotsCountSplit(a.kind.slots, 0, a.kind.next, e);
    CountOfRest(a.kind.slots, a.kind.next, e);
  }

  lemma {:induction false} CountOfRest(slots: seq<Slot>, n: nat, e: Actions.Event)
    requires n <= |slots|
    ensures CountOf(slots[n..], e) == Census.SlotsCount(slots, n, e)
  {
    ShiftedCount(slots, n, 0, e);
  }

  lemma {:induction false} ShiftedCount(slots: seq<Slot>, n: nat, i: nat, e: Actions.Event)
    requires n + i <= |slots|
    ensures Census.SlotsCount(slots[n..], i, e) == Census.SlotsCount(slots, n + i, e)
    decreases |slots| - n - i
  {
    if n + i < |slots| {
      ShiftedCount(slots, n, i + 1, e);
    }
  }

  /** The command dispatches the events of a set as this list does, each fork of it in one branch at most. */
  ghost predicate OnlyListed(c: Command, slots: seq<Slot>, es: iset<Actions.Event>) {
    && Order.CommandInOrder(c, es)
    && Order.Only(Dispatch.CommandTrace(c), es) == Order.Only(Dispatch.SlotsTrace(slots, 0), es)
  }

  lemma ListedIsOnlyHere(c: Command, slots: seq<Slot>, es: iset<Actions.Event>, e: Actions.Event)
    requires OnlyListed(c, slots, es) && e in es
    ensures OnlyHere(c, slots, e)
  {
    Order.OnlyCounts(Dispatch.CommandTrace(c), es, e);
    Order.OnlyCounts(Dispatch.SlotsTrace(slots, 0), es, e);
    Order.CommandCounts(c, e);
    Order.SlotsCounts(slots, 0, e);
  }

  /**
   * Wherever it is in the tree, and whatever runs beside it, a pending script keeps the order of its list.  Of events
   * that are dispatched only through the list, what has been dispatched is what the slots before the cursor say, up to
   * what the running slot has still ahead.
   */
  lemma ScriptInOrder(c: Command, fast: bool, now: nat, steps: seq<Step>, path: seq<nat>, es: iset<Actions.Event>)
    requires Reaches(c, fast, now, steps, path)
    requires var a := Node(c, fast, now, steps, path);
             a.kind.Scripting? && a.state.Pending? && OnlyListed(c, a.kind.slots, es)
    ensures var s, k := Reached(c, fast, now, steps), Node(c, fast, now, steps, path).kind;
            && k.step.Some? && 0 < k.next <= |k.slots| && Matches(k.slots[k.next - 1], k.step.value)
            && Order.Only(s.world.log, es) + Order.Only(Dispatch.Ahead(k.step.value), es)
               == Order.Only(Dispatch.SlotsTrace(k.slots[..k.next], 0), es)
  {
    var s, a := Reached(c, fast, now, steps), Node(c, fast, now, steps, path);
    var k := a.kind;
    ScriptInRun(c, fast, now, steps, path, Started(c));
    Reach(c, fast, now, steps, Started(c));
    PendingIsHeld(s.root, path);
    forall e | e in es ensures Census.Coming(s.root, e) == Census.Coming(a, e) {
      ListedIsOnlyHere(c, k.slots, es, e);
      NodeIsAccountedFor(c, fast, now, steps, path, e);
      Reach(c, fast, now, steps, e);
    }
    Order.OnlyAtNode(s.root, path, es);
    EventsAreInOrder(c, fast, now, steps, es);
    ScriptAhead(a, s.world.log, es);
  }

  lemma ScriptAhead(a: Action, log: seq<Actions.Event>, es: iset<Actions.Event>)
    requires a.kind.Scripting? && a.state.Pending? && a.kind.step.Some? && a.kind.next <= |a.kind.slots|
    requires Order.Only(log, es) + Order.Only(Dispatch.Ahead(a), es)
             == Order.Only(Dispatch.SlotsTrace(a.kind.slots, 0), es)
    ensures Order.Only(log, es) + Order.Only(Dispatch.Ahead(a.kind.step.value), es)
            == Order.Only(Dispatch.SlotsTrace(a.kind.slots[..a.kind.next], 0), es)
  {
    var k := a.kind;
    var step, rest := Dispatch.Ahead(k.step.value), Dispatch.SlotsTrace(k.slots, k.next);
    Order.OnlyOfBoth(step, rest, es);
    Order.TraceSplit(k.slots, 0, k.next);
    Order.OnlyOfBoth(Dispatch.SlotsTrace(k.slots[..k.next], 0), rest, es);
    Order.Regroup(Order.Only(log, es), Order.Only(step, es), Order.Only(rest, es));
    SameTail(Order.Only(log, es) + Order.Only(step, es),
             Order.Only(Dispatch.SlotsTrace(k.slots[..k.next], 0), es), Order.Only(rest, es));
  }

  lemma SameTail(x: seq<Actions.Event>, y: seq<Actions.Event>, z: seq<Actions.Event>)
    requires x + z == y + z
    ensures x == y
  {
    assert (x + z)[..|x|] == (y + z)[..|y|];
  }

  /** A script whose list is used up has dispatched all of it, has nothing more to dispatch and hands nothing over. */
  lemma UsedUpScript(c: Command, fast: bool, now: nat, steps: seq<Step>, path: seq<nat>, e: Actions.Event)
    requires Reaches(c, fast, now, steps, path) && Held(Reached(c, fast, now, steps).root, path)
    requires var a := Node(c, fast, now, steps, path); a.kind.Scripting? && a.state.Resolved?
    ensures var s, a := Reached(c, fast, now, steps), Node(c, fast, now, steps, path);
            && a.kind.next == |a.kind.slots| && Census.Coming(a, e) == 0 && Dispatch.HandOvers(a) == []
            && (OnlyHere(c, a.kind.slots, e) ==> Census.Logged(s.world, e) == CountOf(a.kind.slots, e))
  {
    NodeIsAccountedFor(c, fast, now, steps, path, e);
  }

  /** Terminating the root logs what the node at a path hands over, as one stretch of what is handed over. */
  lemma NodeHandsOver(c: Command, fast: bool, now: nat, steps: seq<Step>, path: seq<nat>)
    returns (before: seq<Actions.Event>, after: seq<Actions.Event>)
    requires Reaches(c, fast, now, steps, path) && Held(Reached(c, fast, now, steps).root, path)
    requires Reached(c, fast, now, steps).root.state.Pending?
    ensures var s, a := Reached(c, fast, now, steps), Node(c, fast, now, steps, path);
            && CanStep(s, TerminateRoot)
            && Apply(s, TerminateRoot).world.log == s.world.log + (before + Dispatch.HandOvers(a) + after)
  {
    var s := Reached(c, fast, now, steps);
    Reach(c, fast, now, steps, Started(c));
    before, after := HandsOverAt(s.root, path);
    Dispatch.TerminateHandsOver(s.root, s.world);
  }

  /**
   * A pending script hands over what its running slot has left, and then what its bailout says of the rest of its list.
   */
  lemma PendingScriptHandsOver(c: Command, fast: bool, now: nat, steps: seq<Step>, path: seq<nat>)
    returns (before: seq<Actions.Event>, after: seq<Actions.Event>)
    requires Reaches(c, fast, now, steps, path)
    requires var a := Node(c, fast, now, steps, path); a.kind.Scripting? && a.state.Pending?
    ensures var s, k := Reached(c, fast, now, steps), Node(c, fast, now, steps, path).kind;
            && CanStep(s, TerminateRoot) && k.step.Some?
            && var handed := Dispatch.HandOvers(k.step.value)
                + Dispatch.HandOver(Remainder(k.slots, k.bailout, k.next));
               Apply(s, TerminateRoot).world.log == s.world.log + (before + handed + after)
  {
    var s := Reached(c, fast, now, steps);
    ScriptInRun(c, fast, now, steps, path, Started(c));
    Reach(c, fast, now, steps, Started(c));
    PendingIsHeld(s.root, path);
    before, after := NodeHandsOver(c, fast, now, steps, path);
  }
}

/** A Sequential command, at any place in the tree: no finally command is lost or doubled. */
module SequentialRuns {
  import opened Wrappers
  import opened Commands
  import opened Actions
  import opened Steps
  import opened Invariant
  import opened Schedules
  import opened Runs
  import opened ScriptRuns
  import Attribution
  import Census
  import Dispatch
  import Order

  /** The action of a Sequential command. */
  predicate IsSequential(a: Action, p: Props) {
    a.kind.Scripting? && a.kind.slots == Schedule(p) && a.kind.bailout == OnTermination(p)
  }

  /** What a Sequential command hands over after it has taken `next` slots of its flat list. */
  function Handed(p: Props, next: nat): seq<Slot>
    requires next <= |Schedule(p)|
  {
    var tries := |Tries(p)|;
    if next <= tries then p.catchSlots + p.finallySlots else p.finallySlots[next - tries..]
  }

  /** The finally commands among those handed over, and those taken before, are together the finally list. */
  lemma HandedIsRemainder(p: Props, next: nat)
    requires next <= |Schedule(p)|
    ensures Remainder(Schedule(p), OnTermination(p), next) == Handed(p, next)
    ensures var caught := if next <= |Tries(p)| then |p.catchSlots| else 0;
            && Handed(p, next)[..caught] == (if next <= |Tries(p)| then p.catchSlots else [])
            && From(Schedule(p)[..next], |Tries(p)|) + Handed(p, next)[caught..] == p.finallySlots
  {
  }

  /**
   * A pending Sequential has dispatched exactly the slots of its flat list before its cursor, less what the running
   * slot still has to dispatch.
   */
  lemma PendingIsInList(c: Command, fast: bool, now: nat, steps: seq<Step>, path: seq<nat>, p: Props, e: Actions.Event)
    requires Reaches(c, fast, now, steps, path)
    requires var a := Node(c, fast, now, steps, path); IsSequential(a, p) && a.state.Pending?
    ensures var s, k := Reached(c, fast, now, steps), Node(c, fast, now, steps, path).kind;
            && k.step.Some? && 0 < k.next <= |Schedule(p)| && Matches(Schedule(p)[k.next - 1], k.step.value)
            && (OnlyHere(c, Schedule(p), e) ==>
                  Census.Logged(s.world, e) + Census.Coming(k.step.value, e) == CountOf(Schedule(p)[..k.next], e))
  {
    ScriptInRun(c, fast, now, steps, path, e);
  }

  /**
   * In order, with anything running beside it: of events that are dispatched only through its flat list, a pending
   * Sequential has dispatched a beginning of that list, up to where its cursor and the running slot are.
   */
  lemma PendingIsInOrder(c: Command, fast: bool, now: nat, steps: seq<Step>, path: seq<nat>,
                         p: Props, es: iset<Actions.Event>)
    requires Reaches(c, fast, now, steps, path) && OnlyListed(c, Schedule(p), es)
    requires var a := Node(c, fast, now, steps, path); IsSequential(a, p) && a.state.Pending?
    ensures var s, k := Reached(c, fast, now, steps), Node(c, fast, now, steps, path).kind;
            && k.step.Some? && 0 < k.next <= |Schedule(p)|
            && Order.Only(s.world.log, es) + Order.Only(Dispatch.Ahead(k.step.value), es)
               == Order.Only(Dispatch.SlotsTrace(Schedule(p)[..k.next], 0), es)
            && Order.Only(s.world.log, es) <= Order.Only(Dispatch.SlotsTrace(Schedule(p), 0), es)
  {
    var next := Node(c, fast, now, steps, path).kind.next;
    ScriptInOrder(c, fast, now, steps, path, es);
    Order.TraceSplit(Schedule(p), 0, next);
    Order.OnlyOfBoth(Dispatch.SlotsTrace(Schedule(p)[..next], 0), Dispatch.SlotsTrace(Schedule(p), next), es);
  }

  /**
   * Finally exactly once.  When the root is terminated, the running slot hands over what it has left, and then the
   * Sequential hands over catch and finally if the finally phase has not begun, and otherwise exactly the finally
   * commands that have not been taken.
   */
  lemma TerminationCompletesFinally(c: Command, fast: bool, now: nat, steps: seq<Step>, path: seq<nat>, p: Props)
    returns (before: seq<Actions.Event>, after: seq<Actions.Event>)
    requires Reaches(c, fast, now, steps, path)
    requires var a := Node(c, fast, now, steps, path); IsSequential(a, p) && a.state.Pending?
    ensures var s, k := Reached(c, fast, now, steps), Node(c, fast, now, steps, path).kind;
            && CanStep(s, TerminateRoot) && k.step.Some? && 0 < k.next <= |Schedule(p)|
            && var handed := Dispatch.HandOvers(k.step.value) + Dispatch.HandOver(Handed(p, k.next));
               Apply(s, TerminateRoot).world.log == s.world.log + (before + handed + after)
    ensures var next := Node(c, fast, now, steps, path).kind.next;
            var caught := if next <= |Tries(p)| then |p.catchSlots| else 0;
            && Handed(p, next)[..caught] == (if next <= |Tries(p)| then p.catchSlots else [])
            && From(Schedule(p)[..next], |Tries(p)|) + Handed(p, next)[caught..] == p.finallySlots
  {
    ScriptInRun(c, fast, now, steps, path, Started(c));
    HandedIsRemainder(p, Node(c, fast, now, steps, path).kind.next);
    before, after := PendingScriptHandsOver(c, fast, now, steps, path);
  }

  /** During the delay before it, a Sequential has dispatched nothing of its list and hands nothing over. */
  lemma NotYetBegun(c: Command, fast: bool, now: nat, steps: seq<Step>, path: seq<nat>, p: Props, e: Actions.Event)
    returns (before: seq<Actions.Event>, after: seq<Actions.Event>)
    requires Reaches(c, fast, now, steps, path)
    requires var a := Node(c, fast, now, steps, path);
             && a.kind.Delaying? && a.state.Pending? && a.kind.command.body == Script(Schedule(p), OnTermination(p))
             && a.kind.current.Some? && a.kind.current.value.after == Some(AfterDelay)
    ensures var s := Reached(c, fast, now, steps);
            && CanStep(s, TerminateRoot)
            && Apply(s, TerminateRoot).world.log == s.world.log + (before + after)
            && (OnlyHere(c, Schedule(p), e) ==> Census.Logged(s.world, e) == 0)
  {
    var s, a := Reached(c, fast, now, steps), Node(c, fast, now, steps, path);
    Reach(c, fast, now, steps, e);
    Attribution.PendingIsHeld(s.root, path);
    NodeIsAccountedFor(c, fast, now, steps, path, e);
    DelayHandsNothingOver(a, e);
    Attribution.AroundFits(s.root, path, e);
    before, after := NodeHandsOver(c, fast, now, steps, path);
    assert before + Dispatch.HandOvers(a) + after == before + after;
  }

  lemma DelayHandsNothingOver(a: Action, e: Actions.Event)
    requires WellFormed(a) && a.kind.Delaying? && a.state.Pending?
    requires a.kind.current.Some? && a.kind.current.value.after == Some(AfterDelay)
    ensures Dispatch.HandOvers(a) == [] && Census.Coming(a, e) == Census.BodyCount(a.kind.command.body, e)
  {
  }

  /** Once its list is used up, a Sequential has dispatched all of it and hands nothing over. */
  lemma UsedUpHandsNothingOver(c: Command, fast: bool, now: nat, steps: seq<Step>, path: seq<nat>,
                               p: Props, e: Actions.Event)
    returns (before: seq<Actions.Event>, after: seq<Actions.Event>)
    requires Reaches(c, fast, now, steps, path) && Attribution.Held(Reached(c, fast, now, steps).root, path)
    requires Reached(c, fast, now, steps).root.state.Pending?
    requires var a := Node(c, fast, now, steps, path); IsSequential(a, p) && a.state.Resolved?
    ensures var s := Reached(c, fast, now, steps);
            && CanStep(s, TerminateRoot)
            && Apply(s, TerminateRoot).world.log == s.world.log + (before + after)
            && (OnlyHere(c, Schedule(p), e) ==> Census.Logged(s.world, e) == CountOf(Schedule(p), e))
  {
    UsedUpScript(c, fast, now, steps, path, e);
    before, after := NodeHandsOver(c, fast, now, steps, path);
    assert before + [] + after == before + after;
  }
}

/** An array that finishes on termination, at any place in the tree: no command is lost or doubled. */
module ArrayRuns {
  import opened Wrappers
  import opened Commands
  import opened Actions
  import opened Steps
  import opened Invariant
  import opened Runs
  import opened ScriptRuns
  import ArrayActions
  import Attribution
  import Census
  import Dispatch

  predicate IsArray(a: Action, items: seq<Slot>, finishAll: bool) {
    a.kind.Scripting? && a.kind.slots == items && a.kind.bailout == ArrayActions.OnTermination(finishAll)
  }

  /**
   * A pending array has dispatched exactly the entries before its cursor, less what the running entry still has to
   * dispatch; a termination of the root hands over what the running entry has left, and then exactly the other entries.
   */
  lemma ArrayExactlyOnce(c: Command, fast: bool, now: nat, steps: seq<Step>, path: seq<nat>,
                         items: seq<Slot>, finishAll: bool, e: Actions.Event)
    returns (before: seq<Actions.Event>, after: seq<Actions.Event>)
    requires Reaches(c, fast, now, steps, path)
    requires var a := Node(c, fast, now, steps, path); IsArray(a, items, finishAll) && a.state.Pending?
    ensures var s, k := Reached(c, fast, now, steps), Node(c, fast, now, steps, path).kind;
            && k.step.Some? && 0 < k.next <= |items| && Matches(items[k.next - 1], k.step.value)
            && (OnlyHere(c, items, e) ==>
                  Census.Logged(s.world, e) + Census.Coming(k.step.value, e) == CountOf(items[..k.next], e))
            && CanStep(s, TerminateRoot)
            && var rest := if finishAll then items[k.next..] else [];
               var handed := Dispatch.HandOvers(k.step.value) + Dispatch.HandOver(rest);
               Apply(s, TerminateRoot).world.log == s.world.log + (before + handed + after)
  {
    ScriptInRun(c, fast, now, steps, path, e);
    before, after := PendingScriptHandsOver(c, fast, now, steps, path);
  }

  /** Once its list is used up, an array has dispatched all of it and hands nothing over. */
  lemma UsedUpHandsNothingOver(c: Command, fast: bool, now: nat, steps: seq<Step>, path: seq<nat>,
                               items: seq<Slot>, finishAll: bool, e: Actions.Event)
    requires Reaches(c, fast, now, steps, path) && Attribution.Held(Reached(c, fast, now, steps).root, path)
    requires var a := Node(c, fast, now, steps, path); IsArray(a, items, finishAll) && a.state.Resolved?
    ensures Dispatch.HandOvers(Node(c, fast, now, steps, path)) == []
    ensures OnlyHere(c, items, e) ==> Census.Logged(Reached(c, fast, now, steps).world, e) == CountOf(items, e)
  {
    UsedUpScript(c, fast, now, steps, path, e);
  }
}

/** The action of a document: no document command is lost or doubled, whichever phase a termination falls in. */
module DocumentRuns {
  import opened Wrappers
  import opened Commands
  import opened Actions
  import opened Steps
  import opened Invariant
  import opened Runs
  import opened ScriptRuns
  import opened DocumentActions
  import Attribution
  import Census
  import Dispatch

  predicate IsDocument(a: Action, components: seq<Slot>, document: seq<Slot>) {
    a.kind.Scripting? && a.kind.slots == Phases(components, document) && a.kind.bailout == FinishAll
  }

  lemma CountOfPhases(components: seq<Slot>, document: seq<Slot>, e: Actions.Event)
    ensures CountOf(Phases(components, document), e) == CountOf(components, e) + CountOf(document, e)
    ensures CountOf(Phases(components, document)[..1], e) == CountOf(components, e)
  {
    var slots := Phases(components, document);
    assert Census.SlotCount(slots[0], e) == CountOf(components, e);
    assert slots[..1] == [slots[0]] && Census.SlotsCount(slots[..1], 1, e) == 0;
    if document != [] {
      assert Census.SlotCount(slots[1], e) == CountOf(document, e);
      assert Census.SlotsCount(slots, 2, e) == 0;
      assert Census.SlotsCount(slots, 1, e) == CountOf(document, e);
    } else {
      assert CountOf(document, e) == 0 && Census.SlotsCount(slots, 1, e) == 0;
    }
  }

  /** An event that the command dispatches only through the handlers of this document. */
  predicate OnlyInDocument(c: Command, components: seq<Slot>, document: seq<Slot>, e: Actions.Event) {
    Census.CommandCount(c, e) == CountOf(components, e) + CountOf(document, e)
  }

  /**
   * While the components run, nothing of the document list has been dispatched; a termination hands over the whole of
   * it, after what the components have left.
   */
  lemma DuringComponents(c: Command, fast: bool, now: nat, steps: seq<Step>, path: seq<nat>,
                         components: seq<Slot>, document: seq<Slot>, e: Actions.Event)
    returns (before: seq<Actions.Event>, after: seq<Actions.Event>)
    requires Reaches(c, fast, now, steps, path)
    requires var a := Node(c, fast, now, steps, path);
             IsDocument(a, components, document) && a.state.Pending? && a.kind.next <= 1
    ensures var s, k := Reached(c, fast, now, steps), Node(c, fast, now, steps, path).kind;
            && k.step.Some? && k.step.value.kind.Gathering?
            && (OnlyInDocument(c, components, document, e) ==>
                  Census.Logged(s.world, e) + Census.Coming(k.step.value, e) == CountOf(components, e))
            && CanStep(s, TerminateRoot)
            && var rest := if document == [] then [] else [Row(document, FinishAll)];
               var handed := Dispatch.HandOvers(k.step.value) + Dispatch.HandOver(rest);
               Apply(s, TerminateRoot).world.log == s.world.log + (before + handed + after)
  {
    CountOfPhases(components, document, e);
    ScriptInRun(c, fast, now, steps, path, e);
    before, after := PendingScriptHandsOver(c, fast, now, steps, path);
    assert Phases(components, document)[1..] == if document == [] then [] else [Row(document, FinishAll)];
  }

  /** The array of the document list, below the action of the document. */
  predicate InDocumentPhase(a: Action, components: seq<Slot>, document: seq<Slot>) {
    IsDocument(a, components, document) && a.state.Pending? && a.kind.next > 1 && a.kind.step.Some?
  }

  /**
   * While the document list runs, all that the components ask for has been dispatched, and of the document list the
   * entries before its cursor, less what the running entry still has to dispatch; a termination hands over what that
   * entry has left and then exactly the other entries.
   */
  lemma DuringDocument(c: Command, fast: bool, now: nat, steps: seq<Step>, path: seq<nat>,
                       components: seq<Slot>, document: seq<Slot>, e: Actions.Event)
    returns (before: seq<Actions.Event>, after: seq<Actions.Event>)
    requires Reaches(c, fast, now, steps, path)
    requires var a := Node(c, fast, now, steps, path);
             InDocumentPhase(a, components, document) && a.kind.step.value.state.Pending?
    ensures var s, row := Reached(c, fast, now, steps), Node(c, fast, now, steps, path).kind.step.value;
            && row.kind.Scripting? && row.kind.slots == document && row.kind.step.Some?
            && 0 < row.kind.next <= |document|
            && Matches(document[row.kind.next - 1], row.kind.step.value)
            && (OnlyInDocument(c, components, document, e) ==>
                  Census.Logged(s.world, e) + Census.Coming(row.kind.step.value, e)
                  == CountOf(components, e) + CountOf(document[..row.kind.next], e))
            && CanStep(s, TerminateRoot)
            && var handed := Dispatch.HandOvers(row.kind.step.value) + Dispatch.HandOver(document[row.kind.next..]);
               Apply(s, TerminateRoot).world.log == s.world.log + (before + handed + after)
  {
    hide Census.Coming, Census.SlotsCount, Dispatch.HandOvers, WellFormed, Remainder, Phases, Matches;
    var s, a := Reached(c, fast, now, steps), Node(c, fast, now, steps, path);
    CountOfPhases(components, document, e);
    ScriptInRun(c, fast, now, steps, path, e);
    before, after := PendingScriptHandsOver(c, fast, now, steps, path);
    Reach(c, fast, now, steps, e);
    Attribution.NodeIsWellFormed(s.root, path);
    RowOfDocument(a, components, document);
    RowHandsOver(a.kind.step.value, document, e);
  }

  /** In the document phase the running slot is the array of the document list, and nothing comes after it. */
  lemma RowOfDocument(a: Action, components: seq<Slot>, document: seq<Slot>)
    requires WellFormed(a) && InDocumentPhase(a, components, document)
    ensures var row := a.kind.step.value;
            && WellFormed(row) && row.kind.Scripting? && row.kind.slots == document && row.kind.bailout == FinishAll
    ensures a.kind.next == 2 && a.kind.slots[..2] == a.kind.slots && Remainder(a.kind.slots, FinishAll, 2) == []
  {
  }

  lemma RowHandsOver(row: Action, document: seq<Slot>, e: Actions.Event)
    requires WellFormed(row) && row.state.Pending? && row.kind.Scripting?
    requires row.kind.slots == document && row.kind.bailout == FinishAll
    ensures row.kind.step.Some? && 0 < row.kind.next <= |document|
    ensures Matches(document[row.kind.next - 1], row.kind.step.value)
    ensures Dispatch.HandOvers(row)
              == Dispatch.HandOvers(row.kind.step.value) + Dispatch.HandOver(document[row.kind.next..])
    ensures CountOf(document, e) - Census.Coming(row, e)
            == CountOf(document[..row.kind.next], e) - Census.Coming(row.kind.step.value, e)
  {
    Attribution.SlotsCountSplit(document, 0, row.kind.next, e);
  }

  /** When both phases are over, both lists have been dispatched, and a termination hands nothing over. */
  lemma AfterDocument(c: Command, fast: bool, now: nat, steps: seq<Step>, path: seq<nat>,
                      components: seq<Slot>, document: seq<Slot>, e: Actions.Event)
    requires Reaches(c, fast, now, steps, path) && Attribution.Held(Reached(c, fast, now, steps).root, path)
    requires var a := Node(c, fast, now, steps, path);
             || (IsDocument(a, components, document) && a.state.Resolved?)
             || (InDocumentPhase(a, components, document) && !a.kind.step.value.state.Pending?)
    ensures Dispatch.HandOvers(Node(c, fast, now, steps, path)) == []
    ensures OnlyInDocument(c, components, document, e) ==>
              Census.Logged(Reached(c, fast, now, steps).world, e) == CountOf(components, e) + CountOf(document, e)
  {
    CountOfPhases(components, document, e);
    NodeIsAccountedFor(c, fast, now, steps, path, e);
    assert Remainder(Phases(components, document), FinishAll, 2) == [];
  }
}
