/** Whole runs of one command: the step system, its invariant, and what every run of it does. */
module Runs {
  import opened Wrappers
  import opened Commands
  import opened Actions
  import opened Steps
  import opened Invariant
  import opened Clock
  import Progress
  import NoStall
  import Locks
  import RunTime
  import Dispatch
  import Order
  import Census

  /** The root action of a sequencer, the world around it, and the time at which the root finished. */
  datatype System = System(root: Action, world: World, ended: Option<nat>)

  datatype Step =
    | Event(path: seq<nat>, sig: Signal)
    | TerminateRoot
    | Tick(to: nat)   // the clock moves, with no timer due on the way

  /** The timer manager fires a timer that no other timer precedes; equal due times have no fixed order. */
  ghost predicate CanStep(s: System, step: Step) {
    match step
    case Event(path, sig) =>
      && CursorsInRange(s.root) && Deliverable(s.root, path, sig)
      && (sig.TimerFires? ==> NoTimerBefore(s.root, At(s.root, path).value.timeout.value))
    case TerminateRoot => s.root.state.Pending?
    case Tick(to) => s.world.now <= to && NoTimerBefore(s.root, to + 1)
  }

  function Observe(a: Action, w: World, before: Option<nat>): System {
    System(a, w, if before.None? && !a.state.Pending? then Some(w.now) else before)
  }

  function Start(c: Command, fast: bool, now: nat): System {
    var (a, w) := MakeDelay(c, fast, NewWorld(now));
    Observe(a, w, None)
  }

  /** The world in which a signal is delivered: the clock is at the due time of a timer that fires. */
  ghost function WorldFor(s: System, path: seq<nat>, sig: Signal): World
    requires Deliverable(s.root, path, sig)
  {
    if sig.TimerFires? then s.world.(now := At(s.root, path).value.timeout.value) else s.world
  }

  ghost function Apply(s: System, step: Step): System
    requires CanStep(s, step)
  {
    match step
    case Event(path, sig) =>
      var (a, w1) := Deliver(s.root, path, sig, WorldFor(s, path, sig));
      Observe(a, w1, s.ended)
    case TerminateRoot =>
      var (a, w1) := Terminate(s.root, s.world);
      Observe(a, w1, s.ended)
    case Tick(to) => s.(world := s.world.(now := to))
  }

  ghost predicate IsRun(s: System, steps: seq<Step>)
    decreases |steps|
  {
    steps == [] || (CanStep(s, steps[0]) && IsRun(Apply(s, steps[0]), steps[1..]))
  }

  ghost function After(s: System, steps: seq<Step>): System
    requires IsRun(s, steps)
    decreases |steps|
  {
    if steps == [] then s else After(Apply(s, steps[0]), steps[1..])
  }

  /** No timer is scheduled and no leaf is pending. */
  ghost predicate Drained(s: System) {
    forall path, sig :: !Deliverable(s.root, path, sig)
  }

  // ----- the invariant -----

  ghost predicate Inv(s: System) {
    && WellFormed(s.root) && s.root.after.None? && s.root.kind.Delaying?
    && NoTimerBefore(s.root, s.world.now)
    && Locks.Balanced(s.world, s.root)
    && (s.ended.None? <==> s.root.state.Pending?)
  }

  lemma StartInv(c: Command, fast: bool, now: nat)
    ensures Inv(Start(c, fast, now))
  {
    var w := NewWorld(now);
    MakeDelayKeeps(c, fast, w);
    MakeDelayClock(c, fast, w);
    Locks.StartBalances(c, fast, now);
  }

  lemma EventIsOnPending(s: System, path: seq<nat>, sig: Signal)
    requires Inv(s) && Deliverable(s.root, path, sig)
    ensures s.root.state.Pending? && (path == [] ==> !sig.TimerFires? && !sig.LeafTerminates?)
  {
    if path != [] && !s.root.state.Pending? { FinishedIsDeaf(s.root, path, sig); }
  }

  lemma LaterBound(a: Action, t: nat, u: nat)
    requires NoTimerBefore(a, u) && t <= u
    ensures NoTimerBefore(a, t)
    decreases a
  {
  }

  /** A due time that is about to fire is not in the past: the clock never runs backwards. */
  lemma DueIsAhead(a: Action, path: seq<nat>, t: nat)
    requires NoTimerBefore(a, t) && At(a, path).Some? && At(a, path).value.timeout.Some?
    ensures t <= At(a, path).value.timeout.value
    decreases path
  {
    if path != [] {
      assert Children(a)[path[0]] in Children(a);
      DueIsAhead(Children(a)[path[0]], path[1..], t);
    }
  }

  lemma StepInv(s: System, step: Step)
    requires Inv(s) && CanStep(s, step)
    ensures Inv(Apply(s, step)) && s.world.now <= Apply(s, step).world.now
  {
    match step {
      case Event(path, sig) =>
        EventIsOnPending(s, path, sig);
        var w := WorldFor(s, path, sig);
        if sig.TimerFires? { DueIsAhead(s.root, path, s.world.now); }
        DeliverKeeps(s.root, path, sig, w);
        DeliverClock(s.root, path, sig, w);
        Locks.DeliverBalances(s.root, path, sig, w);
      case TerminateRoot =>
        TerminateQuiets(s.root, s.world);
        Locks.TerminateBalances(s.root, s.world);
        TerminateClock(s.root, s.world);
      case Tick(to) =>
        LaterBound(s.root, to, to + 1);
    }
  }

  lemma TerminateClock(a: Action, w: World)
    ensures Terminate(a, w).1.now == w.now
    decreases a
  {
    if a.state.Pending? {
      match a.kind {
        case Delaying(_, _, current) => if current.Some? { TerminateClock(current.value, w); }
        case Scripting(_, _, _, _, step) => if step.Some? { TerminateClock(step.value, w); }
        case Gathering(actions) => TerminateEachClock(actions, w);
        case _ =>
      }
    }
  }

  lemma TerminateEachClock(actions: seq<Action>, w: World)
    ensures TerminateEach(actions, w).now == w.now
    decreases actions
  {
    if actions != [] {
      assert actions[0] in actions;
      TerminateClock(actions[0], w);
      TerminateEachClock(actions[1..], Terminate(actions[0], w).1);
    }
  }

  lemma {:induction false} RunInv(s: System, steps: seq<Step>)
    requires Inv(s) && IsRun(s, steps)
    ensures Inv(After(s, steps)) && s.world.now <= After(s, steps).world.now
    decreases |steps|
  {
    if steps != [] {
      StepInv(s, steps[0]);
      RunInv(Apply(s, steps[0]), steps[1..]);
    }
  }

  // ----- main results -----

  /**
   * Screen-lock conservation: in every reachable state, and for each command that asks for the lock, each start of its
   * DelayAction has taken the lock once, and each of those that is no longer pending has released it once.  What has
   * finished has released what it took, command by command.
   */
  lemma LocksAreConserved(c: Command, fast: bool, now: nat, steps: seq<Step>, d: Command)
    requires IsRun(Start(c, fast, now), steps)
    ensures var s := After(Start(c, fast, now), steps);
            && s.world.taken[d] == (if d.screenLock then Census.Logged(s.world, Started(d)) else 0)
            && s.world.taken[d] == s.world.released[d] + Locks.LocksHeld(s.root, d)
            && (!s.root.state.Pending? ==> s.world.taken == s.world.released)
  {
    StartInv(c, fast, now);
    RunInv(Start(c, fast, now), steps);
    var s := After(Start(c, fast, now), steps);
    assert Locks.Ledger(s.world, Locks.LocksHeld(s.root, d), d);
    if !s.root.state.Pending? { Locks.FinishedIsEven(s.root, s.world); }
  }

  /** Termination at any moment leaves nothing pending, no timer and no lock; no later signal finds a receiver. */
  lemma TerminationIsFinal(c: Command, fast: bool, now: nat, steps: seq<Step>)
    requires IsRun(Start(c, fast, now), steps)
    requires CanStep(After(Start(c, fast, now), steps), TerminateRoot)
    ensures var s := Apply(After(Start(c, fast, now), steps), TerminateRoot);
            s.root.state.Terminated? && Quiet(s.root) && Drained(s) && s.world.taken == s.world.released
  {
    StartInv(c, fast, now);
    RunInv(Start(c, fast, now), steps);
    var s := After(Start(c, fast, now), steps);
    StepInv(s, TerminateRoot);
    TerminateQuiets(s.root, s.world);
    var t := Apply(s, TerminateRoot);
    Locks.FinishedIsEven(t.root, t.world);
    forall path, sig ensures !Deliverable(t.root, path, sig) {
      if path != [] { FinishedIsDeaf(t.root, path, sig); }
    }
  }

  ghost function Moves(steps: seq<Step>): nat {
    if steps == [] then 0 else (if steps[0].Tick? then 0 else 1) + Moves(steps[1..])
  }

  ghost function Measure(s: System): nat {
    Progress.Work(s.root) + if s.root.state.Pending? then 1 else 0
  }

  lemma {:induction false} RunUsesWork(s: System, steps: seq<Step>)
    requires Inv(s) && IsRun(s, steps)
    ensures Moves(steps) + Measure(After(s, steps)) <= Measure(s)
    decreases |steps|
  {
    if steps != [] {
      StepInv(s, steps[0]);
      match steps[0] {
        case Event(path, sig) =>
          EventIsOnPending(s, path, sig);
          var w := WorldFor(s, path, sig);
          Progress.DeliverWork(s.root, path, sig, w);
        case TerminateRoot => TerminateQuiets(s.root, s.world);
        case Tick(_) =>
      }
      RunUsesWork(Apply(s, steps[0]), steps[1..]);
    }
  }

  /** Every run is finite: apart from the clock, it makes at most as many moves as the command has work. */
  lemma RunsAreBounded(c: Command, fast: bool, now: nat, steps: seq<Step>)
    requires IsRun(Start(c, fast, now), steps)
    ensures Moves(steps) <= Progress.CommandWork(c) + 1
  {
    StartInv(c, fast, now);
    Progress.MakeDelayWork(c, fast, NewWorld(now));
    RunUsesWork(Start(c, fast, now), steps);
  }

  ghost predicate Undisturbed(steps: seq<Step>) {
    forall i :: 0 <= i < |steps| ==> !steps[i].TerminateRoot?
  }

  lemma {:induction false} RunBlocks(s: System, steps: seq<Step>)
    requires Inv(s) && IsRun(s, steps) && Undisturbed(steps)
    ensures NoStall.Blocked(After(s, steps).root) <==> NoStall.Blocked(s.root)
    ensures After(s, steps).root.state.Terminated? ==> s.root.state.Terminated?
    decreases |steps|
  {
    if steps != [] {
      StepInv(s, steps[0]);
      if steps[0].Event? {
        var Event(path, sig) := steps[0];
        EventIsOnPending(s, path, sig);
        var w := WorldFor(s, path, sig);
        NoStall.DeliverBlocks(s.root, path, sig, w);
        DeliverKeeps(s.root, path, sig, w);
      }
      assert forall i :: 0 <= i < |steps[1..]| ==> steps[1..][i] == steps[i + 1];
      RunBlocks(Apply(s, steps[0]), steps[1..]);
    }
  }

  /**
   * No stall.  However its leaves end, a command that is not terminated as a whole and has been drained
   * has resolved if and only if none of the bodies it runs returns an action that is already terminated.
   */
  lemma DrainedMeansResolved(c: Command, fast: bool, now: nat, steps: seq<Step>)
    requires IsRun(Start(c, fast, now), steps) && Undisturbed(steps)
    requires Drained(After(Start(c, fast, now), steps))
    ensures After(Start(c, fast, now), steps).root.state.Resolved? <==> NoStall.SoundCommand(c)
  {
    var s0 := Start(c, fast, now);
    StartInv(c, fast, now);
    RunInv(s0, steps);
    RunBlocks(s0, steps);
    NoStall.MakeDelayBlocks(c, fast, NewWorld(now));
    MakeDelayKeeps(c, fast, NewWorld(now));
    var s := After(s0, steps);
    if s.root.state.Pending? && !NoStall.Blocked(s.root) {
      var path, sig := NoStall.PendingListens(s.root);
    }
  }

  /** Until it resolves, such a command can always move, and if it waits for timers one of them may fire. */
  lemma PendingCanMove(c: Command, fast: bool, now: nat, steps: seq<Step>) returns (path: seq<nat>, sig: Signal)
    requires IsRun(Start(c, fast, now), steps) && Undisturbed(steps)
    requires NoStall.SoundCommand(c) && After(Start(c, fast, now), steps).root.state.Pending?
    ensures CanStep(After(Start(c, fast, now), steps), Event(path, sig))
  {
    var s0 := Start(c, fast, now);
    StartInv(c, fast, now);
    RunInv(s0, steps);
    RunBlocks(s0, steps);
    NoStall.MakeDelayBlocks(c, fast, NewWorld(now));
    var s := After(s0, steps);
    CursorsInRangeIfWellFormed(s.root);
    path, sig := NoStall.PendingListens(s.root);
    if sig.TimerFires? {
      var t;
      path, t := EarliestTimer(s.root, path, At(s.root, path).value.timeout.value);
    }
  }

  ghost predicate OnTime(s: System, t: nat) {
    && (s.root.state.Pending? ==> RunTime.Timed(s.root) && RunTime.FinishTime(s.root) == t && s.world.now <= t)
    && (!s.root.state.Pending? ==> s.ended == Some(t))
  }

  lemma {:induction false} RunKeepsTime(s: System, steps: seq<Step>, t: nat)
    requires Inv(s) && IsRun(s, steps) && Undisturbed(steps) && OnTime(s, t)
    ensures OnTime(After(s, steps), t)
    decreases |steps|
  {
    if steps != [] {
      StepInv(s, steps[0]);
      match steps[0] {
        case Event(path, sig) =>
          EventIsOnPending(s, path, sig);
          LeafIsNotTimed(s.root, path, sig);
          var w := WorldFor(s, path, sig);
          RunTime.FireKeepsTime(s.root, path, w);
          DeliverKeeps(s.root, path, sig, w);
        case Tick(_) =>
      }
      var s1 := Apply(s, steps[0]);
      if s1.root.state.Pending? { RunTime.FinishIsAhead(s1.root, s1.world.now); }
      assert forall i :: 0 <= i < |steps[1..]| ==> steps[1..][i] == steps[i + 1];
      RunKeepsTime(s1, steps[1..], t);
    }
  }

  lemma {:induction false} LeafIsNotTimed(a: Action, path: seq<nat>, sig: Signal)
    requires RunTime.Timed(a) && Deliverable(a, path, sig)
    ensures sig.TimerFires?
    decreases path
  {
    if path != [] {
      var c := Children(a)[path[0]];
      assert c in Children(a);
      LeafIsNotTimed(c, path[1..], sig);
    }
  }

  /**
   * Run time: a command whose only leaves are delays resolves exactly at its start plus its structural
   * time, in whatever order timers with equal due times fire, and never before.
   */
  lemma ResolvesOnTime(c: Command, fast: bool, now: nat, steps: seq<Step>)
    requires RunTime.TimedCommand(c)
    requires IsRun(Start(c, fast, now), steps) && Undisturbed(steps)
    ensures var s := After(Start(c, fast, now), steps);
            var t := now + RunTime.CommandTime(c, fast);
            && (s.root.state.Pending? ==> s.world.now <= t && !Drained(s))
            && (!s.root.state.Pending? ==> s.root.state.Resolved? && s.ended == Some(t))
  {
    var s0 := Start(c, fast, now);
    var w := NewWorld(now);
    StartInv(c, fast, now);
    MakeDelayKeeps(c, fast, w);
    RunTime.MakeDelayTime(c, fast, w);
    if s0.root.state.Pending? { RunTime.FinishIsAhead(s0.root, now); }
    MakeDelayClock(c, fast, w);
    RunKeepsTime(s0, steps, now + RunTime.CommandTime(c, fast));
    RunInv(s0, steps);
    RunBlocks(s0, steps);
    TimedIsSound(c);
    if After(s0, steps).root.state.Pending? {
      var path, sig := PendingCanMove(c, fast, now, steps);
    }
  }

  lemma TimedIsSound(c: Command)
    requires RunTime.TimedCommand(c)
    ensures NoStall.SoundCommand(c)
    decreases c, 1
  {
    match c.body {
      case Script(slots, _) => TimedSlotsAreSound(slots, 0);
      case Fork(branches) => TimedSlotsAreSound(branches, 0);
      case _ =>
    }
  }

  lemma TimedSlotsAreSound(slots: seq<Slot>, n: nat)
    requires RunTime.TimedSlots(slots, n)
    ensures NoStall.SoundSlots(slots, n)
    decreases slots, |slots| - n
  {
    if n < |slots| {
      match slots[n] {
        case Child(c) =>
          assert c < slots[n];
          TimedIsSound(c);
        case Row(row, _) => TimedSlotsAreSound(row, 0);
        case Join(branches) => TimedSlotsAreSound(branches, 0);
        case _ =>
      }
      TimedSlotsAreSound(slots, n + 1);
    }
  }

  lemma {:induction false} RunCensus(s: System, steps: seq<Step>, e: Actions.Event)
    requires Inv(s) && IsRun(s, steps) && Undisturbed(steps)
    ensures var t := After(s, steps);
            Census.Logged(t.world, e) + Census.Coming(t.root, e) == Census.Logged(s.world, e) + Census.Coming(s.root, e)
    decreases |steps|
  {
    if steps != [] {
      StepInv(s, steps[0]);
      if steps[0].Event? {
        var Event(path, sig) := steps[0];
        EventIsOnPending(s, path, sig);
        Census.DeliverCensus(s.root, path, sig, WorldFor(s, path, sig), e);
      }
      assert forall i :: 0 <= i < |steps[1..]| ==> steps[1..][i] == steps[i + 1];
      RunCensus(Apply(s, steps[0]), steps[1..], e);
    }
  }

  /**
   * No command is lost or doubled: in every undisturbed run, whatever the interleaving of its branches,
   * each command has been dispatched as often as the command list says, less what is still to come.
   */
  lemma DispatchIsConserved(c: Command, fast: bool, now: nat, steps: seq<Step>, e: Actions.Event)
    requires IsRun(Start(c, fast, now), steps) && Undisturbed(steps)
    ensures var s := After(Start(c, fast, now), steps);
            && multiset(s.world.log)[e] + Census.Coming(s.root, e) == Census.CommandCount(c, e)
            && (s.root.state.Resolved? ==> multiset(s.world.log)[e] == Census.CommandCount(c, e))
  {
    StartInv(c, fast, now);
    Census.MakeDelayCensus(c, fast, NewWorld(now), e);
    RunCensus(Start(c, fast, now), steps, e);
  }

  lemma {:induction false} RunInOrder(s: System, steps: seq<Step>, es: iset<Actions.Event>)
    requires Inv(s) && IsRun(s, steps) && Undisturbed(steps) && Order.InOrder(s.root, es)
    ensures var t := After(s, steps);
            && Order.InOrder(t.root, es)
            && Order.Dispatches(s.world.log, Dispatch.Ahead(s.root), t.world.log, Dispatch.Ahead(t.root), es)
    decreases |steps|
  {
    if steps != [] {
      StepInv(s, steps[0]);
      if steps[0].Event? {
        var Event(path, sig) := steps[0];
        EventIsOnPending(s, path, sig);
        Order.DeliverInOrder(s.root, path, sig, WorldFor(s, path, sig), es);
      }
      assert forall i :: 0 <= i < |steps[1..]| ==> steps[1..][i] == steps[i + 1];
      RunInOrder(Apply(s, steps[0]), steps[1..], es);
    }
  }

  /**
   * Whatever runs beside them: events that at each fork of the command only one branch dispatches are dispatched in
   * the order of its flat list, and those that have not been are still ahead in that order.
   */
  lemma EventsAreInOrder(c: Command, fast: bool, now: nat, steps: seq<Step>, es: iset<Actions.Event>)
    requires Order.CommandInOrder(c, es)
    requires IsRun(Start(c, fast, now), steps) && Undisturbed(steps)
    ensures var s := After(Start(c, fast, now), steps);
            && Order.Only(s.world.log, es) + Order.Only(Dispatch.Ahead(s.root), es)
               == Order.Only(Dispatch.CommandTrace(c), es)
            && (s.root.state.Resolved? ==> Order.Only(s.world.log, es) == Order.Only(Dispatch.CommandTrace(c), es))
  {
    StartInv(c, fast, now);
    Order.MakeDelayInOrder(c, fast, NewWorld(now), es);
    RunInOrder(Start(c, fast, now), steps, es);
  }

  /** A command that runs one thing at a time dispatches its flat list in order, however its leaves end. */
  lemma DispatchIsInOrder(c: Command, fast: bool, now: nat, steps: seq<Step>)
    requires Dispatch.SerialCommand(c)
    requires IsRun(Start(c, fast, now), steps) && Undisturbed(steps)
    ensures var s := After(Start(c, fast, now), steps);
            && s.world.log + Dispatch.Ahead(s.root) == Dispatch.CommandTrace(c)
            && (s.root.state.Resolved? ==> s.world.log == Dispatch.CommandTrace(c))
  {
    var s := After(Start(c, fast, now), steps);
    var all := s.world.log + Dispatch.Ahead(s.root) + Dispatch.CommandTrace(c);
    var es := iset e | e in all;
    Order.SerialIsInOrder(c, es);
    EventsAreInOrder(c, fast, now, steps, es);
    Order.OnlyOfAll(s.world.log, es);
    Order.OnlyOfAll(Dispatch.Ahead(s.root), es);
    Order.OnlyOfAll(Dispatch.CommandTrace(c), es);
  }

  lemma {:induction false} RunSerial(s: System, steps: seq<Step>)
    requires Inv(s) && IsRun(s, steps) && Undisturbed(steps) && Dispatch.Serial(s.root)
    ensures Dispatch.Serial(After(s, steps).root)
    decreases |steps|
  {
    if steps != [] {
      StepInv(s, steps[0]);
      if steps[0].Event? {
        var Event(path, sig) := steps[0];
        Dispatch.DeliverSerial(s.root, path, sig, WorldFor(s, path, sig));
      }
      assert forall i :: 0 <= i < |steps[1..]| ==> steps[1..][i] == steps[i + 1];
      RunSerial(Apply(s, steps[0]), steps[1..]);
    }
  }

  /** Such a command never has two things going on: whatever can happen next, happens at one node. */
  lemma CommandsDoNotOverlap(c: Command, fast: bool, now: nat, steps: seq<Step>,
                              p: seq<nat>, one: Signal, q: seq<nat>, other: Signal)
    requires Dispatch.SerialCommand(c)
    requires IsRun(Start(c, fast, now), steps) && Undisturbed(steps)
    requires var root := After(Start(c, fast, now), steps).root;
             Deliverable(root, p, one) && Deliverable(root, q, other)
    ensures p == q
  {
    StartInv(c, fast, now);
    RunInv(Start(c, fast, now), steps);
    Dispatch.MakeDelaySerial(c, fast, NewWorld(now));
    RunSerial(Start(c, fast, now), steps);
    Dispatch.SerialListensOnce(After(Start(c, fast, now), steps).root, p, one, q, other);
  }

  /** Termination adds the hand-overs of the pending scripts, innermost first, and nothing else. */
  lemma TerminationHandsOver(c: Command, fast: bool, now: nat, steps: seq<Step>)
    requires Dispatch.SerialCommand(c)
    requires IsRun(Start(c, fast, now), steps) && Undisturbed(steps)
    requires CanStep(After(Start(c, fast, now), steps), TerminateRoot)
    ensures var s := After(Start(c, fast, now), steps);
            && s.world.log <= Dispatch.CommandTrace(c)
            && Apply(s, TerminateRoot).world.log == s.world.log + Dispatch.HandOvers(s.root)
  {
    DispatchIsInOrder(c, fast, now, steps);
    var s := After(Start(c, fast, now), steps);
    Dispatch.TerminateHandsOver(s.root, s.world);
  }

  /** The precondition of DrainedMeansResolved is needed: this command is drained from the start and never resolves. */
  lemma AlreadyTerminatedBodyStalls()
    ensures var c := Command(0, false, Dead);
            Drained(Start(c, false, 0)) && Start(c, false, 0).root.state.Pending?
  {
    var s := Start(Command(0, false, Dead), false, 0);
    forall path, sig ensures !Deliverable(s.root, path, sig) {
      if path != [] && path[0] == 0 {
        var dead := Children(s.root)[0];
        assert Children(dead) == [] && dead.state.Terminated? && dead.timeout.None?;
        assert At(s.root, path) == At(dead, path[1..]);
      }
    }
  }
}
