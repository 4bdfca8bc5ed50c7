/** The screen lock: taken once per DelayAction that asks for it, released once when it finishes. */
module Locks {
  import opened Wrappers
  import opened Commands
  import opened Actions
  import opened Steps
  import opened Invariant
  import opened Census

  /** How often a DelayAction of command c takes the lock for command d. */
  function LockOf(c: Command, d: Command): nat {
    if c == d && d.screenLock then 1 else 0
  }

  /** The pending DelayActions of command d in a tree, if it asks for the lock. */
  function LocksHeld(a: Action, d: Command): nat
    decreases a
  {
    match a.kind
    case External => 0
    case Waiting => 0
    case Delaying(c, _, current) =>
      (if a.state.Pending? then LockOf(c, d) else 0) + if current.None? then 0 else LocksHeld(current.value, d)
    case Scripting(_, _, _, _, step) => if step.None? then 0 else LocksHeld(step.value, d)
    case Gathering(actions) => SumLocks(actions, d)
  }

  function SumLocks(actions: seq<Action>, d: Command): nat
    decreases actions
  {
    if actions == [] then 0
    else
      assert actions[0] in actions;
      LocksHeld(actions[0], d) + SumLocks(actions[1..], d)
  }

  /** Every start of command d has taken the lock if d asks for it, and `held` of them have not released it yet. */
  ghost predicate Ledger(w: World, held: nat, d: Command) {
    && w.taken[d] == (if d.screenLock then Logged(w, Started(d)) else 0)
    && w.taken[d] == w.released[d] + held
  }

  /** For each command, the lock is held by its pending DelayActions. */
  ghost predicate Balanced(w: World, a: Action) {
    forall d :: Ledger(w, LocksHeld(a, d), d)
  }

  lemma PrepareLocks(c: Command, w: World, held: nat, d: Command)
    requires Ledger(w, held, d)
    ensures Ledger(Prepare(c, Log(w, Started(c))), held + LockOf(c, d), d)
  {
    LogCounts(w, Started(c), Started(d));
  }

  lemma CompleteLocks(c: Command, w: World, held: nat, d: Command)
    requires Ledger(w, held + LockOf(c, d), d)
    ensures Ledger(Complete(c, w), held, d)
  {
  }

  lemma {:induction false} SumLocksUpdate(actions: seq<Action>, i: nat, c: Action, d: Command)
    requires i < |actions|
    ensures SumLocks(actions[i := c], d) == SumLocks(actions, d) - LocksHeld(actions[i], d) + LocksHeld(c, d)
  {
    if i > 0 {
      assert actions[i := c][1..] == actions[1..][i - 1 := c];
      SumLocksUpdate(actions[1..], i - 1, c, d);
    } else {
      assert actions[i := c][1..] == actions[1..];
    }
  }

  lemma {:induction false} SumLocksRemove(actions: seq<Action>, i: nat, d: Command)
    requires i < |actions|
    ensures SumLocks(actions[..i] + actions[i + 1..], d) == SumLocks(actions, d) - LocksHeld(actions[i], d)
  {
    var rest := actions[..i] + actions[i + 1..];
    if i > 0 {
      assert rest[0] == actions[0] && rest[1..] == actions[1..][..i - 1] + actions[1..][i..];
      SumLocksRemove(actions[1..], i - 1, d);
    } else {
      assert rest == actions[1..];
    }
  }

  lemma FinishedHoldsNothing(a: Action, d: Command)
    requires WellFormed(a) && !a.state.Pending?
    ensures LocksHeld(a, d) == 0
  {
  }

  // ----- creation -----

  lemma {:induction false} MakeDelayLocks(c: Command, fast: bool, w: World, held: nat, d: Command)
    requires Ledger(w, held, d)
    ensures var (a, w1) := MakeDelay(c, fast, w); Ledger(w1, held + LocksHeld(a, d), d)
    decreases c, 1
  {
    hide RunCommand, Ledger;
    PrepareLocks(c, w, held, d);
    var w1 := Prepare(c, Log(w, Started(c)));
    if fast || c.delay == 0 {
      RunCommandLocks(Fresh(Delaying(c, fast, None)), w1, held, d);
    }
  }

  lemma {:induction false} RunCommandLocks(a: Action, w: World, held: nat, d: Command)
    requires a.kind.Delaying? && a.kind.current.None? && a.state.Pending?
    requires Ledger(w, held + LockOf(a.kind.command, d), d)
    ensures var (r, w1) := RunCommand(a, w); Ledger(w1, held + LocksHeld(r, d), d)
    decreases a.kind.command, 0
  {
    hide Ledger, LockOf, Complete;
    var b := a.kind.command.body;
    ExecuteKeeps(b, a.kind.fast, w);
    ExecuteLocks(b, a.kind.fast, w, held + LockOf(a.kind.command, d), d);
    var (child, w1) := Execute(b, a.kind.fast, w);
    if child.None? || child.value.state.Resolved? {
      if child.Some? { FinishedHoldsNothing(child.value, d); }
      CompleteLocks(a.kind.command, w1, held, d);
    }
  }

  lemma {:induction false} ExecuteLocks(b: Body, fast: bool, w: World, held: nat, d: Command)
    requires Ledger(w, held, d)
    ensures var (r, w1) := Execute(b, fast, w); Ledger(w1, held + LocksOf(r, d), d)
    decreases b, 0
  {
    match b {
      case Script(slots, bailout) => MakeScriptLocks(slots, bailout, fast, w, held, d);
      case Fork(branches) => StartBranchesLocks(branches, fast, w, held, d);
      case _ =>
    }
  }

  lemma {:induction false} RegisterAllLocks(actions: seq<Action>, k: Then, now: nat, d: Command)
    ensures SumLocks(RegisterAll(actions, k, now), d) == SumLocks(actions, d)
  {
    if actions != [] {
      assert RegisterAll(actions, k, now)[1..] == RegisterAll(actions[1..], k, now);
      RegisterAllLocks(actions[1..], k, now, d);
    }
  }

  lemma {:induction false} MakeScriptLocks(slots: seq<Slot>, bailout: Bailout, fast: bool, w: World,
                                           held: nat, d: Command)
    requires Ledger(w, held, d)
    ensures var (a, w1) := MakeScript(slots, bailout, fast, w); Ledger(w1, held + LocksHeld(a, d), d)
    decreases slots, |slots| + 1
  {
    AdvanceLocks(Fresh(Scripting(slots, bailout, fast, 0, None)), w, held, d);
  }

  lemma {:induction false} AdvanceLocks(a: Action, w: World, held: nat, d: Command)
    requires a.kind.Scripting? && a.kind.next <= |a.kind.slots| && a.kind.step.None?
    requires Ledger(w, held, d)
    ensures var (r, w1) := Advance(a, w); Ledger(w1, held + LocksHeld(r, d), d)
    decreases a.kind.slots, |a.kind.slots| - a.kind.next
  {
    var k := a.kind;
    if !a.state.Terminated? && k.next < |k.slots| {
      StartSlotLocks(k.slots[k.next], k.fast, w, held, d);
      var (child, w1) := StartSlot(k.slots[k.next], k.fast, w);
      if child.None? {
        AdvanceLocks(a.(kind := k.(next := k.next + 1)), w1, held, d);
      }
    }
  }

  function LocksOf(a: Option<Action>, d: Command): nat {
    if a.None? then 0 else LocksHeld(a.value, d)
  }

  lemma {:induction false} StartSlotLocks(s: Slot, fast: bool, w: World, held: nat, d: Command)
    requires Ledger(w, held, d)
    ensures var (r, w1) := StartSlot(s, fast, w); Ledger(w1, held + LocksOf(r, d), d)
    decreases s, 0
  {
    match s {
      case Null =>
      case Away(c) => LogCounts(w, SentAway(c), Started(d));
      case Child(c) => MakeDelayLocks(c, fast, w, held, d);
      case Row(row, bailout) => MakeScriptLocks(row, bailout, fast, w, held, d);
      case Join(branches) => StartBranchesLocks(branches, fast, w, held, d);
    }
  }

  lemma {:induction false} StartBranchesLocks(branches: seq<Slot>, fast: bool, w: World, held: nat, d: Command)
    requires Ledger(w, held, d)
    ensures var (r, w1) := StartBranches(branches, fast, w); Ledger(w1, held + LocksOf(r, d), d)
    decreases branches, |branches| + 1
  {
    MakeBranchesLocks(branches, 0, fast, w, held, d);
    var (actions, w1) := MakeBranches(branches, 0, fast, w);
    RegisterAllLocks(actions, AfterBranch, w1.now, d);
  }

  lemma {:induction false} MakeBranchesLocks(branches: seq<Slot>, n: nat, fast: bool, w: World, held: nat, d: Command)
    requires n <= |branches| && Ledger(w, held, d)
    ensures var (actions, w1) := MakeBranches(branches, n, fast, w); Ledger(w1, held + SumLocks(actions, d), d)
    decreases branches, |branches| - n
  {
    if n < |branches| {
      var (child, w1) := StartSlot(branches[n], fast, w);
      StartSlotLocks(branches[n], fast, w, held, d);
      MakeBranchesLocks(branches, n + 1, fast, w1, held + LocksOf(child, d), d);
      var rest := MakeBranches(branches, n + 1, fast, w1).0;
      assert child.Some? ==> ([child.value] + rest)[1..] == rest;
    }
  }

  // ----- delivery -----

  lemma ContinueDelayLocks(a: Action, w: World, held: nat, d: Command)
    requires WellFormed(a) && a.state.Pending? && a.kind.Delaying? && a.kind.current.Some?
    requires a.kind.current.value.state.Resolved? && Ledger(w, held + LocksHeld(a, d), d)
    ensures var (r, w1) := Continue(a, 0, w); Ledger(w1, held + LocksHeld(r, d), d)
  {
    hide Ledger, LockOf, Complete, RunCommand;
    var child := a.kind.current.value;
    assert child in Children(a);
    FinishedHoldsNothing(child, d);
    if child.after == Some(AfterDelay) {
      RunCommandLocks(WithoutChild(a, 0), w, held, d);
    } else {
      CompleteLocks(a.kind.command, w, held, d);
    }
  }

  lemma ContinueGatherLocks(a: Action, i: nat, w: World, d: Command)
    requires WellFormed(a) && a.state.Pending? && a.kind.Gathering? && i < |Children(a)|
    requires Children(a)[i].state.Resolved?
    ensures var (r, w1) := Continue(a, i, w); w1 == w && LocksHeld(r, d) == LocksHeld(a, d)
  {
    assert Children(a)[i] in Children(a);
    FinishedHoldsNothing(Children(a)[i], d);
    SumLocksRemove(a.kind.actions, i, d);
  }

  lemma ContinueScriptLocks(a: Action, w: World, held: nat, d: Command)
    requires WellFormed(a) && a.state.Pending? && a.kind.Scripting? && a.kind.step.Some?
    requires a.kind.step.value.state.Resolved? && Ledger(w, held + LocksHeld(a, d), d)
    ensures var (r, w1) := Continue(a, 0, w); Ledger(w1, held + LocksHeld(r, d), d)
  {
    hide Ledger, Advance;
    assert a.kind.step.value in Children(a);
    FinishedHoldsNothing(a.kind.step.value, d);
    AdvanceLocks(WithoutChild(a, 0), w, held, d);
  }

  lemma ContinueLocks(a: Action, i: nat, w: World, held: nat, d: Command)
    requires WellFormed(a) && a.state.Pending? && i < |Children(a)| && Children(a)[i].state.Resolved?
    requires Ledger(w, held + LocksHeld(a, d), d)
    ensures var (r, w1) := Continue(a, i, w); Ledger(w1, held + LocksHeld(r, d), d)
  {
    hide Ledger, LocksHeld, Continue;
    match a.kind {
      case Delaying(_, _, _) => ContinueDelayLocks(a, w, held, d);
      case Scripting(_, _, _, _, _) => ContinueScriptLocks(a, w, held, d);
      case Gathering(_) => ContinueGatherLocks(a, i, w, d);
    }
  }

  lemma WithChildLocks(a: Action, i: nat, c: Action, d: Command)
    requires WellFormed(a) && a.state.Pending? && i < |Children(a)| && SameRole(c, Children(a)[i])
    ensures LocksHeld(WithChild(a, i, c), d) == LocksHeld(a, d) - LocksHeld(Children(a)[i], d) + LocksHeld(c, d)
  {
    if a.kind.Gathering? {
      SumLocksUpdate(a.kind.actions, i, c, d);
    }
  }

  lemma ChildLocks(a: Action, i: nat, d: Command)
    requires i < |Children(a)|
    ensures LocksHeld(Children(a)[i], d) <= LocksHeld(a, d)
  {
    if a.kind.Gathering? {
      SumLocksUpdate(a.kind.actions, i, Fresh(External), d);
    }
  }

  lemma OwnLocks(a: Action, sig: Signal, now: nat, d: Command)
    requires WellFormed(a) && Receives(a, sig) && (sig.TimerFires? ==> a.state.Pending?)
    ensures LocksHeld(Own(a, sig, now), d) == LocksHeld(a, d)
  {
  }

  lemma CallbackLocks(a: Action, w: World, held: nat, d: Command)
    requires WellFormed(a) && a.state.Pending? && a.kind.Delaying? && a.kind.current.Some?
    requires a.kind.current.value.kind.External? && Ledger(w, held + LocksHeld(a, d), d)
    ensures var (r, w1) := ChildTerminated(a, w); Ledger(w1, held + LocksHeld(r, d), d)
  {
    hide Ledger, LockOf, Complete;
    CompleteLocks(a.kind.command, w, held, d);
  }

  lemma {:induction false} DeliverLocks(a: Action, path: seq<nat>, sig: Signal, w: World, held: nat, d: Command)
    requires WellFormed(a) && Deliverable(a, path, sig) && CursorsInRange(a)
    requires path == [] && sig.TimerFires? ==> a.state.Pending?
    requires Ledger(w, held + LocksHeld(a, d), d)
    ensures var (r, w1) := Deliver(a, path, sig, w); Ledger(w1, held + LocksHeld(r, d), d)
    decreases path
  {
    hide Ledger, LocksHeld, Continue, ChildTerminated;
    if path == [] {
      OwnLocks(a, sig, w.now, d);
    } else {
      if !a.state.Pending? { FinishedIsDeaf(a, path, sig); }
      var i := path[0];
      var c := Children(a)[i];
      assert c in Children(a);
      assert |path| == 1 ==> path[1..] == [] && At(a, path) == Some(c);
      if |path| == 1 && sig.TimerFires? && c.state.Resolved? {
        ContinueLocks(a, i, w, held, d);
      } else if |path| == 1 && sig.LeafTerminates? && a.kind.Delaying? && c.after == Some(AfterCommand) {
        CallbackLocks(a, w, held, d);
      } else {
        ChildLocks(a, i, d);
        DeliverKeeps(c, path[1..], sig, w);
        DeliverLocks(c, path[1..], sig, w, held + LocksHeld(a, d) - LocksHeld(c, d), d);
        WithChildLocks(a, i, Deliver(c, path[1..], sig, w).0, d);
      }
    }
  }

  // ----- termination -----

  lemma HandOffLocks(rest: seq<Slot>, w: World, held: nat, d: Command)
    requires Ledger(w, held, d)
    ensures Ledger(HandOff(rest, w), held, d)
  {
  }

  /** The child's callback re-enters a DelayAction that is already terminated, so the lock is released once. */
  lemma TerminateDelayWorld(a: Action, w: World)
    requires a.kind.Delaying? && a.state.Pending? && a.kind.current.Some?
    ensures Terminate(a, w).1 == Complete(a.kind.command, Terminate(a.kind.current.value, w).1)
  {
  }

  lemma {:induction false} TerminateLocks(a: Action, w: World, held: nat, d: Command)
    requires WellFormed(a) && Ledger(w, held + LocksHeld(a, d), d)
    ensures Ledger(Terminate(a, w).1, held, d)
    decreases a
  {
    if !a.state.Pending? {
      FinishedHoldsNothing(a, d);
    } else {
      match a.kind {
        case External =>
        case Waiting =>
        case Delaying(c, _, current) =>
          assert current.value in Children(a);
          TerminateLocks(current.value, w, held + LockOf(c, d), d);
          TerminateDelayWorld(a, w);
        case Scripting(slots, bailout, _, next, step) =>
          assert step.value in Children(a);
          TerminateLocks(step.value, w, held, d);
          HandOffLocks(Remainder(slots, bailout, next), Terminate(step.value, w).1, held, d);
        case Gathering(actions) => TerminateEachLocks(actions, w, held, d);
      }
    }
  }

  lemma {:induction false} TerminateEachLocks(actions: seq<Action>, w: World, held: nat, d: Command)
    requires forall c :: c in actions ==> WellFormed(c)
    requires Ledger(w, held + SumLocks(actions, d), d)
    ensures Ledger(TerminateEach(actions, w), held, d)
    decreases actions
  {
    if actions != [] {
      assert actions[0] in actions;
      TerminateLocks(actions[0], w, held + SumLocks(actions[1..], d), d);
      TerminateEachLocks(actions[1..], Terminate(actions[0], w).1, held, d);
    }
  }

  // ----- all commands -----

  lemma StartBalances(c: Command, fast: bool, now: nat)
    ensures var (a, w) := MakeDelay(c, fast, NewWorld(now)); Balanced(w, a)
  {
    var (a, w) := MakeDelay(c, fast, NewWorld(now));
    forall d ensures Ledger(w, LocksHeld(a, d), d) {
      MakeDelayLocks(c, fast, NewWorld(now), 0, d);
    }
  }

  lemma DeliverBalances(a: Action, path: seq<nat>, sig: Signal, w: World)
    requires WellFormed(a) && Deliverable(a, path, sig) && CursorsInRange(a)
    requires path == [] && sig.TimerFires? ==> a.state.Pending?
    requires Balanced(w, a)
    ensures var (r, w1) := Deliver(a, path, sig, w); Balanced(w1, r)
  {
    var (r, w1) := Deliver(a, path, sig, w);
    forall d ensures Ledger(w1, LocksHeld(r, d), d) {
      assert Ledger(w, LocksHeld(a, d), d);
      DeliverLocks(a, path, sig, w, 0, d);
    }
  }

  lemma TerminateBalances(a: Action, w: World)
    requires WellFormed(a) && a.state.Pending? && Balanced(w, a)
    ensures var (r, w1) := Terminate(a, w); Balanced(w1, r)
  {
    var (r, w1) := Terminate(a, w);
    TerminateQuiets(a, w);
    forall d ensures Ledger(w1, LocksHeld(r, d), d) {
      assert Ledger(w, LocksHeld(a, d), d);
      TerminateLocks(a, w, 0, d);
      FinishedHoldsNothing(r, d);
    }
  }

  /** What is no longer pending has released exactly what it took. */
  lemma FinishedIsEven(a: Action, w: World)
    requires WellFormed(a) && !a.state.Pending? && Balanced(w, a)
    ensures w.taken == w.released
  {
    forall d ensures w.taken[d] == w.released[d] {
      FinishedHoldsNothing(a, d);
      assert Ledger(w, LocksHeld(a, d), d);
    }
  }
}
