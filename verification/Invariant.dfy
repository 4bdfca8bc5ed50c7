/** The shape every reachable tree has, and the proof that creation, delivery and termination keep it. */
module Invariant {
  import opened Wrappers
  import opened Commands
  import opened Actions
  import opened Steps

  /** A child that a script or a makeAll waits for. */
  predicate IsStep(c: Action, k: Then) {
    c.after == Some(k) && !c.state.Terminated? && (c.kind.Delaying? || c.kind.Scripting? || c.kind.Gathering?)
  }

  /** The action that a slot starts, whatever state it has reached. */
  predicate Matches(s: Slot, a: Action) {
    match s
    case Null => false
    case Away(_) => false
    case Child(c) => a.kind.Delaying? && a.kind.command == c
    case Row(row, bailout) => a.kind.Scripting? && a.kind.slots == row && a.kind.bailout == bailout
    case Join(_) => a.kind.Gathering?
  }

  /** What a pending DelayAction waits for: its delay, or the action of its command. */
  predicate IsDelayed(c: Action) {
    || (c.after == Some(AfterDelay) && c.kind.Waiting? && !c.state.Terminated?)
    || (c.after == Some(AfterCommand) && !c.kind.Waiting? && !c.kind.Delaying?
        && (c.state.Terminated? ==> c.kind.External?))
  }

  /** The action that the body of a command runs, whatever state it has reached. */
  predicate Performs(b: Body, a: Action) {
    match b
    case Instant => false
    case Leaf => a.kind.External?
    case Dead => a.kind.External?
    case Script(slots, bailout) => a.kind.Scripting? && a.kind.slots == slots && a.kind.bailout == bailout
    case Fork(_) => a.kind.Gathering?
  }

  /** Nothing is scheduled for a pending action but a delay, and exactly one firing for a resolved one. */
  predicate TimerDiscipline(a: Action) {
    match a.state
    case Pending => a.timeout.Some? <==> a.kind.Waiting?
    case Resolved => a.timeout.Some? <==> a.after.Some?
    case Terminated => a.timeout.None?
  }

  predicate NodeOk(a: Action) {
    && TimerDiscipline(a)
    && match a.kind
       case External => true
       case Waiting => true
       case Delaying(c, _, current) =>
         match a.state {
           case Pending =>
             && current.Some? && IsDelayed(current.value)
             && (current.value.after == Some(AfterCommand) ==> Performs(c.body, current.value))
           case Resolved =>
             current.Some? ==>
               current.value.state.Resolved? && current.value.after.None? && !current.value.kind.Delaying?
           case Terminated => current.None?
         }
       case Scripting(slots, _, _, next, step) =>
         && next <= |slots|
         && (if a.state.Pending?
             then step.Some? && IsStep(step.value, AfterStep) && 0 < next && Matches(slots[next - 1], step.value)
             else step.None?)
         && (a.state.Resolved? ==> next == |slots|)
       case Gathering(actions) =>
         if a.state.Pending?
         then actions != [] && forall c :: c in actions ==> IsStep(c, AfterBranch)
         else actions == []
  }

  ghost predicate WellFormed(a: Action)
    decreases a
  {
    && NodeOk(a)
    && forall c :: c in Children(a) ==> WellFormed(c)
  }

  /** A newly made action, not yet given a continuation. */
  ghost predicate Made(a: Action) {
    WellFormed(a) && a.after.None?
  }

  lemma CursorsInRangeIfWellFormed(a: Action)
    requires WellFormed(a)
    ensures CursorsInRange(a)
    decreases a
  {
  }

  lemma RegisterKeeps(a: Action, k: Then, now: nat)
    requires Made(a)
    ensures WellFormed(Register(a, k, now))
  {
  }

  // ----- creation -----

  lemma {:induction false} MakeDelayKeeps(c: Command, fast: bool, w: World)
    ensures var a := MakeDelay(c, fast, w).0; Made(a) && !a.state.Terminated?
    decreases c, 1
  {
    if fast || c.delay == 0 {
      RunCommandKeeps(Fresh(Delaying(c, fast, None)), Prepare(c, Log(w, Started(c))));
    }
  }

  lemma {:induction false} RunCommandKeeps(a: Action, w: World)
    requires a.kind.Delaying? && a.kind.current.None? && a.state.Pending? && a.timeout.None?
    ensures var r := RunCommand(a, w).0; WellFormed(r) && r.after == a.after && !r.state.Terminated?
    decreases a.kind.command, 0
  {
    var (child, w1) := Execute(a.kind.command.body, a.kind.fast, w);
    ExecuteKeeps(a.kind.command.body, a.kind.fast, w);
    if child.Some? && !child.value.state.Resolved? {
      RegisterKeeps(child.value, AfterCommand, w1.now);
    }
  }

  lemma {:induction false} ExecuteKeeps(b: Body, fast: bool, w: World)
    ensures var r := Execute(b, fast, w).0;
            r.Some? ==>
              && Made(r.value)
              && !r.value.kind.Waiting? && !r.value.kind.Delaying?
              && (r.value.state.Terminated? ==> r.value.kind.External?)
              && Performs(b, r.value)
    decreases b, 0
  {
    match b {
      case Script(slots, bailout) => MakeScriptKeeps(slots, bailout, fast, w);
      case Fork(branches) => StartBranchesKeeps(branches, fast, w);
      case _ =>
    }
  }

  lemma {:induction false} MakeScriptKeeps(slots: seq<Slot>, bailout: Bailout, fast: bool, w: World)
    ensures var a := MakeScript(slots, bailout, fast, w).0;
            Made(a) && !a.state.Terminated? && a.kind.slots == slots && a.kind.bailout == bailout
    decreases slots, |slots| + 1
  {
    AdvanceKeeps(Fresh(Scripting(slots, bailout, fast, 0, None)), w);
  }

  lemma {:induction false} AdvanceKeeps(a: Action, w: World)
    requires a.kind.Scripting? && a.kind.next <= |a.kind.slots| && a.kind.step.None?
    requires a.state.Pending? && a.timeout.None?
    ensures var r := Advance(a, w).0;
            && WellFormed(r) && r.after == a.after && !r.state.Terminated?
            && r.kind.slots == a.kind.slots && r.kind.bailout == a.kind.bailout
    decreases a.kind.slots, |a.kind.slots| - a.kind.next
  {
    var k := a.kind;
    if k.next < |k.slots| {
      StartSlotKeeps(k.slots[k.next], k.fast, w);
      var (child, w1) := StartSlot(k.slots[k.next], k.fast, w);
      if child.None? {
        AdvanceKeeps(a.(kind := k.(next := k.next + 1)), w1);
      } else {
        RegisterKeeps(child.value, AfterStep, w1.now);
      }
    }
  }

  /** What a slot or a branch starts. */
  ghost predicate Launched(a: Action) {
    Made(a) && !a.state.Terminated? && (a.kind.Delaying? || a.kind.Scripting? || a.kind.Gathering?)
  }

  lemma {:induction false} StartSlotKeeps(s: Slot, fast: bool, w: World)
    ensures var r := StartSlot(s, fast, w).0; r.Some? ==> Launched(r.value) && Matches(s, r.value)
    decreases s, 0
  {
    match s {
      case Child(c) => MakeDelayKeeps(c, fast, w);
      case Row(row, bailout) => MakeScriptKeeps(row, bailout, fast, w);
      case Join(branches) => StartBranchesKeeps(branches, fast, w);
      case _ =>
    }
  }

  lemma {:induction false} StartBranchesKeeps(branches: seq<Slot>, fast: bool, w: World)
    ensures var r := StartBranches(branches, fast, w).0;
            r.Some? ==> Launched(r.value) && r.value.kind.Gathering? && r.value.state.Pending?
    decreases branches, |branches| + 1
  {
    MakeBranchesKeeps(branches, 0, fast, w);
    var (actions, w1) := MakeBranches(branches, 0, fast, w);
    forall c | c in RegisterAll(actions, AfterBranch, w1.now)
      ensures WellFormed(c) && IsStep(c, AfterBranch)
    {
      var i :| 0 <= i < |actions| && c == Register(actions[i], AfterBranch, w1.now);
      assert actions[i] in actions;
      RegisterKeeps(actions[i], AfterBranch, w1.now);
    }
  }

  lemma {:induction false} MakeBranchesKeeps(branches: seq<Slot>, n: nat, fast: bool, w: World)
    requires n <= |branches|
    ensures forall a :: a in MakeBranches(branches, n, fast, w).0 ==> Launched(a)
    decreases branches, |branches| - n
  {
    if n < |branches| {
      StartSlotKeeps(branches[n], fast, w);
      MakeBranchesKeeps(branches, n + 1, fast, StartSlot(branches[n], fast, w).1);
    }
  }

  // ----- delivery -----

  /** A finished action owns nothing that can still receive a signal. */
  lemma FinishedIsDeaf(a: Action, path: seq<nat>, sig: Signal)
    requires WellFormed(a) && !a.state.Pending? && path != []
    ensures !Deliverable(a, path, sig)
  {
    if path[0] < |Children(a)| {
      var c := Children(a)[path[0]];
      assert c in Children(a);
      assert Children(c) == [];
      assert At(a, path) == At(c, path[1..]);
      assert |path| > 1 ==> path[1..][0] == path[1];
    }
  }

  predicate SameRole(a: Action, b: Action) {
    && a.after == b.after
    && (a.kind.External? <==> b.kind.External?)
    && (a.kind.Waiting? <==> b.kind.Waiting?)
    && (a.kind.Delaying? <==> b.kind.Delaying?)
    && (a.kind.Delaying? && b.kind.Delaying? ==> a.kind.command == b.kind.command)
    && (a.kind.Gathering? <==> b.kind.Gathering?)
    && (a.kind.Scripting? <==> b.kind.Scripting?)
    && (a.kind.Scripting? && b.kind.Scripting? ==> a.kind.slots == b.kind.slots && a.kind.bailout == b.kind.bailout)
  }

  lemma WithChildKeeps(a: Action, i: nat, c: Action)
    requires WellFormed(a) && a.state.Pending? && i < |Children(a)| && WellFormed(c)
    requires SameRole(c, Children(a)[i]) && !c.state.Terminated?
    ensures WellFormed(WithChild(a, i, c)) && SameRole(WithChild(a, i, c), a)
  {
    assert Children(a)[i] in Children(a);
    forall d | d in Children(WithChild(a, i, c)) ensures WellFormed(d) {}
  }

  lemma ContinueKeeps(a: Action, i: nat, w: World)
    requires WellFormed(a) && a.state.Pending? && i < |Children(a)| && Children(a)[i].state.Resolved?
    ensures var r := Continue(a, i, w).0; WellFormed(r) && SameRole(r, a) && !r.state.Terminated?
  {
    assert Children(a)[i] in Children(a);
    match a.kind {
      case Delaying(_, _, current) =>
        if current.value.after == Some(AfterDelay) {
          RunCommandKeeps(WithoutChild(a, i), w);
        }
      case Scripting(_, _, _, _, _) => AdvanceKeeps(WithoutChild(a, i), w);
      case Gathering(actions) =>
        assert forall d :: d in actions[..i] + actions[i + 1..] ==> d in actions;
    }
  }

  lemma {:induction false} DeliverKeeps(a: Action, path: seq<nat>, sig: Signal, w: World)
    requires WellFormed(a) && Deliverable(a, path, sig)
    requires path == [] && sig.TimerFires? ==> a.state.Pending?
    ensures CursorsInRange(a)
    ensures var r := Deliver(a, path, sig, w).0;
            && WellFormed(r) && SameRole(r, a)
            && (r.state.Terminated? ==> path == [] && sig.LeafTerminates?)
    decreases path
  {
    CursorsInRangeIfWellFormed(a);
    if path == [] {
      assert Children(a) == [];
    } else {
      if !a.state.Pending? { FinishedIsDeaf(a, path, sig); }
      var i := path[0];
      var c := Children(a)[i];
      assert c in Children(a);
      if |path| == 1 && sig.TimerFires? && c.state.Resolved? {
        ContinueKeeps(a, i, w);
      } else if |path| == 1 && sig.LeafTerminates? && a.kind.Delaying? && c.after == Some(AfterCommand) {
      } else {
        assert |path| == 1 ==> path[1..] == [];
        DeliverKeeps(c, path[1..], sig, w);
        WithChildKeeps(a, i, Deliver(c, path[1..], sig, w).0);
      }
    }
  }

  // ----- termination -----

  /** Nothing below is pending and nothing is scheduled. */
  ghost predicate Quiet(a: Action)
    decreases a
  {
    && !a.state.Pending? && a.timeout.None?
    && forall c :: c in Children(a) ==> Quiet(c)
  }

  lemma TerminateQuiets(a: Action, w: World)
    requires WellFormed(a) && a.state.Pending?
    ensures var r := Terminate(a, w).0;
            r.state.Terminated? && Children(r) == [] && Quiet(r) && WellFormed(r) && SameRole(r, a)
  {
  }
}
