/** When a tree can get stuck: exactly when a command returned an action that was already terminated. */
module NoStall {
  import opened Wrappers
  import opened Commands
  import opened Actions
  import opened Steps
  import opened Invariant

  // ----- commands without such a body -----

  predicate SoundCommand(c: Command) {
    SoundBody(c.body)
  }

  predicate SoundBody(b: Body) {
    match b
    case Instant => true
    case Leaf => true
    case Dead => false
    case Script(slots, _) => SoundSlots(slots, 0)
    case Fork(branches) => SoundSlots(branches, 0)
  }

  predicate SoundSlot(s: Slot) {
    match s
    case Null => true
    case Away(_) => true
    case Child(c) => SoundCommand(c)
    case Row(row, _) => SoundSlots(row, 0)
    case Join(branches) => SoundSlots(branches, 0)
  }

  predicate SoundSlots(slots: seq<Slot>, n: nat)
    decreases slots, |slots| - n
  {
    n >= |slots| || (SoundSlot(slots[n]) && SoundSlots(slots, n + 1))
  }

  /** A terminated action that nobody will hear from, or one still to be started. */
  ghost predicate Blocked(a: Action)
    decreases a
  {
    match a.kind
    case External => a.state.Terminated?
    case Waiting => false
    case Delaying(c, _, current) =>
      && a.state.Pending? && current.Some?
      && (Blocked(current.value) || (current.value.after == Some(AfterDelay) && !SoundBody(c.body)))
    case Scripting(slots, _, _, next, step) =>
      && a.state.Pending?
      && ((step.Some? && Blocked(step.value)) || !SoundSlots(slots, next))
    case Gathering(actions) => a.state.Pending? && exists c :: c in actions && Blocked(c)
  }

  lemma BlockedRegister(a: Action, k: Then, now: nat)
    ensures Blocked(Register(a, k, now)) <==> Blocked(a)
  {
  }

  // ----- no stall -----

  /** A pending, unblocked tree can receive a signal: a timer is scheduled or a leaf is pending. */
  lemma {:induction false} PendingListens(a: Action) returns (path: seq<nat>, sig: Signal)
    requires WellFormed(a) && a.state.Pending? && !Blocked(a)
    ensures Deliverable(a, path, sig)
    decreases a
  {
    match a.kind {
      case External => path, sig := [], LeafResolves;
      case Waiting => path, sig := [], TimerFires;
      case Delaying(_, _, current) =>
        assert current.value in Children(a);
        path, sig := ChildListens(a, 0);
      case Scripting(_, _, _, _, step) =>
        assert step.value in Children(a);
        path, sig := ChildListens(a, 0);
      case Gathering(actions) =>
        assert actions[0] in actions;
        path, sig := ChildListens(a, 0);
    }
  }

  lemma {:induction false} ChildListens(a: Action, i: nat) returns (path: seq<nat>, sig: Signal)
    requires i < |Children(a)| && WellFormed(Children(a)[i]) && Children(a)[i] < a
    requires Children(a)[i].after.Some? && !Children(a)[i].state.Terminated? && !Blocked(Children(a)[i])
    ensures Deliverable(a, path, sig)
    decreases a, 0
  {
    var c := Children(a)[i];
    var p: seq<nat> := [];
    sig := TimerFires;
    if c.state.Pending? {
      p, sig := PendingListens(c);
    }
    path := [i] + p;
    assert path[1..] == p;
  }

  // ----- creation -----

  lemma {:induction false} MakeDelayBlocks(c: Command, fast: bool, w: World)
    ensures Blocked(MakeDelay(c, fast, w).0) <==> !SoundCommand(c)
    decreases c, 1
  {
    var w1 := Prepare(c, Log(w, Started(c)));
    var a := Fresh(Delaying(c, fast, None));
    if fast || c.delay == 0 {
      RunCommandBlocks(a, w1);
    }
  }

  lemma {:induction false} RunCommandBlocks(a: Action, w: World)
    requires a.kind.Delaying? && a.kind.current.None? && a.state.Pending?
    ensures Blocked(RunCommand(a, w).0) <==> !SoundBody(a.kind.command.body)
    decreases a.kind.command, 0
  {
    var b := a.kind.command.body;
    var (child, w1) := Execute(b, a.kind.fast, w);
    ExecuteKeeps(b, a.kind.fast, w);
    ExecuteBlocks(b, a.kind.fast, w);
    if child.Some? {
      BlockedRegister(child.value, AfterCommand, w1.now);
    }
  }

  lemma {:induction false} ExecuteBlocks(b: Body, fast: bool, w: World)
    ensures var r := Execute(b, fast, w).0; (r.Some? && Blocked(r.value)) <==> !SoundBody(b)
    decreases b, 0
  {
    match b {
      case Script(slots, bailout) => MakeScriptBlocks(slots, bailout, fast, w);
      case Fork(branches) => StartBranchesBlocks(branches, fast, w);
      case _ =>
    }
  }

  lemma {:induction false} MakeScriptBlocks(slots: seq<Slot>, bailout: Bailout, fast: bool, w: World)
    ensures Blocked(MakeScript(slots, bailout, fast, w).0) <==> !SoundSlots(slots, 0)
    decreases slots, |slots| + 1
  {
    AdvanceBlocks(Fresh(Scripting(slots, bailout, fast, 0, None)), w);
  }

  lemma {:induction false} AdvanceBlocks(a: Action, w: World)
    requires a.kind.Scripting? && a.kind.next <= |a.kind.slots| && a.kind.step.None? && a.state.Pending?
    ensures Blocked(Advance(a, w).0) <==> !SoundSlots(a.kind.slots, a.kind.next)
    decreases a.kind.slots, |a.kind.slots| - a.kind.next
  {
    var k := a.kind;
    if k.next < |k.slots| {
      StartSlotBlocks(k.slots[k.next], k.fast, w);
      var (child, w1) := StartSlot(k.slots[k.next], k.fast, w);
      if child.None? {
        AdvanceBlocks(a.(kind := k.(next := k.next + 1)), w1);
      } else {
        BlockedRegister(child.value, AfterStep, w1.now);
      }
    }
  }

  lemma {:induction false} StartSlotBlocks(s: Slot, fast: bool, w: World)
    ensures var r := StartSlot(s, fast, w).0; (r.Some? && Blocked(r.value)) <==> !SoundSlot(s)
    decreases s, 0
  {
    match s {
      case Null =>
      case Away(_) =>
      case Child(c) => MakeDelayBlocks(c, fast, w);
      case Row(row, bailout) => MakeScriptBlocks(row, bailout, fast, w);
      case Join(branches) => StartBranchesBlocks(branches, fast, w);
    }
  }

  lemma {:induction false} StartBranchesBlocks(branches: seq<Slot>, fast: bool, w: World)
    ensures var r := StartBranches(branches, fast, w).0; (r.Some? && Blocked(r.value)) <==> !SoundSlots(branches, 0)
    decreases branches, |branches| + 1
  {
    MakeBranchesBlocks(branches, 0, fast, w);
    var (actions, w1) := MakeBranches(branches, 0, fast, w);
    var all := RegisterAll(actions, AfterBranch, w1.now);
    forall i | 0 <= i < |actions|
      ensures all[i] in all && actions[i] in actions && (Blocked(all[i]) <==> Blocked(actions[i]))
    {
      BlockedRegister(actions[i], AfterBranch, w1.now);
    }
  }

  lemma {:induction false} MakeBranchesBlocks(branches: seq<Slot>, n: nat, fast: bool, w: World)
    requires n <= |branches|
    ensures (exists a :: a in MakeBranches(branches, n, fast, w).0 && Blocked(a)) <==> !SoundSlots(branches, n)
    decreases branches, |branches| - n
  {
    if n < |branches| {
      StartSlotBlocks(branches[n], fast, w);
      var (child, w1) := StartSlot(branches[n], fast, w);
      MakeBranchesBlocks(branches, n + 1, fast, w1);
      if child.Some? {
        ExistsCons(child.value, MakeBranches(branches, n + 1, fast, w1).0);
      }
    }
  }

  lemma ExistsCons(a: Action, rest: seq<Action>)
    ensures (exists c :: c in [a] + rest && Blocked(c)) <==> (Blocked(a) || exists c :: c in rest && Blocked(c))
  {
  }

  // ----- delivery -----

  lemma ContinueBlocks(a: Action, i: nat, w: World)
    requires WellFormed(a) && a.state.Pending? && i < |Children(a)| && Children(a)[i].state.Resolved?
    ensures Blocked(Continue(a, i, w).0) <==> Blocked(a)
  {
    hide Advance, RunCommand;
    var c := Children(a)[i];
    assert c in Children(a);
    assert !Blocked(c);
    match a.kind {
      case Delaying(_, _, current) =>
        if current.value.after == Some(AfterDelay) {
          RunCommandBlocks(WithoutChild(a, i), w);
        }
      case Scripting(_, _, _, _, _) => AdvanceBlocks(WithoutChild(a, i), w);
      case Gathering(actions) =>
        var rest := actions[..i] + actions[i + 1..];
        forall d | d in actions && Blocked(d) ensures d in rest {
          var j :| 0 <= j < |actions| && actions[j] == d;
          assert rest[if j < i then j else j - 1] == d;
        }
    }
  }

  lemma WithChildBlocks(a: Action, i: nat, c: Action)
    requires WellFormed(a) && a.state.Pending? && i < |Children(a)| && SameRole(c, Children(a)[i])
    requires Blocked(c) <==> Blocked(Children(a)[i])
    ensures Blocked(WithChild(a, i, c)) <==> Blocked(a)
  {
    if a.kind.Gathering? {
      var actions := a.kind.actions;
      var actions' := actions[i := c];
      assert c == actions'[i];
      assert forall j :: 0 <= j < |actions| && j != i ==> actions'[j] == actions[j];
    }
  }

  lemma {:induction false} DeliverBlocks(a: Action, path: seq<nat>, sig: Signal, w: World)
    requires WellFormed(a) && Deliverable(a, path, sig) && CursorsInRange(a)
    requires path == [] ==> !sig.LeafTerminates? && (sig.TimerFires? ==> a.state.Pending?)
    ensures Blocked(Deliver(a, path, sig, w).0) <==> Blocked(a)
    decreases path
  {
    if path != [] {
      if !a.state.Pending? { FinishedIsDeaf(a, path, sig); }
      var i := path[0];
      var c := Children(a)[i];
      assert c in Children(a);
      assert |path| == 1 ==> path[1..] == [] && At(a, path) == Some(c);
      if |path| == 1 && sig.TimerFires? && c.state.Resolved? {
        ContinueBlocks(a, i, w);
      } else if |path| == 1 && sig.LeafTerminates? && a.kind.Delaying? && c.after == Some(AfterCommand) {
      } else {
        DeliverKeeps(c, path[1..], sig, w);
        DeliverBlocks(c, path[1..], sig, w);
        WithChildBlocks(a, i, Deliver(c, path[1..], sig, w).0);
      }
    }
  }
}
