/** Every delivered signal uses up work, and a command brings only so much of it. */
module Progress {
  import opened Wrappers
  import opened Commands
  import opened Actions
  import opened Steps
  import opened Invariant

  // ----- the work a command can bring -----

  function CommandWork(c: Command): nat {
    2 + BodyWork(c.body)
  }

  function BodyWork(b: Body): nat {
    match b
    case Instant => 0
    case Leaf => 2
    case Dead => 0
    case Script(slots, _) => 1 + SlotsWork(slots, 0)
    case Fork(branches) => 1 + SlotsWork(branches, 0)
  }

  function SlotWork(s: Slot): nat {
    match s
    case Null => 0
    case Away(_) => 0
    case Child(c) => 1 + CommandWork(c)
    case Row(row, _) => 1 + SlotsWork(row, 0)
    case Join(branches) => 1 + SlotsWork(branches, 0)
  }

  function SlotsWork(slots: seq<Slot>, n: nat): nat
    decreases slots, |slots| - n
  {
    if n >= |slots| then 0 else SlotWork(slots[n]) + SlotsWork(slots, n + 1)
  }

  // ----- the work left in a tree -----

  /** One firing is still to come for an action with a continuation that has not run. */
  function FiringDue(a: Action): nat {
    if a.after.Some? && (a.state.Pending? || a.timeout.Some?) then 1 else 0
  }

  function Work(a: Action): nat
    decreases a
  {
    FiringDue(a) +
    if !a.state.Pending? then 0
    else
      match a.kind
      case External => 1
      case Waiting => 1
      case Delaying(c, _, current) =>
        if current.None? then 0
        else Work(current.value) + if current.value.after == Some(AfterDelay) then BodyWork(c.body) else 0
      case Scripting(slots, _, _, next, step) => SlotsWork(slots, next) + if step.None? then 0 else Work(step.value)
      case Gathering(actions) => SumWork(actions)
  }

  function SumWork(actions: seq<Action>): nat
    decreases actions
  {
    if actions == [] then 0
    else
      assert actions[0] in actions;
      Work(actions[0]) + SumWork(actions[1..])
  }

  lemma {:induction false} SumWorkUpdate(actions: seq<Action>, i: nat, c: Action)
    requires i < |actions|
    ensures SumWork(actions[i := c]) == SumWork(actions) - Work(actions[i]) + Work(c)
  {
    if i > 0 {
      assert actions[i := c][1..] == actions[1..][i - 1 := c];
      SumWorkUpdate(actions[1..], i - 1, c);
    } else {
      assert actions[i := c][1..] == actions[1..];
    }
  }

  lemma {:induction false} SumWorkRemove(actions: seq<Action>, i: nat)
    requires i < |actions|
    ensures SumWork(actions[..i] + actions[i + 1..]) == SumWork(actions) - Work(actions[i])
  {
    var rest := actions[..i] + actions[i + 1..];
    if i > 0 {
      assert rest[0] == actions[0] && rest[1..] == actions[1..][..i - 1] + actions[1..][i..];
      SumWorkRemove(actions[1..], i - 1);
    } else {
      assert rest == actions[1..];
    }
  }

  // ----- creation brings no more than the command's work -----

  lemma {:induction false} MakeDelayWork(c: Command, fast: bool, w: World)
    ensures Work(MakeDelay(c, fast, w).0) <= CommandWork(c)
    decreases c, 1
  {
    MakeDelayKeeps(c, fast, w);
    if fast || c.delay == 0 {
      RunCommandWork(Fresh(Delaying(c, fast, None)), Prepare(c, Log(w, Started(c))));
    }
  }

  lemma {:induction false} RunCommandWork(a: Action, w: World)
    requires a.kind.Delaying? && a.kind.current.None? && a.state.Pending? && a.timeout.None?
    ensures Work(RunCommand(a, w).0) <= FiringDue(a) + BodyWork(a.kind.command.body)
    decreases a.kind.command, 0
  {
    ExecuteKeeps(a.kind.command.body, a.kind.fast, w);
    ExecuteWork(a.kind.command.body, a.kind.fast, w);
  }

  lemma {:induction false} ExecuteWork(b: Body, fast: bool, w: World)
    ensures var (r, w1) := Execute(b, fast, w); r.Some? ==> Work(Register(r.value, AfterCommand, w1.now)) <= BodyWork(b)
    decreases b, 0
  {
    match b {
      case Script(slots, bailout) => MakeScriptWork(slots, bailout, fast, w);
      case Fork(branches) => StartBranchesWork(branches, fast, w);
      case _ =>
    }
  }

  lemma {:induction false} MakeScriptWork(slots: seq<Slot>, bailout: Bailout, fast: bool, w: World)
    ensures Work(MakeScript(slots, bailout, fast, w).0) <= SlotsWork(slots, 0)
    decreases slots, |slots| + 1
  {
    AdvanceWork(Fresh(Scripting(slots, bailout, fast, 0, None)), w);
  }

  lemma {:induction false} AdvanceWork(a: Action, w: World)
    requires a.kind.Scripting? && a.kind.next <= |a.kind.slots| && a.kind.step.None?
    requires a.state.Pending? && a.timeout.None?
    ensures Work(Advance(a, w).0) <= FiringDue(a) + SlotsWork(a.kind.slots, a.kind.next)
    decreases a.kind.slots, |a.kind.slots| - a.kind.next
  {
    var k := a.kind;
    if k.next < |k.slots| {
      StartSlotKeeps(k.slots[k.next], k.fast, w);
      StartSlotWork(k.slots[k.next], k.fast, w, AfterStep, w.now);
      var (child, w1) := StartSlot(k.slots[k.next], k.fast, w);
      if child.None? {
        AdvanceWork(a.(kind := k.(next := k.next + 1)), w1);
      }
    }
  }

  lemma {:induction false} StartSlotWork(s: Slot, fast: bool, w: World, k: Then, now: nat)
    ensures var r := StartSlot(s, fast, w).0; r.Some? ==> Work(Register(r.value, k, now)) <= SlotWork(s)
    decreases s, 0
  {
    StartSlotKeeps(s, fast, w);
    match s {
      case Child(c) => MakeDelayWork(c, fast, w);
      case Row(row, bailout) => MakeScriptWork(row, bailout, fast, w);
      case Join(branches) => StartBranchesWork(branches, fast, w);
      case _ =>
    }
  }

  lemma {:induction false} StartBranchesWork(branches: seq<Slot>, fast: bool, w: World)
    ensures var r := StartBranches(branches, fast, w).0;
            r.Some? ==> Work(r.value) <= SlotsWork(branches, 0)
    decreases branches, |branches| + 1
  {
    MakeBranchesWork(branches, 0, fast, w, MakeBranches(branches, 0, fast, w).1.now);
  }

  lemma {:induction false} MakeBranchesWork(branches: seq<Slot>, n: nat, fast: bool, w: World, now: nat)
    requires n <= |branches|
    ensures SumWork(RegisterAll(MakeBranches(branches, n, fast, w).0, AfterBranch, now)) <= SlotsWork(branches, n)
    decreases branches, |branches| - n
  {
    if n < |branches| {
      var (child, w1) := StartSlot(branches[n], fast, w);
      StartSlotWork(branches[n], fast, w, AfterBranch, now);
      MakeBranchesWork(branches, n + 1, fast, w1, now);
      if child.Some? {
        RegisterAllCons(child.value, MakeBranches(branches, n + 1, fast, w1).0, AfterBranch, now);
      }
    }
  }

  lemma RegisterAllCons(a: Action, rest: seq<Action>, k: Then, now: nat)
    ensures RegisterAll([a] + rest, k, now) == [Register(a, k, now)] + RegisterAll(rest, k, now)
  {
  }

  // ----- a delivered signal uses up work -----

  lemma ContinueWork(a: Action, i: nat, w: World)
    requires WellFormed(a) && a.state.Pending? && i < |Children(a)| && Children(a)[i].state.Resolved?
    requires Children(a)[i].timeout.Some?
    ensures Work(Continue(a, i, w).0) < Work(a)
  {
    assert Children(a)[i] in Children(a);
    match a.kind {
      case Delaying(_, _, current) =>
        if current.value.after == Some(AfterDelay) {
          RunCommandWork(WithoutChild(a, i), w);
        }
      case Scripting(_, _, _, _, _) => AdvanceWork(WithoutChild(a, i), w);
      case Gathering(actions) => SumWorkRemove(actions, i);
    }
  }

  lemma WithChildWork(a: Action, i: nat, c: Action)
    requires WellFormed(a) && a.state.Pending? && i < |Children(a)| && SameRole(c, Children(a)[i])
    ensures Work(WithChild(a, i, c)) == Work(a) - Work(Children(a)[i]) + Work(c)
  {
    if a.kind.Gathering? {
      SumWorkUpdate(a.kind.actions, i, c);
    }
  }

  lemma {:induction false} DeliverWork(a: Action, path: seq<nat>, sig: Signal, w: World)
    requires WellFormed(a) && Deliverable(a, path, sig) && CursorsInRange(a)
    requires path == [] && sig.TimerFires? ==> a.state.Pending?
    ensures Work(Deliver(a, path, sig, w).0) < Work(a)
    decreases path
  {
    if path != [] {
      if !a.state.Pending? { FinishedIsDeaf(a, path, sig); }
      var i := path[0];
      var c := Children(a)[i];
      assert c in Children(a);
      assert |path| == 1 ==> path[1..] == [] && At(a, path) == Some(c);
      if |path| == 1 && sig.TimerFires? && c.state.Resolved? {
        ContinueWork(a, i, w);
      } else if |path| == 1 && sig.LeafTerminates? && a.kind.Delaying? && c.after == Some(AfterCommand) {
      } else {
        DeliverWork(c, path[1..], sig, w);
        DeliverKeeps(c, path[1..], sig, w);
        WithChildWork(a, i, Deliver(c, path[1..], sig, w).0);
      }
    }
  }
}
