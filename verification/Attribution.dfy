/**
 * Where in the tree the events still to come lie: no part of it has more to dispatch than the slot it was started for.
 */
module Attribution {
  import opened Wrappers
  import opened Commands
  import opened Actions
  import opened Steps
  import opened Invariant
  import opened Census
  import opened Dispatch

  /**
   * How often an action dispatches an event from its beginning to its end; of a makeAll, by the members it still has.
   */
  function Total(a: Action, e: Event): nat
    decreases a
  {
    match a.kind
    case External => 0
    case Waiting => 0
    case Delaying(c, _, _) => CommandCount(c, e)
    case Scripting(slots, _, _, _, _) => SlotsCount(slots, 0, e)
    case Gathering(actions) => TotalOf(actions, e)
  }

  function TotalOf(actions: seq<Action>, e: Event): nat
    decreases actions
  {
    if actions == [] then 0
    else
      assert actions[0] in actions;
      Total(actions[0], e) + TotalOf(actions[1..], e)
  }

  /** What runs for a slot or a body dispatches no more than the slot or the body asks for. */
  ghost predicate Within(a: Action, e: Event)
    decreases a
  {
    && (match a.kind
        case Delaying(c, _, current) =>
          current.Some? && current.value.after == Some(AfterCommand) ==> Total(current.value, e) <= BodyCount(c.body, e)
        case Scripting(slots, _, _, next, step) =>
          step.Some? && 0 < next <= |slots| ==> Total(step.value, e) <= SlotCount(slots[next - 1], e)
        case _ => true)
    && forall c :: c in Children(a) ==> Within(c, e)
  }

  lemma RegisterWithin(a: Action, k: Then, now: nat, e: Event)
    requires Within(a, e)
    ensures Within(Register(a, k, now), e) && Total(Register(a, k, now), e) == Total(a, e)
  {
  }

  lemma {:induction false} TotalUpdate(actions: seq<Action>, i: nat, c: Action, e: Event)
    requires i < |actions|
    ensures TotalOf(actions[i := c], e) == TotalOf(actions, e) - Total(actions[i], e) + Total(c, e)
  {
    if i > 0 {
      assert actions[i := c][1..] == actions[1..][i - 1 := c];
      TotalUpdate(actions[1..], i - 1, c, e);
    } else {
      assert actions[i := c][1..] == actions[1..];
    }
  }

  lemma {:induction false} TotalRemove(actions: seq<Action>, i: nat, e: Event)
    requires i < |actions|
    ensures TotalOf(actions[..i] + actions[i + 1..], e) == TotalOf(actions, e) - Total(actions[i], e)
  {
    var rest := actions[..i] + actions[i + 1..];
    if i > 0 {
      assert rest[0] == actions[0] && rest[1..] == actions[1..][..i - 1] + actions[1..][i..];
      TotalRemove(actions[1..], i - 1, e);
    } else {
      assert rest == actions[1..];
    }
  }

  lemma {:induction false} RegisterAllTotal(actions: seq<Action>, k: Then, now: nat, e: Event)
    ensures TotalOf(RegisterAll(actions, k, now), e) == TotalOf(actions, e)
  {
    if actions != [] {
      assert RegisterAll(actions, k, now)[1..] == RegisterAll(actions[1..], k, now);
      RegisterAllTotal(actions[1..], k, now, e);
    }
  }

  // ----- creation -----

  lemma {:induction false} MakeDelayWithin(c: Command, fast: bool, w: World, e: Event)
    ensures var a := MakeDelay(c, fast, w).0; Within(a, e) && Total(a, e) == CommandCount(c, e)
    decreases c, 1
  {
    if fast || c.delay == 0 {
      RunCommandWithin(Fresh(Delaying(c, fast, None)), Prepare(c, Log(w, Started(c))), e);
    }
  }

  lemma {:induction false} RunCommandWithin(a: Action, w: World, e: Event)
    requires a.kind.Delaying? && a.kind.current.None? && a.state.Pending?
    ensures Within(RunCommand(a, w).0, e)
    decreases a.kind.command, 0
  {
    var b := a.kind.command.body;
    var (child, w1) := Execute(b, a.kind.fast, w);
    ExecuteWithin(b, a.kind.fast, w, e);
    if child.Some? {
      RegisterWithin(child.value, AfterCommand, w1.now, e);
    }
  }

  lemma {:induction false} ExecuteWithin(b: Body, fast: bool, w: World, e: Event)
    ensures var r := Execute(b, fast, w).0; r.Some? ==> Within(r.value, e) && Total(r.value, e) <= BodyCount(b, e)
    decreases b, 0
  {
    match b {
      case Script(slots, bailout) => MakeScriptWithin(slots, bailout, fast, w, e);
      case Fork(branches) => StartBranchesWithin(branches, fast, w, e);
      case _ =>
    }
  }

  lemma {:induction false} MakeScriptWithin(slots: seq<Slot>, bailout: Bailout, fast: bool, w: World, e: Event)
    ensures var a := MakeScript(slots, bailout, fast, w).0; Within(a, e) && Total(a, e) == SlotsCount(slots, 0, e)
    decreases slots, |slots| + 1
  {
    AdvanceWithin(Fresh(Scripting(slots, bailout, fast, 0, None)), w, e);
  }

  lemma {:induction false} AdvanceWithin(a: Action, w: World, e: Event)
    requires a.kind.Scripting? && a.kind.next <= |a.kind.slots| && a.kind.step.None? && a.state.Pending?
    ensures var r := Advance(a, w).0; Within(r, e) && r.kind.slots == a.kind.slots
    decreases a.kind.slots, |a.kind.slots| - a.kind.next
  {
    hide StartSlot, SlotCount;
    var k := a.kind;
    if k.next < |k.slots| {
      StartSlotWithin(k.slots[k.next], k.fast, w, e);
      var (child, w1) := StartSlot(k.slots[k.next], k.fast, w);
      if child.None? {
        AdvanceWithin(a.(kind := k.(next := k.next + 1)), w1, e);
      } else {
        RegisterWithin(child.value, AfterStep, w1.now, e);
      }
    }
  }

  lemma {:induction false} StartSlotWithin(s: Slot, fast: bool, w: World, e: Event)
    ensures var r := StartSlot(s, fast, w).0; r.Some? ==> Within(r.value, e) && Total(r.value, e) <= SlotCount(s, e)
    decreases s, 0
  {
    match s {
      case Child(c) => MakeDelayWithin(c, fast, w, e);
      case Row(row, bailout) => MakeScriptWithin(row, bailout, fast, w, e);
      case Join(branches) => StartBranchesWithin(branches, fast, w, e);
      case _ =>
    }
  }

  lemma {:induction false} StartBranchesWithin(branches: seq<Slot>, fast: bool, w: World, e: Event)
    ensures var r := StartBranches(branches, fast, w).0;
            r.Some? ==> Within(r.value, e) && Total(r.value, e) <= SlotsCount(branches, 0, e)
    decreases branches, |branches| + 1
  {
    MakeBranchesWithin(branches, 0, fast, w, e);
    var (actions, w1) := MakeBranches(branches, 0, fast, w);
    RegisterAllTotal(actions, AfterBranch, w1.now, e);
    forall c | c in RegisterAll(actions, AfterBranch, w1.now) ensures Within(c, e) {
      var i :| 0 <= i < |actions| && c == Register(actions[i], AfterBranch, w1.now);
      assert actions[i] in actions;
      RegisterWithin(actions[i], AfterBranch, w1.now, e);
    }
  }

  lemma {:induction false} MakeBranchesWithin(branches: seq<Slot>, n: nat, fast: bool, w: World, e: Event)
    requires n <= |branches|
    ensures var actions := MakeBranches(branches, n, fast, w).0;
            TotalOf(actions, e) <= SlotsCount(branches, n, e) && forall a :: a in actions ==> Within(a, e)
    decreases branches, |branches| - n
  {
    if n < |branches| {
      var (child, w1) := StartSlot(branches[n], fast, w);
      StartSlotWithin(branches[n], fast, w, e);
      MakeBranchesWithin(branches, n + 1, fast, w1, e);
      var rest := MakeBranches(branches, n + 1, fast, w1).0;
      assert child.Some? ==> ([child.value] + rest)[1..] == rest;
    }
  }

  // ----- delivery -----

  lemma ContinueWithin(a: Action, i: nat, w: World, e: Event)
    requires WellFormed(a) && Within(a, e) && a.state.Pending? && i < |Children(a)| && Children(a)[i].state.Resolved?
    ensures var r := Continue(a, i, w).0; Within(r, e) && Total(r, e) <= Total(a, e)
  {
    hide Advance, RunCommand;
    assert Children(a)[i] in Children(a);
    match a.kind {
      case Delaying(_, _, current) =>
        if current.value.after == Some(AfterDelay) {
          RunCommandWithin(WithoutChild(a, i), w, e);
        }
      case Scripting(_, _, _, _, _) => AdvanceWithin(WithoutChild(a, i), w, e);
      case Gathering(_) => MemberLeavesWithin(a, i, w, e);
    }
  }

  lemma MemberLeavesWithin(a: Action, i: nat, w: World, e: Event)
    requires Within(a, e) && a.kind.Gathering? && a.state.Pending? && i < |Children(a)|
    ensures var r := Continue(a, i, w).0; Within(r, e) && Total(r, e) <= Total(a, e)
  {
    var actions := a.kind.actions;
    TotalRemove(actions, i, e);
    assert forall d :: d in actions[..i] + actions[i + 1..] ==> d in actions;
  }

  lemma WithChildWithin(a: Action, i: nat, c: Action, e: Event)
    requires WellFormed(a) && Within(a, e) && a.state.Pending? && i < |Children(a)|
    requires Within(c, e) && SameRole(c, Children(a)[i]) && Total(c, e) <= Total(Children(a)[i], e)
    ensures var r := WithChild(a, i, c); Within(r, e) && Total(r, e) <= Total(a, e)
  {
    if a.kind.Gathering? {
      TotalUpdate(a.kind.actions, i, c, e);
    }
    forall d | d in Children(WithChild(a, i, c)) ensures Within(d, e) {}
  }

  lemma {:induction false} DeliverWithin(a: Action, path: seq<nat>, sig: Signal, w: World, e: Event)
    requires WellFormed(a) && Within(a, e) && Deliverable(a, path, sig) && CursorsInRange(a)
    requires path == [] && sig.TimerFires? ==> a.state.Pending?
    ensures var r := Deliver(a, path, sig, w).0; Within(r, e) && Total(r, e) <= Total(a, e)
    decreases path
  {
    if path == [] {
      assert Children(a) == [];
    } else {
      if !a.state.Pending? { FinishedIsDeaf(a, path, sig); }
      var i := path[0];
      var c := Children(a)[i];
      assert c in Children(a);
      assert |path| == 1 ==> path[1..] == [] && At(a, path) == Some(c);
      if |path| == 1 && sig.TimerFires? && c.state.Resolved? {
        ContinueWithin(a, i, w, e);
      } else if |path| == 1 && sig.LeafTerminates? && a.kind.Delaying? && c.after == Some(AfterCommand) {
      } else {
        DeliverKeeps(c, path[1..], sig, w);
        DeliverWithin(c, path[1..], sig, w, e);
        WithChildWithin(a, i, Deliver(c, path[1..], sig, w).0, e);
      }
    }
  }

  // ----- a node and what is around it -----

  /** How often an owner has still to dispatch an event outside its child i. */
  function Beside(a: Action, i: nat, e: Event): nat
    requires i < |Children(a)|
  {
    match a.kind
    case External => 0
    case Waiting => 0
    case Delaying(c, _, current) => if current.value.after == Some(AfterDelay) then BodyCount(c.body, e) else 0
    case Scripting(slots, _, _, next, _) => SlotsCount(slots, next, e)
    case Gathering(actions) => ComingOf(actions[..i] + actions[i + 1..], e)
  }

  /** How often the tree has still to dispatch an event outside the node at a path. */
  function Around(a: Action, path: seq<nat>, e: Event): nat
    requires At(a, path).Some?
    decreases path
  {
    if path == [] then 0 else Beside(a, path[0], e) + Around(Children(a)[path[0]], path[1..], e)
  }

  /** Everything above the node at a path is pending. */
  predicate Held(a: Action, path: seq<nat>)
    requires At(a, path).Some?
    decreases path
  {
    path == [] || (a.state.Pending? && Held(Children(a)[path[0]], path[1..]))
  }

  /** Above a pending node everything is pending. */
  lemma {:induction false} PendingIsHeld(a: Action, path: seq<nat>)
    requires WellFormed(a) && At(a, path).Some? && At(a, path).value.state.Pending?
    ensures a.state.Pending? && Held(a, path)
    decreases path
  {
    if path != [] {
      var c := Children(a)[path[0]];
      assert c in Children(a);
      PendingIsHeld(c, path[1..]);
    }
  }

  lemma {:induction false} NodeIsWellFormed(a: Action, path: seq<nat>)
    requires WellFormed(a) && At(a, path).Some?
    ensures WellFormed(At(a, path).value)
    decreases path
  {
    if path != [] {
      var c := Children(a)[path[0]];
      assert c in Children(a);
      NodeIsWellFormed(c, path[1..]);
    }
  }

  lemma {:induction false} SlotsCountSplit(slots: seq<Slot>, i: nat, n: nat, e: Event)
    requires i <= n <= |slots|
    ensures SlotsCount(slots, i, e) == SlotsCount(slots[..n], i, e) + SlotsCount(slots, n, e)
    decreases n - i
  {
    if i < n {
      SlotsCountSplit(slots, i + 1, n, e);
    }
  }

  lemma {:induction false} SlotAndRestFit(slots: seq<Slot>, i: nat, n: nat, e: Event)
    requires i < n <= |slots|
    ensures SlotCount(slots[n - 1], e) + SlotsCount(slots, n, e) <= SlotsCount(slots, i, e)
    decreases n - i
  {
    if i + 1 < n {
      SlotAndRestFit(slots, i + 1, n, e);
    }
  }

  /** A tree has nothing more to dispatch than it has from its beginning to its end. */
  lemma {:induction false} ComingFits(a: Action, e: Event)
    requires WellFormed(a) && Within(a, e)
    ensures Coming(a, e) <= Total(a, e)
    decreases a, 0
  {
    if a.state.Pending? {
      match a.kind {
        case Delaying(c, _, current) =>
          assert current.value in Children(a);
          ComingFits(current.value, e);
        case Scripting(slots, _, _, next, step) =>
          assert step.value in Children(a);
          ComingFits(step.value, e);
          SlotAndRestFit(slots, 0, next, e);
        case Gathering(actions) => ComingOfFits(a, actions, e);
        case _ =>
      }
    }
  }

  lemma {:induction false} ComingOfFits(owner: Action, actions: seq<Action>, e: Event)
    requires forall c :: c in actions ==> c < owner && WellFormed(c) && Within(c, e)
    ensures ComingOf(actions, e) <= TotalOf(actions, e)
    decreases owner, 0, |actions|
  {
    if actions != [] {
      assert actions[0] in actions;
      ComingFits(actions[0], e);
      assert forall c :: c in actions[1..] ==> c in actions;
      ComingOfFits(owner, actions[1..], e);
    }
  }

  lemma ChildFits(a: Action, i: nat, e: Event)
    requires WellFormed(a) && Within(a, e) && a.state.Pending? && i < |Children(a)|
    ensures Coming(a, e) == Beside(a, i, e) + Coming(Children(a)[i], e)
    ensures Beside(a, i, e) + Total(Children(a)[i], e) <= Total(a, e)
  {
    match a.kind {
      case Delaying(_, _, _) => assert Children(a)[i] in Children(a);
      case Scripting(slots, _, _, next, _) => SlotAndRestFit(slots, 0, next, e);
      case Gathering(actions) =>
        ComingRemove(actions, i, e);
        TotalRemove(actions, i, e);
        assert forall c :: c in actions[..i] + actions[i + 1..] ==> c in Children(a);
        ComingOfFits(a, actions[..i] + actions[i + 1..], e);
    }
  }

  /**
   * What a node dispatches altogether and what is still to come around it fit into what the tree dispatches altogether.
   */
  lemma {:induction false} AroundFits(a: Action, path: seq<nat>, e: Event)
    requires WellFormed(a) && Within(a, e) && At(a, path).Some? && Held(a, path)
    ensures Coming(a, e) == Around(a, path, e) + Coming(At(a, path).value, e)
    ensures Around(a, path, e) + Total(At(a, path).value, e) <= Total(a, e)
    decreases path
  {
    hide Coming, Total, Beside;
    if path != [] {
      var c := Children(a)[path[0]];
      assert c in Children(a);
      AroundFits(c, path[1..], e);
      ChildFits(a, path[0], e);
    }
  }

  lemma HandsOverChild(a: Action, i: nat) returns (before: seq<Event>, after: seq<Event>)
    requires WellFormed(a) && a.state.Pending? && i < |Children(a)|
    ensures HandOvers(a) == before + HandOvers(Children(a)[i]) + after
  {
    before, after := [], [];
    match a.kind {
      case Delaying(_, _, _) =>
      case Scripting(slots, bailout, _, next, _) => after := HandOver(Remainder(slots, bailout, next));
      case Gathering(actions) =>
        HandOversSplit(actions, i);
        before, after := HandOversOf(actions[..i]), HandOversOf(actions[i + 1..]);
    }
  }

  /** What a node hands over is one stretch of what the tree hands over. */
  lemma {:induction false} HandsOverAt(a: Action, path: seq<nat>) returns (before: seq<Event>, after: seq<Event>)
    requires WellFormed(a) && At(a, path).Some? && Held(a, path)
    ensures HandOvers(a) == before + HandOvers(At(a, path).value) + after
    decreases path
  {
    hide HandOvers;
    before, after := [], [];
    if path != [] {
      var c := Children(a)[path[0]];
      assert c in Children(a);
      var first, last := HandsOverAt(c, path[1..]);
      before, after := HandsOverChild(a, path[0]);
      before, after := before + first, last + after;
    }
  }

  lemma {:induction false} HandOversSplit(actions: seq<Action>, i: nat)
    requires i < |actions|
    ensures HandOversOf(actions) == HandOversOf(actions[..i]) + HandOvers(actions[i]) + HandOversOf(actions[i + 1..])
  {
    if i > 0 {
      assert actions[..i][1..] == actions[1..][..i - 1];
      HandOversSplit(actions[1..], i - 1);
    }
  }
}
