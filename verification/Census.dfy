/** No command is lost or doubled, whatever the interleaving: dispatched plus still to come is constant. */
module Census {
  import opened Wrappers
  import opened Commands
  import opened Actions
  import opened Steps
  import opened Invariant

  // ----- how often a command dispatches an event -----

  function One(d: Event, e: Event): nat {
    if d == e then 1 else 0
  }

  function CommandCount(c: Command, e: Event): nat {
    One(Started(c), e) + BodyCount(c.body, e)
  }

  function BodyCount(b: Body, e: Event): nat {
    match b
    case Instant => 0
    case Leaf => 0
    case Dead => 0
    case Script(slots, _) => SlotsCount(slots, 0, e)
    case Fork(branches) => SlotsCount(branches, 0, e)
  }

  function SlotCount(s: Slot, e: Event): nat {
    match s
    case Null => 0
    case Away(c) => One(SentAway(c), e)
    case Child(c) => CommandCount(c, e)
    case Row(row, _) => SlotsCount(row, 0, e)
    case Join(branches) => SlotsCount(branches, 0, e)
  }

  function SlotsCount(slots: seq<Slot>, n: nat, e: Event): nat
    decreases slots, |slots| - n
  {
    if n >= |slots| then 0 else SlotCount(slots[n], e) + SlotsCount(slots, n + 1, e)
  }

  /** How often a tree has still to dispatch it. */
  function Coming(a: Action, e: Event): nat
    decreases a
  {
    if !a.state.Pending? then 0
    else
      match a.kind
      case External => 0
      case Waiting => 0
      case Delaying(c, _, current) =>
        if current.None? then 0
        else Coming(current.value, e) + if current.value.after == Some(AfterDelay) then BodyCount(c.body, e) else 0
      case Scripting(slots, _, _, next, step) =>
        (if step.None? then 0 else Coming(step.value, e)) + SlotsCount(slots, next, e)
      case Gathering(actions) => ComingOf(actions, e)
  }

  function ComingOf(actions: seq<Action>, e: Event): nat
    decreases actions
  {
    if actions == [] then 0
    else
      assert actions[0] in actions;
      Coming(actions[0], e) + ComingOf(actions[1..], e)
  }

  /** How often it has been dispatched. */
  function Logged(w: World, e: Event): nat {
    multiset(w.log)[e]
  }

  lemma LogCounts(w: World, d: Event, e: Event)
    ensures Logged(Log(w, d), e) == Logged(w, e) + One(d, e)
  {
  }

  lemma {:induction false} ComingUpdate(actions: seq<Action>, i: nat, c: Action, e: Event)
    requires i < |actions|
    ensures ComingOf(actions[i := c], e) == ComingOf(actions, e) - Coming(actions[i], e) + Coming(c, e)
  {
    if i > 0 {
      assert actions[i := c][1..] == actions[1..][i - 1 := c];
      ComingUpdate(actions[1..], i - 1, c, e);
    } else {
      assert actions[i := c][1..] == actions[1..];
    }
  }

  lemma {:induction false} ComingRemove(actions: seq<Action>, i: nat, e: Event)
    requires i < |actions|
    ensures ComingOf(actions[..i] + actions[i + 1..], e) == ComingOf(actions, e) - Coming(actions[i], e)
  {
    var rest := actions[..i] + actions[i + 1..];
    if i > 0 {
      assert rest[0] == actions[0] && rest[1..] == actions[1..][..i - 1] + actions[1..][i..];
      ComingRemove(actions[1..], i - 1, e);
    } else {
      assert rest == actions[1..];
    }
  }

  lemma ComingRegister(a: Action, k: Then, now: nat, e: Event)
    ensures Coming(Register(a, k, now), e) == Coming(a, e)
  {
  }

  lemma {:induction false} ComingRegisterAll(actions: seq<Action>, k: Then, now: nat, e: Event)
    ensures ComingOf(RegisterAll(actions, k, now), e) == ComingOf(actions, e)
  {
    if actions != [] {
      assert RegisterAll(actions, k, now)[1..] == RegisterAll(actions[1..], k, now);
      ComingRegister(actions[0], k, now, e);
      ComingRegisterAll(actions[1..], k, now, e);
    }
  }

  // ----- creation -----

  lemma {:induction false} MakeDelayCensus(c: Command, fast: bool, w: World, e: Event)
    ensures var (a, w1) := MakeDelay(c, fast, w);
            Logged(w1, e) + Coming(a, e) == Logged(w, e) + CommandCount(c, e)
    decreases c, 1
  {
    LogCounts(w, Started(c), e);
    if fast || c.delay == 0 {
      RunCommandCensus(Fresh(Delaying(c, fast, None)), Prepare(c, Log(w, Started(c))), e);
    }
  }

  lemma {:induction false} RunCommandCensus(a: Action, w: World, e: Event)
    requires a.kind.Delaying? && a.kind.current.None? && a.state.Pending?
    ensures var (r, w1) := RunCommand(a, w);
            Logged(w1, e) + Coming(r, e) == Logged(w, e) + BodyCount(a.kind.command.body, e)
    decreases a.kind.command, 0
  {
    var b := a.kind.command.body;
    ExecuteKeeps(b, a.kind.fast, w);
    ExecuteCensus(b, a.kind.fast, w, e);
    var (child, w1) := Execute(b, a.kind.fast, w);
    if child.Some? {
      ComingRegister(child.value, AfterCommand, w1.now, e);
    }
  }

  lemma {:induction false} ExecuteCensus(b: Body, fast: bool, w: World, e: Event)
    ensures var (r, w1) := Execute(b, fast, w);
            Logged(w1, e) + ComingFrom(r, e) == Logged(w, e) + BodyCount(b, e)
    decreases b, 0
  {
    match b {
      case Script(slots, bailout) => MakeScriptCensus(slots, bailout, fast, w, e);
      case Fork(branches) => StartBranchesCensus(branches, fast, w, e);
      case _ =>
    }
  }

  lemma {:induction false} MakeScriptCensus(slots: seq<Slot>, bailout: Bailout, fast: bool, w: World, e: Event)
    ensures var (a, w1) := MakeScript(slots, bailout, fast, w);
            Logged(w1, e) + Coming(a, e) == Logged(w, e) + SlotsCount(slots, 0, e)
    decreases slots, |slots| + 1
  {
    AdvanceCensus(Fresh(Scripting(slots, bailout, fast, 0, None)), w, e);
  }

  lemma {:induction false} AdvanceCensus(a: Action, w: World, e: Event)
    requires a.kind.Scripting? && a.kind.next <= |a.kind.slots| && a.kind.step.None? && a.state.Pending?
    ensures var (r, w1) := Advance(a, w);
            Logged(w1, e) + Coming(r, e) == Logged(w, e) + SlotsCount(a.kind.slots, a.kind.next, e)
    decreases a.kind.slots, |a.kind.slots| - a.kind.next
  {
    hide StartSlot, Logged, SlotCount;
    var k := a.kind;
    if k.next < |k.slots| {
      StartSlotCensus(k.slots[k.next], k.fast, w, e);
      var (child, w1) := StartSlot(k.slots[k.next], k.fast, w);
      if child.None? {
        AdvanceCensus(a.(kind := k.(next := k.next + 1)), w1, e);
      } else {
        ComingRegister(child.value, AfterStep, w1.now, e);
      }
    }
  }

  function ComingFrom(a: Option<Action>, e: Event): nat {
    if a.None? then 0 else Coming(a.value, e)
  }

  lemma {:induction false} StartSlotCensus(s: Slot, fast: bool, w: World, e: Event)
    ensures var (r, w1) := StartSlot(s, fast, w);
            Logged(w1, e) + ComingFrom(r, e) == Logged(w, e) + SlotCount(s, e)
    decreases s, 0
  {
    match s {
      case Null =>
      case Away(c) => LogCounts(w, SentAway(c), e);
      case Child(c) => MakeDelayCensus(c, fast, w, e);
      case Row(row, bailout) => MakeScriptCensus(row, bailout, fast, w, e);
      case Join(branches) => StartBranchesCensus(branches, fast, w, e);
    }
  }

  lemma {:induction false} StartBranchesCensus(branches: seq<Slot>, fast: bool, w: World, e: Event)
    ensures var (r, w1) := StartBranches(branches, fast, w);
            Logged(w1, e) + ComingFrom(r, e) == Logged(w, e) + SlotsCount(branches, 0, e)
    decreases branches, |branches| + 1
  {
    MakeBranchesCensus(branches, 0, fast, w, e);
    var (actions, w1) := MakeBranches(branches, 0, fast, w);
    ComingRegisterAll(actions, AfterBranch, w1.now, e);
  }

  lemma {:induction false} MakeBranchesCensus(branches: seq<Slot>, n: nat, fast: bool, w: World, e: Event)
    requires n <= |branches|
    ensures var (actions, w1) := MakeBranches(branches, n, fast, w);
            Logged(w1, e) + ComingOf(actions, e) == Logged(w, e) + SlotsCount(branches, n, e)
    decreases branches, |branches| - n
  {
    if n < |branches| {
      var (child, w1) := StartSlot(branches[n], fast, w);
      StartSlotCensus(branches[n], fast, w, e);
      MakeBranchesCensus(branches, n + 1, fast, w1, e);
      var rest := MakeBranches(branches, n + 1, fast, w1).0;
      assert child.Some? ==> ([child.value] + rest)[1..] == rest;
    }
  }

  // ----- delivery -----

  lemma ContinueCensus(a: Action, i: nat, w: World, e: Event)
    requires WellFormed(a) && a.state.Pending? && i < |Children(a)| && Children(a)[i].state.Resolved?
    ensures var (r, w1) := Continue(a, i, w); Logged(w1, e) + Coming(r, e) == Logged(w, e) + Coming(a, e)
  {
    hide Advance, RunCommand;
    assert Children(a)[i] in Children(a);
    match a.kind {
      case Delaying(_, _, current) =>
        if current.value.after == Some(AfterDelay) {
          RunCommandCensus(WithoutChild(a, i), w, e);
        }
      case Scripting(_, _, _, _, _) => AdvanceCensus(WithoutChild(a, i), w, e);
      case Gathering(actions) => ComingRemove(actions, i, e);
    }
  }

  lemma WithChildCensus(a: Action, i: nat, c: Action, e: Event)
    requires WellFormed(a) && a.state.Pending? && i < |Children(a)| && SameRole(c, Children(a)[i])
    ensures Coming(WithChild(a, i, c), e) == Coming(a, e) - Coming(Children(a)[i], e) + Coming(c, e)
  {
    if a.kind.Gathering? {
      ComingUpdate(a.kind.actions, i, c, e);
    }
  }

  /** Whatever signal arrives, dispatched plus still to come stays the same, event by event. */
  lemma {:induction false} DeliverCensus(a: Action, path: seq<nat>, sig: Signal, w: World, e: Event)
    requires WellFormed(a) && Deliverable(a, path, sig) && CursorsInRange(a)
    requires path == [] && sig.TimerFires? ==> a.state.Pending?
    ensures var (r, w1) := Deliver(a, path, sig, w); Logged(w1, e) + Coming(r, e) == Logged(w, e) + Coming(a, e)
    decreases path
  {
    if path != [] {
      if !a.state.Pending? { FinishedIsDeaf(a, path, sig); }
      var i := path[0];
      var c := Children(a)[i];
      assert c in Children(a);
      assert |path| == 1 ==> path[1..] == [] && At(a, path) == Some(c);
      if |path| == 1 && sig.TimerFires? && c.state.Resolved? {
        ContinueCensus(a, i, w, e);
      } else if |path| == 1 && sig.LeafTerminates? && a.kind.Delaying? && c.after == Some(AfterCommand) {
      } else {
        DeliverKeeps(c, path[1..], sig, w);
        DeliverCensus(c, path[1..], sig, w, e);
        WithChildCensus(a, i, Deliver(c, path[1..], sig, w).0, e);
      }
    }
  }
}
