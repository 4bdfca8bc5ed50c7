/** Timers are never scheduled in the past, and there is always one that may fire next. */
module Clock {
  import opened Wrappers
  import opened Commands
  import opened Actions
  import opened Steps
  import opened Invariant

  /** No timer of the tree is due before t. */
  ghost predicate NoTimerBefore(a: Action, t: nat)
    decreases a
  {
    && (a.timeout.Some? ==> t <= a.timeout.value)
    && forall c :: c in Children(a) ==> NoTimerBefore(c, t)
  }

  lemma RegisterClock(a: Action, k: Then, now: nat)
    requires NoTimerBefore(a, now)
    ensures NoTimerBefore(Register(a, k, now), now)
  {
  }

  // ----- creation -----

  lemma {:induction false} MakeDelayClock(c: Command, fast: bool, w: World)
    ensures var (a, w1) := MakeDelay(c, fast, w); w1.now == w.now && NoTimerBefore(a, w.now)
    decreases c, 1
  {
    if fast || c.delay == 0 {
      RunCommandClock(Fresh(Delaying(c, fast, None)), Prepare(c, Log(w, Started(c))));
    } else {
      assert NoTimerBefore(MakeDelay(c, fast, w).0.kind.current.value, w.now);
    }
  }

  lemma {:induction false} RunCommandClock(a: Action, w: World)
    requires a.kind.Delaying? && a.timeout.None?
    ensures var (r, w1) := RunCommand(a, w); w1.now == w.now && NoTimerBefore(r, w.now)
    decreases a.kind.command, 0
  {
    var (child, w1) := Execute(a.kind.command.body, a.kind.fast, w);
    ExecuteClock(a.kind.command.body, a.kind.fast, w);
    if child.Some? {
      RegisterClock(child.value, AfterCommand, w1.now);
    }
  }

  lemma {:induction false} ExecuteClock(b: Body, fast: bool, w: World)
    ensures var (r, w1) := Execute(b, fast, w); w1.now == w.now && (r.Some? ==> NoTimerBefore(r.value, w.now))
    decreases b, 0
  {
    match b {
      case Script(slots, bailout) => MakeScriptClock(slots, bailout, fast, w);
      case Fork(branches) => StartBranchesClock(branches, fast, w);
      case _ =>
    }
  }

  lemma {:induction false} MakeScriptClock(slots: seq<Slot>, bailout: Bailout, fast: bool, w: World)
    ensures var (a, w1) := MakeScript(slots, bailout, fast, w); w1.now == w.now && NoTimerBefore(a, w.now)
    decreases slots, |slots| + 1
  {
    AdvanceClock(Fresh(Scripting(slots, bailout, fast, 0, None)), w);
  }

  lemma {:induction false} AdvanceClock(a: Action, w: World)
    requires a.kind.Scripting? && a.kind.next <= |a.kind.slots| && a.kind.step.None? && a.timeout.None?
    ensures var (r, w1) := Advance(a, w); w1.now == w.now && NoTimerBefore(r, w.now)
    decreases a.kind.slots, |a.kind.slots| - a.kind.next
  {
    var k := a.kind;
    if !a.state.Terminated? && k.next < |k.slots| {
      StartSlotClock(k.slots[k.next], k.fast, w);
      var (child, w1) := StartSlot(k.slots[k.next], k.fast, w);
      if child.None? {
        AdvanceClock(a.(kind := k.(next := k.next + 1)), w1);
      } else {
        RegisterClock(child.value, AfterStep, w1.now);
      }
    }
  }

  lemma {:induction false} StartSlotClock(s: Slot, fast: bool, w: World)
    ensures var (r, w1) := StartSlot(s, fast, w); w1.now == w.now && (r.Some? ==> NoTimerBefore(r.value, w.now))
    decreases s, 0
  {
    match s {
      case Child(c) => MakeDelayClock(c, fast, w);
      case Row(row, bailout) => MakeScriptClock(row, bailout, fast, w);
      case Join(branches) => StartBranchesClock(branches, fast, w);
      case _ =>
    }
  }

  lemma {:induction false} StartBranchesClock(branches: seq<Slot>, fast: bool, w: World)
    ensures var (r, w1) := StartBranches(branches, fast, w);
            w1.now == w.now && (r.Some? ==> NoTimerBefore(r.value, w.now))
    decreases branches, |branches| + 1
  {
    MakeBranchesClock(branches, 0, fast, w);
    var (actions, w1) := MakeBranches(branches, 0, fast, w);
    forall c | c in RegisterAll(actions, AfterBranch, w1.now) ensures NoTimerBefore(c, w.now) {
      var i :| 0 <= i < |actions| && c == Register(actions[i], AfterBranch, w1.now);
      RegisterClock(actions[i], AfterBranch, w1.now);
    }
  }

  lemma {:induction false} MakeBranchesClock(branches: seq<Slot>, n: nat, fast: bool, w: World)
    requires n <= |branches|
    ensures var (actions, w1) := MakeBranches(branches, n, fast, w);
            w1.now == w.now && forall a :: a in actions ==> NoTimerBefore(a, w.now)
    decreases branches, |branches| - n
  {
    if n < |branches| {
      StartSlotClock(branches[n], fast, w);
      MakeBranchesClock(branches, n + 1, fast, StartSlot(branches[n], fast, w).1);
    }
  }

  // ----- delivery -----

  lemma ContinueClock(a: Action, i: nat, w: World)
    requires WellFormed(a) && a.state.Pending? && i < |Children(a)| && Children(a)[i].state.Resolved?
    requires NoTimerBefore(a, w.now)
    ensures var (r, w1) := Continue(a, i, w); w1.now == w.now && NoTimerBefore(r, w.now)
  {
    assert Children(a)[i] in Children(a);
    match a.kind {
      case Delaying(_, _, current) =>
        if current.value.after == Some(AfterDelay) {
          RunCommandClock(WithoutChild(a, i), w);
        }
      case Scripting(_, _, _, _, _) => AdvanceClock(WithoutChild(a, i), w);
      case Gathering(actions) =>
        assert forall d :: d in actions[..i] + actions[i + 1..] ==> d in actions;
    }
  }

  /** No signal schedules anything in the past. */
  lemma {:induction false} DeliverClock(a: Action, path: seq<nat>, sig: Signal, w: World)
    requires WellFormed(a) && Deliverable(a, path, sig) && CursorsInRange(a)
    requires path == [] && sig.TimerFires? ==> a.state.Pending?
    requires NoTimerBefore(a, w.now)
    ensures var (r, w1) := Deliver(a, path, sig, w); w1.now == w.now && NoTimerBefore(r, w.now)
    decreases path
  {
    if path == [] {
      assert Children(Own(a, sig, w.now)) == Children(a);
    } else {
      if !a.state.Pending? { FinishedIsDeaf(a, path, sig); }
      var i := path[0];
      var c := Children(a)[i];
      assert c in Children(a);
      assert |path| == 1 ==> path[1..] == [] && At(a, path) == Some(c);
      if |path| == 1 && sig.TimerFires? && c.state.Resolved? {
        ContinueClock(a, i, w);
      } else if |path| == 1 && sig.LeafTerminates? && a.kind.Delaying? && c.after == Some(AfterCommand) {
      } else {
        DeliverClock(c, path[1..], sig, w);
        var c' := Deliver(c, path[1..], sig, w).0;
        forall d | d in Children(WithChild(a, i, c')) ensures NoTimerBefore(d, w.now) {
          assert d == c' || d in Children(a);
        }
      }
    }
  }

  // ----- the next timer -----

  predicate TimerAt(a: Action, path: seq<nat>, due: nat) {
    At(a, path).Some? && At(a, path).value.timeout == Some(due)
  }

  lemma {:induction false} EarlierTimer(a: Action, t: nat) returns (path: seq<nat>, due: nat)
    requires !NoTimerBefore(a, t)
    ensures TimerAt(a, path, due) && due < t
    decreases a
  {
    if a.timeout.Some? && a.timeout.value < t {
      path, due := [], a.timeout.value;
    } else {
      var c :| c in Children(a) && !NoTimerBefore(c, t);
      var i :| 0 <= i < |Children(a)| && Children(a)[i] == c;
      var p;
      p, due := EarlierTimer(c, t);
      path := [i] + p;
      assert path[1..] == p;
    }
  }

  /** If any timer is scheduled, one of them is due no later than all the others. */
  lemma {:induction false} EarliestTimer(a: Action, path: seq<nat>, due: nat) returns (first: seq<nat>, t: nat)
    requires TimerAt(a, path, due)
    ensures TimerAt(a, first, t) && NoTimerBefore(a, t)
    decreases due
  {
    if NoTimerBefore(a, due) {
      first, t := path, due;
    } else {
      var p, d := EarlierTimer(a, due);
      first, t := EarliestTimer(a, p, d);
    }
  }
}
