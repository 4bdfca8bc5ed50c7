/** When an undisturbed tree of delays resolves. */
module RunTime {
  import opened Wrappers
  import opened Commands
  import opened Actions
  import opened Steps
  import opened Invariant
  import opened Clock

  // ----- the structural meaning of run time -----

  function CommandTime(c: Command, fast: bool): nat {
    (if fast then 0 else c.delay) + BodyTime(c.body, fast)
  }

  function BodyTime(b: Body, fast: bool): nat {
    match b
    case Instant => 0
    case Leaf => 0
    case Dead => 0
    case Script(slots, _) => TotalTime(slots, 0, fast)
    case Fork(branches) => LongestTime(branches, 0, fast)
  }

  function SlotTime(s: Slot, fast: bool): nat {
    match s
    case Null => 0
    case Away(_) => 0
    case Child(c) => CommandTime(c, fast)
    case Row(row, _) => TotalTime(row, 0, fast)
    case Join(branches) => LongestTime(branches, 0, fast)
  }

  function TotalTime(slots: seq<Slot>, n: nat, fast: bool): nat
    decreases slots, |slots| - n
  {
    if n >= |slots| then 0 else SlotTime(slots[n], fast) + TotalTime(slots, n + 1, fast)
  }

  function Max(x: nat, y: nat): nat {
    if x < y then y else x
  }

  function LongestTime(slots: seq<Slot>, n: nat, fast: bool): nat
    decreases slots, |slots| - n
  {
    if n >= |slots| then 0 else Max(SlotTime(slots[n], fast), LongestTime(slots, n + 1, fast))
  }

  // ----- commands whose only leaves are delays -----

  predicate TimedCommand(c: Command) {
    TimedBody(c.body)
  }

  predicate TimedBody(b: Body) {
    match b
    case Instant => true
    case Leaf => false
    case Dead => false
    case Script(slots, _) => TimedSlots(slots, 0)
    case Fork(branches) => TimedSlots(branches, 0)
  }

  predicate TimedSlot(s: Slot) {
    match s
    case Null => true
    case Away(_) => true
    case Child(c) => TimedCommand(c)
    case Row(row, _) => TimedSlots(row, 0)
    case Join(branches) => TimedSlots(branches, 0)
  }

  predicate TimedSlots(slots: seq<Slot>, n: nat)
    decreases slots, |slots| - n
  {
    n >= |slots| || (TimedSlot(slots[n]) && TimedSlots(slots, n + 1))
  }

  // ----- the same for a tree that is under way -----

  ghost predicate Timed(a: Action)
    decreases a
  {
    match a.kind
    case External => false
    case Waiting => true
    case Delaying(c, _, current) =>
      current.Some? ==> Timed(current.value) && (current.value.after == Some(AfterDelay) ==> TimedBody(c.body))
    case Scripting(slots, _, _, next, step) =>
      (step.Some? ==> Timed(step.value)) && TimedSlots(slots, next)
    case Gathering(actions) => forall c :: c in actions ==> Timed(c)
  }

  /** The time at which the continuation of a pending or resolved action will run. */
  function FinishTime(a: Action): nat
    decreases a
  {
    if a.timeout.Some? then a.timeout.value
    else
      match a.kind
      case External => 0
      case Waiting => 0
      case Delaying(c, fast, current) =>
        if current.None? then 0
        else FinishTime(current.value) + if current.value.after == Some(AfterDelay) then BodyTime(c.body, fast) else 0
      case Scripting(slots, _, fast, next, step) =>
        TotalTime(slots, next, fast) + if step.None? then 0 else FinishTime(step.value)
      case Gathering(actions) => LatestFinish(actions)
  }

  function LatestFinish(actions: seq<Action>): nat
    decreases actions
  {
    if actions == [] then 0
    else
      assert actions[0] in actions;
      Max(FinishTime(actions[0]), LatestFinish(actions[1..]))
  }

  /** The same, for an action that may have resolved at time `now` before it was given a continuation. */
  function EndOf(a: Action, now: nat): nat {
    if a.state.Pending? || a.timeout.Some? then FinishTime(a) else now
  }

  lemma LatestIsReached(actions: seq<Action>)
    ensures forall c :: c in actions ==> FinishTime(c) <= LatestFinish(actions)
    ensures actions != [] ==> exists c :: c in actions && FinishTime(c) == LatestFinish(actions)
  {
    if actions != [] {
      assert actions[0] in actions;
      LatestIsReached(actions[1..]);
      assert forall c :: c in actions ==> c == actions[0] || c in actions[1..];
      if actions[1..] != [] && LatestFinish(actions) != FinishTime(actions[0]) {
        var c :| c in actions[1..] && FinishTime(c) == LatestFinish(actions[1..]);
        assert c in actions;
      }
    }
  }

  lemma FinishRegister(a: Action, k: Then, now: nat)
    requires Made(a) && !a.state.Terminated? && Timed(a)
    ensures var r := Register(a, k, now);
            FinishTime(r) == EndOf(a, now) && Timed(r)
  {
  }

  // ----- creation -----

  lemma {:induction false} MakeDelayTime(c: Command, fast: bool, w: World)
    requires TimedCommand(c)
    ensures var (a, w1) := MakeDelay(c, fast, w);
            w1.now == w.now && Timed(a) && EndOf(a, w.now) == w.now + CommandTime(c, fast)
    decreases c, 1
  {
    if fast || c.delay == 0 {
      RunCommandTime(Fresh(Delaying(c, fast, None)), Prepare(c, Log(w, Started(c))));
    } else {
      var timer := MakeDelay(c, fast, w).0.kind.current.value;
      assert FinishTime(timer) == w.now + c.delay && Timed(timer);
    }
  }

  lemma {:induction false} RunCommandTime(a: Action, w: World)
    requires a.kind.Delaying? && a.kind.current.None? && a.state.Pending? && a.timeout.None?
    requires TimedBody(a.kind.command.body)
    ensures var (r, w1) := RunCommand(a, w);
            && w1.now == w.now && Timed(r)
            && EndOf(r, w.now) == w.now + BodyTime(a.kind.command.body, a.kind.fast)
    decreases a.kind.command, 0
  {
    var b := a.kind.command.body;
    ExecuteKeeps(b, a.kind.fast, w);
    ExecuteTime(b, a.kind.fast, w);
    var (child, w1) := Execute(b, a.kind.fast, w);
    if child.Some? && !child.value.state.Resolved? {
      FinishRegister(child.value, AfterCommand, w1.now);
    }
  }

  lemma {:induction false} ExecuteTime(b: Body, fast: bool, w: World)
    requires TimedBody(b)
    ensures var (r, w1) := Execute(b, fast, w);
            && w1.now == w.now
            && (r.Some? ==> Timed(r.value) && EndOf(r.value, w.now) == w.now + BodyTime(b, fast))
            && (r.None? ==> BodyTime(b, fast) == 0)
    decreases b, 0
  {
    match b {
      case Script(slots, bailout) => MakeScriptTime(slots, bailout, fast, w);
      case Fork(branches) => StartBranchesTime(branches, fast, w);
      case _ =>
    }
  }

  lemma {:induction false} MakeScriptTime(slots: seq<Slot>, bailout: Bailout, fast: bool, w: World)
    requires TimedSlots(slots, 0)
    ensures var (a, w1) := MakeScript(slots, bailout, fast, w);
            w1.now == w.now && Timed(a) && EndOf(a, w.now) == w.now + TotalTime(slots, 0, fast)
    decreases slots, |slots| + 1
  {
    AdvanceTime(Fresh(Scripting(slots, bailout, fast, 0, None)), w);
  }

  lemma {:induction false} AdvanceTime(a: Action, w: World)
    requires a.kind.Scripting? && a.kind.next <= |a.kind.slots| && a.kind.step.None?
    requires a.state.Pending? && a.timeout.None? && TimedSlots(a.kind.slots, a.kind.next)
    ensures var (r, w1) := Advance(a, w);
            && w1.now == w.now && Timed(r)
            && EndOf(r, w.now) == w.now + TotalTime(a.kind.slots, a.kind.next, a.kind.fast)
    decreases a.kind.slots, |a.kind.slots| - a.kind.next
  {
    var k := a.kind;
    if k.next < |k.slots| {
      StartSlotKeeps(k.slots[k.next], k.fast, w);
      StartSlotTime(k.slots[k.next], k.fast, w);
      var (child, w1) := StartSlot(k.slots[k.next], k.fast, w);
      if child.None? {
        AdvanceTime(a.(kind := k.(next := k.next + 1)), w1);
      } else {
        FinishRegister(child.value, AfterStep, w1.now);
      }
    }
  }

  lemma {:induction false} StartSlotTime(s: Slot, fast: bool, w: World)
    requires TimedSlot(s)
    ensures var (r, w1) := StartSlot(s, fast, w);
            && w1.now == w.now
            && (r.Some? ==> Timed(r.value) && EndOf(r.value, w.now) == w.now + SlotTime(s, fast))
            && (r.None? ==> SlotTime(s, fast) == 0)
    decreases s, 0
  {
    match s {
      case Child(c) => MakeDelayTime(c, fast, w);
      case Row(row, bailout) => MakeScriptTime(row, bailout, fast, w);
      case Join(branches) => StartBranchesTime(branches, fast, w);
      case _ =>
    }
  }

  lemma {:induction false} StartBranchesTime(branches: seq<Slot>, fast: bool, w: World)
    requires TimedSlots(branches, 0)
    ensures var (r, w1) := StartBranches(branches, fast, w);
            && w1.now == w.now
            && (r.Some? ==> Timed(r.value) && EndOf(r.value, w.now) == w.now + LongestTime(branches, 0, fast))
            && (r.None? ==> LongestTime(branches, 0, fast) == 0)
    decreases branches, |branches| + 1
  {
    MakeBranchesTime(branches, 0, fast, w);
  }

  ghost predicate AllTimed(actions: seq<Action>) {
    forall c :: c in actions ==> Timed(c)
  }

  lemma {:induction false} MakeBranchesTime(branches: seq<Slot>, n: nat, fast: bool, w: World)
    requires n <= |branches| && TimedSlots(branches, n)
    ensures var (actions, w1) := MakeBranches(branches, n, fast, w);
            var all := RegisterAll(actions, AfterBranch, w.now);
            && w1.now == w.now && AllTimed(all)
            && (actions == [] ==> LongestTime(branches, n, fast) == 0)
            && (actions != [] ==> LatestFinish(all) == w.now + LongestTime(branches, n, fast))
    decreases branches, |branches| - n
  {
    if n < |branches| {
      StartSlotKeeps(branches[n], fast, w);
      StartSlotTime(branches[n], fast, w);
      var (child, w1) := StartSlot(branches[n], fast, w);
      MakeBranchesTime(branches, n + 1, fast, w1);
      if child.Some? {
        BranchesCons(child.value, MakeBranches(branches, n + 1, fast, w1).0, w.now);
      }
    }
  }

  lemma BranchesCons(a: Action, rest: seq<Action>, now: nat)
    requires Made(a) && !a.state.Terminated? && Timed(a)
    requires AllTimed(RegisterAll(rest, AfterBranch, now))
    ensures var all := RegisterAll([a] + rest, AfterBranch, now);
            AllTimed(all) && LatestFinish(all) == Max(EndOf(a, now), LatestFinish(RegisterAll(rest, AfterBranch, now)))
  {
    var all := RegisterAll([a] + rest, AfterBranch, now);
    assert all == [Register(a, AfterBranch, now)] + RegisterAll(rest, AfterBranch, now);
    FinishRegister(a, AfterBranch, now);
    assert all[1..] == RegisterAll(rest, AfterBranch, now);
  }

  // ----- firing a timer when it is due -----

  lemma {:induction false} FinishIsAhead(a: Action, now: nat)
    requires WellFormed(a) && Timed(a) && NoTimerBefore(a, now)
    requires a.state.Pending? || (a.state.Resolved? && a.after.Some?)
    ensures now <= FinishTime(a)
    decreases a
  {
    if a.timeout.None? {
      match a.kind {
        case Delaying(_, _, current) =>
          assert current.value in Children(a);
          FinishIsAhead(current.value, now);
        case Scripting(_, _, _, _, step) =>
          assert step.value in Children(a);
          FinishIsAhead(step.value, now);
        case Gathering(actions) =>
          assert actions[0] in actions;
          FinishIsAhead(actions[0], now);
          LatestIsReached(actions);
      }
    }
  }

  /** A branch that finishes now leaves behind only branches that finish now or later. */
  lemma LatestOfRest(actions: seq<Action>, i: nat, now: nat)
    requires i < |actions| && FinishTime(actions[i]) == now
    requires forall c :: c in actions ==> now <= FinishTime(c)
    ensures var rest := actions[..i] + actions[i + 1..];
            LatestFinish(actions) == if rest == [] then now else LatestFinish(rest)
  {
    var rest := actions[..i] + actions[i + 1..];
    assert forall d :: d in rest ==> d in actions;
    LatestIsReached(actions);
    LatestIsReached(rest);
    forall d | d in actions ensures d in rest || FinishTime(d) == now {
      var j :| 0 <= j < |actions| && actions[j] == d;
      if j != i { assert rest[if j < i then j else j - 1] == d; }
    }
    if rest != [] {
      assert rest[0] in actions;
    }
  }

  lemma ContinueGatheringTime(a: Action, i: nat, w: World)
    requires WellFormed(a) && Timed(a) && NoTimerBefore(a, w.now) && a.state.Pending? && a.kind.Gathering?
    requires i < |Children(a)| && Children(a)[i].state.Resolved? && Children(a)[i].timeout == Some(w.now)
    ensures var (r, w1) := Continue(a, i, w);
            w1.now == w.now && Timed(r) && EndOf(r, w.now) == FinishTime(a)
  {
    var actions := a.kind.actions;
    forall d | d in actions ensures w.now <= FinishTime(d) {
      FinishIsAhead(d, w.now);
    }
    LatestOfRest(actions, i, w.now);
    assert forall d :: d in actions[..i] + actions[i + 1..] ==> d in actions;
  }

  lemma ContinueTime(a: Action, i: nat, w: World)
    requires WellFormed(a) && Timed(a) && NoTimerBefore(a, w.now) && a.state.Pending?
    requires i < |Children(a)| && Children(a)[i].state.Resolved? && Children(a)[i].timeout == Some(w.now)
    ensures var (r, w1) := Continue(a, i, w);
            w1.now == w.now && Timed(r) && EndOf(r, w.now) == FinishTime(a)
  {
    assert Children(a)[i] in Children(a);
    match a.kind {
      case Delaying(_, _, current) =>
        if current.value.after == Some(AfterDelay) {
          RunCommandTime(WithoutChild(a, i), w);
        }
      case Scripting(_, _, _, _, _) => AdvanceTime(WithoutChild(a, i), w);
      case Gathering(actions) => ContinueGatheringTime(a, i, w);
    }
  }

  lemma {:induction false} LatestUpdate(actions: seq<Action>, i: nat, c: Action)
    requires i < |actions| && FinishTime(c) == FinishTime(actions[i])
    ensures LatestFinish(actions[i := c]) == LatestFinish(actions)
  {
    if i > 0 {
      assert actions[i := c][1..] == actions[1..][i - 1 := c];
      LatestUpdate(actions[1..], i - 1, c);
    } else {
      assert actions[i := c][1..] == actions[1..];
    }
  }

  /** Firing a timer at its due time does not move the time at which the tree finishes. */
  lemma {:induction false} FireKeepsTime(a: Action, path: seq<nat>, w: World)
    requires WellFormed(a) && Timed(a) && CursorsInRange(a)
    requires Deliverable(a, path, TimerFires) && At(a, path).value.timeout == Some(w.now)
    requires NoTimerBefore(a, w.now)
    requires path == [] ==> a.state.Pending?
    ensures var (r, w1) := Deliver(a, path, TimerFires, w);
            && w1.now == w.now && Timed(r) && EndOf(r, w.now) == FinishTime(a)
            && (a.after.Some? ==> FinishTime(r) == FinishTime(a))
    decreases path
  {
    DeliverKeeps(a, path, TimerFires, w);
    if path == [] {
      assert Children(a) == [];
    } else {
      if !a.state.Pending? { FinishedIsDeaf(a, path, TimerFires); }
      var i := path[0];
      var c := Children(a)[i];
      assert c in Children(a);
      assert |path| == 1 ==> path[1..] == [] && At(a, path) == Some(c);
      if |path| == 1 && c.state.Resolved? {
        ContinueTime(a, i, w);
      } else {
        FireKeepsTime(c, path[1..], w);
        DeliverKeeps(c, path[1..], TimerFires, w);
        if a.kind.Gathering? {
          LatestUpdate(a.kind.actions, i, Deliver(c, path[1..], TimerFires, w).0);
        }
      }
    }
  }

  lemma FastTakesNoTime(c: Command)
    ensures CommandTime(c, true) == 0
    decreases c, 1
  {
    match c.body {
      case Script(slots, _) => FastSlotsTakeNoTime(slots, 0);
      case Fork(branches) => FastSlotsTakeNoTime(branches, 0);
      case _ =>
    }
  }

  lemma FastSlotsTakeNoTime(slots: seq<Slot>, n: nat)
    ensures TotalTime(slots, n, true) == 0 && LongestTime(slots, n, true) == 0
    decreases slots, |slots| - n
  {
    if n < |slots| {
      match slots[n] {
        case Child(c) =>
          assert c < slots[n];
          FastTakesNoTime(c);
        case Row(row, _) => FastSlotsTakeNoTime(row, 0);
        case Join(branches) => FastSlotsTakeNoTime(branches, 0);
        case _ =>
      }
      FastSlotsTakeNoTime(slots, n + 1);
    }
  }
}
