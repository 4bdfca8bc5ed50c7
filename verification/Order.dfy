/**
 * The order of what is dispatched, with other branches running beside it: events that at each makeAll only one branch
 * dispatches come in the order of the flat list.
 */
module Order {
  import opened Wrappers
  import opened Commands
  import opened Actions
  import opened Steps
  import opened Invariant
  import opened Dispatch
  import Census
  import Attribution

  /** The events of a list that are in a set. */
  ghost function Only(list: seq<Event>, es: iset<Event>): seq<Event> {
    if list == [] then [] else (if list[0] in es then [list[0]] else []) + Only(list[1..], es)
  }

  lemma Regroup(x: seq<Event>, y: seq<Event>, z: seq<Event>)
    ensures x + (y + z) == (x + y) + z
  {
  }

  lemma {:induction false} OnlyOfBoth(x: seq<Event>, y: seq<Event>, es: iset<Event>)
    ensures Only(x + y, es) == Only(x, es) + Only(y, es)
  {
    if x == [] {
      assert x + y == y;
    } else {
      assert (x + y)[0] == x[0] && (x + y)[1..] == x[1..] + y;
      OnlyOfBoth(x[1..], y, es);
      Regroup(if x[0] in es then [x[0]] else [], Only(x[1..], es), Only(y, es));
    }
  }

  lemma {:induction false} OnlyOfAll(list: seq<Event>, es: iset<Event>)
    requires forall e :: e in list ==> e in es
    ensures Only(list, es) == list
  {
    if list != [] {
      OnlyOfAll(list[1..], es);
    }
  }

  // ----- what has been dispatched of a list -----

  /** While the log grows from `log` to `log1`, the events of `list` are dispatched in order, up to `rest`. */
  ghost predicate Dispatches(log: seq<Event>, list: seq<Event>, log1: seq<Event>, rest: seq<Event>, es: iset<Event>) {
    log <= log1 && Only(log1, es) + Only(rest, es) == Only(log, es) + Only(list, es)
  }

  lemma Same(log: seq<Event>, list: seq<Event>, es: iset<Event>)
    ensures Dispatches(log, list, log, list, es)
  {
  }

  /** What comes after the list stays what it is. */
  lemma WithTail(log: seq<Event>, list: seq<Event>, log1: seq<Event>, rest: seq<Event>, tail: seq<Event>,
                 es: iset<Event>)
    requires Dispatches(log, list, log1, rest, es)
    ensures Dispatches(log, list + tail, log1, rest + tail, es)
  {
    OnlyOfBoth(list, tail, es);
    OnlyOfBoth(rest, tail, es);
    Regroup(Only(log1, es), Only(rest, es), Only(tail, es));
    Regroup(Only(log, es), Only(list, es), Only(tail, es));
  }

  lemma OneAfterTheOther(log: seq<Event>, first: seq<Event>, log1: seq<Event>, second: seq<Event>, log2: seq<Event>,
                         rest: seq<Event>, es: iset<Event>)
    requires Dispatches(log, first, log1, [], es) && Dispatches(log1, second, log2, rest, es)
    ensures Dispatches(log, first + second, log2, rest, es)
  {
    OnlyOfBoth(first, second, es);
    Regroup(Only(log, es), Only(first, es), Only(second, es));
    assert Only(log1, es) + Only([], es) == Only(log1, es);
  }

  /** A part that has nothing of the set to dispatch leaves the events of the set alone. */
  lemma NothingOfIt(log: seq<Event>, list: seq<Event>, log1: seq<Event>, rest: seq<Event>, es: iset<Event>)
    requires Dispatches(log, list, log1, rest, es) && Only(list, es) == []
    ensures Only(rest, es) == [] && Only(log1, es) == Only(log, es)
  {
    var added := log1[|log|..];
    assert log1 == log + added;
    OnlyOfBoth(log, added, es);
    assert |Only(log, es)| + |Only(added, es)| + |Only(rest, es)| == |Only(log, es)|;
  }

  /** Of two parts that run side by side at most one has events of the set to dispatch. */
  lemma SideBySide(log: seq<Event>, first: seq<Event>, log1: seq<Event>, rest1: seq<Event>,
                   second: seq<Event>, log2: seq<Event>, rest2: seq<Event>, es: iset<Event>)
    requires Dispatches(log, first, log1, rest1, es) && Dispatches(log1, second, log2, rest2, es)
    requires Only(first, es) == [] || Only(second, es) == []
    ensures Dispatches(log, first + second, log2, rest1 + rest2, es)
    ensures Only(rest1, es) == [] || Only(rest2, es) == []
  {
    hide Only;
    OnlyOfBoth(first, second, es);
    OnlyOfBoth(rest1, rest2, es);
    if Only(first, es) == [] {
      NothingOfIt(log, first, log1, rest1, es);
      assert [] + Only(second, es) == Only(second, es) && [] + Only(rest2, es) == Only(rest2, es);
    } else {
      NothingOfIt(log1, second, log2, rest2, es);
      assert Only(first, es) + [] == Only(first, es) && Only(rest1, es) + [] == Only(rest1, es);
    }
  }

  // ----- commands that dispatch the events of a set in order -----

  ghost predicate CommandInOrder(c: Command, es: iset<Event>) {
    BodyInOrder(c.body, es)
  }

  ghost predicate BodyInOrder(b: Body, es: iset<Event>) {
    match b
    case Instant => true
    case Leaf => true
    case Dead => true
    case Script(slots, _) => SlotsInOrder(slots, 0, es)
    case Fork(branches) => SlotsInOrder(branches, 0, es) && OneBranch(branches, 0, es)
  }

  ghost predicate SlotInOrder(s: Slot, es: iset<Event>) {
    match s
    case Null => true
    case Away(_) => true
    case Child(c) => CommandInOrder(c, es)
    case Row(row, _) => SlotsInOrder(row, 0, es)
    case Join(branches) => SlotsInOrder(branches, 0, es) && OneBranch(branches, 0, es)
  }

  ghost predicate SlotsInOrder(slots: seq<Slot>, n: nat, es: iset<Event>)
    decreases slots, |slots| - n
  {
    n >= |slots| || (SlotInOrder(slots[n], es) && SlotsInOrder(slots, n + 1, es))
  }

  /** At most one of the branches from n on dispatches events of the set. */
  ghost predicate OneBranch(branches: seq<Slot>, n: nat, es: iset<Event>)
    decreases |branches| - n
  {
    n >= |branches|
    || (&& OneBranch(branches, n + 1, es)
        && (Only(SlotTrace(branches[n]), es) == [] || Only(SlotsTrace(branches, n + 1), es) == []))
  }

  ghost predicate InOrder(a: Action, es: iset<Event>)
    decreases a
  {
    && (match a.kind
        case Delaying(c, _, _) => CommandInOrder(c, es)
        case Scripting(slots, _, _, next, _) => SlotsInOrder(slots, next, es)
        case Gathering(actions) => OneMember(actions, es)
        case _ => true)
    && forall c :: c in Children(a) ==> InOrder(c, es)
  }

  /** At most one of the members of a makeAll has events of the set to dispatch. */
  ghost predicate OneMember(actions: seq<Action>, es: iset<Event>) {
    actions == []
    || (&& OneMember(actions[1..], es)
        && (Only(Ahead(actions[0]), es) == [] || Only(AheadOfAll(actions[1..]), es) == []))
  }

  /** A command that runs one thing at a time dispatches any events in order. */
  lemma {:induction false} SerialIsInOrder(c: Command, es: iset<Event>)
    requires SerialCommand(c)
    ensures CommandInOrder(c, es)
    decreases c, 1
  {
    if c.body.Script? {
      SerialSlotsAreInOrder(c.body.slots, 0, es);
    }
  }

  lemma {:induction false} SerialSlotsAreInOrder(slots: seq<Slot>, n: nat, es: iset<Event>)
    requires SerialSlots(slots, n)
    ensures SlotsInOrder(slots, n, es)
    decreases slots, |slots| - n
  {
    if n < |slots| {
      match slots[n] {
        case Child(c) =>
          assert c < slots[n];
          SerialIsInOrder(c, es);
        case Row(row, _) => SerialSlotsAreInOrder(row, 0, es);
        case _ =>
      }
      SerialSlotsAreInOrder(slots, n + 1, es);
    }
  }

  lemma RegisterInOrder(a: Action, k: Then, now: nat, es: iset<Event>)
    requires InOrder(a, es)
    ensures InOrder(Register(a, k, now), es) && Ahead(Register(a, k, now)) == Ahead(a)
  {
  }

  lemma {:induction false} RegisterAllInOrder(actions: seq<Action>, k: Then, now: nat, es: iset<Event>)
    requires OneMember(actions, es) && forall c :: c in actions ==> InOrder(c, es)
    ensures var r := RegisterAll(actions, k, now);
            && OneMember(r, es) && AheadOfAll(r) == AheadOfAll(actions)
            && forall c :: c in r ==> InOrder(c, es)
  {
    if actions != [] {
      assert RegisterAll(actions, k, now)[1..] == RegisterAll(actions[1..], k, now);
      assert forall c :: c in actions[1..] ==> c in actions;
      RegisterInOrder(actions[0], k, now, es);
      RegisterAllInOrder(actions[1..], k, now, es);
      assert forall c :: c in RegisterAll(actions, k, now) ==>
          c == RegisterAll(actions, k, now)[0] || c in RegisterAll(actions, k, now)[1..];
    }
  }

  // ----- creation -----

  lemma {:induction false} MakeDelayInOrder(c: Command, fast: bool, w: World, es: iset<Event>)
    requires CommandInOrder(c, es)
    ensures var (a, w1) := MakeDelay(c, fast, w);
            InOrder(a, es) && Dispatches(w.log, CommandTrace(c), w1.log, Ahead(a), es)
    decreases c, 1
  {
    hide Dispatches;
    var w1 := Prepare(c, Log(w, Started(c)));
    LogsOne(w, Started(c), es);
    Same(w1.log, BodyTrace(c.body), es);
    if fast || c.delay == 0 {
      RunCommandInOrder(Fresh(Delaying(c, fast, None)), w1, es);
    } else {
      WaitsInOrder(c, fast, w, es);
    }
    var (a, w2) := MakeDelay(c, fast, w);
    OneAfterTheOther(w.log, [Started(c)], w1.log, BodyTrace(c.body), w2.log, Ahead(a), es);
  }

  lemma WaitsInOrder(c: Command, fast: bool, w: World, es: iset<Event>)
    requires CommandInOrder(c, es) && !fast && c.delay != 0
    ensures var (a, w1) := MakeDelay(c, fast, w); InOrder(a, es) && Ahead(a) == BodyTrace(c.body)
  {
  }

  lemma LogsOne(w: World, d: Event, es: iset<Event>)
    ensures Dispatches(w.log, [d], Log(w, d).log, [], es)
  {
    OnlyOfBoth(w.log, [d], es);
  }

  lemma {:induction false} RunCommandInOrder(a: Action, w: World, es: iset<Event>)
    requires a.kind.Delaying? && a.kind.current.None? && a.state.Pending? && CommandInOrder(a.kind.command, es)
    ensures var (r, w1) := RunCommand(a, w);
            InOrder(r, es) && Dispatches(w.log, BodyTrace(a.kind.command.body), w1.log, Ahead(r), es)
    decreases a.kind.command, 0
  {
    hide Dispatches;
    var b := a.kind.command.body;
    ExecuteKeeps(b, a.kind.fast, w);
    ExecuteInOrder(b, a.kind.fast, w, es);
    var (child, w1) := Execute(b, a.kind.fast, w);
    if child.Some? {
      RegisterInOrder(child.value, AfterCommand, w1.now, es);
      assert Ahead(child.value) + [] == Ahead(child.value);
    }
  }

  lemma {:induction false} ExecuteInOrder(b: Body, fast: bool, w: World, es: iset<Event>)
    requires BodyInOrder(b, es)
    ensures var (r, w1) := Execute(b, fast, w);
            (r.Some? ==> InOrder(r.value, es)) && Dispatches(w.log, BodyTrace(b), w1.log, AheadOf(r), es)
    decreases b, 0
  {
    match b {
      case Script(slots, bailout) => MakeScriptInOrder(slots, bailout, fast, w, es);
      case Fork(branches) => StartBranchesInOrder(branches, fast, w, es);
      case _ =>
    }
  }

  lemma {:induction false} MakeScriptInOrder(slots: seq<Slot>, bailout: Bailout, fast: bool, w: World, es: iset<Event>)
    requires SlotsInOrder(slots, 0, es)
    ensures var (a, w1) := MakeScript(slots, bailout, fast, w);
            InOrder(a, es) && Dispatches(w.log, SlotsTrace(slots, 0), w1.log, Ahead(a), es)
    decreases slots, |slots| + 1
  {
    AdvanceInOrder(Fresh(Scripting(slots, bailout, fast, 0, None)), w, es);
  }

  lemma {:induction false} AdvanceInOrder(a: Action, w: World, es: iset<Event>)
    requires a.kind.Scripting? && a.kind.next <= |a.kind.slots| && a.kind.step.None?
    requires a.state.Pending? && SlotsInOrder(a.kind.slots, a.kind.next, es)
    ensures var (r, w1) := Advance(a, w);
            InOrder(r, es) && Dispatches(w.log, SlotsTrace(a.kind.slots, a.kind.next), w1.log, Ahead(r), es)
    decreases a.kind.slots, |a.kind.slots| - a.kind.next
  {
    hide Dispatches, StartSlot, SlotTrace;
    var k := a.kind;
    if k.next == |k.slots| {
      Same(w.log, [], es);
    } else {
      var slot, rest := k.slots[k.next], SlotsTrace(k.slots, k.next + 1);
      StartSlotInOrder(slot, k.fast, w, es);
      var (child, w1) := StartSlot(slot, k.fast, w);
      if child.None? {
        var a1 := a.(kind := k.(next := k.next + 1));
        AdvanceInOrder(a1, w1, es);
        var (r, w2) := Advance(a1, w1);
        OneAfterTheOther(w.log, SlotTrace(slot), w1.log, rest, w2.log, Ahead(r), es);
      } else {
        RegisterInOrder(child.value, AfterStep, w1.now, es);
        WithTail(w.log, SlotTrace(slot), w1.log, Ahead(child.value), rest, es);
      }
    }
  }

  lemma {:induction false} StartSlotInOrder(s: Slot, fast: bool, w: World, es: iset<Event>)
    requires SlotInOrder(s, es)
    ensures var (r, w1) := StartSlot(s, fast, w);
            (r.Some? ==> InOrder(r.value, es)) && Dispatches(w.log, SlotTrace(s), w1.log, AheadOf(r), es)
    decreases s, 0
  {
    match s {
      case Null =>
      case Away(c) => LogsOne(w, SentAway(c), es);
      case Child(c) => MakeDelayInOrder(c, fast, w, es);
      case Row(row, bailout) => MakeScriptInOrder(row, bailout, fast, w, es);
      case Join(branches) => StartBranchesInOrder(branches, fast, w, es);
    }
  }

  lemma {:induction false} StartBranchesInOrder(branches: seq<Slot>, fast: bool, w: World, es: iset<Event>)
    requires SlotsInOrder(branches, 0, es) && OneBranch(branches, 0, es)
    ensures var (r, w1) := StartBranches(branches, fast, w);
            (r.Some? ==> InOrder(r.value, es)) && Dispatches(w.log, SlotsTrace(branches, 0), w1.log, AheadOf(r), es)
    decreases branches, |branches| + 1
  {
    hide Dispatches;
    MakeBranchesInOrder(branches, 0, fast, w, es);
    var (actions, w1) := MakeBranches(branches, 0, fast, w);
    RegisterAllInOrder(actions, AfterBranch, w1.now, es);
  }

  lemma {:induction false} MakeBranchesInOrder(branches: seq<Slot>, n: nat, fast: bool, w: World, es: iset<Event>)
    requires n <= |branches| && SlotsInOrder(branches, n, es) && OneBranch(branches, n, es)
    ensures var (actions, w1) := MakeBranches(branches, n, fast, w);
            && OneMember(actions, es) && (forall a :: a in actions ==> InOrder(a, es))
            && Dispatches(w.log, SlotsTrace(branches, n), w1.log, AheadOfAll(actions), es)
    decreases branches, |branches| - n
  {
    if n < |branches| {
      var (child, w1) := StartSlot(branches[n], fast, w);
      StartSlotInOrder(branches[n], fast, w, es);
      MakeBranchesInOrder(branches, n + 1, fast, w1, es);
      var (rest, w2) := MakeBranches(branches, n + 1, fast, w1);
      assert child.Some? ==> ([child.value] + rest)[1..] == rest;
      SideBySide(w.log, SlotTrace(branches[n]), w1.log, AheadOf(child), SlotsTrace(branches, n + 1), w2.log,
                 AheadOfAll(rest), es);
      assert AheadOf(child) + AheadOfAll(rest) == AheadOfAll(MakeBranches(branches, n, fast, w).0);
    }
  }

  // ----- delivery -----

  /** The member that a continuation removes has nothing left to dispatch. */
  lemma {:induction false} MemberLeaves(actions: seq<Action>, i: nat, es: iset<Event>)
    requires i < |actions| && OneMember(actions, es) && Ahead(actions[i]) == []
    ensures var rest := actions[..i] + actions[i + 1..];
            OneMember(rest, es) && AheadOfAll(rest) == AheadOfAll(actions)
  {
    var rest := actions[..i] + actions[i + 1..];
    if i > 0 {
      assert rest[0] == actions[0] && rest[1..] == actions[1..][..i - 1] + actions[1..][i..];
      MemberLeaves(actions[1..], i - 1, es);
    } else {
      assert rest == actions[1..];
    }
  }

  /** A member moves on; the others have nothing of the set, or it has not. */
  lemma {:induction false} MemberMoves(actions: seq<Action>, i: nat, c: Action, log: seq<Event>, log1: seq<Event>,
                                       es: iset<Event>)
    requires i < |actions| && OneMember(actions, es)
    requires Dispatches(log, Ahead(actions[i]), log1, Ahead(c), es)
    ensures OneMember(actions[i := c], es)
    ensures Dispatches(log, AheadOfAll(actions), log1, AheadOfAll(actions[i := c]), es)
  {
    hide Dispatches, Ahead;
    var head, rest := Ahead(actions[0]), AheadOfAll(actions[1..]);
    if i > 0 {
      assert actions[i := c][1..] == actions[1..][i - 1 := c];
      MemberMoves(actions[1..], i - 1, c, log, log1, es);
      Same(log, head, es);
      SideBySide(log, head, log, head, rest, log1, AheadOfAll(actions[1..][i - 1 := c]), es);
    } else {
      assert actions[i := c][1..] == actions[1..];
      Same(log1, rest, es);
      SideBySide(log, head, log1, Ahead(c), rest, log1, rest, es);
    }
  }

  lemma ContinueDelayInOrder(a: Action, w: World, es: iset<Event>)
    requires WellFormed(a) && InOrder(a, es) && a.state.Pending? && a.kind.Delaying? && a.kind.current.Some?
    requires a.kind.current.value.state.Resolved?
    ensures var (r, w1) := Continue(a, 0, w); InOrder(r, es) && Dispatches(w.log, Ahead(a), w1.log, Ahead(r), es)
  {
    hide Dispatches, RunCommand;
    var child := a.kind.current.value;
    assert child in Children(a) && Ahead(child) == [];
    if child.after == Some(AfterDelay) {
      RunCommandInOrder(WithoutChild(a, 0), w, es);
      assert Ahead(a) == BodyTrace(a.kind.command.body);
    } else {
      Same(w.log, [], es);
      assert Ahead(a) == [] && Ahead(Continue(a, 0, w).0) == [];
    }
  }

  lemma ContinueInOrder(a: Action, i: nat, w: World, es: iset<Event>)
    requires WellFormed(a) && InOrder(a, es) && a.state.Pending? && i < |Children(a)|
    requires Children(a)[i].state.Resolved?
    ensures var (r, w1) := Continue(a, i, w); InOrder(r, es) && Dispatches(w.log, Ahead(a), w1.log, Ahead(r), es)
  {
    hide Dispatches, Advance, RunCommand, SlotsTrace, OneMember;
    assert Children(a)[i] in Children(a);
    match a.kind {
      case Delaying(_, _, _) => ContinueDelayInOrder(a, w, es);
      case Scripting(slots, _, _, next, _) =>
        AdvanceInOrder(WithoutChild(a, i), w, es);
        assert Ahead(a) == SlotsTrace(slots, next);
      case Gathering(actions) =>
        MemberLeaves(actions, i, es);
        Same(w.log, Ahead(a), es);
        assert forall d :: d in actions[..i] + actions[i + 1..] ==> d in actions;
    }
  }

  lemma WithChildInOrder(a: Action, i: nat, c: Action, log: seq<Event>, log1: seq<Event>, es: iset<Event>)
    requires WellFormed(a) && InOrder(a, es) && a.state.Pending? && i < |Children(a)|
    requires InOrder(c, es) && SameRole(c, Children(a)[i])
    requires Dispatches(log, Ahead(Children(a)[i]), log1, Ahead(c), es)
    ensures InOrder(WithChild(a, i, c), es) && Dispatches(log, Ahead(a), log1, Ahead(WithChild(a, i, c)), es)
  {
    hide Dispatches;
    if a.kind.Gathering? {
      MemberMoves(a.kind.actions, i, c, log, log1, es);
    } else {
      WithTail(log, Ahead(Children(a)[i]), log1, Ahead(c), Tail(a), es);
    }
    forall d | d in Children(WithChild(a, i, c)) ensures InOrder(d, es) {}
  }

  /** Whatever signal arrives, the events of the set that are dispatched are the next ones of what is ahead. */
  lemma {:induction false} DeliverInOrder(a: Action, path: seq<nat>, sig: Signal, w: World, es: iset<Event>)
    requires WellFormed(a) && InOrder(a, es) && Deliverable(a, path, sig) && CursorsInRange(a)
    requires path == [] && sig.TimerFires? ==> a.state.Pending?
    ensures var (r, w1) := Deliver(a, path, sig, w); InOrder(r, es) && Dispatches(w.log, Ahead(a), w1.log, Ahead(r), es)
    decreases path
  {
    hide Dispatches;
    Same(w.log, Ahead(a), es);
    if path == [] {
      assert Children(a) == [];
    } else {
      if !a.state.Pending? { FinishedIsDeaf(a, path, sig); }
      var i := path[0];
      var c := Children(a)[i];
      assert c in Children(a);
      assert |path| == 1 ==> path[1..] == [] && At(a, path) == Some(c);
      if |path| == 1 && sig.TimerFires? && c.state.Resolved? {
        ContinueInOrder(a, i, w, es);
      } else if |path| == 1 && sig.LeafTerminates? && a.kind.Delaying? && c.after == Some(AfterCommand) {
        assert Ahead(a) == [];
      } else {
        DeliverKeeps(c, path[1..], sig, w);
        DeliverInOrder(c, path[1..], sig, w, es);
        var (c1, w1) := Deliver(c, path[1..], sig, w);
        WithChildInOrder(a, i, c1, w.log, w1.log, es);
      }
    }
  }

  // ----- lists and counts -----

  lemma {:induction false} CommandCounts(c: Command, e: Event)
    ensures Census.CommandCount(c, e) == multiset(CommandTrace(c))[e]
    decreases c, 1
  {
    BodyCounts(c.body, e);
  }

  lemma {:induction false} BodyCounts(b: Body, e: Event)
    ensures Census.BodyCount(b, e) == multiset(BodyTrace(b))[e]
    decreases b, 0
  {
    match b {
      case Script(slots, _) => SlotsCounts(slots, 0, e);
      case Fork(branches) => SlotsCounts(branches, 0, e);
      case _ =>
    }
  }

  lemma {:induction false} SlotCounts(s: Slot, e: Event)
    ensures Census.SlotCount(s, e) == multiset(SlotTrace(s))[e]
    decreases s, 0
  {
    match s {
      case Child(c) => CommandCounts(c, e);
      case Row(row, _) => SlotsCounts(row, 0, e);
      case Join(branches) => SlotsCounts(branches, 0, e);
      case _ =>
    }
  }

  lemma {:induction false} SlotsCounts(slots: seq<Slot>, n: nat, e: Event)
    ensures Census.SlotsCount(slots, n, e) == multiset(SlotsTrace(slots, n))[e]
    decreases slots, |slots| - n
  {
    if n < |slots| {
      SlotCounts(slots[n], e);
      SlotsCounts(slots, n + 1, e);
    }
  }

  /** What is still to come is what is ahead, counted. */
  lemma {:induction false} AheadCounts(a: Action, e: Event)
    ensures Census.Coming(a, e) == multiset(Ahead(a))[e]
    decreases a
  {
    hide BodyTrace, SlotsTrace, Census.BodyCount, Census.SlotsCount;
    match a.kind {
      case Delaying(c, _, current) =>
        BodyCounts(c.body, e);
        if current.Some? { AheadCounts(current.value, e); }
      case Scripting(slots, _, _, next, step) =>
        SlotsCounts(slots, next, e);
        if step.Some? { AheadCounts(step.value, e); }
      case Gathering(actions) => AheadOfAllCounts(actions, e);
      case _ =>
    }
  }

  lemma {:induction false} AheadOfAllCounts(actions: seq<Action>, e: Event)
    ensures Census.ComingOf(actions, e) == multiset(AheadOfAll(actions))[e]
    decreases actions
  {
    if actions != [] {
      assert actions[0] in actions;
      AheadCounts(actions[0], e);
      AheadOfAllCounts(actions[1..], e);
    }
  }

  lemma {:induction false} OnlyCounts(list: seq<Event>, es: iset<Event>, e: Event)
    requires e in es
    ensures multiset(Only(list, es))[e] == multiset(list)[e]
  {
    if list != [] {
      assert list == [list[0]] + list[1..];
      OnlyCounts(list[1..], es, e);
    }
  }

  lemma {:induction false} OnlyOfNone(list: seq<Event>, es: iset<Event>)
    requires forall e :: e in list ==> e !in es
    ensures Only(list, es) == []
  {
    if list != [] {
      OnlyOfNone(list[1..], es);
    }
  }

  // ----- a node and what is around it -----

  lemma {:induction false} AheadSplit(actions: seq<Action>, i: nat)
    requires i < |actions|
    ensures AheadOfAll(actions) == AheadOfAll(actions[..i]) + Ahead(actions[i]) + AheadOfAll(actions[i + 1..])
  {
    if i > 0 {
      assert actions[..i][1..] == actions[1..][..i - 1];
      AheadSplit(actions[1..], i - 1);
    }
  }

  lemma AheadOfChild(a: Action, i: nat) returns (before: seq<Event>, after: seq<Event>)
    requires WellFormed(a) && a.state.Pending? && i < |Children(a)|
    ensures Ahead(a) == before + Ahead(Children(a)[i]) + after
  {
    before, after := [], Tail(a);
    if a.kind.Gathering? {
      AheadSplit(a.kind.actions, i);
      before, after := AheadOfAll(a.kind.actions[..i]), AheadOfAll(a.kind.actions[i + 1..]);
    }
  }

  /** What a node has ahead is one stretch of what the tree has ahead. */
  lemma {:induction false} AheadAt(a: Action, path: seq<nat>) returns (before: seq<Event>, after: seq<Event>)
    requires WellFormed(a) && At(a, path).Some? && Attribution.Held(a, path)
    ensures Ahead(a) == before + Ahead(At(a, path).value) + after
    decreases path
  {
    hide Ahead;
    before, after := [], [];
    if path != [] {
      var c := Children(a)[path[0]];
      assert c in Children(a);
      var first, last := AheadAt(c, path[1..]);
      before, after := AheadOfChild(a, path[0]);
      before, after := before + first, last + after;
    }
  }

  /** If nothing of a set is to come around a node, the events of the set that are ahead are those of the node. */
  lemma OnlyAtNode(a: Action, path: seq<nat>, es: iset<Event>)
    requires WellFormed(a) && At(a, path).Some? && Attribution.Held(a, path)
    requires forall e :: e in es ==> Census.Coming(a, e) == Census.Coming(At(a, path).value, e)
    ensures Only(Ahead(a), es) == Only(Ahead(At(a, path).value), es)
  {
    var node := At(a, path).value;
    var before, after := AheadAt(a, path);
    forall e | e in es ensures e !in before && e !in after {
      AheadCounts(a, e);
      AheadCounts(node, e);
      assert multiset(Ahead(a))[e] == multiset(before)[e] + multiset(Ahead(node))[e] + multiset(after)[e];
    }
    OnlyOfNone(before, es);
    OnlyOfNone(after, es);
    OnlyOfBoth(before + Ahead(node), after, es);
    OnlyOfBoth(before, Ahead(node), es);
  }

  lemma {:induction false} TraceSplit(slots: seq<Slot>, i: nat, n: nat)
    requires i <= n <= |slots|
    ensures SlotsTrace(slots, i) == SlotsTrace(slots[..n], i) + SlotsTrace(slots, n)
    decreases n - i
  {
    if i < n {
      TraceSplit(slots, i + 1, n);
      assert slots[..n][i] == slots[i];
      Regroup(SlotTrace(slots[i]), SlotsTrace(slots[..n], i + 1), SlotsTrace(slots, n));
    }
  }
}
