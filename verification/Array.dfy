/** ArrayAction: one command list, taken from front to back. */
module ArrayActions {
  import opened Wrappers
  import opened Commands
  import opened Actions
  import opened Promises
  import Steps

  /** finishAllOnTerminate */
  function OnTermination(finishAll: bool): Bailout {
    if finishAll then FinishAll else Drop
  }

  class ArrayAction {
    const promise: Promise
    const items: seq<Slot>
    const finishAll: bool
    const fastMode: bool
    var nextIndex: nat
    var currentAction: Option<Action>

    ghost function Value(): Action
      reads this, promise
    {
      promise.With(Scripting(items, OnTermination(finishAll), fastMode, nextIndex, currentAction))
    }

    constructor (items: seq<Slot>, finishAll: bool, fastMode: bool)
      ensures fresh(promise) && this.items == items && this.finishAll == finishAll && this.fastMode == fastMode
      ensures Value() == Fresh(Scripting(items, OnTermination(finishAll), fastMode, 0, None))
    {
      this.items, this.finishAll, this.fastMode := items, finishAll, fastMode;
      nextIndex, currentAction := 0, None;
      promise := new Promise();
    }

    /** ArrayAction::make */
    static method Make(items: seq<Slot>, finishAll: bool, fastMode: bool, w0: World) returns (a: ArrayAction, w: World)
      ensures fresh(a) && fresh(a.promise)
      ensures (a.Value(), w) == MakeScript(items, OnTermination(finishAll), fastMode, w0)
    {
      a := new ArrayAction(items, finishAll, fastMode);
      w := a.Advance(w0);
    }

    method Advance(w0: World) returns (w: World)
      requires nextIndex <= |items| && currentAction.None?
      modifies this, promise
      ensures (Value(), w) == Actions.Advance(old(Value()), w0)
    {
      w := w0;
      if promise.state.Terminated? {
        return;
      }
      ghost var goal := Actions.Advance(Value(), w0);
      while nextIndex < |items|
        invariant nextIndex <= |items| && currentAction.None? && unchanged(promise)
        invariant Actions.Advance(Value(), w) == goal
      {
        var (child, w1) := StartSlot(items[nextIndex], fastMode, w);
        nextIndex := nextIndex + 1;
        w := w1;
        if child.Some? {
          currentAction := Some(Register(child.value, AfterStep, w.now));
          return;
        }
      }
      promise.Resolve(w.now);
    }

    /** The continuation of the current action. */
    method ChildDone(w0: World) returns (w: World)
      requires nextIndex <= |items| && currentAction.Some?
      modifies this, promise
      ensures (Value(), w) == Steps.Continue(old(Value()), 0, w0)
    {
      currentAction := None;
      w := w0;
      if !promise.state.Terminated? {
        w := Advance(w);
      }
    }

    /** The commands that are left for the sequencer to finish. */
    method Remaining() returns (remaining: seq<Slot>)
      requires nextIndex <= |items|
      ensures remaining == items[nextIndex..]
    {
      remaining := [];
      for i := nextIndex to |items|
        invariant remaining == items[nextIndex..i]
      {
        assert items[nextIndex..i + 1] == items[nextIndex..i] + [items[i]];
        remaining := remaining + [items[i]];
      }
      assert items[nextIndex..|items|] == items[nextIndex..];
    }

    method Terminate(w0: World) returns (w: World)
      requires nextIndex <= |items|
      modifies this, promise
      ensures (Value(), w) == Steps.Terminate(old(Value()), w0)
    {
      w := w0;
      var wasPending := promise.BeginTerminate();
      if !wasPending {
        return;
      }
      if currentAction.Some? {
        w := Steps.Terminate(currentAction.value, w).1;
        currentAction := None;
      }
      if finishAll {
        var remaining := Remaining();
        w := Steps.HandOff(remaining, w);
      }
    }
  }
}

/** ParallelCommand::execute */
module ParallelCommands {
  import opened Wrappers
  import opened Commands
  import opened Actions
  import Census
  import Invariant
  import Schedules

  /** What a Parallel command runs side by side; without commands it runs nothing, whatever its data. */
  function Branches(commands: seq<Slot>, data: seq<seq<Slot>>): seq<Slot> {
    if commands == [] then [] else if data == [] then commands else Schedules.Rows(data)
  }

  lemma AppendThenRest(actions: seq<Action>, a: Action, rest: seq<Action>)
    ensures actions + ([a] + rest) == (actions + [a]) + rest
  {
  }

  /** What a command list inflates to, before any data is taken into account. */
  predicate Plain(commands: seq<Slot>) {
    forall s :: s in commands ==> s.Null? || s.Away? || s.Child?
  }

  /** The commands of a list that run here, in order. */
  function RunHere(commands: seq<Slot>): seq<Command> {
    if commands == [] then []
    else (if commands[0].Child? then [commands[0].command] else []) + RunHere(commands[1..])
  }

  /** A makeAll with one DelayAction for each of the commands, in order. */
  ghost predicate RunsCommands(actions: seq<Action>, commands: seq<Command>) {
    |actions| == |commands| &&
    forall i :: 0 <= i < |actions| ==> actions[i].kind.Delaying? && actions[i].kind.command == commands[i]
  }

  /** One array for each datum, in order, that drops what is left of it on termination. */
  ghost predicate RunsData(actions: seq<Action>, data: seq<seq<Slot>>) {
    |actions| == |data| &&
    forall i :: 0 <= i < |actions| ==>
        actions[i].kind.Scripting? && actions[i].kind.slots == data[i] && actions[i].kind.bailout == Drop
  }

  /** How often the lists of the data dispatch an event, from datum n on. */
  function DataCount(data: seq<seq<Slot>>, n: nat, e: Event): nat
    decreases |data| - n
  {
    if n >= |data| then 0 else Census.SlotsCount(data[n], 0, e) + DataCount(data, n + 1, e)
  }

  lemma {:induction false} BranchesRunCommands(commands: seq<Slot>, n: nat, fast: bool, w: World)
    requires n <= |commands| && Plain(commands)
    ensures RunsCommands(MakeBranches(commands, n, fast, w).0, RunHere(commands[n..]))
    decreases |commands| - n
  {
    if n < |commands| {
      var (child, w1) := StartSlot(commands[n], fast, w);
      Invariant.StartSlotKeeps(commands[n], fast, w);
      BranchesRunCommands(commands, n + 1, fast, w1);
      assert commands[n..][1..] == commands[n + 1..];
    }
  }

  lemma {:induction false} BranchesRunData(data: seq<seq<Slot>>, n: nat, fast: bool, w: World)
    requires n <= |data|
    ensures RunsData(MakeBranches(Schedules.Rows(data), n, fast, w).0, data[n..])
    decreases |data| - n
  {
    if n < |data| {
      var slot := Schedules.Rows(data)[n];
      var (child, w1) := StartSlot(slot, fast, w);
      Invariant.StartSlotKeeps(slot, fast, w);
      BranchesRunData(data, n + 1, fast, w1);
    }
  }

  lemma {:induction false} CountOfRows(data: seq<seq<Slot>>, n: nat, e: Event)
    ensures Census.SlotsCount(Schedules.Rows(data), n, e) == DataCount(data, n, e)
    decreases |data| - n
  {
    if n < |data| { CountOfRows(data, n + 1, e); }
  }

  /** A Parallel command runs its commands side by side, or one array for each datum; and everything they dispatch. */
  ghost predicate Runs(commands: seq<Slot>, data: seq<seq<Slot>>, w0: World, action: Option<Action>, w: World) {
    && (commands == [] ==> action.None? && w == w0)
    && (action.Some? ==> action.value.kind.Gathering?)
    && var actions := if action.Some? then action.value.kind.actions else [];
       && (commands != [] && data == [] && Plain(commands) ==> RunsCommands(actions, RunHere(commands)))
       && (commands != [] && data != [] ==> RunsData(actions, data))
       && forall e :: Census.Logged(w, e) + Census.ComingFrom(action, e) == Census.Logged(w0, e)
            + if commands == [] then 0 else if data == [] then Census.SlotsCount(commands, 0, e)
              else DataCount(data, 0, e)
  }

  lemma ExecuteCounts(commands: seq<Slot>, data: seq<seq<Slot>>, fast: bool, w0: World, e: Event)
    ensures var (action, w) := Execute(Fork(Branches(commands, data)), fast, w0);
            Census.Logged(w, e) + Census.ComingFrom(action, e) == Census.Logged(w0, e)
            + if commands == [] then 0 else if data == [] then Census.SlotsCount(commands, 0, e)
              else DataCount(data, 0, e)
  {
    Census.ExecuteCensus(Fork(Branches(commands, data)), fast, w0, e);
    CountOfRows(data, 0, e);
  }

  lemma ExecuteRuns(commands: seq<Slot>, data: seq<seq<Slot>>, fast: bool, w0: World)
    ensures var (action, w) := Execute(Fork(Branches(commands, data)), fast, w0); Runs(commands, data, w0, action, w)
  {
    hide StartSlot, Census.Logged, Census.ComingFrom, Census.SlotsCount;
    var (action, w) := Execute(Fork(Branches(commands, data)), fast, w0);
    forall e
      ensures Census.Logged(w, e) + Census.ComingFrom(action, e) == Census.Logged(w0, e)
              + if commands == [] then 0 else if data == [] then Census.SlotsCount(commands, 0, e)
                else DataCount(data, 0, e)
    {
      ExecuteCounts(commands, data, fast, w0, e);
    }
    var branches := Branches(commands, data);
    var made := MakeBranches(branches, 0, fast, w0).0;
    assert (action, w) == StartBranches(branches, fast, w0);
    var actions := if action.Some? then action.value.kind.actions else [];
    assert |actions| == |made| && forall i :: 0 <= i < |made| ==> actions[i].kind == made[i].kind;
    if commands != [] {
      if data != [] {
        BranchesRunData(data, 0, fast, w0);
        assert data[0..] == data;
      } else if Plain(commands) {
        BranchesRunCommands(commands, 0, fast, w0);
        assert commands[0..] == commands;
      }
    }
  }

  method ExecuteParallel(commands: seq<Slot>, data: seq<seq<Slot>>, fastMode: bool, w0: World)
    returns (action: Option<Action>, w: World)
    ensures Runs(commands, data, w0, action, w)
    ensures (action, w) == Execute(Fork(Branches(commands, data)), fastMode, w0)
  {
    hide Runs;
    ExecuteRuns(commands, data, fastMode, w0);
    w := w0;
    var actions: seq<Action> := [];
    ghost var branches := Branches(commands, data);
    ghost var goal := MakeBranches(branches, 0, fastMode, w0);
    assert actions + goal.0 == goal.0;
    if commands != [] {
      if data == [] {
        for i := 0 to |commands|
          invariant var (rest, w1) := MakeBranches(branches, i, fastMode, w); (actions + rest, w1) == goal
        {
          var (child, w1) := StartSlot(commands[i], fastMode, w);
          w := w1;
          if child.Some? {
            AppendThenRest(actions, child.value, MakeBranches(branches, i + 1, fastMode, w).0);
            actions := actions + [child.value];
          }
        }
      } else {
        for i := 0 to |data|
          invariant var (rest, w1) := MakeBranches(branches, i, fastMode, w); (actions + rest, w1) == goal
        {
          var (child, w1) := MakeScript(data[i], Drop, fastMode, w);
          w := w1;
          AppendThenRest(actions, child, MakeBranches(branches, i + 1, fastMode, w).0);
          actions := actions + [child];
        }
      }
    }
    assert actions + [] == actions;
    assert goal == (actions, w);
    if actions != [] {
      return Some(MakeAll(actions, w.now)), w;
    }
    return None, w;
  }
}
