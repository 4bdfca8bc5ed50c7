/** The flat list that a Sequential command stands for. */
module Schedules {
  import opened Commands

  /** The properties of a Sequential command; with data, each datum brings the list as it inflates for it. */
  datatype Props = Props(
    commands: seq<Slot>, data: seq<seq<Slot>>, repeatCount: nat, catchSlots: seq<Slot>, finallySlots: seq<Slot>)

  function Rows(data: seq<seq<Slot>>): (r: seq<Slot>)
    ensures |r| == |data|
    ensures forall i :: 0 <= i < |data| ==> r[i] == Row(data[i], Drop)
  {
    seq(|data|, i requires 0 <= i < |data| => Row(data[i], Drop))
  }

  /** One pass over the commands, or over the data when there are any. */
  function Round(p: Props): seq<Slot> {
    if p.data == [] then p.commands else Rows(p.data)
  }

  function Repeat(round: seq<Slot>, n: nat): seq<Slot> {
    if n == 0 then [] else Repeat(round, n - 1) + round
  }

  function Tries(p: Props): seq<Slot> {
    Repeat(Round(p), p.repeatCount + 1)
  }

  function Schedule(p: Props): seq<Slot> {
    Tries(p) + p.finallySlots
  }

  function OnTermination(p: Props): Bailout {
    CatchFinally(|Tries(p)|, p.catchSlots)
  }

  lemma {:induction false} RepeatPrefix(round: seq<Slot>, k: nat, n: nat)
    requires k <= n
    ensures Repeat(round, k) <= Repeat(round, n)
    decreases n
  {
    if k < n { RepeatPrefix(round, k, n - 1); }
  }

  /** Round k begins after k rounds of the schedule. */
  lemma RoundAt(p: Props, k: nat)
    requires k <= p.repeatCount
    ensures var done := |Repeat(Round(p), k)|;
            && done + |Round(p)| <= |Tries(p)|
            && Schedule(p)[done..done + |Round(p)|] == Round(p)
            && Repeat(Round(p), k + 1) == Repeat(Round(p), k) + Round(p)
  {
    RepeatPrefix(Round(p), k + 1, p.repeatCount + 1);
    var done := |Repeat(Round(p), k)|;
    assert Schedule(p)[done..done + |Round(p)|] == Repeat(Round(p), k + 1)[done..];
  }

  /** How many slots a round has. */
  function RoundLength(p: Props): nat {
    if p.data == [] then |p.commands| else |p.data|
  }

  lemma {:induction false} RepeatAt(round: seq<Slot>, k: nat, n: nat, i: nat)
    requires k < n && i < |round|
    ensures |Repeat(round, n)| == n * |round| && k * |round| + i < n * |round|
    ensures Repeat(round, n)[k * |round| + i] == round[i]
    decreases n
  {
    RepeatLength(round, n);
    RepeatLength(round, n - 1);
    if k < n - 1 {
      RepeatAt(round, k, n - 1, i);
    }
  }

  lemma {:induction false} RepeatLength(round: seq<Slot>, n: nat)
    ensures |Repeat(round, n)| == n * |round|
  {
    if n > 0 { RepeatLength(round, n - 1); }
  }

  /**
   * The flat list, slot by slot: in each of repeatCount + 1 rounds the commands in order, or one array for each datum,
   * and then the finally commands.
   */
  lemma ScheduleAt(p: Props, k: nat, i: nat)
    requires k <= p.repeatCount
    ensures var tries := (p.repeatCount + 1) * RoundLength(p);
            && |Tries(p)| == tries && |Schedule(p)| == tries + |p.finallySlots|
            && (i < |p.finallySlots| ==> Schedule(p)[tries + i] == p.finallySlots[i])
    ensures i < RoundLength(p) ==>
              && k * RoundLength(p) + i < |Schedule(p)|
              && Schedule(p)[k * RoundLength(p) + i]
                 == if p.data == [] then p.commands[i] else Row(p.data[i], Drop)
  {
    RepeatLength(Round(p), p.repeatCount + 1);
    if i < RoundLength(p) {
      RepeatAt(Round(p), k, p.repeatCount + 1, i);
    }
  }
}

/** SequentialAction, with the fields and loops of the original. */
module SequentialActions {
  import opened Wrappers
  import opened Commands
  import opened Actions
  import opened Promises
  import opened Schedules
  import Steps

  class SequentialAction {
    const promise: Promise
    const props: Props
    const fastMode: bool
    var stateFinally: bool
    var nextIndex: nat
    var repeatCounter: nat
    var currentAction: Option<Action>

    /** The shared index is a position of the running phase; it is 0 whenever a round or a phase ends. */
    ghost predicate Valid()
      reads this, promise
    {
      && (forall s :: s in props.commands || s in props.finallySlots ==> !s.Row? && !s.Join?)
      && repeatCounter <= props.repeatCount + 1
      && (!stateFinally ==> nextIndex <= |Round(props)|)
      && (!stateFinally && repeatCounter == props.repeatCount + 1 ==> nextIndex == 0)
      && (stateFinally ==> repeatCounter == props.repeatCount + 1 && nextIndex <= |props.finallySlots|)
    }

    /** Between calls a pending action waits for a child, and in the finally phase it has started one. */
    ghost predicate AtRest()
      reads this, promise
    {
      promise.state.Pending? ==> currentAction.Some? && (stateFinally ==> nextIndex > 0)
    }

    /** How many slots of the flat list have been taken. */
    ghost function Position(): nat
      reads this
    {
      (if stateFinally then |Tries(props)| else |Repeat(Round(props), repeatCounter)|) + nextIndex
    }

    ghost function Value(): Action
      reads this, promise
    {
      promise.With(Scripting(Schedule(props), OnTermination(props), fastMode, Position(), currentAction))
    }

    /** SequentialAction::make */
    constructor (props: Props, fastMode: bool)
      requires forall s :: s in props.commands || s in props.finallySlots ==> !s.Row? && !s.Join?
      ensures Valid() && fresh(promise) && this.props == props && this.fastMode == fastMode
      ensures Value() == Fresh(Scripting(Schedule(props), OnTermination(props), fastMode, 0, None))
    {
      this.props, this.fastMode := props, fastMode;
      stateFinally, nextIndex, repeatCounter, currentAction := false, 0, 0, None;
      promise := new Promise();
    }

    lemma SlotAtPosition()
      requires Valid()
      requires !stateFinally ==> repeatCounter <= props.repeatCount
      ensures Position() <= |Schedule(props)|
      ensures !stateFinally && nextIndex < |Round(props)| ==>
                Position() < |Schedule(props)| && Schedule(props)[Position()] == Round(props)[nextIndex]
      ensures stateFinally && nextIndex < |props.finallySlots| ==>
                Position() < |Schedule(props)| && Schedule(props)[Position()] == props.finallySlots[nextIndex]
    {
      if !stateFinally {
        RoundAt(props, repeatCounter);
        if nextIndex < |Round(props)| {
          var done := |Repeat(Round(props), repeatCounter)|;
          assert Schedule(props)[done..done + |Round(props)|][nextIndex] == Schedule(props)[done + nextIndex];
        }
      }
    }

    /** doCommand: true when the command runs as the current action. */
    method DoCommand(command: Slot, w0: World) returns (waiting: bool, w: World)
      requires Valid() && !command.Row? && !command.Join? && currentAction.None?
      modifies this`currentAction
      ensures Valid()
      ensures var (child, w1) := StartSlot(command, fastMode, w0);
              w == w1 && waiting == child.Some? &&
              currentAction == if child.Some? then Some(Register(child.value, AfterStep, w1.now)) else None
    {
      match command {
        case Null => return false, w0;
        case Away(c) => return false, Log(w0, SentAway(c));
        case Child(c) =>
          var (child, w1) := MakeDelay(c, fastMode, w0);
          currentAction := Some(Register(child, AfterStep, w1.now));
          return true, w1;
      }
    }

    /** One turn of the inner loop over a command list. */
    method TakeCommand(command: Slot, w0: World) returns (waiting: bool, w: World)
      requires Valid() && currentAction.None? && promise.state.Pending?
      requires stateFinally ==> nextIndex < |props.finallySlots| && command == props.finallySlots[nextIndex]
      requires !stateFinally ==> repeatCounter <= props.repeatCount && props.data == []
      requires !stateFinally ==> nextIndex < |props.commands| && command == props.commands[nextIndex]
      modifies this`nextIndex, this`currentAction
      ensures Valid() && nextIndex == old(nextIndex) + 1 && old(Position()) < Position() <= |Schedule(props)|
      ensures waiting ==> currentAction.Some? && (Value(), w) == old(Actions.Advance(Value(), w0))
      ensures !waiting ==> currentAction.None? && Actions.Advance(Value(), w) == old(Actions.Advance(Value(), w0))
    {
      SlotAtPosition();
      nextIndex := nextIndex + 1;
      waiting, w := DoCommand(command, w0);
    }

    /** The inner loop over a command list: start one command, or use the list up. */
    method TakeCommands(commands: seq<Slot>, w0: World) returns (waiting: bool, w: World)
      requires Valid() && currentAction.None? && promise.state.Pending?
      requires stateFinally || (repeatCounter <= props.repeatCount && props.data == [])
      requires commands == if stateFinally then props.finallySlots else props.commands
      modifies this`nextIndex, this`currentAction
      ensures Valid() && old(Position()) <= Position() <= |Schedule(props)|
      ensures waiting ==> currentAction.Some? && nextIndex > 0 && (Value(), w) == old(Actions.Advance(Value(), w0))
      ensures !waiting ==>
                && currentAction.None? && nextIndex == |commands|
                && Actions.Advance(Value(), w) == old(Actions.Advance(Value(), w0))
    {
      w := w0;
      waiting := false;
      PositionInRange();
      ghost var goal := Actions.Advance(Value(), w0);
      while nextIndex < |commands|
        invariant Valid() && currentAction.None?
        invariant old(Position()) <= Position() <= |Schedule(props)| && Actions.Advance(Value(), w) == goal
        decreases |commands| - nextIndex
      {
        waiting, w := TakeCommand(commands[nextIndex], w);
        if waiting {
          return;
        }
      }
    }

    /** The inner loop over the data: start the array of the next datum, or use the data up. */
    method TakeData(w0: World) returns (waiting: bool, w: World)
      requires Valid() && currentAction.None? && promise.state.Pending?
      requires !stateFinally && repeatCounter <= props.repeatCount && props.data != []
      modifies this`nextIndex, this`currentAction
      ensures Valid() && old(Position()) <= Position() <= |Schedule(props)|
      ensures waiting ==> currentAction.Some? && (Value(), w) == old(Actions.Advance(Value(), w0))
      ensures !waiting ==>
                && currentAction.None? && nextIndex == |props.data|
                && Actions.Advance(Value(), w) == old(Actions.Advance(Value(), w0))
    {
      w := w0;
      PositionInRange();
      // making an ArrayAction never fails, so the first datum ends the loop
      if nextIndex < |props.data| {
        SlotAtPosition();
        var datum := props.data[nextIndex];
        nextIndex := nextIndex + 1;
        var (child, w1) := MakeScript(datum, Drop, fastMode, w);
        currentAction := Some(Register(child, AfterStep, w1.now));
        return true, w1;
      }
      waiting := false;
    }

    /** One turn of the loop over the rounds. */
    method TakeRound(w0: World) returns (waiting: bool, w: World)
      requires Valid() && currentAction.None? && promise.state.Pending?
      requires !stateFinally && repeatCounter <= props.repeatCount
      modifies this`nextIndex, this`repeatCounter, this`currentAction
      ensures Valid() && old(Position()) <= Position() <= |Schedule(props)|
      ensures waiting ==> currentAction.Some? && (Value(), w) == old(Actions.Advance(Value(), w0))
      ensures !waiting ==>
                && currentAction.None? && repeatCounter == old(repeatCounter) + 1
                && Actions.Advance(Value(), w) == old(Actions.Advance(Value(), w0))
    {
      if props.data == [] {
        waiting, w := TakeCommands(props.commands, w0);
      } else {
        waiting, w := TakeData(w0);
      }
      if waiting {
        return;
      }
      NextRound();
      ghost var before := Value();
      repeatCounter := repeatCounter + 1;
      nextIndex := 0;
      assert Value() == before;
    }

    /** The rounds of the commands or of the data; when they are used up the finally phase begins. */
    method TryPhase(w0: World) returns (waiting: bool, w: World)
      requires Valid() && currentAction.None? && promise.state.Pending? && !stateFinally
      modifies this`nextIndex, this`repeatCounter, this`stateFinally, this`currentAction
      ensures Valid() && old(Position()) <= Position() <= |Schedule(props)|
      ensures waiting ==> !stateFinally && currentAction.Some? && (Value(), w) == old(Actions.Advance(Value(), w0))
      ensures !waiting ==>
                && stateFinally && nextIndex == 0 && currentAction.None?
                && Actions.Advance(Value(), w) == old(Actions.Advance(Value(), w0))
    {
      w := w0;
      waiting := false;
      PositionInRange();
      ghost var goal := Actions.Advance(Value(), w0);
      while repeatCounter <= props.repeatCount
        invariant Valid() && !stateFinally && currentAction.None?
        invariant old(Position()) <= Position() <= |Schedule(props)| && Actions.Advance(Value(), w) == goal
        decreases props.repeatCount + 1 - repeatCounter
      {
        waiting, w := TakeRound(w);
        if waiting {
          return;
        }
      }
      ghost var before := Value();
      stateFinally := true;
      assert Value() == before;
    }

    /** Take the slots of the flat list one after the other, until one of them has to be waited for. */
    method Advance(w0: World) returns (w: World)
      requires Valid() && currentAction.None? && (promise.state.Pending? || promise.state.Terminated?)
      modifies this, promise
      ensures Valid() && AtRest()
      ensures old(Position()) <= |Schedule(props)|
      ensures (Value(), w) == Actions.Advance(old(Value()), w0)
    {
      w := w0;
      PositionInRange();
      if promise.state.Terminated? {
        return;
      }
      var waiting := false;
      if !stateFinally {
        waiting, w := TryPhase(w);
        if waiting {
          return;
        }
      }
      waiting, w := TakeCommands(props.finallySlots, w);
      if !waiting {
        promise.Resolve(w.now);
      }
    }

    lemma NextRound()
      requires Valid() && !stateFinally && repeatCounter <= props.repeatCount && nextIndex == |Round(props)|
      ensures Position() == |Repeat(Round(props), repeatCounter + 1)| <= |Tries(props)|
    {
      RoundAt(props, repeatCounter);
    }

    lemma PositionInRange()
      requires Valid()
      ensures Position() <= |Schedule(props)|
    {
      if stateFinally || repeatCounter <= props.repeatCount { SlotAtPosition(); }
    }

    /** The continuation registered on the current action. */
    method ChildDone(w0: World) returns (w: World)
      requires Valid() && currentAction.Some? && (promise.state.Pending? || promise.state.Terminated?)
      modifies this, promise
      ensures Valid() && AtRest()
      ensures old(Position()) <= |Schedule(props)|
      ensures (Value(), w) == Steps.Continue(old(Value()), 0, w0)
    {
      PositionInRange();
      currentAction := None;
      w := w0;
      if !promise.state.Terminated? {
        w := Advance(w);
      }
    }

    /** terminate and the callback of the constructor: what is left of catch and finally is handed over. */
    method Terminate(w0: World) returns (w: World)
      requires Valid() && AtRest()
      modifies this, promise
      ensures Valid() && AtRest()
      ensures (Value(), w) == Steps.Terminate(old(Value()), w0)
    {
      w := w0;
      var wasPending := promise.BeginTerminate();
      if !wasPending {
        return;
      }
      if currentAction.Some? {
        w := Steps.Terminate(currentAction.value, w).1;
        currentAction := None;
      }
      var commands := Remaining();
      w := Steps.HandOff(commands, w);
    }

    /** The catch and finally commands that a termination leaves to the sequencer. */
    method Remaining() returns (commands: seq<Slot>)
      requires Valid() && (stateFinally ==> nextIndex > 0)
      ensures commands == Remainder(Schedule(props), OnTermination(props), Position())
    {
      commands := [];
      var finallyCommands := props.finallySlots;
      ghost var n := |Tries(props)|;
      assert Schedule(props)[n..] == finallyCommands;
      if !stateFinally {
        var catchCommands := props.catchSlots;
        for i := 0 to |catchCommands|
          invariant commands == catchCommands[..i]
        {
          commands := commands + [catchCommands[i]];
        }
        for i := 0 to |finallyCommands|
          invariant commands == catchCommands + finallyCommands[..i]
        {
          commands := commands + [finallyCommands[i]];
        }
        NotYetFinally();
      } else {
        for i := nextIndex to |finallyCommands|
          invariant commands == finallyCommands[nextIndex..i]
        {
          commands := commands + [finallyCommands[i]];
          assert finallyCommands[nextIndex..i + 1] == finallyCommands[nextIndex..i] + [finallyCommands[i]];
        }
        assert Schedule(props)[Position()..] == finallyCommands[nextIndex..];
      }
    }

    lemma NotYetFinally()
      requires Valid() && !stateFinally
      ensures Position() <= |Tries(props)|
    {
      if repeatCounter <= props.repeatCount { RoundAt(props, repeatCounter); }
    }
  }
}
