/** DelayAction: a delay, then a command, with the screen lock taken and released around it. */
module DelayActions {
  import opened Wrappers
  import opened Commands
  import opened Actions
  import opened Promises
  import Steps

  class DelayAction {
    const promise: Promise
    const command: Command
    const fastMode: bool
    var currentAction: Option<Action>

    ghost function Value(): Action
      reads this, promise
    {
      promise.With(Delaying(command, fastMode, currentAction))
    }

    constructor (command: Command, fastMode: bool)
      ensures fresh(promise) && this.command == command && this.fastMode == fastMode
      ensures Value() == Fresh(Delaying(command, fastMode, None))
    {
      this.command, this.fastMode, currentAction := command, fastMode, None;
      promise := new Promise();
    }

    /** DelayAction::make: the lock is taken before the action exists. */
    static method Make(command: Command, fastMode: bool, w0: World) returns (d: DelayAction, w: World)
      ensures fresh(d) && fresh(d.promise)
      ensures (d.Value(), w) == MakeDelay(command, fastMode, w0)
    {
      w := Prepare(command, Log(w0, Started(command)));
      d := new DelayAction(command, fastMode);
      w := d.Start(w);
    }

    method Start(w0: World) returns (w: World)
      requires Value() == Fresh(Delaying(command, fastMode, None))
      modifies this, promise
      ensures fastMode || command.delay == 0 ==> (Value(), w) == RunCommand(old(Value()), w0)
      ensures !fastMode && command.delay != 0 ==>
                w == w0 &&
                Value() == Fresh(Delaying(command, fastMode,
                    Some(Register(Fresh(Waiting).(timeout := Some(w0.now + command.delay)), AfterDelay, w0.now))))
    {
      w := w0;
      var busy := CheckDelay(w.now);
      if !busy {
        busy, w := CheckCommand(w);
        if !busy {
          w := Finish(w);
        }
      }
    }

    /** True if the current action has been set to a delay. */
    method CheckDelay(now: nat) returns (busy: bool)
      modifies this
      ensures busy == (!fastMode && command.delay != 0)
      ensures currentAction ==
                if busy then Some(Register(Fresh(Waiting).(timeout := Some(now + command.delay)), AfterDelay, now))
                    else old(currentAction)
    {
      var delay := if fastMode then 0 else command.delay;
      if delay == 0 {
        return false;
      }
      currentAction := Some(Register(Fresh(Waiting).(timeout := Some(now + delay)), AfterDelay, now));
      return true;
    }

    /** True if the current action has been set to the action of the command. */
    method CheckCommand(w0: World) returns (busy: bool, w: World)
      modifies this
      ensures var (child, w1) := Execute(command.body, fastMode, w0);
              && w == w1 && busy == (child.Some? && !child.value.state.Resolved?)
              && currentAction == if busy then Some(Register(child.value, AfterCommand, w1.now)) else child
    {
      var (child, w1) := Execute(command.body, fastMode, w0);
      currentAction, w := child, w1;
      if currentAction.None? || currentAction.value.state.Resolved? {
        return false, w;
      }
      currentAction := Some(Register(currentAction.value, AfterCommand, w.now));
      return true, w;
    }

    /** resolveInternal */
    method Finish(w0: World) returns (w: World)
      modifies promise
      ensures (Value(), w) == ResolveInternal(old(Value()), w0)
    {
      w := w0;
      if !promise.state.Terminated? {
        w := Complete(command, w);
      }
      promise.Resolve(w.now);
    }

    /** The continuation of the delay. */
    method DelayDone(w0: World) returns (w: World)
      requires currentAction.Some? && currentAction.value.after == Some(AfterDelay)
      modifies this, promise
      ensures (Value(), w) == Steps.Continue(old(Value()), 0, w0)
    {
      currentAction := None;
      w := w0;
      if !promise.state.Terminated? {
        var busy;
        busy, w := CheckCommand(w);
        if !busy {
          w := Finish(w);
        }
      }
    }

    /** The continuation of the command's action. */
    method CommandDone(w0: World) returns (w: World)
      requires currentAction.Some? && currentAction.value.after == Some(AfterCommand)
      modifies this, promise
      ensures (Value(), w) == Steps.Continue(old(Value()), 0, w0)
    {
      currentAction := None;
      w := Finish(w0);
    }

    /** The callback for a termination of the command's action. */
    method CommandTerminated(w0: World) returns (w: World)
      modifies this, promise
      ensures (Value(), w) == Steps.ChildTerminated(old(Value()), w0)
    {
      currentAction := None;
      w := Finish(w0);
    }

    method Terminate(w0: World) returns (w: World)
      modifies this, promise
      ensures (Value(), w) == Steps.Terminate(old(Value()), w0)
    {
      w := w0;
      var wasPending := promise.BeginTerminate();
      if !wasPending {
        return;
      }
      if currentAction.Some? {
        var child := currentAction.value;
        w := Steps.Terminate(child, w).1;
        if child.state.Pending? && child.after == Some(AfterCommand) {
          w := CommandTerminated(w);
        }
        currentAction := None;
      }
      w := Complete(command, w);
    }
  }
}
