/** DocumentAction: the commands of all components side by side, then the commands of the document. */
module DocumentActions {
  import opened Wrappers
  import opened Commands
  import opened Actions
  import opened Promises
  import Steps

  /** The two phases as slots; an absent or empty document command is no phase at all. */
  function Phases(components: seq<Slot>, document: seq<Slot>): seq<Slot> {
    [Join(components)] + if document == [] then [] else [Row(document, FinishAll)]
  }

  class DocumentAction {
    const promise: Promise
    const components: seq<Slot>
    const document: seq<Slot>
    const fastMode: bool
    var started: bool
    var stateFinally: bool
    var currentAction: Option<Action>

    ghost function Value(): Action
      reads this, promise
    {
      var next := if stateFinally then |Phases(components, document)| else if started then 1 else 0;
      promise.With(Scripting(Phases(components, document), FinishAll, fastMode, next, currentAction))
    }

    /** Once it has started, the action has a child exactly as long as it is pending. */
    ghost predicate Valid()
      reads this, promise
    {
      started && (currentAction.Some? <==> promise.state.Pending?)
    }

    constructor (components: seq<Slot>, document: seq<Slot>, fastMode: bool)
      ensures fresh(promise) && this.components == components && this.document == document && this.fastMode == fastMode
      ensures Value() == Fresh(Scripting(Phases(components, document), FinishAll, fastMode, 0, None))
    {
      this.components, this.document, this.fastMode := components, document, fastMode;
      started, stateFinally, currentAction := false, false, None;
      promise := new Promise();
    }

    /** DocumentAction::make */
    static method Make(components: seq<Slot>, document: seq<Slot>, fastMode: bool, w0: World)
      returns (d: DocumentAction, w: World)
      ensures d.Valid() && fresh(d) && fresh(d.promise)
      ensures (d.Value(), w) == MakeScript(Phases(components, document), FinishAll, fastMode, w0)
    {
      d := new DocumentAction(components, document, fastMode);
      w := d.Start(w0);
    }

    method Start(w0: World) returns (w: World)
      requires !started && !stateFinally && currentAction.None? && promise.state.Pending?
      modifies this, promise
      ensures Valid()
      ensures (Value(), w) == Actions.Advance(old(Value()), w0)
    {
      started := true;
      var (child, w1) := StartBranches(components, fastMode, w0);
      if child.None? {
        w := Advance(w1);
        return;
      }
      currentAction := Some(Register(child.value, AfterStep, w1.now));
      w := w1;
    }

    method Advance(w0: World) returns (w: World)
      requires started && !stateFinally && currentAction.None? && promise.state.Pending?
      modifies this, promise
      ensures Valid()
      ensures (Value(), w) == Actions.Advance(old(Value()), w0)
    {
      w := w0;
      stateFinally := true;
      if document == [] {
        promise.Resolve(w.now);
        return;
      }
      var (child, w1) := MakeScript(document, FinishAll, fastMode, w);
      currentAction := Some(Register(child, AfterStep, w1.now));
      w := w1;
    }

    /** The continuation that the child of the component phase was given, while the action still has that child. */
    method ComponentsDone(w0: World) returns (w: World)
      requires Valid() && currentAction.Some? && !stateFinally
      modifies this, promise
      ensures Valid()
      ensures (Value(), w) == Steps.Continue(old(Value()), 0, w0)
    {
      currentAction := None;
      w := Advance(w0);
    }

    /** The continuation that the array of the document's commands was given, while the action still has it. */
    method DocumentDone(w0: World) returns (w: World)
      requires Valid() && currentAction.Some? && stateFinally
      modifies this, promise
      ensures Valid()
      ensures (Value(), w) == Steps.Continue(old(Value()), 0, w0)
    {
      currentAction := None;
      w := w0;
      promise.Resolve(w.now);
    }

    /** A termination lets go of the child, so its continuation can no longer run. */
    method Terminate(w0: World) returns (w: World)
      requires Valid()
      modifies this, promise
      ensures Valid()
      ensures (Value(), w) == Steps.Terminate(old(Value()), w0)
    {
      w := w0;
      var wasPending := promise.BeginTerminate();
      if !wasPending {
        return;
      }
      if currentAction.Some? {
        w := Steps.Terminate(currentAction.value, w).1;
        currentAction := None;
      }
      if !stateFinally {
        w := Steps.HandOff(if document == [] then [] else [Row(document, FinishAll)], w);
      }
    }
  }
}
