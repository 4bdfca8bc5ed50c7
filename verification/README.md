# A verified model of the APL core engine

This project models parts of the APL core library and of its tools in Dafny 4.11, and proves properties of the
model. `dafny verify dfyconfig.toml` checks all of it. Nothing here runs the original program.

## What is modelled

**The action engine** (`Actions.dfy`, `Steps.dfy`). Commands run as a tree of promise-like actions. `Actions` says what
creating an action does (DelayAction, SequentialAction, ArrayAction, the `makeAll` of a Parallel command), `Steps`
what each continuation, each termination callback and each outside signal does. The two together are a step system
over values: a timer fires, a leaf is resolved from outside, a leaf is terminated from outside, the root is terminated,
the clock moves. A list of commands is represented by its inflated form: a slot is a command of the same sequencer, a
command sent to another sequencer, something that inflates to nothing, the list of one datum, or a nested `makeAll`.

- A tree owns its children. The original's continuations hold weak pointers and an action is held by its owner only, so
  an owner that lets go of a child destroys it and clears its timer; here the child, with its timer, is simply no longer
  part of the tree. Each child gets one `then` registration. For `makeAll`, `CollectionAsTree` proves that this is what
  objects, weak pointers and a heap of timers amount to.
- A timer is the `timeout` field of the action that would clear it.
- Timers with the same due time fire in any order. The heap of `CoreTimeManager` compares end times only
  (`aplcore/include/apl/time/coretimemanager.h`), so every claim is proved for every order of ties.
- `Dead` is the body of a command whose `execute` returns an action that is already terminated
  (`aplcore/src/action/controlmediaaction.cpp:109-112`, `aplcore/src/action/playmediaaction.cpp:80-83`).
- Screen-lock calls are recorded with the command that makes them, and started commands, commands sent away and lists
  handed to the sequencer are logged.

`Invariant.dfy`, `Progress.dfy`, `Locks.dfy`, `NoStall.dfy`, `Clock.dfy`, `RunTime.dfy`, `Dispatch.dfy`, `Order.dfy`,
`Census.dfy` and `Attribution.dfy` each prove one thing that every step keeps. `Runs.dfy` turns them into statements about
whole runs, and `Scripts.dfy` into statements about a Sequential, an array or the action of a document at any place in the tree, at
any moment of any run: what it has dispatched, and what it hands over when the root is terminated.

**The same actions as objects** (`Promise.dfy`, `Sequential.dfy`, `Delay.dfy`, `Array.dfy`, `Document.dfy`). Classes with
the fields, loops and callbacks of the original. Each method is proved to change its object exactly as the step system
says, so what is proved about runs holds of the loops. For `SequentialAction` this is a refinement: two phases, a repeat
counter and a shared index against one cursor in one flat list.

**makeAll and makeAny** (`Collection.dfy`) have a step system of their own, with children as objects, timers on a heap and
weak pointers from timers to children. Its steps are: a child is resolved or terminated from outside, any timer fires, the
collection is terminated, its owner lets go of it. A runnable whose child no longer exists does nothing, and looking for a
child that is not on the list sets a failure flag; that both never matter is proved, not assumed. The class `Collection`
does what these steps say.

**Easing** (`Bezier.dfy`, `ArcLength.dfy`, `Segments.dfy`, `EasingGrammar.dfy`). Over the reals: the bisection that inverts
a cubic Bezier curve, the polyline that approximates a spatial curve, the binary search over segments, the one-entry memo
of `calc`, and the actions of the grammar, from the words and numbers of a curve to its list of segments. The square root is a parameter of which only its defining equation is used.

**Enumerations** (`Enums.dfy`). The tool that resolves C++ enumerations: the parser's actions for one enumeration, the
depth-first sort by references, and the pass that gives every item its value. Sets of names are taken in any order.

**Two algorithms** (`Grid.dfy`, `SpeechMarks.dfy`): the cross-axis sizes of a grid sequence, and the consumption of
speech marks. **Animation** (`Animate.dfy`): the rounds of AnimateItem and the values its properties end up with.

## What turned out false

- *No stall* fails when a body returns an action that is already terminated: `Runs.AlreadyTerminatedBodyStalls`. The
  exact condition is in `Runs.DrainedMeansResolved`.
- *The memo of `calc` agrees with `calcInternal`* fails for a first call at the memo's initial time:
  `Segments.MemoCanBeWrong`, with the exact condition in `Segments.MemoIsWrongIff`.
- *The arc-length look-up never divides by zero* fails on a spatial curve that stays at one point:
  `Segments.StandingStillIsNotANumber`. `Segments.ValueIsNotANumberIff` says exactly when the value of a curve is not a
  number, in terms of its control points and the time.
- *Every automatic entry of a grid is filled in* fails when a size comes out as the value -1 that marks an unsized entry:
  `Grid.MarkCanBeMistaken`. The exact condition, in terms of the entries and the cross size, is in
  `Grid.AllocationKeepsIff`.
- *Hyphenated words are searched piece by piece*, as the comment in the speech-mark code says, fails for "a-b" in the text
  "b": `SpeechMarks.SecondPieceIsMissed`. The code searches for the first characters of the whole word, with the length of
  each piece. `SpeechMarks.SplitsRightlyIff` says for exactly which words this finds what a search piece by piece finds,
  whatever the text: those of which each piece is a beginning of the word or contains an earlier piece.

## Model

| member | source | states |
|---|---|---|
| `Runs.DrainedMeansResolved` | `aplcore/src/action/delayaction.cpp:84-118` | No stall: in every run in which only leaves are resolved or terminated, once no timer is scheduled and no leaf is pending, the root has resolved if and only if no body it runs returns an already terminated action. |
| `Runs.PendingCanMove` | `aplcore/src/action/action.cpp:131-149` | Until it resolves, such a command always has a step that may be taken: a pending leaf, or a timer that no other timer precedes. |
| `Runs.RunsAreBounded` | `aplcore/src/action/sequentialaction.cpp:76-142` | Every run makes at most as many moves, apart from clock ticks, as the command's structure allows. |
| `Runs.AlreadyTerminatedBodyStalls` | `aplcore/src/action/controlmediaaction.cpp:109-112` | A command whose body is already terminated stays pending although nothing is left that could happen. |
| `Runs.LocksAreConserved` | `aplcore/src/command/corecommand.cpp:184-198` | In every reachable state, and command by command, the screen lock has been taken once per start of a DelayAction that asks for it, and taken exceeds released by the pending ones; a finished root has released exactly what was taken, by the same commands. |
| `Runs.TerminationIsFinal` | `aplcore/src/action/action.cpp:72-86` | Terminating the root at any step of any run leaves nothing pending, no timer, no lock held, and no node that any later signal could reach. |
| `Runs.ResolvesOnTime` | `aplcore/src/action/delayaction.cpp:58-78` | An undisturbed tree of delays resolves exactly at its start plus its structural time, whatever the order of timers that are due together, and is never drained before. |
| `Runs.DispatchIsConserved` | `aplcore/src/command/parallelcommand.cpp:34-86` | Whatever the interleaving of parallel branches, each event has been dispatched as often as the command list says, less what is still to come; a resolved root has dispatched all of it. |
| `Runs.DispatchIsInOrder` | `aplcore/src/action/sequentialaction.cpp:76-172` | A command that runs one thing at a time dispatches its flat list in order, however its leaves end: at every moment the log is a prefix and what is ahead is the rest. |
| `Runs.EventsAreInOrder` | `aplcore/src/command/parallelcommand.cpp:34-86` | Whatever runs beside them: events that at each fork of a command only one branch dispatches are dispatched in the order of the flat list, and the others of them are still ahead in that order. |
| `Runs.CommandsDoNotOverlap` | `aplcore/src/action/sequentialaction.cpp:144-172` | In such a run any two signals that could be delivered next go to one and the same node. |
| `Runs.TerminationHandsOver` | `aplcore/src/action/arrayaction.cpp:33-51` | Terminating such a run appends to the log the lists that the pending scripts hand over, innermost first, and nothing else. |
| `Runs.RunInv` | `aplcore/src/time/coretimemanager.cpp:170-188` | Every run keeps the shape of the tree, the lock ledger and the timers, and the clock never goes back. |
| `ScriptRuns.ScriptInRun` | `aplcore/src/action/arrayaction.cpp:58-93` | Wherever a pending script is in the tree and whatever runs beside it, the slot before its cursor is running, and dispatched, still to come around it, and still to come from it are all there is; an event that is dispatched only through its list has been dispatched as its slots before the cursor say, less what the running slot still has to dispatch. |
| `ScriptRuns.ScriptInOrder` | `aplcore/src/action/arrayaction.cpp:58-93` | Of events that are dispatched only through its list, a pending script at any place has dispatched what the slots before its cursor say, in order, up to what the running slot has still ahead. |
| `ScriptRuns.PendingScriptHandsOver` | `aplcore/src/action/action.cpp:72-86` | Terminating the root logs, as one stretch of what is handed over, what the running slot of the script has left and then what its own callback hands over. |
| `ScriptRuns.UsedUpScript` | `aplcore/src/action/arrayaction.cpp:92` | A script whose list is used up has dispatched all of it and hands nothing over. |
| `SequentialRuns.PendingIsInList` | `aplcore/src/action/sequentialaction.cpp:83-141` | At any place in the tree, in every run, a pending Sequential has dispatched exactly the slots of its flat list before a cursor, less what the running slot still has to dispatch. |
| `SequentialRuns.PendingIsInOrder` | `aplcore/src/action/sequentialaction.cpp:83-141` | With anything running beside it, the log restricted to events that only this Sequential dispatches is a beginning of its flat list, up to its cursor and what the running slot has still ahead. |
| `SequentialRuns.TerminationCompletesFinally` | `aplcore/src/action/sequentialaction.cpp:43-69` | Finally exactly once: when the root is terminated at any such moment, the Sequential, at any place in the tree, hands over catch if and only if the finally phase has not begun; the finally commands it has taken and those it hands over are together the finally list, in order. |
| `SequentialRuns.NotYetBegun` | `aplcore/src/action/delayaction.cpp:58-78` | During the delay before it, a Sequential at any place has dispatched nothing of its list and hands nothing over. |
| `SequentialRuns.UsedUpHandsNothingOver` | `aplcore/src/action/sequentialaction.cpp:134-141` | After its list is used up, it has dispatched all of it and hands nothing over. |
| `ArrayRuns.ArrayExactlyOnce` | `aplcore/src/action/arrayaction.cpp:33-51` | In every run, a pending array at any place has dispatched the entries before its cursor, less what the running one has left, and a termination of the root hands over what that one has left and then exactly the other entries, or none of them without finish-all. |
| `ArrayRuns.UsedUpHandsNothingOver` | `aplcore/src/action/arrayaction.cpp:92` | After its list is used up, an array has dispatched all of it and hands nothing over. |
| `DocumentRuns.DuringComponents` | `aplcore/src/action/documentaction.cpp:45-57` | In every run, while the components run, nothing of the document list has been dispatched, and a termination hands over the whole of it, after what the components have left. |
| `DocumentRuns.DuringDocument` | `aplcore/src/action/documentaction.cpp:79-103` | While the document list runs, all component commands and the entries before its cursor have been dispatched, less what the running entry has left, and a termination hands over exactly the rest. |
| `DocumentRuns.AfterDocument` | `aplcore/src/command/documentcommand.cpp:42-60` | After both phases everything has been dispatched, and nothing is handed over. |
| `Attribution.DeliverWithin` | `aplcore/src/action/action.cpp:308-317` | Every signal keeps that no part of the tree dispatches more of an event than the slot or body it was started for. |
| `Attribution.AroundFits` | `aplcore/src/command/parallelcommand.cpp:34-86` | What a node dispatches altogether and what is still to come around it fit into what the tree dispatches altogether. |
| `Attribution.HandsOverAt` | `aplcore/src/action/action.cpp:72-86` | What a node hands over is one stretch of what the tree hands over. |
| `Invariant.DeliverKeeps` | `aplcore/src/action/action.cpp:131-149` | Every delivered signal keeps the tree well formed: a resolved action with a continuation has exactly one firing scheduled, a pending one waits for something, a finished one owns nothing that waits. |
| `Invariant.TerminateQuiets` | `aplcore/src/action/action.cpp:258-262` | Terminating a pending action leaves it terminated, without children, and quiet. |
| `Invariant.FinishedIsDeaf` | `aplcore/src/action/action.cpp:52-59` | Nothing below a finished action can receive a signal. |
| `NoStall.PendingListens` | `aplcore/src/action/delayaction.cpp:84-110` | A pending action with no already terminated body below it has a pending leaf or a scheduled timer below it. |
| `NoStall.DeliverBlocks` | `aplcore/src/action/action.cpp:308-317` | No signal changes whether a tree is blocked by an already terminated body. |
| `Progress.DeliverWork` | `aplcore/src/action/action.cpp:131-149` | Every delivered signal strictly lowers the work that a tree has left. |
| `Locks.DeliverLocks` | `aplcore/src/action/delayaction.cpp:112-118` | Whatever signal arrives, for each command the locks it has taken minus those it has released stay equal to its pending DelayActions. |
| `Locks.TerminateLocks` | `aplcore/src/action/delayaction.cpp:25-32` | Terminating a tree releases each lock it holds exactly once, although the callback of the command's action re-enters its owner. |
| `Clock.EarliestTimer` | `aplcore/src/time/coretimemanager.cpp:114-115` | Where a timer is scheduled there is one that no other timer precedes. |
| `RunTime.FireKeepsTime` | `aplcore/src/action/action.cpp:171-194` | Firing a timer at its due time does not move the time at which the tree finishes. |
| `RunTime.FastTakesNoTime` | `aplcore/src/action/delayaction.cpp:60-62` | In fast mode the structural time of every command is zero. |
| `Order.DeliverInOrder` | `aplcore/src/action/action.cpp:308-317` | Whatever signal arrives, what it dispatches of a set of events is the beginning of what is ahead of them, if at each makeAll only one member has any of them ahead; and this stays so. |
| `Order.SideBySide` | `aplcore/src/command/parallelcommand.cpp:41-83` | Two parts that run side by side dispatch the events of a set in order if at most one of them has any. |
| `Order.OnlyAtNode` | `aplcore/src/command/parallelcommand.cpp:41-83` | If nothing of a set is to come around a node, the events of the set that the tree has ahead are those of the node, in order. |
| `Order.AheadCounts` | `aplcore/src/action/arrayaction.cpp:58-93` | What is still to come, counted, is what is ahead, listed. |
| `Dispatch.DeliverSerial` | `aplcore/src/action/arrayaction.cpp:58-93` | Whatever signal arrives, a tree that runs one thing at a time goes on doing so. |
| `Dispatch.SerialListensOnce` | `aplcore/src/action/arrayaction.cpp:74-89` | In a tree that runs one thing at a time only one node can receive a signal. |
| `Dispatch.TerminateHandsOver` | `aplcore/src/action/arrayaction.cpp:33-51` | Terminating any tree, with parallel branches too, logs the remainders of its pending scripts, each once. |
| `Census.DeliverCensus` | `aplcore/src/action/action.cpp:308-317` | Whatever signal arrives, an event dispatched plus still to be dispatched is constant, also with parallel branches. |
| `SequentialTime.TimeOfSequential` | `aplcore/src/action/sequentialaction.cpp:87-139` | The structural time of a Sequential is (repeatCount + 1) times that of one round, plus that of the finally commands. |
| `SequentialTime.TimeOfSequentialWithData` | `aplcore/src/action/sequentialaction.cpp:98-127` | With data of equal time, a round takes the data length times that time. |
| `SequentialTime.TimeOfParallel` | `aplcore/src/command/parallelcommand.cpp:41-83` | The structural time of a Parallel is the longest of the times of its commands, or with data of the list of each datum, and 0 without commands. |
| `Schedules.RoundAt` | `aplcore/src/action/sequentialaction.cpp:87-130` | Round k of the flat list begins after k rounds and is the command list, or one row per datum. |
| `Schedules.ScheduleAt` | `aplcore/src/action/sequentialaction.cpp:87-139` | The flat list of a Sequential, slot by slot: slot i of round k, of repeatCount + 1 rounds, is command i, or the array of datum i when there are data; the finally commands follow. |
| `Promises.Promise.Then` | `aplcore/src/action/action.cpp:64-70` | A continuation registered on a resolved action is scheduled at once and never runs synchronously. |
| `Promises.Promise.Resolve` | `aplcore/src/action/action.cpp:91-98` | Only a pending action resolves, and its continuation, if any, is scheduled for now. |
| `Promises.Promise.BeginTerminate` | `aplcore/src/action/action.cpp:73-81` | Only a pending action terminates, and its timer is cleared before any callback. |
| `DelayActions.DelayAction.Start` | `aplcore/src/action/delayaction.cpp:46-52` | Starts with the delay, or with the command when there is no delay or in fast mode. |
| `DelayActions.DelayAction.CheckCommand` | `aplcore/src/action/delayaction.cpp:84-110` | Busy exactly when the command returns an action that is not resolved, which then gets the continuation. |
| `DelayActions.DelayAction.DelayDone` | `aplcore/src/action/delayaction.cpp:68-76` | The continuation of the delay does what the step system says, also after a termination. |
| `DelayActions.DelayAction.CommandDone` | `aplcore/src/action/delayaction.cpp:93-99` | The continuation of the command completes and resolves the action as the step system says. |
| `DelayActions.DelayAction.CommandTerminated` | `aplcore/src/action/delayaction.cpp:101-107` | A termination of the command's action completes and resolves its owner as the step system says. |
| `DelayActions.DelayAction.Terminate` | `aplcore/src/action/delayaction.cpp:25-32` | Terminates the current action, survives the re-entrant callback, and completes the command once. |
| `SequentialActions.SequentialAction.Advance` | `aplcore/src/action/sequentialaction.cpp:76-142` | The nested loops over rounds, data and commands take the slots of the flat list one by one until one has to be waited for. |
| `SequentialActions.SequentialAction.TryPhase` | `aplcore/src/action/sequentialaction.cpp:83-132` | The rounds either start a child or end with the finally phase and the shared index at 0; the place in the flat list never goes back. |
| `SequentialActions.SequentialAction.TakeData` | `aplcore/src/action/sequentialaction.cpp:98-127` | With data, each datum starts the array of the command list as it inflates for that datum. |
| `SequentialActions.SequentialAction.DoCommand` | `aplcore/src/action/sequentialaction.cpp:144-172` | A command that inflates to nothing or belongs to another sequencer is not waited for; any other becomes the current action. |
| `SequentialActions.SequentialAction.ChildDone` | `aplcore/src/action/sequentialaction.cpp:160-167` | The continuation advances unless the action is terminated, as the step system says. |
| `SequentialActions.SequentialAction.Remaining` | `aplcore/src/action/sequentialaction.cpp:52-66` | The loops over catch and finally collect exactly what the flat list leaves at the current place. |
| `SequentialActions.SequentialAction.Terminate` | `aplcore/src/action/sequentialaction.cpp:43-69` | Terminates the current action and hands over what is left, as the step system says. |
| `ArrayActions.ArrayAction.Advance` | `aplcore/src/action/arrayaction.cpp:58-93` | The loop takes slots until one starts a child, and resolves at the end of the list. |
| `ArrayActions.ArrayAction.Remaining` | `aplcore/src/action/arrayaction.cpp:40-48` | The collecting loop gives the commands from the cursor on. |
| `ArrayActions.ArrayAction.Terminate` | `aplcore/src/action/arrayaction.cpp:33-51` | Terminates the current action and hands over the rest exactly when the command finishes all on terminate. |
| `ParallelCommands.ExecuteParallel` | `aplcore/src/command/parallelcommand.cpp:34-86` | Without commands nothing runs. With data one array for each datum runs in the makeAll, with the list of that datum, in order; without data one DelayAction for each command of this sequencer, in order. What is dispatched at once and what is still to come are, event by event, what the commands or the lists of the data ask for. Both loops do what the step system says. |
| `DocumentActions.DocumentAction.Start` | `aplcore/src/action/documentaction.cpp:60-77` | Starts the component phase, or goes on when no component has anything to run. |
| `DocumentActions.DocumentAction.Advance` | `aplcore/src/action/documentaction.cpp:79-103` | Starts the document phase, or resolves when there is no document command. |
| `DocumentActions.DocumentAction.ComponentsDone` | `aplcore/src/action/documentaction.cpp:70-76` | When the components are done the document phase begins, as the step system says. |
| `DocumentActions.DocumentAction.DocumentDone` | `aplcore/src/action/documentaction.cpp:96-102` | When the document's commands are done the action resolves. |
| `DocumentActions.DocumentAction.Terminate` | `aplcore/src/action/documentaction.cpp:45-57` | Terminates the running phase and hands over the document command only when its phase has not begun. |
| `CollectionSteps.TestsOfContinuation` | `aplcore/src/action/action.cpp:322-347` | The continuation of a child does nothing without the collection or after its termination, reports a child that is not on the list, and otherwise takes note of it. |
| `CollectionRuns.ListIsExact` | `aplcore/src/action/action.cpp:240-256` | In every run of makeAll or makeAny the list of a pending collection is exactly the children whose continuation has not run, none has run twice, every scheduled runnable belongs to a child on the list, and the assertion of removeAction never fails; once the collection is over, no runnable is left. |
| `CollectionRuns.AllResolvesWithTheLast` | `aplcore/src/action/action.cpp:296-320` | In every reachable state, makeAll resolves in a step if and only if the step is the firing of the only child left on its list; once resolved, every child's continuation has run. |
| `CollectionRuns.AnyResolvesWithTheFirst` | `aplcore/src/action/action.cpp:322-347` | In every reachable state, makeAny resolves in a step if and only if the step is a firing, which is then the first; every other child is then not pending, no child exists any more and no runnable is left. |
| `CollectionRuns.TerminationIsFinal` | `aplcore/src/action/action.cpp:258-262` | Terminating a pending collection leaves no child pending and no runnable. |
| `CollectionRuns.ClosedIsSilent` | `aplcore/src/action/action.cpp:308-317` | Once a collection has resolved, been terminated or been released, no further step makes a continuation take effect. |
| `CollectionRuns.DrainedMeansResolved` | `aplcore/src/action/action.cpp:296-347` | Left to itself and drained, makeAll has resolved if and only if none of its children was terminated from outside, makeAny if and only if some child resolved. |
| `CollectionRuns.RunInv` | `aplcore/src/action/action.cpp:52-59` | Every run keeps that exactly the listed children exist and exactly the resolved ones among them have a timer, their only one. |
| `CollectionAsTree.FiringIsContinue` | `aplcore/src/action/action.cpp:131-149` | A firing on the heap does to the collection what the engine's step system does to a node that owns its children with their timers. |
| `CollectionAsTree.ResolvingIsResolve` | `aplcore/src/action/action.cpp:91-98` | So does a child that is resolved from outside. |
| `CollectionAsTree.TerminatingIsTerminate` | `aplcore/src/action/action.cpp:301-304` | So does a termination of the collection. |
| `CollectionAsTree.TimersAreThoseOfTheHeap` | `aplcore/src/action/action.cpp:52-59` | A child has a timer on the heap exactly when it is on the list with a timer of its own. |
| `Collections.Collection.constructor` | `aplcore/src/action/action.cpp:245-250` | Children that are already terminated are left out, and every other gets its continuation. |
| `Collections.Collection.RemoveAction` | `aplcore/src/action/action.cpp:252-256` | Removes the child if it is on the list, and reports when it is not. |
| `Collections.Collection.TerminateRest` | `aplcore/src/action/action.cpp:258-262` | Terminates every child on the list, then lets go of all of them. |
| `Collections.Collection.ChildDone` | `aplcore/src/action/action.cpp:322-347` | The continuation, with its test for a collection that is gone or terminated, does what the step system says. |
| `Collections.Collection.Terminate` | `aplcore/src/action/action.cpp:301-304` | Terminating does what the step system says. |
| `Collections.Collection.OnTimer` | `aplcore/src/action/action.cpp:137-148` | The runnable of a timer does nothing when its child no longer exists, and otherwise runs its continuation and then lets go of it. |
| `Bezier.ChordSlope` | `aplcore/src/animation/coreeasing.cpp:26-29` | The difference of two values of the curve factors into the difference of the parameters and the slope of the chord. |
| `Bezier.CurveIsBernstein` | `aplcore/src/animation/coreeasing.cpp:26-39` | The rearranged polynomial is the Bernstein form with control values 0, a, b and 1. |
| `Bezier.Lipschitz` | `aplcore/src/animation/coreeasing.cpp:26-29` | On [0, 1] the curve neither rises nor falls faster than a constant times the distance of the parameters, for every pair of control points; the constant is 3 when they lie in [0, 1]. |
| `Bezier.MiddleIsClose` | `aplcore/src/animation/coreeasing.cpp:53-63` | The middle of a bracketing interval that has been halved often enough is within the tolerance. |
| `Bezier.NineteenIsEnough` | `aplcore/src/animation/coreeasing.cpp:56-57` | 19 halvings are enough when the control points lie in [0, 1]. |
| `Bezier.HeightIsOnCurve` | `aplcore/src/animation/coreeasing.cpp:44-67` | The result is the height of a point of the curve whose x differs from the target by less than 0.00001, for every pair of control points. |
| `Bezier.BinarySearchCubic` | `aplcore/src/animation/coreeasing.cpp:44-67` | The loop always returns that result, within 19 turns for control points in [0, 1], so its final assertion is never reached. |
| `ArcLength.CubicIsBernstein` | `aplcore/src/animation/easingapproximation.cpp:39-52` | The rearranged polynomial with its cut-offs is the Bernstein form on [0, 1]. |
| `ArcLength.Create` | `aplcore/src/animation/easingapproximation.cpp:66-118` | The table holds the samples of the curve at equal steps, and entry k is the length of the polyline up to point k + 1; the lengths never fall. |
| `ArcLength.LengthGrows` | `aplcore/src/animation/easingapproximation.cpp:103-113` | The length of the polyline up to a point does not fall from point to point. |
| `ArcLength.PositionIsOnPolyline` | `aplcore/src/animation/easingapproximation.cpp:134-168` | For positive length and 0 < p < 1, one segment and one fraction in (0, 1] give all coordinates at once: each is that fraction of the way between the two points, and p times the total length is that fraction of the way between the lengths up to them. |
| `ArcLength.PositionAtEnds` | `aplcore/src/animation/easingapproximation.cpp:138-144` | From the ends on, the position is the first point or the last one. |
| `ArcLength.CoordinateIsBernstein` | `aplcore/src/animation/easingapproximation.cpp:81-100` | A sampled coordinate is that of the Bezier curve from start to end whose inner control points are the ends plus their tangents. |
| `ArcLength.LengthIsEuclidean` | `aplcore/src/animation/easingapproximation.cpp:103-113` | The length of each segment of the polyline squared is the sum of the squared differences of its coordinates. |
| `ArcLength.NotANumberIff` | `aplcore/src/animation/easingapproximation.cpp:157-159` | The look-up divides by zero if and only if 0 < p < 1 and the total length is 0. |
| `ArcLength.TotalIsZeroIff` | `aplcore/src/animation/easingapproximation.cpp:81-113` | The table of 51 points has no length if and only if start and end of the curve coincide and both tangents are 0, in every coordinate. |
| `Segments.FindSegment` | `aplcore/src/animation/coreeasing.cpp:200-214` | The binary search finds the segment that a linear scan finds. |
| `Segments.ScanSurrounds` | `aplcore/src/animation/coreeasing.cpp:200-214` | That segment starts at or before the time, and the next one, if any, after it. |
| `Segments.ScanIsUnique` | `aplcore/src/animation/coreeasing.cpp:200-214` | It is the only such segment. |
| `Segments.EndsAtNextStart` | `aplcore/src/animation/coreeasing.cpp:110-157` | The end time and end value that a segment reads are the start time and start value of the next one, for all kinds of segments. |
| `Segments.LocalTime` | `aplcore/src/animation/coreeasing.cpp:233-238` | The local time within the segment found is in [0, 1). |
| `Segments.CalcInternal` | `aplcore/src/animation/coreeasing.cpp:179-259` | The code, with the fall-through of its first switch, computes the value that the linear scan defines. |
| `Segments.StaysOutside` | `aplcore/src/animation/coreeasing.cpp:182-198` | Up to the first point the value is that of the first point, from the last point on that of the last. |
| `Segments.PassesThroughPoints` | `aplcore/src/animation/coreeasing.cpp:222-229` | The curve takes the value of every point at which a straight segment or the end starts. |
| `Segments.StraightInBetween` | `aplcore/src/animation/coreeasing.cpp:222-229` | On a straight segment the value is proportional to the time between the two points. |
| `Segments.CurveInBetween` | `aplcore/src/animation/coreeasing.cpp:231-240` | On a curved segment the value is as far between those of the two ends as the height of a point of its Bezier curve says, whose x is within 0.00001 of the local time. |
| `Segments.SpatialInBetween` | `aplcore/src/animation/coreeasing.cpp:247-256` | On a spatial segment whose curve does not stay at one point, the value is the selected coordinate of a point between two neighbouring ones of 51 samples of the curve; the length travelled there is the percentage times the total. |
| `Segments.PercentageIsOnCurve` | `aplcore/src/animation/coreeasing.cpp:247-256` | The percentage is the height of a point of the segment's timing curve, whose x is within 0.00001 of the local time. |
| `Segments.SpatialAtEnds` | `aplcore/src/animation/coreeasing.cpp:247-256` | Where the timing curve is at or beyond 0 or 1, the value is that of the segment's start or of the next one's. |
| `Segments.ValueIsNotANumberIff` | `aplcore/src/animation/coreeasing.cpp:247-256` | The value is not a number if and only if the time is inside a spatial segment whose curve stays at one point and is mapped strictly between 0 and 1 by the timing curve. |
| `Segments.StandingStillIsNotANumber` | `aplcore/src/animation/coreeasing.cpp:164-177` | A curve in the plane that stays at one point, with the table that is built for it, is an input for which it is not. |
| `Segments.EnsureApproximations` | `aplcore/src/animation/coreeasing.cpp:164-177` | Each spatial segment gets the polyline that samples its own curve, read from its numbers and those of the next segment. |
| `Segments.UnitCurveEnds` | `aplcore/src/animation/coreeasing.cpp:179-220` | A curve from (0, 0) to (1, 1) is exactly 0 at 0 and 1 at 1. |
| `Segments.CoreEasing.Calc` | `aplcore/src/animation/coreeasing.cpp:261-270` | In every series of calls the memo answers `calcInternal`, except 0 as long as only its initial time has been asked for. |
| `Segments.MemoIsWrongIff` | `aplcore/src/animation/coreeasing.cpp:261-270` | An answer is wrong if and only if only the initial time has been asked for and the curve is not 0 there. |
| `Segments.MemoCanBeWrong` | `aplcore/include/apl/animation/coreeasing.h:94-95` | A curve that is 5 throughout answers 0 to a first call at 2^-126. |
| `Segments.MagicIsSmallest` | `aplcore/include/apl/animation/coreeasing.h:94-95` | The initial time is 2^-126. |
| `EasingGrammar.ParsePieces` | `aplcore/include/apl/animation/easinggrammar.h:169-345` | A list of lines and curves with an end, or of spatial curves with their end after `spatial`, is accepted if and only if it has at least one inner segment, each segment has the numbers its kind needs, the times increase strictly, and the index of `spatial` selects one of at least two coordinates; the result has the numbers one after the other and each segment at its place. |
| `EasingGrammar.EasingState.Finish` | `aplcore/include/apl/animation/easinggrammar.h:291-345` | A segment is taken if and only if it has its number of arguments and is later than the one before, if there is one. |
| `EasingGrammar.EasingState.Spatial` | `aplcore/include/apl/animation/easinggrammar.h:257-281` | `spatial` is accepted if and only if it has two numbers, at least two coordinates, and an index among them. |
| `EasingGrammar.AcceptedIsLaidOut` | `aplcore/include/apl/animation/easinggrammar.h:169-345` | Whatever is accepted meets what `calcInternal` relies on: segments end where the next ones start, at increasing times. |
| `EasingGrammar.LaidOutIsAccepted` | `aplcore/include/apl/animation/easinggrammar.h:169-345` | Conversely, every curve that is laid out so and uses all its numbers can be written down, is accepted, and comes out the same. |
| `EasingGrammar.AcceptedIsReadBack` | `aplcore/include/apl/animation/easinggrammar.h:169-345` | What is accepted can be read back from the curve it makes, head and segments, number by number. |
| `EasingGrammar.ValuesAreWritten` | `aplcore/include/apl/animation/easinggrammar.h:169-345` | The value at the start of a segment is the number written after its time, or the one that `spatial` selects among its coordinates. |
| `EasingGrammar.ControlIsWritten` | `aplcore/include/apl/animation/easinggrammar.h:315-345` | The curve of a spatial segment has the start, the leaving tangent and the arriving tangent that are written, in this order, and ends at the start of the next segment. |
| `EasingGrammar.ParsePath` | `aplcore/include/apl/animation/easinggrammar.h:113-139` | A path is accepted if and only if its numbers are pairs with times increasing strictly between 0 and 1, and then each point starts a segment. |
| `EasingGrammar.ParsedPathIsLaidOut` | `aplcore/include/apl/animation/easinggrammar.h:113-139` | Every accepted path meets what `calcInternal` relies on, and goes from (0, 0) to (1, 1). |
| `EasingGrammar.PathPoints` | `aplcore/include/apl/animation/easinggrammar.h:113-139` | An accepted path has its points at the times and values that are written. |
| `EasingGrammar.CubicBezierIsLaidOut` | `aplcore/src/animation/coreeasing.cpp:69-77` | So does every cubic-bezier curve. |
| `EasingGrammar.ParseCubicBezier` | `aplcore/include/apl/animation/easinggrammar.h:141-167` | Exactly four numbers are accepted for one, and are its control points. |
| `EasingGrammar.CubicBezierInside` | `aplcore/src/animation/coreeasing.cpp:44-77` | Inside, the value of a cubic-bezier curve (a, b, c, d) is the height of a point of the curve with control points (a, b) and (c, d), whose x is within 0.00001 of the time. |
| `Enumerations.State.ItemName` | `tools/src/enumparser.cpp:178-203` | A new item is appended after the one in progress has been pushed, and what the parser guarantees still holds. |
| `Enumerations.State.Reference` | `tools/src/enumparser.cpp:230-250` | A bare reference is rejected if and only if it names no item already pushed; a qualified one records its enumeration. |
| `Enumerations.State.Finish` | `tools/src/enumparser.cpp:284-308` | The finished enumeration has all items read, local references that point backwards, and exactly the references of its items. |
| `EnumSort.Sorter.Visit` | `tools/src/enumparser.cpp:311-326` | With grey marks on the path and black marks on the result, a visit extends the ordered result by its argument, or fails because of a real cycle or an unknown name; it terminates. |
| `EnumSort.Sorter.Sort` | `tools/src/enumparser.cpp:328-343` | Succeeds if and only if every reference is known and there is no cycle, self-reference included; the result then has each enumeration once, after everything it refers to. |
| `EnumSort.GreyIsCycle` | `tools/src/enumparser.cpp:317-318` | Meeting a grey mark closes a cycle of references. |
| `EnumSort.OrderedIsAcyclic` | `tools/src/enumparser.cpp:328-343` | What has a topological order has no cycle. |
| `EnumResolve.ResolveItems` | `tools/src/enumparser.cpp:394-433` | The items satisfy the value equations (previous + 1, assigned, first local match, first remote match), or the first one that cannot is reported. |
| `EnumResolve.SolutionIsEquations` | `tools/src/enumparser.cpp:394-436` | What is solved is exactly this: each item has 0 or one more than the item before, the assigned number, or the value of the first item of that name, before it or in the enumeration it refers to. |
| `EnumResolve.OnlyValuesAreMissing` | `tools/src/enumparser.cpp:406-428` | After the sort and the parser's check, neither a missing local value nor a missing other enumeration can be reported. |
| `EnumResolve.SolutionIsUnique` | `tools/src/enumparser.cpp:394-436` | At most one map satisfies all equations, so every topological order leads to the same map. |
| `EnumResolve.FailureMeansNoSolution` | `tools/src/enumparser.cpp:424-426` | A reported missing value means that no map satisfies the equations, so every order fails. |
| `EnumResolve.Resolve` | `tools/src/enumparser.cpp:394-438` | For every topological order the result is the one solution, and a failure is reported if and only if there is none. |
| `EnumResolve.EnumerateAll` | `tools/src/enumparser.cpp:385-439` | Succeeds if and only if references are known, acyclic and solvable, and then with a map that meets the value equations; two of the failures in the code never happen. |
| `Grid.AdjustChildDimensions` | `aplcore/src/component/gridsequencecomponent.cpp:194-262` | The loops compute the allocation that the claims below are about. |
| `Grid.SizesAreAskedFor` | `aplcore/src/component/gridsequencecomponent.cpp:213-234` | What the first pass gives to each entry: its absolute size; the largest whole number up to its percentage of the cross size, or what the entries before it have left if that is less; 0 where the cross size is automatic; or the mark -1. |
| `Grid.LeftIsUntaken` | `aplcore/src/component/gridsequencecomponent.cpp:231-233` | The budget of the autos is the cross size less all sizes that are not negative. |
| `Grid.TransSizeIs` | `aplcore/src/component/gridsequencecomponent.cpp:204-209` | Along the scrolling direction a percentage is not rounded, and auto takes everything. |
| `Grid.SharesAreFair` | `aplcore/src/component/gridsequencecomponent.cpp:248-259` | Each of n shares of a budget is the whole part of the average or one more; their sum is within 1/2 of the budget, and equal to it when it is whole. |
| `Grid.AverageOf` | `aplcore/src/component/gridsequencecomponent.cpp:253` | Every budget that is not negative has such an average, and a whole budget leaves a whole rest. |
| `Grid.SharesOfNothing` | `aplcore/src/component/gridsequencecomponent.cpp:253` | Without a budget every share is 0. |
| `Grid.RelativesFit` | `aplcore/src/component/gridsequencecomponent.cpp:213-234` | Relative sizes alone never exceed the cross size; sizes and the remaining budget add up to it, and the entries left unsized are exactly the autos. |
| `Grid.CourseIsFilled` | `aplcore/src/component/gridsequencecomponent.cpp:213-261` | Relative and automatic entries fill the cross axis to within 1/2, exactly when it is whole, each auto with the whole part of an equal share or one more, the others with what they asked for. |
| `Grid.NothingIsLeftForAutos` | `aplcore/src/component/gridsequencecomponent.cpp:248-259` | Once the budget is spent, autos get 0. |
| `Grid.FillKeepsIff` | `aplcore/src/component/gridsequencecomponent.cpp:248-259` | The filling loop alone, on any first-pass sizes: it leaves every asked-for size and sizes every auto if and only if no asked-for size came out as -1 before an auto. |
| `Grid.AllocationKeepsIff` | `aplcore/src/component/gridsequencecomponent.cpp:213-261` | The allocation of a list of entries gives each the size it asks for, and every auto a size, if and only if no entry before an auto asks for -1: an absolute -1, or a relative entry whose share or whose remaining axis is -1. |
| `Grid.OverdrawnByOne` | `aplcore/src/component/gridsequencecomponent.cpp:222-226` | Where no entry is negative, only a relative entry that finds the axis overdrawn by exactly 1 asks for -1. |
| `Grid.MarkCanBeMistaken` | `aplcore/src/component/gridsequencecomponent.cpp:252` | The list 101, 50%, auto on a cross axis of 100 leaves the auto entry at -1. |
| `Grid.SingleIsRepeated` | `aplcore/src/component/gridsequencecomponent.cpp:236-246` | A single size is repeated as often as it fits into the cross axis. |
| `Grid.LengthOfCourse` | `aplcore/src/component/gridsequencecomponent.cpp:236-246` | A course has one child for each entry, unless the only entry has a size of its own that fits; then it has as many as fit. |
| `Grid.AutomaticCrossSize` | `aplcore/src/component/gridsequencecomponent.cpp:219-221` | Where the cross size is automatic no auto is filled in, and the sizes stay those of the first pass. |
| `Grid.GridSequence.Calculate` | `aplcore/src/component/gridsequencecomponent.cpp:172-192` | The varying sizes and the items per course agree in both orientations. |
| `Grid.GridSequence.GetChildSize` | `aplcore/src/component/gridsequencecomponent.cpp:271-286` | The indices stay in range, and the size of a child is that of its place in its course, whichever the course. |
| `SpeechMarks.RunIsOneUpdate` | `aplcore/src/action/speakitemaction.cpp:287-350` | After any run of arriving marks and updates at times that do not go back, everything sent is what one update at the last time would send, and the marks consumed are the longest prefix that is due. |
| `SpeechMarks.SplitsMerge` | `aplcore/src/action/speakitemaction.cpp:300-311` | An update followed by a later one, with marks arriving in between, does what the later one alone does. |
| `SpeechMarks.ConsumesLongestPrefix` | `aplcore/src/action/speakitemaction.cpp:300-311` | An update stops at the first mark that is later than its time. |
| `SpeechMarks.HighlightsAscend` | `aplcore/src/action/speakitemaction.cpp:340-346` | In every run the highlighted ranges lie inside the text, strictly increase and never overlap. |
| `SpeechMarks.EventsAreConsumedMarks` | `aplcore/src/action/speakitemaction.cpp:313-323` | With a handler, the events sent are the consumed marks, in order. |
| `SpeechMarks.MatchIsBeginning` | `aplcore/src/action/speakitemaction.cpp:331-348` | What is highlighted for a word is always a beginning of the lower-cased word. |
| `SpeechMarks.SplitsRightlyIff` | `aplcore/src/action/speakitemaction.cpp:331-348` | In every text and from every position the loop finds what a search piece by piece finds, if and only if each piece of the word is a beginning of the word or contains an earlier piece. |
| `SpeechMarks.FirstPieceIsRight` | `aplcore/src/action/speakitemaction.cpp:331-348` | Whatever the word, a first piece that is found is found rightly. |
| `SpeechMarks.WholeWordIsSplittable` | `aplcore/src/action/speakitemaction.cpp:331-348` | A word without a hyphen is always searched for rightly. |
| `SpeechMarks.SecondPieceIsMissed` | `aplcore/src/action/speakitemaction.cpp:340` | "a-b" is a word that is not: in the text "b" its second piece is missed. |
| `SpeechMarks.FindIsFirst` | `aplcore/src/action/speakitemaction.cpp:340` | The place found is the first occurrence from the current position on, and none is missed. |
| `SpeechMarks.SpeakItem.OnSpeechMarks` | `aplcore/src/action/speakitemaction.cpp:141-161` | Marks that arrive are appended, and nothing is sent. |
| `SpeechMarks.SpeakItem.MatchWord` | `aplcore/src/action/speakitemaction.cpp:331-348` | The loop over the hyphens ends and finds the first piece that matches, whatever the hyphens. |
| `SpeechMarks.SpeakItem.UpdateMarks` | `aplcore/src/action/speakitemaction.cpp:287-350` | Exactly the marks that are due are spoken, each at the text position that the one before has left. Only a mark for a word that is neither empty nor a tag is looked for, and only before the end of the text; of the word's patterns the first that occurs is highlighted where it first occurs, and the text is read on from behind it. The handler gets every mark, before its highlight. |
| `SpeechMarks.RunIsCourse` | `aplcore/src/action/speakitemaction.cpp:287-350` | What a whole run has sent: its highlights are those of its consumed marks, in order, from the beginning of the text, each searched for from where the last one ended. |
| `SpeechMarks.WholeWordIsHighlighted` | `aplcore/src/action/speakitemaction.cpp:325-348` | A word without a hyphen is highlighted at its first occurrence from the position on, from its first to its last character; when it does not occur, nothing is highlighted and the position stays. |
| `SpeechMarks.TakeIsSpoken` | `aplcore/src/action/speakitemaction.cpp:300-350` | What one mark does to the position and to what is sent, in terms of first occurrences in the text. |
| `SpeechMarks.WordIsFoundFirst` | `aplcore/src/action/speakitemaction.cpp:331-348` | The loop over the hyphens finds the first pattern that occurs, where it first occurs, and nothing only if none occurs. |
| `SpeechMarks.PiecesAreAll` | `aplcore/src/action/speakitemaction.cpp:334-338` | The pieces of a word are all its stretches between hyphens that are not empty, from left to right. |
| `AnimateItems.EndIsPathIndependent` | `aplcore/src/action/animateitemaction.cpp:66-145` | For an easing that keeps 0 and 1, any two runs that end, by playing all rounds, at once, or by termination at any moment, leave the same properties. |
| `AnimateItems.UnitCurveIsPathIndependent` | `aplcore/src/action/animateitemaction.cpp:66-145` | With any easing curve from (0, 0) to (1, 1), as it is calculated, any two runs that end, and fast mode, leave the same properties. |
| `AnimateItems.EndOfRun` | `aplcore/src/action/animateitemaction.cpp:94-145` | For any easing: an animation that ends on its own has played repeatCount + 1 rounds and leaves the properties written at the eased end; one that is terminated or never runs leaves them written at the end itself. |
| `AnimateItems.EndValues` | `aplcore/src/action/animateitemaction.cpp:94-145` | The values themselves: the last animator of each property leaves it at its end value, or at its start value in reverse mode with an odd repeatCount, or at the eased fraction between the two when the animation ends on its own; other properties are as they were. |
| `AnimateItems.EndsAtEndValues` | `aplcore/src/action/animateitemaction.cpp:138-145` | With an easing that keeps 0 and 1, every run that ends leaves exactly the end value, or the start value in reverse mode with an odd repeatCount. |
| `AnimateItems.RoundStarts` | `aplcore/src/action/animateitemaction.cpp:98-113` | Each round, the first too, begins with every property at its start value, or at its end value if the round runs backwards, which every second one does in reverse mode. |
| `AnimateItems.FrameShows` | `aplcore/src/action/animateitemaction.cpp:115-125` | During a round each property is at the eased fraction of the duration that has passed, or that is left. |
| `AnimateItems.PlaysIff` | `aplcore/src/action/animateitemaction.cpp:66-82` | An animation plays if and only if it has a positive duration and something to animate, and is neither in fast mode nor without animation quality. |
| `AnimateItems.EndsAgreeIff` | `aplcore/src/action/animateitemaction.cpp:113-145` | For a property that moves, the two agree if and only if the easing keeps the end value. |
| `AnimateItems.FastModeEndsTheSame` | `aplcore/src/action/animateitemaction.cpp:75-82` | An animation leaves what it would have left in fast mode. |
| `AnimateItems.FullRunResolves` | `aplcore/src/action/animateitemaction.cpp:98-136` | Playing repeatCount + 1 rounds to their ends is a run, and it resolves. |
| `AnimateItems.LastWriteCounts` | `aplcore/src/animation/animatedproperty.cpp:78-86` | Writing all animated properties forgets what an earlier write left. |
| `AnimateItems.AnimateItemAction.constructor` | `aplcore/src/action/animateitemaction.cpp:66-92` | Finishes at once for no duration, fast mode, no properties or no animation quality, and otherwise begins the first round. |
| `AnimateItems.AnimateItemAction.DoAdvance` | `aplcore/src/action/animateitemaction.cpp:98-136` | Begins the next round at the right end, or resolves after the last. |
| `AnimateItems.AnimateItemAction.OnTime` | `aplcore/src/action/action.cpp:207-221` | A frame before the end shows its offset, one at or after the end shows the full duration and ends the round. |
| `AnimateItems.AnimateItemAction.OnRoundOver` | `aplcore/src/action/animateitemaction.cpp:126-133` | The continuation of a round begins the next one, unless the action has been terminated. |
| `AnimateItems.AnimateItemAction.Terminate` | `aplcore/src/action/animateitemaction.cpp:84-89` | Ends the running round and jumps to the end state, once. |

## Left out

- Freezing and rehydrating actions. Rehydration re-resolves components by id and may resolve a DelayAction without completing its command, so the lock claims are stated without it.
- The sequencer: a list handed to it, a command sent to another sequencer and a list executed in fast mode are logged, not run; resets of the sequencer from inside an action's own advance are not modelled.
- Inflation: what a list entry inflates to is fixed when the run starts, for each entry and each datum; it does not depend on what earlier commands have changed.
- Media, scrolling, paging and OpenURL actions are leaves that are resolved or terminated from outside.
- `wrapWithCallback`: the wrapper keeps its inner action alive and its continuation does not check for termination.
- A second `then` on one action: each action has one owner, which registers once.
- One action given twice to a `makeAll` or `makeAny`, and references to its children from elsewhere: the list holds distinct children, and holds them alone.
- `CoreEasing::bounds`, which folds some maxima with the minimum and samples only part of a spatial curve.
- The caches of easing approximations: the polylines are built when the curve is made.
- The characters of an easing: the grammar's actions are given words and numbers; the cache of parsed curves and the fall-back to the linear one are not modelled.
- Rounding and the width of floats and integers, except that the initial time of the memo is the float's own 2^-126.
- `updateAudioState`, which skips an update at the time of the last one and highlights the first line while there are no marks; and the scrolling and de-duplication of highlights by line.
- Names and kinds of marks that are not known to the type map, and handlers that add marks while marks are consumed.
- Comments of enumeration items, and the written-out C++, Java and TypeScript.
- Absolute sizes together with relative ones: beyond `Grid.AllocationKeepsIff` and `Grid.NothingIsLeftForAutos` nothing is claimed when the budget has become negative.
- How a property is written: `AnimateItems` writes numbers by name; transforms, resources claimed by animators and the clock of a round are not modelled.
