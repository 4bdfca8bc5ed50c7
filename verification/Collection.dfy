/**
 * The collections behind makeAll and makeAny, with their children as objects on a heap of their own: an object lives as
 * long as the collection lists it, and the runnable of a timer holds a weak pointer to it.
 */
module CollectionSteps {
  import opened Actions

  /** A child: its state, its timeout id (0 for none), and whether the object still exists. */
  datatype Child = Child(state: State, timeoutId: nat, held: bool)

  datatype System = System(
    any: bool,                  // makeAny rather than makeAll
    state: State,               // the collection's own state
    owned: bool,                // whether the collection still exists
    actions: seq<nat>,          // the list of children
    children: map<nat, Child>,  // every child that it was made with
    timers: map<nat, nat>,      // the child that each scheduled runnable points to
    nextId: nat,                // the next timeout id
    continued: seq<nat>,        // the children whose continuation has taken effect
    failed: bool)               // whether removeAction has looked in vain

  // ----- one child -----

  function ClearTimeout(s: System, id: nat): System
    requires id in s.children
  {
    var c := s.children[id];
    if c.timeoutId == 0 then s
    else s.(timers := s.timers - {c.timeoutId}, children := s.children[id := c.(timeoutId := 0)])
  }

  /** The destructor. */
  function Destroy(s: System, id: nat): System
    requires id in s.children
  {
    var s1 := ClearTimeout(s, id);
    s1.(children := s1.children[id := s1.children[id].(held := false)])
  }

  /** A resolved child schedules its continuation. */
  function DoResolveChild(s: System, id: nat): System
    requires id in s.children
  {
    var c := s.children[id];
    if c.state.Resolved? then
      s.(timers := s.timers[s.nextId := id], children := s.children[id := c.(timeoutId := s.nextId)],
          nextId := s.nextId + 1)
    else s
  }

  function ResolveChild(s: System, id: nat): System
    requires id in s.children
  {
    var c := s.children[id];
    if c.state.Pending? then DoResolveChild(s.(children := s.children[id := c.(state := Resolved)]), id) else s
  }

  function TerminateChild(s: System, id: nat): System
    requires id in s.children
  {
    var c := s.children[id];
    if c.state.Pending? then ClearTimeout(s.(children := s.children[id := c.(state := Terminated)]), id) else s
  }

  // ----- the list -----

  ghost predicate Listed(s: System, ids: seq<nat>) {
    forall id :: id in ids ==> id in s.children
  }

  function TerminateEach(s: System, ids: seq<nat>): (r: System)
    requires Listed(s, ids)
    ensures r.children.Keys == s.children.Keys
    decreases ids
  {
    if ids == [] then s else TerminateEach(TerminateChild(s, ids[0]), ids[1..])
  }

  function DestroyEach(s: System, ids: seq<nat>): (r: System)
    requires Listed(s, ids)
    ensures r.children.Keys == s.children.Keys
    decreases ids
  {
    if ids == [] then s else DestroyEach(Destroy(s, ids[0]), ids[1..])
  }

  /** terminateRemaining: the children are terminated, and clearing the list destroys them. */
  function TerminateRemaining(s: System): System
    requires Listed(s, s.actions)
  {
    DestroyEach(TerminateEach(s, s.actions), s.actions).(actions := [])
  }

  function IndexOf(ids: seq<nat>, id: nat): (i: nat)
    requires id in ids
    ensures i < |ids| && ids[i] == id
  {
    if ids[0] == id then 0 else 1 + IndexOf(ids[1..], id)
  }

  function Remove(ids: seq<nat>, id: nat): seq<nat>
    requires id in ids
  {
    ids[..IndexOf(ids, id)] + ids[IndexOf(ids, id) + 1..]
  }

  function ResolveCollection(s: System): System {
    if s.state.Pending? then s.(state := Resolved) else s
  }

  /** What the continuation of a child does to the collection. */
  function OnContinue(s: System, id: nat): System
    requires id in s.children && Listed(s, s.actions)
  {
    if !s.owned || s.state.Terminated? then s
    else if id !in s.actions then s.(failed := true)
    else
      var s1 := s.(actions := Remove(s.actions, id), continued := s.continued + [id]);
      if s.any then ResolveCollection(TerminateRemaining(s1))
      else if s1.actions == [] then ResolveCollection(s1)
      else s1
  }

  /**
   * The tests of the continuation: without its owner and after a termination it does nothing; a child that is not on
   * the list is reported and changes nothing else; and any other is taken note of.
   */
  lemma TestsOfContinuation(s: System, id: nat)
    requires id in s.children && Listed(s, s.actions)
    ensures !s.owned || s.state.Terminated? ==> OnContinue(s, id) == s
    ensures s.owned && !s.state.Terminated? ==>
              if id in s.actions then OnContinue(s, id).continued == s.continued + [id] else
              OnContinue(s, id) == s.(failed := true)
  {
    if id in s.actions {
      var s1 := s.(actions := Remove(s.actions, id), continued := s.continued + [id]);
      TerminateKeepsContinued(s1, s1.actions);
      DestroyKeepsContinued(TerminateEach(s1, s1.actions), s1.actions);
    }
  }

  lemma {:induction false} TerminateKeepsContinued(s: System, ids: seq<nat>)
    requires Listed(s, ids)
    ensures TerminateEach(s, ids).continued == s.continued
    decreases ids
  {
    if ids != [] { TerminateKeepsContinued(TerminateChild(s, ids[0]), ids[1..]); }
  }

  lemma {:induction false} DestroyKeepsContinued(s: System, ids: seq<nat>)
    requires Listed(s, ids)
    ensures DestroyEach(s, ids).continued == s.continued
    decreases ids
  {
    if ids != [] { DestroyKeepsContinued(Destroy(s, ids[0]), ids[1..]); }
  }

  // ----- steps -----

  datatype Step =
    | Resolves(id: nat)   // a child is resolved from outside
    | Ends(id: nat)       // a child is terminated from outside
    | Fires(timer: nat)   // any of the scheduled timers fires
    | Terminates          // the collection is terminated
    | Released            // its owner lets go of it

  predicate CanStep(s: System, step: Step) {
    match step
    case Resolves(id) => id in s.children && s.children[id].held
    case Ends(id) => id in s.children && s.children[id].held
    case Fires(timer) => timer in s.timers && s.timers[timer] in s.children
    case Terminates => s.owned
    case Released => s.owned
  }

  /**
   * The runnable of a timer: nothing happens when its child no longer exists; otherwise it keeps the child to its end.
   */
  function Fire(s: System, timer: nat): System
    requires timer in s.timers && s.timers[timer] in s.children && Listed(s, s.actions)
  {
    var id := s.timers[timer];
    var s1 := s.(timers := s.timers - {timer});
    var c := s.children[id];
    if !c.held then s1
    else
      var s2 := s1.(children := s1.children[id := c.(timeoutId := 0)]);
      if !c.state.Resolved? then s2
      else
        var s3 := OnContinue(s2, id);
        if id in s3.actions || id !in s3.children then s3 else Destroy(s3, id)
  }

  function Apply(s: System, step: Step): System
    requires CanStep(s, step) && Listed(s, s.actions)
  {
    match step
    case Resolves(id) => ResolveChild(s, id)
    case Ends(id) => TerminateChild(s, id)
    case Fires(timer) => Fire(s, timer)
    case Terminates => if s.state.Pending? then TerminateRemaining(s.(state := Terminated)) else s
    case Released => DestroyEach(s, s.actions).(actions := [], owned := false)
  }

  // ----- making a collection -----

  /** The children that are not already terminated. */
  function Alive(ids: seq<nat>, states: map<nat, State>): (r: seq<nat>)
    requires forall id :: id in ids ==> id in states
    ensures forall id :: id in r <==> id in ids && !states[id].Terminated?
  {
    if ids == [] then []
    else Alive(ids[..|ids| - 1], states) + if states[ids[|ids| - 1]].Terminated? then [] else [ids[|ids| - 1]]
  }

  /** Every child gets its continuation, which schedules those that are already resolved. */
  function RegisterEach(s: System, ids: seq<nat>): (r: System)
    requires Listed(s, ids)
    ensures r.children.Keys == s.children.Keys
    decreases ids
  {
    if ids == [] then s else RegisterEach(DoResolveChild(s, ids[0]), ids[1..])
  }

  /** The first timeout id of a timer manager. */
  const FIRST_ID: nat := 100

  function Make(any: bool, ids: seq<nat>, states: map<nat, State>): System
    requires forall id :: id in ids ==> id in states
  {
    var list := Alive(ids, states);
    var children := map id | id in list :: Child(states[id], 0, true);
    var s := System(any, if list == [] then Resolved else Pending, true, list, children, map[], FIRST_ID, [], false);
    RegisterEach(s, list)
  }
}

/** Whole runs of a collection: what every step keeps, and when makeAll and makeAny resolve. */
module CollectionRuns {
  import opened Actions
  import opened CollectionSteps

  predicate Distinct(ids: seq<nat>) {
    forall i, j :: 0 <= i < j < |ids| ==> ids[i] != ids[j]
  }

  // ----- the links between children and timers -----

  /** A child and its timeout agree. */
  ghost predicate Linked(s: System) {
    && (forall id :: id in s.children && s.children[id].timeoutId != 0 ==>
          && s.children[id].timeoutId in s.timers && s.timers[s.children[id].timeoutId] == id
          && s.children[id].state.Resolved?)
    && (forall t :: t in s.timers ==>
          0 < t < s.nextId && s.timers[t] in s.children && s.children[s.timers[t]].timeoutId == t)
    && s.nextId > 0
  }

  /** Nothing but children, timers and timeout ids differs. */
  ghost predicate SameCollection(s: System, r: System) {
    r.any == s.any && r.state == s.state && r.owned == s.owned && r.actions == s.actions
    && r.continued == s.continued && r.failed == s.failed && r.children.Keys == s.children.Keys
  }

  /** A child as terminate leaves it. */
  function Ended(c: Child): Child {
    if c.state.Pending? then c.(state := Terminated) else c
  }

  lemma {:induction false} TerminateEachIs(s: System, ids: seq<nat>)
    requires Linked(s) && Listed(s, ids)
    ensures var r := TerminateEach(s, ids);
            && Linked(r) && SameCollection(s, r) && r.timers == s.timers && r.nextId == s.nextId
            && forall id :: id in s.children ==>
                r.children[id] == if id in ids then Ended(s.children[id]) else s.children[id]
    decreases ids
  {
    if ids != [] {
      var s1 := TerminateChild(s, ids[0]);
      assert s1 == s.(children := s.children[ids[0] := Ended(s.children[ids[0]])]);
      TerminateEachIs(s1, ids[1..]);
    }
  }

  lemma DestroyIs(s: System, id: nat)
    requires Linked(s) && id in s.children
    ensures var r := Destroy(s, id);
            && Linked(r) && SameCollection(s, r) && r.nextId == s.nextId
            && r.children == s.children[id := s.children[id].(timeoutId := 0, held := false)]
            && (forall t :: t in r.timers <==> t in s.timers && s.timers[t] != id)
            && (forall t :: t in r.timers ==> r.timers[t] == s.timers[t])
  {
    hide Destroy;
    DestroyShape(s, id);
    assert forall t :: t in s.timers && s.timers[t] == id ==> t == s.children[id].timeoutId;
  }

  lemma DestroyShape(s: System, id: nat)
    requires id in s.children && 0 !in s.timers
    ensures var c := s.children[id];
            Destroy(s, id) == s.(timers := s.timers - {c.timeoutId},
                                 children := s.children[id := c.(timeoutId := 0, held := false)])
  {
  }

  lemma {:induction false} DestroyEachIs(s: System, ids: seq<nat>)
    requires Linked(s) && Listed(s, ids)
    ensures var r := DestroyEach(s, ids);
            && Linked(r) && SameCollection(s, r) && r.nextId == s.nextId
            && (forall id :: id in s.children ==>
                  r.children[id] ==
                  if id in ids then s.children[id].(timeoutId := 0, held := false) else s.children[id])
            && (forall t :: t in r.timers <==> t in s.timers && s.timers[t] !in ids)
            && (forall t :: t in r.timers ==> r.timers[t] == s.timers[t])
    decreases ids
  {
    if ids != [] {
      DestroyIs(s, ids[0]);
      DestroyEachIs(Destroy(s, ids[0]), ids[1..]);
    }
  }

  /** A child as terminateRemaining leaves it: not pending, without a timer, and gone. */
  function Swept(c: Child): Child {
    Ended(c).(timeoutId := 0, held := false)
  }

  lemma TerminateRemainingIs(s: System)
    requires Linked(s) && Listed(s, s.actions)
    ensures var r := TerminateRemaining(s);
            && Linked(r) && r.actions == [] && SameCollection(s.(actions := []), r) && r.nextId == s.nextId
            && (forall id :: id in s.children ==>
                  r.children[id] == if id in s.actions then Swept(s.children[id]) else s.children[id])
            && (forall t :: t in r.timers <==> t in s.timers && s.timers[t] !in s.actions)
            && (forall t :: t in r.timers ==> r.timers[t] == s.timers[t])
  {
    TerminateEachIs(s, s.actions);
    DestroyEachIs(TerminateEach(s, s.actions), s.actions);
  }

  lemma RemoveIs(ids: seq<nat>, id: nat)
    requires Distinct(ids) && id in ids
    ensures var r := Remove(ids, id);
            Distinct(r) && (forall x :: x in r <==> x in ids && x != id) && |r| == |ids| - 1
  {
  }

  // ----- the invariant -----

  /** Exactly the listed children exist, and exactly the resolved ones among them have a timer. */
  ghost predicate Owned(s: System) {
    && Distinct(s.actions) && Listed(s, s.actions)
    && (forall id :: id in s.children ==> (s.children[id].held <==> id in s.actions))
    && (forall id :: id in s.children ==>
          (s.children[id].timeoutId != 0 <==> id in s.actions && s.children[id].state.Resolved?))
  }

  /** What the state of the collection, its list, and the continuations that have taken effect say of each other. */
  ghost predicate Accounted(s: System) {
    && !s.failed
    && (!s.state.Pending? || !s.owned ==> s.actions == [])
    && (s.state.Pending? && s.owned ==>
          && s.actions != [] && (s.any ==> s.continued == [])
          && forall id :: id in s.children ==> (id in s.actions <==> id !in s.continued))
    && Distinct(s.continued) && (forall id :: id in s.continued ==> id in s.children && s.children[id].state.Resolved?)
    && (s.state.Resolved? && s.children != map[] ==>
          if s.any then |s.continued| == 1 else forall id :: id in s.children ==> id in s.continued)
    && (!s.state.Pending? ==> forall id :: id in s.children ==> !s.children[id].state.Pending?)
  }

  ghost predicate Inv(s: System) {
    Linked(s) && Owned(s) && Accounted(s)
  }

  // ----- every step keeps it -----

  lemma ResolvesInv(s: System, id: nat)
    requires Inv(s) && CanStep(s, Resolves(id))
    ensures Inv(Apply(s, Resolves(id)))
  {
  }

  lemma EndsInv(s: System, id: nat)
    requires Inv(s) && CanStep(s, Ends(id))
    ensures Inv(Apply(s, Ends(id)))
  {
    if s.children[id].state.Pending? {
      assert TerminateChild(s, id) == s.(children := s.children[id := Ended(s.children[id])]);
    }
  }

  /** Sweeping the list leaves no child that exists or is pending. */
  lemma SweepInv(s: System)
    requires Linked(s) && Owned(s)
    requires forall id :: id in s.children && id !in s.actions ==> !s.children[id].state.Pending?
    ensures var r := TerminateRemaining(s);
            && Linked(r) && Owned(r) && r.actions == [] && SameCollection(s.(actions := []), r)
            && (forall id :: id in r.children ==> !r.children[id].state.Pending?)
            && (forall id :: id in r.children && s.children[id].state.Resolved? ==> r.children[id].state.Resolved?)
  {
    hide Linked;
    TerminateRemainingIs(s);
  }

  lemma TerminatesInv(s: System)
    requires Inv(s) && CanStep(s, Terminates)
    ensures Inv(Apply(s, Terminates))
  {
    if s.state.Pending? {
      hide TerminateRemaining, Linked, Owned;
      ClosedIsOwned(s, Terminated);
      SweepInv(s.(state := Terminated));
    }
  }

  /** The links do not depend on the state of the collection. */
  lemma ClosedIsOwned(s: System, state: State)
    requires Inv(s) && s.state.Pending? && s.owned
    ensures var t := s.(state := state);
            && Linked(t) && Owned(t)
            && forall id :: id in t.children && id !in t.actions ==> !t.children[id].state.Pending?
  {
  }

  lemma ReleasedInv(s: System)
    requires Inv(s) && CanStep(s, Released)
    ensures Inv(Apply(s, Released))
  {
    DestroyEachIs(s, s.actions);
  }

  /** Once a firing has taken its child off the list. */
  function Taken(s: System, timer: nat): System
    requires timer in s.timers && s.timers[timer] in s.children && s.timers[timer] in s.actions
  {
    var id := s.timers[timer];
    s.(timers := s.timers - {timer}, children := s.children[id := s.children[id].(timeoutId := 0)],
       actions := Remove(s.actions, id), continued := s.continued + [id])
  }

  /**
   * Every scheduled runnable belongs to a listed, resolved child, whose only timer it is; and the collection is
   * pending.
   */
  lemma FiringIsListed(s: System, timer: nat)
    requires Inv(s) && timer in s.timers
    ensures var id := s.timers[timer];
            && id in s.children && id in s.actions && id !in s.continued
            && s.children[id] == Child(Resolved, timer, true) && s.state.Pending? && s.owned
    ensures forall t :: t in s.timers && s.timers[t] == s.timers[timer] ==> t == timer
  {
  }

  lemma TakenIsLinked(s: System, timer: nat)
    requires Inv(s) && timer in s.timers
    ensures s.timers[timer] in s.children && s.timers[timer] in s.actions
    ensures var id, m := s.timers[timer], Taken(s, timer);
            && Linked(m) && Distinct(m.actions) && |m.actions| == |s.actions| - 1
            && forall x :: x in m.actions <==> x in s.actions && x != id
  {
    FiringIsListed(s, timer);
    RemoveIs(s.actions, s.timers[timer]);
  }

  /** A firing always takes effect: its child is found on the list. */
  lemma FireTakes(s: System, timer: nat)
    requires Inv(s) && CanStep(s, Fires(timer))
    ensures s.timers[timer] in s.actions
    ensures var id, m := s.timers[timer], Taken(s, timer);
            && Listed(m, m.actions)
            && var m1 := if m.any then ResolveCollection(TerminateRemaining(m))
                         else if m.actions == [] then ResolveCollection(m) else m;
               id in m1.children && Fire(s, timer) == Destroy(m1, id)
  {
    hide Linked, TerminateRemaining, Destroy, Distinct;
    FiringIsListed(s, timer);
    TakenIsLinked(s, timer);
    var m := Taken(s, timer);
    TerminateRemainingIs(m);
  }

  lemma ContinuedGrows(s: System, id: nat)
    requires Inv(s) && id in s.children && s.children[id].state.Resolved? && id !in s.continued
    ensures Distinct(s.continued + [id])
  {
  }

  lemma FiresInv(s: System, timer: nat)
    requires Inv(s) && CanStep(s, Fires(timer))
    ensures Inv(Apply(s, Fires(timer)))
  {
    if s.any { AnyFiresInv(s, timer); } else { AllFiresInv(s, timer); }
  }

  /** A firing of makeAll, in one piece. */
  lemma AllFireIs(s: System, timer: nat)
    requires Inv(s) && CanStep(s, Fires(timer)) && !s.any
    ensures s.timers[timer] in s.actions
    ensures var id, m := s.timers[timer], Taken(s, timer);
            && Linked(Fire(s, timer))
            && Fire(s, timer) == m.(children := s.children[id := Child(Resolved, 0, false)],
                                    state := if m.actions == [] then Resolved else Pending)
  {
    hide Destroy, Fire, Remove, Distinct;
    FireTakes(s, timer);
    FiringIsListed(s, timer);
    TakenIsLinked(s, timer);
    var id, m := s.timers[timer], Taken(s, timer);
    var m1 := if m.actions == [] then ResolveCollection(m) else m;
    DestroyIs(m1, id);
    DestroyShape(m1, id);
  }

  lemma AllKeepsOwned(s: System, r: System, id: nat)
    requires Owned(s) && id in s.children && Distinct(r.actions)
    requires forall x :: x in r.actions <==> x in s.actions && x != id
    requires r.children == s.children[id := Child(Resolved, 0, false)]
    ensures Owned(r)
  {
  }

  lemma AllKeepsAccounted(s: System, r: System, id: nat)
    requires Accounted(s) && s.state.Pending? && s.owned && id in s.children && s.children[id].state.Resolved?
    requires Distinct(s.continued + [id]) && r.continued == s.continued + [id]
    requires forall x :: x in r.actions <==> x in s.actions && x != id
    requires r.children == s.children[id := Child(Resolved, 0, false)]
    requires !s.any && !r.any && r.owned && !r.failed && r.state == if r.actions == [] then Resolved else Pending
    requires Listed(s, s.actions) && forall x :: x in s.children && x !in s.actions ==> !s.children[x].state.Pending?
    ensures Accounted(r)
  {
  }

  lemma AllFiresInv(s: System, timer: nat)
    requires Inv(s) && CanStep(s, Fires(timer)) && !s.any
    ensures Inv(Fire(s, timer))
  {
    hide Fire, Linked, Remove;
    AllFireIs(s, timer);
    FiringIsListed(s, timer);
    TakenIsLinked(s, timer);
    var id := s.timers[timer];
    ContinuedGrows(s, id);
    AllKeepsOwned(s, Fire(s, timer), id);
    AllKeepsAccounted(s, Fire(s, timer), id);
  }

  /** A firing of makeAny, in one piece: every other child is swept. */
  lemma AnyFireIs(s: System, timer: nat)
    requires Inv(s) && CanStep(s, Fires(timer)) && s.any
    ensures s.timers[timer] in s.actions
    ensures var id, r := s.timers[timer], Fire(s, timer);
            && Linked(r) && r.any && r.state.Resolved? && r.owned && r.actions == [] && !r.failed
            && r.continued == s.continued + [id] && r.children.Keys == s.children.Keys && r.timers == map[]
            && (forall x :: x in s.children ==>
                r.children[x] == if x in s.actions then Swept(s.children[x]) else s.children[x])
  {
    hide Destroy, TerminateRemaining, Fire, Remove, Distinct;
    FireTakes(s, timer);
    FiringIsListed(s, timer);
    TakenIsLinked(s, timer);
    var id, m := s.timers[timer], Taken(s, timer);
    TerminateRemainingIs(m);
    DestroyIs(ResolveCollection(TerminateRemaining(m)), id);
    var r := Fire(s, timer);
    forall t ensures t !in r.timers {
      if t in m.timers { FiringIsListed(s, t); }
    }
  }

  lemma AnyKeeps(s: System, r: System, id: nat)
    requires Owned(s) && Accounted(s) && s.state.Pending? && s.owned && id in s.actions
              && s.children[id].state.Resolved?
    requires s.any && r.any && r.state.Resolved? && r.owned && r.actions == [] && !r.failed
    requires r.continued == s.continued + [id] && r.children.Keys == s.children.Keys
    requires forall x :: x in s.children ==>
              r.children[x] == if x in s.actions then Swept(s.children[x]) else s.children[x]
    ensures Owned(r) && Accounted(r)
  {
  }

  lemma AnyFiresInv(s: System, timer: nat)
    requires Inv(s) && CanStep(s, Fires(timer)) && s.any
    ensures Inv(Fire(s, timer))
  {
    hide Fire, Linked, Accounted;
    AnyFireIs(s, timer);
    FiringIsListed(s, timer);
    AnyKeeps(s, Fire(s, timer), s.timers[timer]);
  }

  lemma StepInv(s: System, step: Step)
    requires Inv(s) && CanStep(s, step)
    ensures Inv(Apply(s, step))
  {
    match step {
      case Resolves(id) => ResolvesInv(s, id);
      case Ends(id) => EndsInv(s, id);
      case Fires(timer) => FiresInv(s, timer);
      case Terminates => TerminatesInv(s);
      case Released => ReleasedInv(s);
    }
  }

  // ----- whole runs -----

  lemma AliveIsDistinct(ids: seq<nat>, states: map<nat, State>)
    requires Distinct(ids) && forall id :: id in ids ==> id in states
    ensures Distinct(Alive(ids, states))
  {
  }

  lemma DoResolveIs(s: System, id: nat)
    requires Linked(s) && id in s.children && s.children[id].timeoutId == 0
    ensures var r, c := DoResolveChild(s, id), s.children[id];
            && Linked(r) && SameCollection(s, r)
            && r.children == s.children[id := if c.state.Resolved? then c.(timeoutId := s.nextId) else c]
            && s.nextId != 0
  {
  }

  lemma {:induction false} RegisterEachIs(s: System, ids: seq<nat>)
    requires Linked(s) && Distinct(ids) && Listed(s, ids) && forall id :: id in ids ==> s.children[id].timeoutId == 0
    ensures var r := RegisterEach(s, ids);
            && Linked(r) && SameCollection(s, r)
            && forall id :: id in s.children ==>
                 && r.children[id].state == s.children[id].state && r.children[id].held == s.children[id].held
                 && (r.children[id].timeoutId != 0 <==>
                       s.children[id].timeoutId != 0 || (id in ids && s.children[id].state.Resolved?))
    decreases ids
  {
    hide Linked, DoResolveChild;
    if ids != [] {
      DoResolveIs(s, ids[0]);
      RegisterEachIs(DoResolveChild(s, ids[0]), ids[1..]);
    }
  }

  lemma MakeInv(any: bool, ids: seq<nat>, states: map<nat, State>)
    requires Distinct(ids) && forall id :: id in ids ==> id in states
    ensures Inv(Make(any, ids, states))
  {
    var list := Alive(ids, states);
    var children := map id | id in list :: Child(states[id], 0, true);
    var s := System(any, if list == [] then Resolved else Pending, true, list, children, map[], FIRST_ID, [], false);
    AliveIsDistinct(ids, states);
    RegisterEachIs(s, list);
    assert list == [] ==> children == map[];
    assert list != [] ==> list[0] in children;
  }

  ghost predicate IsRun(s: System, steps: seq<Step>)
    decreases |steps|
  {
    steps == [] || (CanStep(s, steps[0]) && Listed(s, s.actions) && IsRun(Apply(s, steps[0]), steps[1..]))
  }

  ghost function After(s: System, steps: seq<Step>): System
    requires IsRun(s, steps)
    decreases |steps|
  {
    if steps == [] then s else After(Apply(s, steps[0]), steps[1..])
  }

  lemma {:induction false} RunInv(s: System, steps: seq<Step>)
    requires Inv(s) && IsRun(s, steps)
    ensures Inv(After(s, steps))
    decreases |steps|
  {
    if steps != [] {
      StepInv(s, steps[0]);
      RunInv(Apply(s, steps[0]), steps[1..]);
    }
  }

  /** What no step changes, and that only a firing resolves a collection. */
  lemma StepKeeps(s: System, step: Step)
    requires Inv(s) && CanStep(s, step)
    ensures var r := Apply(s, step);
            && r.any == s.any && r.children.Keys == s.children.Keys
            && (!step.Fires? ==> r.continued == s.continued)
            && (!step.Fires? && !step.Terminates? ==> r.state == s.state)
            && (!step.Released? ==> r.owned == s.owned)
            && (step.Terminates? ==> !r.state.Pending? && (s.state.Resolved? <==> r.state.Resolved?))
            && (step.Fires? ==> !r.state.Terminated?)
  {
    match step {
      case Resolves(id) =>
      case Ends(id) => TerminateChildIs(s, id);
      case Fires(timer) => if s.any { AnyFireIs(s, timer); } else { AllFireIs(s, timer); }
      case Terminates => TerminateRemainingIs(s.(state := Terminated));
      case Released => DestroyEachIs(s, s.actions);
    }
  }

  lemma TerminateChildIs(s: System, id: nat)
    requires Linked(s) && id in s.children
    ensures TerminateChild(s, id) == s.(children := s.children[id := Ended(s.children[id])])
  {
  }

  lemma {:induction false} RunKeeps(s: System, steps: seq<Step>)
    requires Inv(s) && IsRun(s, steps)
    ensures After(s, steps).any == s.any && After(s, steps).children.Keys == s.children.Keys
    decreases |steps|
  {
    if steps != [] {
      StepInv(s, steps[0]);
      StepKeeps(s, steps[0]);
      RunKeeps(Apply(s, steps[0]), steps[1..]);
    }
  }

  lemma MakeKeeps(any: bool, ids: seq<nat>, states: map<nat, State>)
    requires Distinct(ids) && forall id :: id in ids ==> id in states
    ensures var s := Make(any, ids, states);
            && s.any == any && s.owned && !s.state.Terminated?
            && forall id :: id in s.children <==> id in ids && !states[id].Terminated?
  {
    var list := Alive(ids, states);
    var children := map id | id in list :: Child(states[id], 0, true);
    AliveIsDistinct(ids, states);
    var state := if list == [] then Resolved else Pending;
    RegisterEachIs(System(any, state, true, list, children, map[], FIRST_ID, [], false), list);
  }

  // ----- main results -----

  /** The state that a run of a collection of these children reaches. */
  ghost predicate Reaches(any: bool, ids: seq<nat>, states: map<nat, State>, steps: seq<Step>) {
    Distinct(ids) && (forall id :: id in ids ==> id in states) && IsRun(Make(any, ids, states), steps)
  }

  lemma Reach(any: bool, ids: seq<nat>, states: map<nat, State>, steps: seq<Step>)
    requires Reaches(any, ids, states, steps)
    ensures var s := After(Make(any, ids, states), steps);
            Inv(s) && s.any == any && forall id :: id in s.children <==> id in ids && !states[id].Terminated?
  {
    MakeInv(any, ids, states);
    MakeKeeps(any, ids, states);
    RunInv(Make(any, ids, states), steps);
    RunKeeps(Make(any, ids, states), steps);
  }

  /**
   * In every run the list of a pending collection is exactly the children whose continuation has not run, none of
   * which has run twice; every scheduled runnable belongs to a child on the list, so that removeAction always finds
   * it; and once the collection has resolved, been terminated or been released, no runnable is left.
   */
  lemma ListIsExact(any: bool, ids: seq<nat>, states: map<nat, State>, steps: seq<Step>)
    requires Reaches(any, ids, states, steps)
    ensures var s := After(Make(any, ids, states), steps);
            && !s.failed && Distinct(s.continued)
            && (s.state.Pending? && s.owned ==>
                  forall id :: id in s.children ==> (id in s.actions <==> id !in s.continued))
            && (forall t :: t in s.timers ==> s.timers[t] in s.actions && s.timers[t] !in s.continued)
            && (!s.state.Pending? || !s.owned ==> s.actions == [] && s.timers == map[])
  {
    Reach(any, ids, states, steps);
    var s := After(Make(any, ids, states), steps);
    forall t | t in s.timers
      ensures s.timers[t] in s.actions && s.timers[t] !in s.continued && s.state.Pending? && s.owned
    {
      FiringIsListed(s, t);
    }
    assert !s.state.Pending? || !s.owned ==> forall t :: t !in s.timers;
  }

  /** makeAll resolves in exactly the step in which the continuation of the last child on its list runs. */
  lemma AllResolvesWithTheLast(ids: seq<nat>, states: map<nat, State>, steps: seq<Step>, step: Step)
    requires Reaches(false, ids, states, steps) && CanStep(After(Make(false, ids, states), steps), step)
    ensures var s := After(Make(false, ids, states), steps);
            && Listed(s, s.actions)
            && (s.state.Pending? && s.owned ==>
                  (Apply(s, step).state.Resolved? <==> step.Fires? && s.actions == [s.timers[step.timer]]))
            && (s.state.Resolved? ==>
                  forall id :: id in s.children ==> id in s.continued && s.children[id].state.Resolved?)
  {
    hide TerminateRemaining, Destroy, OnContinue, Linked, Distinct, ResolveChild, TerminateChild;
    Reach(false, ids, states, steps);
    var s := After(Make(false, ids, states), steps);
    StepKeeps(s, step);
    if step.Fires? {
      AllFireIs(s, step.timer);
      TakenIsLinked(s, step.timer);
      assert Taken(s, step.timer).actions == [] <==> s.actions == [s.timers[step.timer]];
    }
  }

  /** makeAny resolves in exactly the first firing; every other child is then not pending and no runnable is left. */
  lemma AnyResolvesWithTheFirst(ids: seq<nat>, states: map<nat, State>, steps: seq<Step>, step: Step)
    requires Reaches(true, ids, states, steps) && CanStep(After(Make(true, ids, states), steps), step)
    ensures var s := After(Make(true, ids, states), steps);
            && Listed(s, s.actions)
            && var r := Apply(s, step);
               && (s.state.Pending? && s.owned ==> (r.state.Resolved? <==> step.Fires?))
               && (step.Fires? ==>
                     && s.continued == [] && r.continued == [s.timers[step.timer]] && r.timers == map[]
                     && forall id :: id in r.children ==> !r.children[id].state.Pending? && !r.children[id].held)
               && (s.state.Resolved? && s.children != map[] ==> |s.continued| == 1)
  {
    hide TerminateRemaining, Destroy, OnContinue, Linked, Distinct, Remove, ResolveChild, TerminateChild;
    Reach(true, ids, states, steps);
    var s := After(Make(true, ids, states), steps);
    StepKeeps(s, step);
    if step.Fires? {
      AnyFireIs(s, step.timer);
      FiringIsListed(s, step.timer);
    }
  }

  /** Once a collection has resolved, been terminated or been released, no continuation takes effect any more. */
  lemma {:induction false} ClosedIsSilent(s: System, steps: seq<Step>)
    requires Inv(s) && (!s.state.Pending? || !s.owned) && IsRun(s, steps)
    ensures After(s, steps).continued == s.continued && After(s, steps).state == s.state
    decreases |steps|
  {
    if steps != [] {
      StepInv(s, steps[0]);
      StepKeeps(s, steps[0]);
      if steps[0].Fires? { FiringIsListed(s, steps[0].timer); }
      ClosedIsSilent(Apply(s, steps[0]), steps[1..]);
    }
  }

  /** Terminating a pending collection leaves no child pending and no runnable. */
  lemma TerminationIsFinal(any: bool, ids: seq<nat>, states: map<nat, State>, steps: seq<Step>)
    requires Reaches(any, ids, states, steps)
    requires var s := After(Make(any, ids, states), steps); s.owned && s.state.Pending?
    ensures var s := After(Make(any, ids, states), steps);
            && Listed(s, s.actions)
            && var r := Apply(s, Terminates);
               && r.state.Terminated? && r.actions == [] && r.timers == map[] && r.continued == s.continued
               && forall id :: id in r.children ==> !r.children[id].state.Pending?
  {
    Reach(any, ids, states, steps);
    var s := After(Make(any, ids, states), steps);
    StepInv(s, Terminates);
    StepKeeps(s, Terminates);
    var r := Apply(s, Terminates);
    forall t ensures t !in r.timers {
      if t in r.timers { FiringIsListed(r, t); }
    }
  }

  ghost predicate Undisturbed(steps: seq<Step>) {
    forall i :: 0 <= i < |steps| ==> !steps[i].Terminates? && !steps[i].Released?
  }

  lemma {:induction false} UndisturbedIsOpen(s: System, steps: seq<Step>)
    requires Inv(s) && s.owned && !s.state.Terminated? && IsRun(s, steps) && Undisturbed(steps)
    ensures After(s, steps).owned && !After(s, steps).state.Terminated?
    decreases |steps|
  {
    hide Inv, Apply, CanStep;
    if steps != [] {
      StepInv(s, steps[0]);
      StepKeeps(s, steps[0]);
      assert forall i :: 0 <= i < |steps[1..]| ==> steps[1..][i] == steps[i + 1];
      UndisturbedIsOpen(Apply(s, steps[0]), steps[1..]);
    }
  }

  /** No child on the list is pending and nothing is scheduled. */
  ghost predicate Drained(s: System) {
    s.timers == map[] && forall id :: id in s.actions && id in s.children ==> !s.children[id].state.Pending?
  }

  /**
   * What becomes of children that are terminated from outside: left to itself and drained, makeAll has resolved if
   * and only if none of its children was, and makeAny if and only if some child resolved.
   */
  lemma DrainedMeansResolved(any: bool, ids: seq<nat>, states: map<nat, State>, steps: seq<Step>)
    requires Reaches(any, ids, states, steps) && Undisturbed(steps)
    requires var s := After(Make(any, ids, states), steps); Drained(s) && s.children != map[]
    ensures var s := After(Make(any, ids, states), steps);
            s.state.Resolved? <==>
            if any then exists id :: id in s.children && s.children[id].state.Resolved?
            else forall id :: id in s.children ==> !s.children[id].state.Terminated?
  {
    Reach(any, ids, states, steps);
    MakeInv(any, ids, states);
    MakeKeeps(any, ids, states);
    UndisturbedIsOpen(Make(any, ids, states), steps);
    var s := After(Make(any, ids, states), steps);
    forall id | id in s.actions ensures s.children[id].state.Terminated? {
      assert s.children[id].timeoutId == 0;
    }
    if s.state.Resolved? && any {
      assert s.continued[0] in s.continued;
    }
    if s.state.Pending? {
      assert s.actions[0] in s.actions;
    }
  }
}

/**
 * Why a tree of values is enough: what a makeAll does to its objects, its timers and its list is what the step system
 * of the engine does to a node that owns its children together with their timers.
 */
module CollectionAsTree {
  import opened Wrappers
  import opened Actions
  import opened CollectionSteps
  import opened CollectionRuns
  import Steps

  /** A child as a node that carries its own timer, due at once. */
  function ChildNode(c: Child, now: nat): Action {
    Action(c.state, Some(AfterBranch), if c.timeoutId != 0 then Some(now) else None, External)
  }

  function Nodes(s: System, ids: seq<nat>, now: nat): (r: seq<Action>)
    requires Listed(s, ids)
    ensures |r| == |ids| && forall i :: 0 <= i < |r| ==> r[i] == ChildNode(s.children[ids[i]], now)
  {
    seq(|ids|, i requires 0 <= i < |ids| => ChildNode(s.children[ids[i]], now))
  }

  function Node(s: System, now: nat): Action
    requires Listed(s, s.actions)
  {
    Action(s.state, None, None, Gathering(Nodes(s, s.actions, now)))
  }

  /** The timers of the tree are those of the heap: one for each node on the list that has been resolved. */
  lemma TimersAreThoseOfTheHeap(s: System, now: nat, id: nat)
    requires Inv(s) && id in s.children
    ensures id in s.timers.Values <==>
            exists i :: 0 <= i < |s.actions| && s.actions[i] == id && Node(s, now).kind.actions[i].timeout.Some?
  {
  }

  /** A firing runs the owner's continuation for the node of the child whose runnable it is. */
  lemma FiringIsContinue(s: System, timer: nat, w: World) returns (i: nat, r: System)
    requires Inv(s) && !s.any && CanStep(s, Fires(timer))
    ensures r == Fire(s, timer) && Listed(r, r.actions)
    ensures i < |s.actions| && s.actions[i] == s.timers[timer]
    ensures Steps.Continue(Node(s, w.now), i, w) == (Node(r, w.now), w)
  {
    hide Fire, Linked, Distinct, Accounted, Steps.Continue, Node;
    FiringIsListed(s, timer);
    AllFireIs(s, timer);
    TakenIsLinked(s, timer);
    i, r := IndexOf(s.actions, s.timers[timer]), Fire(s, timer);
    ContinueOfNode(s, r, i, w);
  }

  lemma ContinueOfNode(s: System, r: System, i: nat, w: World)
    requires Listed(s, s.actions) && Listed(r, r.actions) && i < |s.actions| && s.state.Pending?
    requires r.actions == s.actions[..i] + s.actions[i + 1..]
    requires forall id :: id in r.actions ==> r.children[id] == s.children[id]
    requires r.state == if r.actions == [] then Resolved else Pending
    ensures Steps.Continue(Node(s, w.now), i, w) == (Node(r, w.now), w)
  {
    NodesOfRest(s, r, i, w.now);
  }

  lemma NodesOfRest(s: System, r: System, i: nat, now: nat)
    requires Listed(s, s.actions) && Listed(r, r.actions) && i < |s.actions|
    requires r.actions == s.actions[..i] + s.actions[i + 1..]
    requires forall id :: id in r.actions ==> r.children[id] == s.children[id]
    ensures Nodes(r, r.actions, now) == Nodes(s, s.actions, now)[..i] + Nodes(s, s.actions, now)[i + 1..]
  {
  }

  /** A child that is resolved from outside is a leaf of the tree that is resolved. */
  lemma ResolvingIsResolve(s: System, i: nat, now: nat)
    requires Inv(s) && i < |s.actions| && s.actions[i] in s.children
    ensures var r := Apply(s, Resolves(s.actions[i]));
            && Listed(r, r.actions)
            && Node(r, now) == Steps.WithChild(Node(s, now), i, Resolve(Node(s, now).kind.actions[i], now))
  {
    var r := Apply(s, Resolves(s.actions[i]));
    assert Nodes(r, r.actions, now) == Nodes(s, s.actions, now)[i := Resolve(Nodes(s, s.actions, now)[i], now)];
  }

  lemma TerminateEachOfLeaves(actions: seq<Action>, w: World)
    requires forall a :: a in actions ==> a.kind.External?
    ensures Steps.TerminateEach(actions, w) == w
  {
  }

  /** A termination of the collection is a termination of the node. */
  lemma TerminatingIsTerminate(s: System, w: World)
    requires Inv(s) && s.owned
    ensures var r := Apply(s, Terminates);
            Listed(r, r.actions) && Steps.Terminate(Node(s, w.now), w) == (Node(r, w.now), w)
  {
    if s.state.Pending? {
      TerminateRemainingIs(s.(state := Terminated));
      TerminateEachOfLeaves(Nodes(s, s.actions, w.now), w);
    }
    assert Nodes(Apply(s, Terminates), Apply(s, Terminates).actions, w.now) ==
           if s.state.Pending? then [] else Nodes(s, s.actions, w.now);
  }
}

/** The collection as an object, with the lists and loops of the original. */
module Collections {
  import opened Wrappers
  import opened Actions
  import opened CollectionSteps
  import opened CollectionRuns
  import Steps

  /** The children and the timer manager, as the objects that a collection and its children share. */
  class Heap {
    var children: map<nat, Child>
    var timers: map<nat, nat>
    var nextId: nat

    constructor ()
      ensures children == map[] && timers == map[] && nextId == FIRST_ID
    {
      children, timers, nextId := map[], map[], FIRST_ID;
    }
  }

  class Collection {
    const any: bool
    const heap: Heap
    var state: State
    var owned: bool
    var actions: seq<nat>
    ghost var continued: seq<nat>
    var failed: bool

    ghost function Value(): System
      reads this, heap
    {
      System(any, state, owned, actions, heap.children, heap.timers, heap.nextId, continued, failed)
    }

    // ----- one child -----

    /** clearTimeout, when there is a timeout to clear. */
    method Clear(id: nat)
      requires id in heap.children
      modifies heap
      ensures Value() == ClearTimeout(old(Value()), id)
    {
      var c := heap.children[id];
      if c.timeoutId != 0 {
        heap.timers := heap.timers - {c.timeoutId};
        heap.children := heap.children[id := c.(timeoutId := 0)];
      }
    }

    /** Action::terminate of a child. */
    method EndChild(id: nat)
      requires id in heap.children
      modifies heap
      ensures Value() == TerminateChild(old(Value()), id)
    {
      var c := heap.children[id];
      if c.state == Pending {
        heap.children := heap.children[id := c.(state := Terminated)];
        Clear(id);
      }
    }

    /** The destructor of a child. */
    method Drop(id: nat)
      requires id in heap.children
      modifies heap
      ensures Value() == CollectionSteps.Destroy(old(Value()), id)
    {
      Clear(id);
      heap.children := heap.children[id := heap.children[id].(held := false)];
    }

    /** Action::then of a child: it is scheduled at once if it is already resolved. */
    method Then(id: nat)
      requires id in heap.children
      modifies heap
      ensures Value() == DoResolveChild(old(Value()), id)
    {
      var c := heap.children[id];
      if c.state == Resolved {
        heap.timers := heap.timers[heap.nextId := id];
        heap.children := heap.children[id := c.(timeoutId := heap.nextId)];
        heap.nextId := heap.nextId + 1;
      }
    }

    // ----- the collection -----

    /** The constructor's loop: a child that is already terminated is left out. */
    static method KeepAlive(ids: seq<nat>, states: map<nat, State>) returns (list: seq<nat>)
      requires forall id :: id in ids ==> id in states
      ensures list == Alive(ids, states)
    {
      list := [];
      for i := 0 to |ids|
        invariant list == Alive(ids[..i], states)
      {
        assert ids[..i + 1][..i] == ids[..i];
        if states[ids[i]] != Terminated {
          list := list + [ids[i]];
        }
      }
      assert ids[..|ids|] == ids;
    }

    constructor (any: bool, ids: seq<nat>, states: map<nat, State>)
      requires Distinct(ids) && forall id :: id in ids ==> id in states
      ensures fresh(heap) && Value() == CollectionSteps.Make(any, ids, states)
    {
      this.any := any;
      heap := new Heap();
      var list := KeepAlive(ids, states);
      state, owned, actions, continued, failed := if |list| == 0 then Resolved else Pending, true, list, [], false;
      new;
      heap.children := map id | id in list :: Child(states[id], 0, true);
      ThenEach();
    }

    /** The loop of makeAll and makeAny that registers the continuations. */
    method ThenEach()
      requires Listed(Value(), actions)
      modifies heap
      ensures Value() == RegisterEach(old(Value()), actions)
    {
      for i := 0 to |actions|
        invariant Listed(Value(), actions)
        invariant RegisterEach(Value(), actions[i..]) == RegisterEach(old(Value()), actions)
      {
        assert actions[i..][0] == actions[i] && actions[i..][1..] == actions[i + 1..];
        Then(actions[i]);
      }
    }

    /** removeAction: the place of the child is looked up; false stands for the failing assertion. */
    method RemoveAction(id: nat) returns (found: bool)
      modifies this`actions
      ensures found == (id in old(actions))
      ensures actions == if id in old(actions) then Remove(old(actions), id) else old(actions)
    {
      if id !in actions {
        return false;
      }
      var it := IndexOf(actions, id);
      actions := actions[..it] + actions[it + 1..];
      found := true;
    }

    method TerminateRest()
      requires Listed(Value(), actions)
      modifies this`actions, heap
      ensures Value() == CollectionSteps.TerminateRemaining(old(Value()))
    {
      ghost var before, list := Value(), actions;
      for i := 0 to |actions|
        invariant actions == list && Listed(Value(), list)
        invariant TerminateEach(Value(), list[i..]) == TerminateEach(before, list)
        modifies heap
      {
        assert list[i..][0] == actions[i] && list[i..][1..] == list[i + 1..];
        EndChild(actions[i]);
      }
      ghost var ended := Value();
      for i := 0 to |actions|
        invariant actions == list && Listed(Value(), list)
        invariant DestroyEach(Value(), list[i..]) == DestroyEach(ended, list)
        modifies heap
      {
        assert list[i..][0] == actions[i] && list[i..][1..] == list[i + 1..];
        Drop(actions[i]);
      }
      actions := [];
    }

    /** The continuation that makeAll and makeAny give each child; `owned` says that the weak pointer can be locked. */
    method ChildDone(id: nat)
      requires id in heap.children && Listed(Value(), actions)
      modifies this, heap
      ensures Value() == OnContinue(old(Value()), id)
    {
      if owned && state != Terminated {
        var found := RemoveAction(id);
        if !found {
          failed := true;
          return;
        }
        continued := continued + [id];
        if any {
          TerminateRest();
          if state == Pending { state := Resolved; }
        } else if |actions| == 0 {
          if state == Pending { state := Resolved; }
        }
      }
    }

    method Terminate()
      requires owned && Listed(Value(), actions)
      modifies this, heap
      ensures Value() == Apply(old(Value()), Terminates)
    {
      if state == Pending {
        state := Terminated;
        TerminateRest();
      }
    }

    /** A timer of the heap fires. */
    method OnTimer(timer: nat)
      requires timer in heap.timers && heap.timers[timer] in heap.children && Listed(Value(), actions)
      modifies this, heap
      ensures Value() == Fire(old(Value()), timer)
    {
      hide OnContinue, CollectionSteps.Destroy;
      var id := heap.timers[timer];
      heap.timers := heap.timers - {timer};
      var c := heap.children[id];
      if c.held {
        heap.children := heap.children[id := c.(timeoutId := 0)];
        if c.state == Resolved {
          ChildDone(id);
          if id !in actions && id in heap.children {
            Drop(id);
          }
        }
      }
    }
  }
}
