/** Animating properties over a number of rounds; however the animation ends, the properties end up the same. */
module AnimateItems {
  import ArcLength
  import Segments

  type Props = map<string, real>

  datatype Animator = Animator(key: string, from: real, to: real)

  /** What does not change during the animation.  `still` says that the animation quality is none. */
  datatype Setup = Setup(animators: seq<Animator>, duration: real, repeatCount: nat, reverse: bool,
                         fastMode: bool, still: bool, ease: real -> real)

  datatype State = Pending | Resolved | Terminated

  /** The animation of the current round: running, or resolved with its continuation still to come. */
  datatype Round = Absent | Running | Over

  datatype Animation = Animation(state: State, repeatCounter: nat, reversed: bool, round: Round, props: Props)

  // ----- writing the properties -----

  function ValueAt(m: Animator, alpha: real): real {
    m.from * (1.0 - alpha) + m.to * alpha
  }

  /** Every animator writes its property, in order. */
  function Write(animators: seq<Animator>, alpha: real, props: Props): Props {
    if animators == [] then props
    else Write(animators[1..], alpha, props[animators[0].key := ValueAt(animators[0], alpha)])
  }

  function Keys(animators: seq<Animator>): set<string> {
    set m | m in animators :: m.key
  }

  ghost predicate AgreeOutside(p: Props, q: Props, keys: set<string>) {
    forall k :: k !in keys ==> (k in p <==> k in q) && (k in p ==> p[k] == q[k])
  }

  lemma KeysOfRest(animators: seq<Animator>)
    requires animators != []
    ensures Keys(animators) == {animators[0].key} + Keys(animators[1..])
  {
  }

  lemma {:induction false} WriteForgets(animators: seq<Animator>, alpha: real, p: Props, q: Props)
    requires AgreeOutside(p, q, Keys(animators))
    ensures Write(animators, alpha, p) == Write(animators, alpha, q)
  {
    if animators == [] {
      assert p.Keys == q.Keys by {
        forall k ensures k in p.Keys <==> k in q.Keys { assert k !in Keys(animators); }
      }
      assert forall k :: k in p ==> k !in Keys(animators) && p[k] == q[k];
    } else {
      hide ValueAt;
      var m := animators[0];
      KeysOfRest(animators);
      WriteForgets(animators[1..], alpha, p[m.key := ValueAt(m, alpha)], q[m.key := ValueAt(m, alpha)]);
    }
  }

  lemma {:induction false} WriteStaysInside(animators: seq<Animator>, alpha: real, p: Props)
    ensures AgreeOutside(Write(animators, alpha, p), p, Keys(animators))
  {
    if animators != [] {
      KeysOfRest(animators);
      WriteStaysInside(animators[1..], alpha, p[animators[0].key := ValueAt(animators[0], alpha)]);
    }
  }

  /** Only the last write counts. */
  lemma LastWriteCounts(animators: seq<Animator>, alpha: real, beta: real, p: Props)
    ensures Write(animators, alpha, Write(animators, beta, p)) == Write(animators, alpha, p)
  {
    WriteStaysInside(animators, beta, p);
    WriteForgets(animators, alpha, Write(animators, beta, p), p);
  }

  // ----- the steps of the action -----

  function Finalize(s: Setup, props: Props): Props {
    Write(s.animators, EndAlpha(s), props)
  }

  function EndAlpha(s: Setup): real {
    if s.reverse && s.repeatCount % 2 == 1 then 0.0 else 1.0
  }

  function Advance(s: Setup, a: Animation): Animation {
    if a.state.Terminated? then a
    else if a.repeatCounter > s.repeatCount then a.(state := Resolved)
    else
      var reversed := s.reverse && a.repeatCounter % 2 == 1;
      Animation(a.state, a.repeatCounter + 1, reversed, Running,
                Write(s.animators, if reversed then 1.0 else 0.0, a.props))
  }

  predicate Immediate(s: Setup) {
    s.duration <= 0.0 || s.fastMode || s.animators == [] || s.still
  }

  function Start(s: Setup, props: Props): Animation {
    if Immediate(s) then Animation(Resolved, 0, false, Absent, Finalize(s, props))
    else Advance(s, Animation(Pending, 0, false, Absent, props))
  }

  function Frame(s: Setup, a: Animation, offset: real): Animation
    requires s.duration > 0.0
  {
    var alpha := offset / s.duration;
    a.(props := Write(s.animators, s.ease(if a.reversed then 1.0 - alpha else alpha), a.props))
  }

  datatype Event = Shown(offset: real) | Ended | Continued | Killed

  predicate CanStep(s: Setup, a: Animation, e: Event) {
    match e
    case Shown(offset) => a.round.Running? && 0.0 <= offset < s.duration
    case Ended => a.round.Running? && s.duration > 0.0
    case Continued => a.round.Over?
    case Killed => true
  }

  /**
   * Terminating the action ends a running round; the continuation of a round that is over still comes, without effect.
   */
  function Step(s: Setup, a: Animation, e: Event): Animation
    requires CanStep(s, a, e)
  {
    match e
    case Shown(offset) => Frame(s, a, offset)
    case Ended => Frame(s, a, s.duration).(round := Over)
    case Continued => Advance(s, a.(round := Absent))
    case Killed =>
      if a.state.Pending? then
        a.(state := Terminated, round := if a.round.Running? then Absent else a.round, props := Finalize(s, a.props))
      else a
  }

  ghost predicate IsRun(s: Setup, a: Animation, events: seq<Event>)
    decreases |events|
  {
    events == [] || (CanStep(s, a, events[0]) && IsRun(s, Step(s, a, events[0]), events[1..]))
  }

  function After(s: Setup, a: Animation, events: seq<Event>): Animation
    requires IsRun(s, a, events)
    decreases |events|
  {
    if events == [] then a else After(s, Step(s, a, events[0]), events[1..])
  }

  // ----- what every step keeps -----

  /** How far the round before this count of rounds goes. */
  function RoundEnd(s: Setup, counter: nat): real {
    if s.reverse && counter % 2 == 0 then 0.0 else 1.0
  }

  ghost predicate Inv(s: Setup, initial: Props, a: Animation) {
    && AgreeOutside(a.props, initial, Keys(s.animators))
    && match a.state
       case Pending =>
         && !Immediate(s) && !a.round.Absent? && 1 <= a.repeatCounter <= s.repeatCount + 1
         && a.reversed == (s.reverse && a.repeatCounter % 2 == 0)
         && (a.round.Over? ==> a.props == Write(s.animators, s.ease(RoundEnd(s, a.repeatCounter)), initial))
       case Resolved =>
         && a.round.Absent?
         && (if Immediate(s) then a.props == Finalize(s, initial)
             else a.repeatCounter == s.repeatCount + 1 && a.props == Write(s.animators, s.ease(EndAlpha(s)), initial))
       case Terminated =>
         !a.round.Running? && a.props == Finalize(s, initial)
  }

  lemma WriteIsOutside(s: Setup, initial: Props, props: Props, alpha: real)
    requires AgreeOutside(props, initial, Keys(s.animators))
    ensures AgreeOutside(Write(s.animators, alpha, props), initial, Keys(s.animators))
    ensures Write(s.animators, alpha, props) == Write(s.animators, alpha, initial)
  {
    WriteForgets(s.animators, alpha, props, initial);
    WriteStaysInside(s.animators, alpha, initial);
  }

  lemma StartInv(s: Setup, initial: Props)
    ensures Inv(s, initial, Start(s, initial))
  {
    WriteIsOutside(s, initial, initial, EndAlpha(s));
    WriteIsOutside(s, initial, initial, 0.0);
  }

  lemma FullOffset(d: real)
    requires d > 0.0
    ensures d / d == 1.0
  {
  }

  lemma StepInv(s: Setup, initial: Props, a: Animation, e: Event)
    requires Inv(s, initial, a) && CanStep(s, a, e)
    ensures Inv(s, initial, Step(s, a, e))
  {
    hide Write, AgreeOutside;
    match e
    case Shown(offset) =>
      var alpha := offset / s.duration;
      WriteIsOutside(s, initial, a.props, s.ease(if a.reversed then 1.0 - alpha else alpha));
    case Ended =>
      FullOffset(s.duration);
      WriteIsOutside(s, initial, a.props, s.ease(RoundEnd(s, a.repeatCounter)));
    case Continued =>
      if a.repeatCounter <= s.repeatCount {
        WriteIsOutside(s, initial, a.props, if s.reverse && a.repeatCounter % 2 == 1 then 1.0 else 0.0);
      }
    case Killed =>
      WriteIsOutside(s, initial, a.props, EndAlpha(s));
  }

  lemma {:induction false} RunInv(s: Setup, initial: Props, a: Animation, events: seq<Event>)
    requires Inv(s, initial, a) && IsRun(s, a, events)
    ensures Inv(s, initial, After(s, a, events))
    decreases |events|
  {
    if events != [] {
      StepInv(s, initial, a, events[0]);
      RunInv(s, initial, Step(s, a, events[0]), events[1..]);
    }
  }

  /**
   * An animation that has ended on its own has played every round and leaves the eased end values; one that was
   * terminated, or never ran, leaves the end values themselves.
   */
  lemma EndOfRun(s: Setup, initial: Props, events: seq<Event>)
    requires IsRun(s, Start(s, initial), events)
    ensures var a := After(s, Start(s, initial), events);
            match a.state
            case Pending => a.repeatCounter <= s.repeatCount + 1 && !a.round.Absent?
            case Resolved => Immediate(s) || a.repeatCounter == s.repeatCount + 1
            case Terminated => !Immediate(s)
    ensures var a := After(s, Start(s, initial), events);
            && (a.state.Resolved? && !Immediate(s) ==> a.props == Write(s.animators, s.ease(EndAlpha(s)), initial))
            && (a.state.Terminated? || (a.state.Resolved? && Immediate(s)) ==>
                a.props == Write(s.animators, EndAlpha(s), initial))
  {
    StartInv(s, initial);
    RunInv(s, initial, Start(s, initial), events);
    if Immediate(s) { StaysResolved(s, Start(s, initial), events); }
  }

  lemma {:induction false} StaysResolved(s: Setup, a: Animation, events: seq<Event>)
    requires a.state.Resolved? && a.round.Absent? && IsRun(s, a, events)
    ensures After(s, a, events) == a
    decreases |events|
  {
    if events != [] {
      StaysResolved(s, Step(s, a, events[0]), events[1..]);
    }
  }

  /** An animation plays only with a duration and something to animate, and neither in fast mode nor without quality. */
  lemma PlaysIff(s: Setup, initial: Props)
    ensures Start(s, initial).state.Pending? <==>
              s.duration > 0.0 && |s.animators| > 0 && !s.fastMode && !s.still
    ensures !Start(s, initial).state.Pending? ==>
              && Start(s, initial).state.Resolved? && Start(s, initial).round.Absent?
              && Start(s, initial).repeatCounter == 0
  {
  }

  // ----- the values of the properties -----

  /** Of several animators for one property the last one counts. */
  ghost predicate Decides(s: Setup, j: nat) {
    j < |s.animators| && forall i :: j < i < |s.animators| ==> s.animators[i].key != s.animators[j].key
  }

  /** A property is at this fraction of the way from the start value of its animator to the end value. */
  ghost predicate IsAt(m: Animator, fraction: real, props: Props) {
    m.key in props && props[m.key] - m.from == (m.to - m.from) * fraction
  }

  lemma ValueIsBetween(m: Animator, alpha: real)
    ensures ValueAt(m, alpha) - m.from == (m.to - m.from) * alpha
  {
  }

  lemma {:induction false} WriteSets(animators: seq<Animator>, alpha: real, p: Props, j: nat)
    requires j < |animators| && forall i :: j < i < |animators| ==> animators[i].key != animators[j].key
    ensures IsAt(animators[j], alpha, Write(animators, alpha, p))
    decreases |animators|
  {
    hide ValueAt, IsAt;
    var m, rest := animators[0], animators[1..];
    var q := p[m.key := ValueAt(m, alpha)];
    if j > 0 {
      WriteSets(rest, alpha, q, j - 1);
    } else {
      WriteStaysInside(rest, alpha, q);
      assert m.key !in Keys(rest) by {
        forall n | n in rest ensures n.key != m.key {
          var i :| 0 <= i < |rest| && rest[i] == n;
          assert n == animators[i + 1];
        }
      }
      ValueIsBetween(m, alpha);
      SetIsAt(m, alpha, Write(rest, alpha, q));
    }
  }

  lemma SetIsAt(m: Animator, alpha: real, p: Props)
    requires m.key in p && p[m.key] == ValueAt(m, alpha)
    ensures IsAt(m, alpha, p)
  {
    ValueIsBetween(m, alpha);
  }

  lemma AtTheEnds(m: Animator, p: Props)
    ensures IsAt(m, 0.0, p) ==> p[m.key] == m.from
    ensures IsAt(m, 1.0, p) ==> p[m.key] == m.to
  {
  }

  /**
   * The values that an animation leaves.  One that has ended on its own is at the eased end, any other that has ended
   * at the end itself: the end value, or the start value after an even number of rounds to and fro.  Properties
   * that it does not animate are as they were.
   */
  lemma EndValues(s: Setup, initial: Props, events: seq<Event>, j: nat)
    requires IsRun(s, Start(s, initial), events) && Decides(s, j)
    requires !After(s, Start(s, initial), events).state.Pending?
    ensures var a, m := After(s, Start(s, initial), events), s.animators[j];
            var back := s.reverse && s.repeatCount % 2 == 1;
            if a.state.Resolved? && !Immediate(s) then IsAt(m, s.ease(if back then 0.0 else 1.0), a.props)
            else m.key in a.props && a.props[m.key] == if back then m.from else m.to
    ensures AgreeOutside(After(s, Start(s, initial), events).props, initial, Keys(s.animators))
  {
    hide Write, IsAt;
    EndOfRun(s, initial, events);
    var a, m := After(s, Start(s, initial), events), s.animators[j];
    WriteSets(s.animators, s.ease(EndAlpha(s)), initial, j);
    WriteSets(s.animators, EndAlpha(s), initial, j);
    WriteStaysInside(s.animators, s.ease(EndAlpha(s)), initial);
    WriteStaysInside(s.animators, EndAlpha(s), initial);
    AtTheEnds(m, a.props);
    assert IsAt(m, EndAlpha(s), a.props) ==> m.key in a.props by { KeyIsThere(m, EndAlpha(s), a.props); }
  }

  lemma KeyIsThere(m: Animator, fraction: real, props: Props)
    ensures IsAt(m, fraction, props) ==> m.key in props
  {
  }

  /** With an easing that keeps 0 and 1, every way to the end leaves exactly these values. */
  lemma EndsAtEndValues(s: Setup, initial: Props, events: seq<Event>, j: nat)
    requires s.ease(0.0) == 0.0 && s.ease(1.0) == 1.0 && Decides(s, j)
    requires IsRun(s, Start(s, initial), events) && !After(s, Start(s, initial), events).state.Pending?
    ensures var props, m := After(s, Start(s, initial), events).props, s.animators[j];
            m.key in props && props[m.key] == if s.reverse && s.repeatCount % 2 == 1 then m.from else m.to
  {
    EndValues(s, initial, events, j);
    AtTheEnds(s.animators[j], After(s, Start(s, initial), events).props);
  }

  /**
   * A round that begins, the first or a later one, sets each property to its start value, or to its end value when the
   * round runs backwards: in reverse mode every second one.
   */
  lemma RoundStarts(s: Setup, initial: Props, events: seq<Event>, j: nat)
    requires IsRun(s, Start(s, initial), events) && Decides(s, j)
    requires var a := After(s, Start(s, initial), events); events == [] || CanStep(s, a, Continued)
    ensures var a, m := After(s, Start(s, initial), events), s.animators[j];
            var b, rounds := if events == [] then a else Step(s, a, Continued), if events == [] then 0
                else a.repeatCounter;
            b.state.Pending? ==>
              && b.round.Running? && b.repeatCounter == rounds + 1 && m.key in b.props
              && b.reversed == (s.reverse && rounds % 2 == 1) && b.props[m.key] == if b.reversed then m.to else m.from
  {
    hide Write, IsAt;
    var a, m := After(s, Start(s, initial), events), s.animators[j];
    var b := if events == [] then a else Step(s, a, Continued);
    StartInv(s, initial);
    RunInv(s, initial, Start(s, initial), events);
    var before := if events == [] then initial else a.props;
    WriteSets(s.animators, 0.0, before, j);
    WriteSets(s.animators, 1.0, before, j);
    AtTheEnds(m, b.props);
    KeyIsThere(m, 0.0, b.props);
    KeyIsThere(m, 1.0, b.props);
  }

  /** During a round each property is at the eased fraction of the duration that has passed, or that is left. */
  lemma FrameShows(s: Setup, a: Animation, offset: real, j: nat)
    requires CanStep(s, a, Shown(offset)) && Decides(s, j)
    ensures var b, part := Step(s, a, Shown(offset)), offset / s.duration;
            IsAt(s.animators[j], s.ease(if a.reversed then 1.0 - part else part), b.props)
  {
    var part := offset / s.duration;
    WriteSets(s.animators, s.ease(if a.reversed then 1.0 - part else part), a.props, j);
  }

  /** With an easing that keeps 0 and 1, any two ways to the end leave the same properties. */
  lemma EndIsPathIndependent(s: Setup, initial: Props, one: seq<Event>, other: seq<Event>)
    requires s.ease(0.0) == 0.0 && s.ease(1.0) == 1.0
    requires IsRun(s, Start(s, initial), one) && IsRun(s, Start(s, initial), other)
    requires !After(s, Start(s, initial), one).state.Pending? && !After(s, Start(s, initial), other).state.Pending?
    ensures After(s, Start(s, initial), one).props == After(s, Start(s, initial), other).props == Finalize(s, initial)
  {
    hide Write;
    EndOfRun(s, initial, one);
    EndOfRun(s, initial, other);
  }

  /** The same as an animation that never runs: fast mode changes nothing in the end. */
  lemma FastModeEndsTheSame(s: Setup, initial: Props, events: seq<Event>)
    requires s.ease(0.0) == 0.0 && s.ease(1.0) == 1.0
    requires IsRun(s, Start(s, initial), events) && !After(s, Start(s, initial), events).state.Pending?
    ensures After(s, Start(s, initial), events).props == Start(s.(fastMode := true), initial).props
  {
    hide Write;
    EndOfRun(s, initial, events);
  }

  /** The easing is that of a curve as it is calculated; at the initial time of its memo it may be anything. */
  ghost predicate EasedBy(s: Setup, p: Segments.Path, tables: seq<ArcLength.Table>)
    requires Segments.LaidOut(p) && Segments.HasTables(p, tables)
  {
    forall x :: x != Segments.MAGIC && Segments.Value(p, tables, x).Some? ==>
        s.ease(x) == Segments.Value(p, tables, x).value
  }

  /** With a curve from (0, 0) to (1, 1), any two ways to the end, and fast mode, leave the same properties. */
  lemma UnitCurveIsPathIndependent(s: Setup, p: Segments.Path, tables: seq<ArcLength.Table>, initial: Props,
                                   one: seq<Event>, other: seq<Event>)
    requires Segments.UnitCurve(p) && Segments.HasTables(p, tables) && EasedBy(s, p, tables)
    requires IsRun(s, Start(s, initial), one) && IsRun(s, Start(s, initial), other)
    requires !After(s, Start(s, initial), one).state.Pending? && !After(s, Start(s, initial), other).state.Pending?
    ensures After(s, Start(s, initial), one).props == After(s, Start(s, initial), other).props == Finalize(s, initial)
    ensures After(s, Start(s, initial), one).props == Start(s.(fastMode := true), initial).props
  {
    hide Write, Segments.Value;
    Segments.UnitCurveEnds(p, tables);
    EndIsPathIndependent(s, initial, one, other);
    FastModeEndsTheSame(s, initial, one);
  }

  /** For a property that moves, a run to the end and a termination agree exactly when the easing keeps the end. */
  lemma EndsAgreeIff(s: Setup, m: Animator, initial: Props)
    requires s.animators == [m] && m.from != m.to
    ensures Write(s.animators, s.ease(EndAlpha(s)), initial) == Finalize(s, initial) <==>
              s.ease(EndAlpha(s)) == EndAlpha(s)
  {
    var a, b := s.ease(EndAlpha(s)), EndAlpha(s);
    assert [m][1..] == [];
    assert Write([m], a, initial) == initial[m.key := ValueAt(m, a)];
    assert Write([m], b, initial) == initial[m.key := ValueAt(m, b)];
    assert Write([m], a, initial)[m.key] == ValueAt(m, a);
    assert Write([m], b, initial)[m.key] == ValueAt(m, b);
    assert ValueAt(m, a) - ValueAt(m, b) == (m.to - m.from) * (a - b);
  }

  /** Every round can be played out. */
  function Rounds(n: nat): seq<Event> {
    if n == 0 then [] else [Ended, Continued] + Rounds(n - 1)
  }

  lemma {:induction false} RoundsResolve(s: Setup, a: Animation, n: nat)
    requires s.duration > 0.0 && a.state.Pending? && a.round.Running? && a.repeatCounter + n == s.repeatCount + 2
              && n > 0
    ensures IsRun(s, a, Rounds(n)) && After(s, a, Rounds(n)).state.Resolved?
    decreases n
  {
    hide Write;
    var over := Step(s, a, Ended);
    var next := Step(s, over, Continued);
    assert Rounds(n)[0] == Ended && Rounds(n)[1..] == [Continued] + Rounds(n - 1);
    assert ([Continued] + Rounds(n - 1))[1..] == Rounds(n - 1);
    if n > 1 {
      RoundsResolve(s, next, n - 1);
    } else {
      assert Rounds(0) == [];
    }
    assert IsRun(s, over, [Continued] + Rounds(n - 1));
    assert After(s, over, [Continued] + Rounds(n - 1)) == After(s, next, Rounds(n - 1));
  }

  /** An animation that runs resolves after repeatCount + 1 rounds. */
  lemma FullRunResolves(s: Setup, initial: Props)
    requires !Immediate(s)
    ensures IsRun(s, Start(s, initial), Rounds(s.repeatCount + 1))
    ensures After(s, Start(s, initial), Rounds(s.repeatCount + 1)).state.Resolved?
  {
    RoundsResolve(s, Start(s, initial), s.repeatCount + 1);
  }

  // ----- the action itself -----

  class AnimateItemAction {
    const setup: Setup
    var state: State
    var repeatCounter: nat
    var reversed: bool
    var currentAction: Round
    var props: Props

    function Value(): Animation
      reads this
    {
      Animation(state, repeatCounter, reversed, currentAction, props)
    }

    constructor (s: Setup, initial: Props)
      ensures setup == s && Value() == Start(s, initial)
    {
      setup := s;
      state, repeatCounter, reversed, currentAction, props := Pending, 0, false, Absent, initial;
      new;
      if s.duration <= 0.0 || s.fastMode || |s.animators| == 0 || s.still {
        DoFinalize();
        state := Resolved;
        return;
      }
      DoAdvance();
    }

    method Update(alpha: real)
      modifies this`props
      ensures props == Write(setup.animators, alpha, old(props))
    {
      hide ValueAt;
      for i := 0 to |setup.animators|
        invariant Write(setup.animators[i..], alpha, props) == Write(setup.animators, alpha, old(props))
      {
        var m := setup.animators[i];
        assert setup.animators[i..][0] == m && setup.animators[i..][1..] == setup.animators[i + 1..];
        props := props[m.key := ValueAt(m, alpha)];
      }
    }

    method DoAdvance()
      modifies this
      ensures Value() == Advance(setup, old(Value()))
    {
      if state == Terminated {
        return;
      }
      if repeatCounter > setup.repeatCount {
        state := Resolved;
        return;
      }
      reversed := setup.reverse && repeatCounter % 2 == 1;
      Update(if reversed then 1.0 else 0.0);
      currentAction := Running;
      repeatCounter := repeatCounter + 1;
    }

    method DoFinalize()
      modifies this`props
      ensures props == Finalize(setup, old(props))
    {
      var reverse := setup.reverse && setup.repeatCount % 2 == 1;
      Update(if reverse then 0.0 else 1.0);
    }

    /** The animator of the current round: a frame before its end, or its last one. */
    method OnTime(offset: real)
      requires currentAction.Running? && state != Terminated && setup.duration > 0.0 && 0.0 <= offset
      modifies this
      ensures Value() == Step(setup, old(Value()), if offset < setup.duration then Shown(offset) else Ended)
    {
      var shown := if offset < setup.duration then offset else setup.duration;
      var alpha := shown / setup.duration;
      if reversed {
        alpha := 1.0 - alpha;
      }
      Update(setup.ease(alpha));
      if offset >= setup.duration {
        currentAction := Over;
      }
    }

    /** The continuation of the current round. */
    method OnRoundOver()
      requires currentAction.Over?
      modifies this
      ensures Value() == Step(setup, old(Value()), Continued)
    {
      currentAction := Absent;
      if state != Terminated {
        DoAdvance();
      }
    }

    method Terminate()
      modifies this
      ensures Value() == Step(setup, old(Value()), Killed)
    {
      if state == Pending {
        state := Terminated;
        if currentAction == Running {
          currentAction := Absent;
        }
        DoFinalize();
      }
    }
  }
}
