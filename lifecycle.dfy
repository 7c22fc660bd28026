/** The gesture handlers as functions of the props and the state before
    them: what each one commits and which callbacks it invokes, in order.
    The Swipeable class is proved against these. */
module Lifecycle {
  import opened SwipeTypes
  import opened Zones
  import opened ReleasePolicy

  /** The state a handler commits and the callbacks it invokes. */
  datatype Step = Step(state: State, events: seq<Event>)

  /** The settle a release starts: the driver and config it runs, and the
      state before the release, which the completion closure reads. */
  datatype Settle = Settle(fn: AnimFn, config: AnimConfig, snapshot: State)

  /** How the end-of-gesture handler finishes: returning at once because
      `disable` is set, throwing a TypeError, or starting a settle. */
  datatype EndOutcome = Ignored | Threw(error: EndError) | Settling(settle: Settle)

  datatype EndResult = EndResult(step: Step, outcome: EndOutcome)

  /** handlePanResponderStart: onSwipeStart, unless disabled. */
  function StartStep(p: Props, s: State): (r: Step)
    ensures r.state == s
    ensures p.disable ==> r.events == []
    ensures !p.disable ==> r.events == [SwipeStart]
  {
    if p.disable then Step(s, []) else Step(s, [SwipeStart])
  }

  /** handlePanResponderMove for a sample with horizontal travel `dx` and
      velocity `vx`; the position is the travel plus the committed offset. */
  function MoveStep(p: Props, s: State, dx: real, vx: real): (r: Step)
    ensures p.disable ==> r == Step(s, [])
    ensures r.state.lastOffset == s.lastOffset
    ensures r.state.leftButtonsOpen == s.leftButtonsOpen && r.state.rightButtonsOpen == s.rightButtonsOpen
    ensures !p.disable ==> 1 <= |r.events| <= 5 && r.events[0] == SwipeMove
  {
    if p.disable then Step(s, [])
    else
      var next := Activation(p, s, dx + s.lastOffset.x, vx);
      Step(next, MoveEvents(s, next))
  }

  /** `evs` when `c` holds, else nothing. */
  function When(c: bool, evs: seq<Event>): seq<Event> {
    if c then evs else []
  }

  /** The release callbacks, read from the state before the release:
      onSwipeRelease, each active action's release, and a tray's open
      release when it is active but was closed, or its close release when it
      was open and is no longer active. */
  function ReleaseEvents(s: State): (r: seq<Event>)
    ensures |r| >= 1 && r[0] == SwipeRelease
  {
    [SwipeRelease]
    + When(s.leftActionActivated, [On(LeftAction, Release)])
    + When(s.rightActionActivated, [On(RightAction, Release)])
    + TrayReleases(s)
  }

  /** The release callbacks of the two trays. */
  function TrayReleases(s: State): seq<Event> {
    When(s.leftButtonsActivated && !s.leftButtonsOpen, [On(LeftButtons, OpenRelease)])
    + When(!s.leftButtonsActivated && s.leftButtonsOpen, [On(LeftButtons, CloseRelease)])
    + When(s.rightButtonsActivated && !s.rightButtonsOpen, [On(RightButtons, OpenRelease)])
    + When(!s.rightButtonsActivated && s.rightButtonsOpen, [On(RightButtons, CloseRelease)])
  }

  /** The completion callbacks, read from the same snapshot as the release
      ones: onSwipeComplete, then each active action's completion followed
      by its deactivation, left first, then a tray's open completion when it
      was opened, or its close completion when it was closed. */
  function CompletionEvents(s: State): (r: seq<Event>)
    ensures |r| >= 1 && r[0] == SwipeComplete
  {
    [SwipeComplete]
    + When(s.leftActionActivated, [On(LeftAction, Complete), On(LeftAction, Deactivate)])
    + When(s.rightActionActivated, [On(RightAction, Complete), On(RightAction, Deactivate)])
    + TrayCompletions(s)
  }

  /** The completion callbacks of the two trays. */
  function TrayCompletions(s: State): seq<Event> {
    When(s.leftButtonsActivated && !s.leftButtonsOpen, [On(LeftButtons, OpenComplete)])
    + When(!s.leftButtonsActivated && s.leftButtonsOpen, [On(LeftButtons, CloseComplete)])
    + When(s.rightButtonsActivated && !s.rightButtonsOpen, [On(RightButtons, OpenComplete)])
    + When(!s.rightButtonsActivated && s.rightButtonsOpen, [On(RightButtons, CloseComplete)])
  }

  /** Which release callbacks fire: each action's exactly when it was
      active, a tray's open release exactly when it is active and was
      closed, its close release exactly when it was open and is no longer
      active; no zone is activated or deactivated. */
  lemma ReleaseEventsFire(s: State)
    ensures var r := ReleaseEvents(s);
            && (On(LeftAction, Release) in r <==> s.leftActionActivated)
            && (On(RightAction, Release) in r <==> s.rightActionActivated)
            && (On(LeftButtons, OpenRelease) in r <==> s.leftButtonsActivated && !s.leftButtonsOpen)
            && (On(LeftButtons, CloseRelease) in r <==> !s.leftButtonsActivated && s.leftButtonsOpen)
            && (On(RightButtons, OpenRelease) in r <==> s.rightButtonsActivated && !s.rightButtonsOpen)
            && (On(RightButtons, CloseRelease) in r <==> !s.rightButtonsActivated && s.rightButtonsOpen)
            && forall z :: On(z, Activate) !in r && On(z, Deactivate) !in r
  {
    var acts := [SwipeRelease]
      + When(s.leftActionActivated, [On(LeftAction, Release)])
      + When(s.rightActionActivated, [On(RightAction, Release)]);
    TrayReleasesFire(s);
    assert ReleaseEvents(s) == acts + TrayReleases(s);
  }

  /** The trays' release callbacks: an open release exactly when the tray
      is active and was closed, a close release exactly when it was open and
      is no longer active, and nothing else. */
  lemma TrayReleasesFire(s: State)
    ensures var r := TrayReleases(s);
            && (On(LeftButtons, OpenRelease) in r <==> s.leftButtonsActivated && !s.leftButtonsOpen)
            && (On(LeftButtons, CloseRelease) in r <==> !s.leftButtonsActivated && s.leftButtonsOpen)
            && (On(RightButtons, OpenRelease) in r <==> s.rightButtonsActivated && !s.rightButtonsOpen)
            && (On(RightButtons, CloseRelease) in r <==> !s.rightButtonsActivated && s.rightButtonsOpen)
            && On(LeftAction, Release) !in r && On(RightAction, Release) !in r
            && forall z :: On(z, Activate) !in r && On(z, Deactivate) !in r
  {
  }

  /** Which completion callbacks fire: each action's completion exactly
      when it was active, immediately followed by its deactivation, and a
      tray's open or close completion exactly when its release fired the
      matching release. */
  lemma CompletionEventsFire(s: State)
    ensures var r := CompletionEvents(s);
            && (On(LeftAction, Complete) in r <==> s.leftActionActivated)
            && (On(RightAction, Complete) in r <==> s.rightActionActivated)
            && (On(LeftButtons, OpenComplete) in r <==> s.leftButtonsActivated && !s.leftButtonsOpen)
            && (On(LeftButtons, CloseComplete) in r <==> !s.leftButtonsActivated && s.leftButtonsOpen)
            && (On(RightButtons, OpenComplete) in r <==> s.rightButtonsActivated && !s.rightButtonsOpen)
            && (On(RightButtons, CloseComplete) in r <==> !s.rightButtonsActivated && s.rightButtonsOpen)
            && (s.leftActionActivated ==> r[1] == On(LeftAction, Complete) && r[2] == On(LeftAction, Deactivate))
            && (var k := if s.leftActionActivated then 3 else 1;
                s.rightActionActivated ==> r[k] == On(RightAction, Complete) && r[k + 1] == On(RightAction, Deactivate))
  {
    var acts := [SwipeComplete]
      + When(s.leftActionActivated, [On(LeftAction, Complete), On(LeftAction, Deactivate)])
      + When(s.rightActionActivated, [On(RightAction, Complete), On(RightAction, Deactivate)]);
    TrayCompletionsFire(s);
    assert CompletionEvents(s) == acts + TrayCompletions(s);
    ActionCompletionsPaired(s);
  }

  /** Each active action's completion is immediately followed by its
      deactivation: the left pair right after onSwipeComplete, the right
      pair after that. */
  lemma ActionCompletionsPaired(s: State)
    ensures var r := CompletionEvents(s);
            && (s.leftActionActivated ==> r[1] == On(LeftAction, Complete) && r[2] == On(LeftAction, Deactivate))
            && (var k := if s.leftActionActivated then 3 else 1;
                s.rightActionActivated ==> r[k] == On(RightAction, Complete) && r[k + 1] == On(RightAction, Deactivate))
  {
    var la := When(s.leftActionActivated, [On(LeftAction, Complete), On(LeftAction, Deactivate)]);
    var ra := When(s.rightActionActivated, [On(RightAction, Complete), On(RightAction, Deactivate)]);
    assert CompletionEvents(s) == [SwipeComplete] + la + ra + TrayCompletions(s);
  }

  /** The trays' completion callbacks: an open completion exactly when the
      tray is active and was closed, a close completion exactly when it was
      open and is no longer active, and nothing else. */
  lemma TrayCompletionsFire(s: State)
    ensures var r := TrayCompletions(s);
            && (On(LeftButtons, OpenComplete) in r <==> s.leftButtonsActivated && !s.leftButtonsOpen)
            && (On(LeftButtons, CloseComplete) in r <==> !s.leftButtonsActivated && s.leftButtonsOpen)
            && (On(RightButtons, OpenComplete) in r <==> s.rightButtonsActivated && !s.rightButtonsOpen)
            && (On(RightButtons, CloseComplete) in r <==> !s.rightButtonsActivated && s.rightButtonsOpen)
            && On(LeftAction, Complete) !in r && On(RightAction, Complete) !in r
            && forall z :: On(z, Activate) !in r && On(z, Deactivate) !in r
  {
  }

  /** The state a release commits: the settle target becomes the committed
      offset, both actions reset, each tray's open flag takes its active
      flag, and the active tray flags stay. */
  function Released(s: State, target: Point): State {
    s.(lastOffset := target, leftActionActivated := false, rightActionActivated := false,
       leftButtonsOpen := s.leftButtonsActivated, rightButtonsOpen := s.rightButtonsActivated)
  }

  /** handlePanResponderEnd. The driver and config are chosen first, so a
      null buttons array throws before any callback; a config without
      `toValue` throws after the release callbacks, before the state is
      written. */
  function EndStep(p: Props, s: State): (r: EndResult)
    ensures p.disable ==> r == EndResult(Step(s, []), Ignored)
    ensures r.outcome.Ignored? <==> p.disable
    ensures !p.disable && ReleaseAnimationConfig(p, s).Err? ==> r.outcome == Threw(ButtonsMissing)
    ensures !p.disable && ReleaseAnimationConfig(p, s).Ok? ==>
              (r.outcome.Settling? <==> ReleaseAnimationConfig(p, s).value.toValue.Some?)
    ensures r.outcome.Threw? ==> r.step.state == s
    ensures r.outcome.Settling? ==>
              && r.outcome.settle.snapshot == s
              && r.outcome.settle.fn == ReleaseAnimationFn(p, s)
              && ReleaseAnimationConfig(p, s) == Ok(r.outcome.settle.config)
              && r.outcome.settle.config.toValue == Some(r.step.state.lastOffset)
              && !r.step.state.leftActionActivated && !r.step.state.rightActionActivated
              && r.step.state.leftButtonsOpen == s.leftButtonsActivated
              && r.step.state.rightButtonsOpen == s.rightButtonsActivated
              && r.step.state.leftButtonsActivated == s.leftButtonsActivated
              && r.step.state.rightButtonsActivated == s.rightButtonsActivated
              && r.step.events == ReleaseEvents(s)
    ensures !p.disable && ReleaseAnimationConfig(p, s).Ok? ==> r.step.events == ReleaseEvents(s)
    ensures r.outcome.Threw? && r.outcome.error == ButtonsMissing ==> r.step.events == []
  {
    if p.disable then EndResult(Step(s, []), Ignored)
    else
      var fn := ReleaseAnimationFn(p, s);
      match ReleaseAnimationConfig(p, s)
      case Err(e) => EndResult(Step(s, []), Threw(e))
      case Ok(config) =>
        match config.toValue
        case None => EndResult(Step(s, ReleaseEvents(s)), Threw(ToValueMissing))
        case Some(target) => EndResult(Step(Released(s, target), ReleaseEvents(s)), Settling(Settle(fn, config, s)))
  }

  /** The inputs of a gesture. */
  datatype Input = Grant | Sample(dx: real, vx: real) | End

  /** One input. A release whose settle starts also runs its completion,
      as when the settle animation finishes before the next input. */
  function Apply(p: Props, s: State, input: Input): Step {
    match input
    case Grant => StartStep(p, s)
    case Sample(dx, vx) => MoveStep(p, s, dx, vx)
    case End =>
      var e := EndStep(p, s);
      if e.outcome.Settling? then Step(e.step.state, e.step.events + CompletionEvents(e.outcome.settle.snapshot))
      else e.step
  }

  /** A sequence of inputs, from state `s`: the final state and every
      callback in order. With `disable` set nothing changes and nothing
      fires. */
  function Run(p: Props, s: State, inputs: seq<Input>): (r: Step)
    decreases |inputs|
    ensures p.disable ==> r == Step(s, [])
  {
    if inputs == [] then Step(s, [])
    else
      var first := Apply(p, s, inputs[0]);
      var rest := Run(p, first.state, inputs[1..]);
      Step(rest.state, first.events + rest.events)
  }

  // ---------------------------------------------------------------------
  // Activate/deactivate symmetry per zone

  /** Zone `z`'s activate and deactivate callbacks in `evs` take its flag
      from `before` to `after`, each one flipping it: an activation only
      while inactive, a deactivation only while active. */
  predicate Flips(z: Zone, before: bool, evs: seq<Event>, after: bool)
    decreases |evs|
  {
    if evs == [] then before == after
    else if evs[0] == On(z, Activate) then !before && Flips(z, true, evs[1..], after)
    else if evs[0] == On(z, Deactivate) then before && Flips(z, false, evs[1..], after)
    else Flips(z, before, evs[1..], after)
  }

  lemma {:induction false} FlipsAppend(z: Zone, a: bool, e1: seq<Event>, b: bool, e2: seq<Event>, c: bool)
    requires Flips(z, a, e1, b) && Flips(z, b, e2, c)
    ensures Flips(z, a, e1 + e2, c)
    decreases |e1|
  {
    if e1 == [] {
      assert e1 + e2 == e2;
    } else {
      assert (e1 + e2)[0] == e1[0] && (e1 + e2)[1..] == e1[1..] + e2;
      var next := if e1[0] == On(z, Activate) then true else if e1[0] == On(z, Deactivate) then false else a;
      FlipsAppend(z, next, e1[1..], b, e2, c);
    }
  }

  /** Callbacks that are not zone `z`'s activate or deactivate leave its
      flag where it is. */
  lemma {:induction false} FlipsQuiet(z: Zone, b: bool, evs: seq<Event>)
    requires On(z, Activate) !in evs && On(z, Deactivate) !in evs
    ensures Flips(z, b, evs, b)
    decreases |evs|
  {
    if evs != [] {
      assert evs[0] in evs;
      assert forall e :: e in evs[1..] ==> e in evs;
      FlipsQuiet(z, b, evs[1..]);
    }
  }

  /** A zone's own transition flips it, another zone's leaves it. */
  lemma TransitionFlips(z: Zone, y: Zone, before: bool, after: bool, b: bool, b': bool)
    requires y == z ==> b == before && b' == after
    requires y != z ==> b == b'
    ensures Flips(z, b, Transition(y, before, after), b')
  {
    var t := Transition(y, before, after);
    if t != [] {
      assert t[1..] == [];
    }
  }

  /** The callbacks of one sample take every zone's flag from its value
      before the sample to its value after. */
  lemma MoveEventsFlip(z: Zone, s: State, n: State)
    ensures Flips(z, Activated(s, z), MoveEvents(s, n), Activated(n, z))
  {
    assert z in CallbackOrder;
    FlipsQuiet(z, Activated(s, z), [SwipeMove]);
    TransitionsFlip(z, CallbackOrder, s, n, Activated(s, z));
    FlipsAppend(z, Activated(s, z), [SwipeMove], Activated(s, z), Transitions(CallbackOrder, s, n), Activated(n, z));
  }

  /** The transitions of distinct zones take a listed zone's flag from old
      to new, and leave an unlisted zone's flag alone. */
  lemma {:induction false} TransitionsFlip(z: Zone, zs: seq<Zone>, s: State, n: State, b: bool)
    requires forall i, j :: 0 <= i < j < |zs| ==> zs[i] != zs[j]
    ensures z in zs ==> Flips(z, Activated(s, z), Transitions(zs, s, n), Activated(n, z))
    ensures z !in zs ==> Flips(z, b, Transitions(zs, s, n), b)
    decreases |zs|
  {
    if zs == [] {
    } else {
      var y, rest := zs[0], zs[1..];
      assert forall i, j :: 0 <= i < j < |rest| ==> rest[i] == zs[i + 1] && rest[j] == zs[j + 1];
      var t := Transition(y, Activated(s, y), Activated(n, y));
      assert Transitions(zs, s, n) == t + Transitions(rest, s, n);
      if y == z {
        assert z !in rest by {
          forall i | 0 <= i < |rest| ensures rest[i] != z { assert zs[0] != zs[i + 1]; }
        }
        TransitionFlips(z, y, Activated(s, z), Activated(n, z), Activated(s, z), Activated(n, z));
        TransitionsFlip(z, rest, s, n, Activated(n, z));
        FlipsAppend(z, Activated(s, z), t, Activated(n, z), Transitions(rest, s, n), Activated(n, z));
      } else {
        assert z in zs <==> z in rest;
        var b0 := if z in rest then Activated(s, z) else b;
        var b1 := if z in rest then Activated(n, z) else b;
        TransitionFlips(z, y, Activated(s, y), Activated(n, y), b0, b0);
        TransitionsFlip(z, rest, s, n, b);
        FlipsAppend(z, b0, t, b0, Transitions(rest, s, n), b1);
      }
    }
  }

  /** The completion deactivates each action that was active, and leaves
      the trays alone. */
  lemma CompletionFlips(z: Zone, s: State, target: Point)
    ensures Flips(z, Activated(s, z), CompletionEvents(s), Activated(Released(s, target), z))
  {
    var la := When(s.leftActionActivated, [On(LeftAction, Complete), On(LeftAction, Deactivate)]);
    var ra := When(s.rightActionActivated, [On(RightAction, Complete), On(RightAction, Deactivate)]);
    var trays := TrayCompletions(s);
    var e0 := [SwipeComplete];
    var e1 := e0 + la;
    var e2 := e1 + ra;
    var e3 := e2 + trays;
    assert CompletionEvents(s) == e3;
    var b0 := Activated(s, z);
    var b1 := if z == LeftAction && s.leftActionActivated then false else b0;
    var b2 := if z == RightAction && s.rightActionActivated then false else b1;
    assert b2 == Activated(Released(s, target), z);
    FlipsQuiet(z, b0, e0);
    ActionCompletionFlips(z, LeftAction, s.leftActionActivated, b0);
    FlipsAppend(z, b0, e0, b0, la, b1);
    ActionCompletionFlips(z, RightAction, s.rightActionActivated, b1);
    FlipsAppend(z, b0, e1, b1, ra, b2);
    TrayCompletionsQuiet(z, s, b2);
    FlipsAppend(z, b0, e2, b2, trays, b2);
  }

  /** The trays' completions activate and deactivate nothing. */
  lemma TrayCompletionsQuiet(z: Zone, s: State, b: bool)
    ensures Flips(z, b, TrayCompletions(s), b)
  {
    FlipsQuiet(z, b, TrayCompletions(s));
  }

  /** The release callbacks activate and deactivate nothing. */
  lemma ReleaseEventsQuiet(z: Zone, s: State, b: bool)
    ensures Flips(z, b, ReleaseEvents(s), b)
  {
    assert On(z, Activate) !in TrayReleases(s) && On(z, Deactivate) !in TrayReleases(s);
    FlipsQuiet(z, b, ReleaseEvents(s));
  }

  /** An action's completion deactivates it when it was active, and
      touches no other zone. */
  lemma ActionCompletionFlips(z: Zone, y: Zone, active: bool, b: bool)
    requires z == y && active ==> b
    ensures Flips(z, b, When(active, [On(y, Complete), On(y, Deactivate)]), if z == y && active then false else b)
  {
    var evs := When(active, [On(y, Complete), On(y, Deactivate)]);
    if active {
      assert evs[1..][1..] == [];
    }
  }

  /** Each input takes every zone's flag from its value before to its
      value after, one flip per callback. A release that settles an active
      action fires its deactivation in the completion and commits it as
      inactive. */
  lemma ApplyFlips(p: Props, s: State, input: Input, z: Zone)
    ensures var r := Apply(p, s, input);
            Flips(z, Activated(s, z), r.events, Activated(r.state, z))
  {
    var r := Apply(p, s, input);
    var b := Activated(s, z);
    match input
    case Grant =>
      FlipsQuiet(z, b, r.events);
    case Sample(dx, vx) =>
      if !p.disable {
        MoveEventsFlip(z, s, r.state);
      }
    case End =>
      var e := EndStep(p, s);
      if e.step.events == [] {
        FlipsQuiet(z, b, e.step.events);
      } else {
        ReleaseEventsQuiet(z, s, b);
      }
      if e.outcome.Settling? {
        var target := e.step.state.lastOffset;
        assert e.step.state == Released(s, target);
        CompletionFlips(z, s, target);
        FlipsAppend(z, b, e.step.events, b, CompletionEvents(s), Activated(r.state, z));
      }
  }

  /** Over any sequence of gesture inputs, each zone's activate and
      deactivate callbacks alternate, starting from its flag before and
      ending at its flag after: no zone is activated twice without a
      deactivation in between, nor deactivated twice. */
  lemma {:induction false} RunFlips(p: Props, s: State, inputs: seq<Input>, z: Zone)
    ensures var r := Run(p, s, inputs);
            Flips(z, Activated(s, z), r.events, Activated(r.state, z))
    decreases |inputs|
  {
    if inputs != [] {
      var first := Apply(p, s, inputs[0]);
      var rest := Run(p, first.state, inputs[1..]);
      ApplyFlips(p, s, inputs[0], z);
      RunFlips(p, first.state, inputs[1..], z);
      FlipsAppend(z, Activated(s, z), first.events, Activated(first.state, z), rest.events, Activated(rest.state, z));
    }
  }

  // ---------------------------------------------------------------------
  // Mutual exclusion of the two actions

  /** At most one action is active, and an action whose side cannot be
      swiped is not active. */
  predicate ActionsConsistent(p: Props, s: State) {
    && !(s.leftActionActivated && s.rightActionActivated)
    && (!CanSwipeRight(p) ==> !s.leftActionActivated)
    && (!CanSwipeLeft(p) ==> !s.rightActionActivated)
  }

  lemma ApplyKeepsActionsConsistent(p: Props, s: State, input: Input)
    requires ActionRangesDisjoint(p) && ActionsConsistent(p, s)
    ensures ActionsConsistent(p, Apply(p, s, input).state)
  {
  }

  /** With disjoint action ranges, no sequence of gesture inputs from a
      consistent state (the initial one, say) ever has both actions active. */
  lemma {:induction false} RunKeepsActionsConsistent(p: Props, s: State, inputs: seq<Input>)
    requires ActionRangesDisjoint(p) && ActionsConsistent(p, s)
    ensures ActionsConsistent(p, Run(p, s, inputs).state)
    decreases |inputs|
  {
    if inputs != [] {
      ApplyKeepsActionsConsistent(p, s, inputs[0]);
      RunKeepsActionsConsistent(p, Apply(p, s, inputs[0]).state, inputs[1..]);
    }
  }

  // ---------------------------------------------------------------------
  // One sample

  /** The state is written, and some zone callback fires, exactly when a
      flag flips. */
  lemma MoveFiresIffChanged(p: Props, s: State, dx: real, vx: real)
    requires !p.disable
    ensures var r := MoveStep(p, s, dx, vx);
            r.events == [SwipeMove] <==> r.state == s
  {
  }

  /** Re-delivering a sample fires only onSwipeMove and changes nothing. */
  lemma MoveRedeliveryQuiet(p: Props, s: State, dx: real, vx: real)
    requires !p.disable
    ensures var r := MoveStep(p, s, dx, vx);
            MoveStep(p, r.state, dx, vx) == Step(r.state, [SwipeMove])
  {
    var r := MoveStep(p, s, dx, vx);
    var x := dx + s.lastOffset.x;
    ActivationIdempotent(p, s, x, vx);
    assert r.state == Activation(p, s, x, vx);
    assert MoveStep(p, r.state, dx, vx).state == r.state;
    assert MoveEvents(r.state, r.state) == [SwipeMove];
  }
}
