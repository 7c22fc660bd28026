/** The Swipeable component as an object: its committed state fields, the
    callbacks it has invoked so far, and the handlers and reset operations
    that update them in place. Each handler is proved against the function
    that specifies it in Lifecycle. */
module Component {
  import opened SwipeTypes
  import opened Zones
  import opened ReleasePolicy
  import opened Lifecycle

  /** The fixed timing a bounce runs, always with `Animated.timing` whatever
      the swipe release driver is: to `target` in
      250 ms on an elastic curve, on the native driver. */
  function BounceConfig(target: Point): (c: AnimConfig)
    ensures c.toValue == Some(target)
    ensures c == DefaultReleaseConfig.(toValue := Some(target))
  {
    AnimConfig(Some(target), Some(250.0), Some("Easing.elastic(0.5)"), Some(true))
  }

  /** One action zone's pair of rules in handlePanResponderMove: activate
      when inactive, its side swipeable and the position reached; deactivate
      when active, its side swipeable and the position not reached. Returns
      the new flag and the callback fired. */
  method ActionRule(zone: Zone, active: bool, swipeable: bool, reached: bool) returns (next: bool, fired: seq<Event>)
    ensures next == ActionFlag(active, swipeable, reached)
    ensures fired == Transition(zone, active, next)
  {
    next := active;
    fired := [];
    if !active && swipeable && reached {
      next := true;
      fired := [On(zone, Activate)];
    }
    if active && swipeable && !reached {
      next := false;
      fired := [On(zone, Deactivate)];
    }
  }

  /** One tray's pair of rules in handlePanResponderMove: activate when
      inactive, present, not moving back and the position reached;
      deactivate when active, present and moving back. */
  method TrayRule(zone: Zone, active: bool, present: bool, movingBack: bool, reached: bool)
    returns (next: bool, fired: seq<Event>)
    ensures next == TrayFlag(active, present, movingBack, reached)
    ensures fired == Transition(zone, active, next)
  {
    next := active;
    fired := [];
    if !active && present && !movingBack && reached {
      next := true;
      fired := [On(zone, Activate)];
    }
    if active && present && movingBack {
      next := false;
      fired := [On(zone, Deactivate)];
    }
  }

  /** The rules of handlePanResponderMove for one sample, in the order
      left action, right action, left tray, right tray, each reading the
      flags as they were before the sample: the new flags, and the
      callbacks fired. */
  method MoveRules(props: Props, s: State, dx: real, vx: real) returns (next: State, fired: seq<Event>)
    ensures next == Activation(props, s, dx + s.lastOffset.x, vx)
    ensures fired == MoveEvents(s, next)
  {
    var x := dx + s.lastOffset.x;
    var isSwipingLeft := vx < 0.0;
    var isSwipingRight := vx > 0.0;
    var nextLeftActionActivated, leftActionFired :=
      ActionRule(LeftAction, s.leftActionActivated, CanSwipeRight(props), x >= props.leftActionActivationDistance);
    var nextRightActionActivated, rightActionFired :=
      ActionRule(RightAction, s.rightActionActivated, CanSwipeLeft(props), x <= -props.rightActionActivationDistance);
    var nextLeftButtonsActivated, leftButtonsFired :=
      TrayRule(LeftButtons, s.leftButtonsActivated, HasLeftButtons(props), isSwipingLeft,
               x >= props.leftButtonsActivationDistance);
    var nextRightButtonsActivated, rightButtonsFired :=
      TrayRule(RightButtons, s.rightButtonsActivated, HasRightButtons(props), isSwipingRight,
               x <= -props.rightButtonsActivationDistance);
    next := s.(leftActionActivated := nextLeftActionActivated, rightActionActivated := nextRightActionActivated,
               leftButtonsActivated := nextLeftButtonsActivated, rightButtonsActivated := nextRightButtonsActivated);
    MoveEventsInOrder(s, next);
    fired := [SwipeMove] + leftActionFired + rightActionFired + leftButtonsFired + rightButtonsFired;
  }

  /** The release callbacks handlePanResponderEnd fires, in order. */
  method ReleaseCallbacks(s: State) returns (fired: seq<Event>)
    ensures fired == ReleaseEvents(s)
  {
    fired := [SwipeRelease];
    if s.leftActionActivated {
      fired := fired + [On(LeftAction, Release)];
    }
    if s.rightActionActivated {
      fired := fired + [On(RightAction, Release)];
    }
    var trays := TrayReleaseCallbacks(s);
    fired := fired + trays;
  }

  method TrayReleaseCallbacks(s: State) returns (fired: seq<Event>)
    ensures fired == TrayReleases(s)
  {
    fired := [];
    if s.leftButtonsActivated && !s.leftButtonsOpen {
      fired := fired + [On(LeftButtons, OpenRelease)];
    }
    if !s.leftButtonsActivated && s.leftButtonsOpen {
      fired := fired + [On(LeftButtons, CloseRelease)];
    }
    if s.rightButtonsActivated && !s.rightButtonsOpen {
      fired := fired + [On(RightButtons, OpenRelease)];
    }
    if !s.rightButtonsActivated && s.rightButtonsOpen {
      fired := fired + [On(RightButtons, CloseRelease)];
    }
  }

  /** The callbacks the settle's completion closure fires, in order. */
  method CompletionCallbacks(s: State) returns (fired: seq<Event>)
    ensures fired == CompletionEvents(s)
  {
    fired := [SwipeComplete];
    if s.leftActionActivated {
      fired := fired + [On(LeftAction, Complete), On(LeftAction, Deactivate)];
    }
    if s.rightActionActivated {
      fired := fired + [On(RightAction, Complete), On(RightAction, Deactivate)];
    }
    var trays := TrayCompletionCallbacks(s);
    fired := fired + trays;
  }

  method TrayCompletionCallbacks(s: State) returns (fired: seq<Event>)
    ensures fired == TrayCompletions(s)
  {
    fired := [];
    if s.leftButtonsActivated && !s.leftButtonsOpen {
      fired := fired + [On(LeftButtons, OpenComplete)];
    }
    if !s.leftButtonsActivated && s.leftButtonsOpen {
      fired := fired + [On(LeftButtons, CloseComplete)];
    }
    if s.rightButtonsActivated && !s.rightButtonsOpen {
      fired := fired + [On(RightButtons, OpenComplete)];
    }
    if !s.rightButtonsActivated && s.rightButtonsOpen {
      fired := fired + [On(RightButtons, CloseComplete)];
    }
  }

  class Swipeable {
    const props: Props
    /** The committed component state; each setState merges into it. */
    var state: State
    /** Every lifecycle callback invoked so far, in order. */
    var trace: seq<Event>
    /** How many times the component state has been written. */
    var commits: nat

    /** A mounted component: at rest, nothing open, nothing fired. */
    constructor (props: Props)
      ensures this.props == props
      ensures state == InitialState
      ensures trace == [] && commits == 0
    {
      this.props := props;
      state := InitialState;
      trace := [];
      commits := 0;
    }

    /** recenter: commits the rest state (offset at the origin, every flag
        off) and returns the driver and config it animates with, the swipe
        release ones unless the caller gives its own. */
    method Recenter(animationFn: Option<AnimFn>, animationConfig: Option<AnimConfig>)
      returns (fn: AnimFn, config: AnimConfig)
      modifies this
      ensures state == InitialState
      ensures fn == animationFn.GetOr(props.swipeReleaseAnimationFn)
      ensures config == animationConfig.GetOr(props.swipeReleaseAnimationConfig)
      ensures trace == old(trace) && commits == old(commits) + 1
    {
      fn := animationFn.GetOr(props.swipeReleaseAnimationFn);
      config := animationConfig.GetOr(props.swipeReleaseAnimationConfig);
      state := state.(lastOffset := Origin,
                      leftActionActivated := false, leftButtonsActivated := false, leftButtonsOpen := false,
                      rightActionActivated := false, rightButtonsActivated := false, rightButtonsOpen := false);
      commits := commits + 1;
    }

    /** bounceRight: when something is revealed on the right, marks the
        right action and tray active and open and bounces to x = -50;
        otherwise does nothing. */
    method BounceRight() returns (bounce: Option<AnimConfig>)
      modifies this
      ensures CanSwipeLeft(props) ==>
                && state == old(state).(rightActionActivated := true, rightButtonsActivated := true,
                                        rightButtonsOpen := true)
                && commits == old(commits) + 1
                && bounce == Some(BounceConfig(Point(-50.0, 0.0)))
      ensures !CanSwipeLeft(props) ==> state == old(state) && commits == old(commits) && bounce == None
      ensures trace == old(trace)
    {
      bounce := None;
      if CanSwipeLeft(props) {
        state := state.(rightActionActivated := true, rightButtonsActivated := true, rightButtonsOpen := true);
        commits := commits + 1;
        bounce := Some(BounceConfig(Point(-50.0, 0.0)));
      }
    }

    /** bounceLeft: when something is revealed on the left, marks the left
        action and tray active and open and bounces to x = 50; otherwise
        does nothing. */
    method BounceLeft() returns (bounce: Option<AnimConfig>)
      modifies this
      ensures CanSwipeRight(props) ==>
                && state == old(state).(leftActionActivated := true, leftButtonsActivated := true,
                                        leftButtonsOpen := true)
                && commits == old(commits) + 1
                && bounce == Some(BounceConfig(Point(50.0, 0.0)))
      ensures !CanSwipeRight(props) ==> state == old(state) && commits == old(commits) && bounce == None
      ensures trace == old(trace)
    {
      bounce := None;
      if CanSwipeRight(props) {
        state := state.(leftActionActivated := true, leftButtonsActivated := true, leftButtonsOpen := true);
        commits := commits + 1;
        bounce := Some(BounceConfig(Point(50.0, 0.0)));
      }
    }

    /** The end of a bounce animation: a recenter with the swipe release
        driver and config, back to the rest state. */
    method BounceDone() returns (fn: AnimFn, config: AnimConfig)
      modifies this
      ensures state == InitialState
      ensures fn == props.swipeReleaseAnimationFn && config == props.swipeReleaseAnimationConfig
      ensures trace == old(trace) && commits == old(commits) + 1
    {
      fn, config := Recenter(Some(props.swipeReleaseAnimationFn), Some(props.swipeReleaseAnimationConfig));
    }

    /** handlePanResponderStart. */
    method Start()
      modifies this`trace
      ensures trace == old(trace) + StartStep(props, state).events
    {
      if props.disable {
        return;
      }
      trace := trace + [SwipeStart];
    }

    /** handlePanResponderMove: the zone rules for the sample, then one
        state write when some flag changed. */
    method Move(dx: real, vx: real)
      modifies this
      ensures state == MoveStep(props, old(state), dx, vx).state
      ensures trace == old(trace) + MoveStep(props, old(state), dx, vx).events
      ensures commits == old(commits) + (if state == old(state) then 0 else 1)
    {
      if props.disable {
        return;
      }
      var next, fired := MoveRules(props, state, dx, vx);
      assert MoveStep(props, state, dx, vx) == Step(next, fired);
      trace := trace + fired;
      var needsUpdate :=
        next.leftActionActivated != state.leftActionActivated
        || next.leftButtonsActivated != state.leftButtonsActivated
        || next.rightActionActivated != state.rightActionActivated
        || next.rightButtonsActivated != state.rightButtonsActivated;
      if needsUpdate {
        state := state.(leftActionActivated := next.leftActionActivated,
                        leftButtonsActivated := next.leftButtonsActivated,
                        rightActionActivated := next.rightActionActivated,
                        rightButtonsActivated := next.rightButtonsActivated);
        commits := commits + 1;
        assert state == next != old(state);
      } else {
        assert next == state;
      }
    }

    /** handlePanResponderEnd: choose the driver and config, fire the
        release callbacks, commit the settled state, and start the settle,
        whose completion is Settled below. */
    method End() returns (outcome: EndOutcome)
      modifies this
      ensures outcome == EndStep(props, old(state)).outcome
      ensures state == EndStep(props, old(state)).step.state
      ensures trace == old(trace) + EndStep(props, old(state)).step.events
      ensures commits == old(commits) + (if outcome.Settling? then 1 else 0)
    {
      if props.disable {
        return Ignored;
      }
      var s := state;
      var animationFn := ReleaseAnimationFn(props, s);
      var chosen := ReleaseAnimationConfig(props, s);
      if chosen.Err? {
        return Threw(chosen.error);
      }
      var animationConfig := chosen.value;
      var fired := ReleaseCallbacks(s);
      trace := trace + fired;
      if animationConfig.toValue.None? {
        return Threw(ToValueMissing);
      }
      state := state.(lastOffset := animationConfig.toValue.value,
                      leftActionActivated := false,
                      rightActionActivated := false,
                      leftButtonsOpen := s.leftButtonsActivated,
                      rightButtonsOpen := s.rightButtonsActivated);
      commits := commits + 1;
      outcome := Settling(Settle(animationFn, animationConfig, s));
    }

    /** The settle's completion closure: the completion callbacks, read
        from the snapshot taken when the release began. */
    method Settled(settle: Settle)
      modifies this`trace
      ensures trace == old(trace) + CompletionEvents(settle.snapshot)
    {
      var fired := CompletionCallbacks(settle.snapshot);
      trace := trace + fired;
    }
  }
}
