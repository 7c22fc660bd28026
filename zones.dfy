/** The four reveal zones (left action, right action, left button tray,
    right button tray): which of them exist, and how one drag sample moves
    their activation flags. */
module Zones {
  import opened SwipeTypes

  /** hasLeftButtons: a non-empty left button array, and no left content. */
  predicate HasLeftButtons(p: Props)
    // left content hides the buttons; a null or empty array has none
    ensures p.leftContent ==> !HasLeftButtons(p)
    ensures HasLeftButtons(p) ==> p.leftButtons.Some? && p.leftButtons.value > 0
  {
    !p.leftContent && p.leftButtons.Some? && p.leftButtons.value > 0
  }

  /** hasRightButtons: a non-empty right button array, and no right content. */
  predicate HasRightButtons(p: Props)
    ensures p.rightContent ==> !HasRightButtons(p)
    ensures HasRightButtons(p) ==> p.rightButtons.Some? && p.rightButtons.value > 0
  {
    !p.rightContent && p.rightButtons.Some? && p.rightButtons.value > 0
  }

  /** canSwipeRight: something is revealed on the left. */
  function CanSwipeRight(p: Props): (r: bool)
    ensures r <==> p.leftContent || (p.leftButtons.Some? && p.leftButtons.value > 0)
    ensures HasLeftButtons(p) <==> r && !p.leftContent
  {
    p.leftContent || HasLeftButtons(p)
  }

  /** canSwipeLeft: something is revealed on the right. */
  function CanSwipeLeft(p: Props): (r: bool)
    ensures r <==> p.rightContent || (p.rightButtons.Some? && p.rightButtons.value > 0)
    ensures HasRightButtons(p) <==> r && !p.rightContent
  {
    p.rightContent || HasRightButtons(p)
  }

  /** The flags after one drag sample at absolute position `x` with
      horizontal velocity `vx`, as handlePanResponderMove computes them: each
      zone has an activate rule and a deactivate rule, both read the flags as
      they were before the sample, and nothing else in the state changes. */
  function Activation(p: Props, s: State, x: real, vx: real): (r: State)
    ensures r.lastOffset == s.lastOffset
    ensures r.leftButtonsOpen == s.leftButtonsOpen && r.rightButtonsOpen == s.rightButtonsOpen
    // an action zone that exists follows the position alone
    ensures r.leftActionActivated
            == if CanSwipeRight(p) then x >= p.leftActionActivationDistance else s.leftActionActivated
    ensures r.rightActionActivated
            == if CanSwipeLeft(p) then x <= -p.rightActionActivationDistance else s.rightActionActivated
    // a tray opens on position while not moving back, and closes as soon as it moves back
    ensures r.leftButtonsActivated
            == if !HasLeftButtons(p) then s.leftButtonsActivated
               else if s.leftButtonsActivated then vx >= 0.0
               else vx >= 0.0 && x >= p.leftButtonsActivationDistance
    ensures r.rightButtonsActivated
            == if !HasRightButtons(p) then s.rightButtonsActivated
               else if s.rightButtonsActivated then vx <= 0.0
               else vx <= 0.0 && x <= -p.rightButtonsActivationDistance
  {
    var isSwipingLeft := vx < 0.0;
    var isSwipingRight := vx > 0.0;
    s.(leftActionActivated :=
         ActionFlag(s.leftActionActivated, CanSwipeRight(p), x >= p.leftActionActivationDistance),
       rightActionActivated :=
         ActionFlag(s.rightActionActivated, CanSwipeLeft(p), x <= -p.rightActionActivationDistance),
       leftButtonsActivated :=
         TrayFlag(s.leftButtonsActivated, HasLeftButtons(p), isSwipingLeft, x >= p.leftButtonsActivationDistance),
       rightButtonsActivated :=
         TrayFlag(s.rightButtonsActivated, HasRightButtons(p), isSwipingRight, x <= -p.rightButtonsActivationDistance))
  }

  /** An action zone's activate and deactivate rules: activate when
      inactive and the position has reached the zone, deactivate when active
      and it has not, provided its side can be swiped. The flag then follows
      the position. */
  function ActionFlag(active: bool, swipeable: bool, reached: bool): (r: bool)
    ensures swipeable ==> r == reached
    ensures !swipeable ==> r == active
  {
    if !active && swipeable && reached then true
    else if active && swipeable && !reached then false
    else active
  }

  /** A tray's activate and deactivate rules: activate when inactive, not
      moving back and the position has reached the tray; deactivate when
      active and moving back, provided the tray exists. */
  function TrayFlag(active: bool, present: bool, movingBack: bool, reached: bool): (r: bool)
    ensures !present ==> r == active
    ensures present && active ==> r == !movingBack
    ensures present && !active ==> r == (!movingBack && reached)
  {
    if !active && present && !movingBack && reached then true
    else if active && present && movingBack then false
    else active
  }

  /** A zone's activation flag. */
  function Activated(s: State, z: Zone): bool {
    match z
    case LeftAction => s.leftActionActivated
    case RightAction => s.rightActionActivated
    case LeftButtons => s.leftButtonsActivated
    case RightButtons => s.rightButtonsActivated
  }

  /** The callback zone `z` fires for one sample: its activate callback
      when the flag turns on, its deactivate callback when it turns off, and
      none when it stays. */
  function Transition(z: Zone, before: bool, after: bool): (r: seq<Event>)
    ensures |r| <= 1
    ensures r == [] <==> before == after
    ensures r == [On(z, Activate)] <==> !before && after
    ensures r == [On(z, Deactivate)] <==> before && !after
  {
    if !before && after then [On(z, Activate)]
    else if before && !after then [On(z, Deactivate)]
    else []
  }

  /** The order in which a drag sample reports the zones' transitions. */
  const CallbackOrder: seq<Zone> := [LeftAction, RightAction, LeftButtons, RightButtons]

  /** The transitions of the zones `zs`, in that order. None fires exactly
      when none of those zones' flags changed. */
  function Transitions(zs: seq<Zone>, s: State, r: State): (evs: seq<Event>)
    ensures |evs| <= |zs|
    ensures evs == [] <==> forall z :: z in zs ==> Activated(s, z) == Activated(r, z)
  {
    if zs == [] then []
    else Transition(zs[0], Activated(s, zs[0]), Activated(r, zs[0])) + Transitions(zs[1..], s, r)
  }

  /** Two states agree on every listed zone's flag exactly when they
      agree on all four. */
  lemma SameFlags(s: State, r: State)
    ensures (forall z :: z in CallbackOrder ==> Activated(s, z) == Activated(r, z)) <==>
            && s.leftActionActivated == r.leftActionActivated
            && s.rightActionActivated == r.rightActionActivated
            && s.leftButtonsActivated == r.leftButtonsActivated
            && s.rightButtonsActivated == r.rightButtonsActivated
  {
    assert LeftAction in CallbackOrder && RightAction in CallbackOrder;
    assert LeftButtons in CallbackOrder && RightButtons in CallbackOrder;
    if && s.leftActionActivated == r.leftActionActivated
       && s.rightActionActivated == r.rightActionActivated
       && s.leftButtonsActivated == r.leftButtonsActivated
       && s.rightButtonsActivated == r.rightButtonsActivated {
      forall z ensures Activated(s, z) == Activated(r, z) {
        match z
        case LeftAction =>
        case RightAction =>
        case LeftButtons =>
        case RightButtons =>
      }
    }
  }

  /** The callbacks of one drag sample: onSwipeMove, then each zone's
      transition in the order left action, right action, left buttons,
      right buttons. Only onSwipeMove fires exactly when no flag changed. */
  function MoveEvents(s: State, r: State): (evs: seq<Event>)
    ensures 1 <= |evs| <= 5 && evs[0] == SwipeMove
    ensures evs == [SwipeMove] <==>
              && s.leftActionActivated == r.leftActionActivated
              && s.rightActionActivated == r.rightActionActivated
              && s.leftButtonsActivated == r.leftButtonsActivated
              && s.rightButtonsActivated == r.rightButtonsActivated
  {
    assert CallbackOrder[0] == LeftAction && CallbackOrder[1] == RightAction;
    assert CallbackOrder[2] == LeftButtons && CallbackOrder[3] == RightButtons;
    var t := Transitions(CallbackOrder, s, r);
    assert |[SwipeMove] + t| == 1 + |t|;
    SameFlags(s, r);
    [SwipeMove] + t
  }

  /** One sample's callbacks written out: onSwipeMove, then the left
      action's, the right action's, the left tray's and the right tray's
      transitions. */
  lemma MoveEventsInOrder(s: State, r: State)
    ensures MoveEvents(s, r)
            == [SwipeMove]
               + Transition(LeftAction, s.leftActionActivated, r.leftActionActivated)
               + Transition(RightAction, s.rightActionActivated, r.rightActionActivated)
               + Transition(LeftButtons, s.leftButtonsActivated, r.leftButtonsActivated)
               + Transition(RightButtons, s.rightButtonsActivated, r.rightButtonsActivated)
  {
    var t1 := Transition(LeftAction, s.leftActionActivated, r.leftActionActivated);
    var t2 := Transition(RightAction, s.rightActionActivated, r.rightActionActivated);
    var t3 := Transition(LeftButtons, s.leftButtonsActivated, r.leftButtonsActivated);
    var t4 := Transition(RightButtons, s.rightButtonsActivated, r.rightButtonsActivated);
    TransitionsInOrder(s, r);
    assert TrayTransitions(s, r) == t3 + t4;
    AppendAssoc([SwipeMove], t1, t2 + (t3 + t4));
    AppendAssoc([SwipeMove] + t1, t2, t3 + t4);
    AppendAssoc([SwipeMove] + t1 + t2, t3, t4);
  }

  lemma TransitionsInOrder(s: State, r: State)
    ensures Transitions(CallbackOrder, s, r)
            == Transition(LeftAction, s.leftActionActivated, r.leftActionActivated)
               + (Transition(RightAction, s.rightActionActivated, r.rightActionActivated)
                  + TrayTransitions(s, r))
  {
    assert CallbackOrder[1..] == [RightAction, LeftButtons, RightButtons];
    assert CallbackOrder[1..][1..] == [LeftButtons, RightButtons];
    TrayTransitionsInOrder(s, r);
  }

  /** The two trays' transitions, left first. */
  function TrayTransitions(s: State, r: State): seq<Event> {
    Transition(LeftButtons, s.leftButtonsActivated, r.leftButtonsActivated)
    + Transition(RightButtons, s.rightButtonsActivated, r.rightButtonsActivated)
  }

  lemma TrayTransitionsInOrder(s: State, r: State)
    ensures Transitions([LeftButtons, RightButtons], s, r) == TrayTransitions(s, r)
  {
    assert [LeftButtons, RightButtons][1..] == [RightButtons];
    assert [RightButtons][1..] == [];
  }

  lemma AppendAssoc(a: seq<Event>, b: seq<Event>, c: seq<Event>)
    ensures a + (b + c) == a + b + c
  {
  }

  /** The two action zones claim disjoint ranges of positions. */
  predicate ActionRangesDisjoint(p: Props) {
    -p.rightActionActivationDistance < p.leftActionActivationDistance
  }

  /** After a sample with both sides swipeable and disjoint action ranges,
      at most one action is active. */
  lemma ActionsExclusiveAfterSample(p: Props, s: State, x: real, vx: real)
    requires ActionRangesDisjoint(p) && CanSwipeRight(p) && CanSwipeLeft(p)
    ensures var r := Activation(p, s, x, vx); !(r.leftActionActivated && r.rightActionActivated)
  {
  }

  /** Delivering the same sample twice changes nothing the second time. */
  lemma ActivationIdempotent(p: Props, s: State, x: real, vx: real)
    ensures Activation(p, Activation(p, s, x, vx), x, vx) == Activation(p, s, x, vx)
  {
  }

  /** A zero velocity never closes a tray that is open. */
  lemma ZeroVelocityKeepsTrays(p: Props, s: State, x: real)
    ensures var r := Activation(p, s, x, 0.0);
            (s.leftButtonsActivated ==> r.leftButtonsActivated)
            && (s.rightButtonsActivated ==> r.rightButtonsActivated)
  {
  }
}
