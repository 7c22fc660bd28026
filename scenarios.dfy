/** Concrete gestures worked through the model: a left action reached
    once, a two-button left tray opened and then closed again. */
module Scenarios {
  import opened SwipeTypes
  import opened Zones
  import opened ReleasePolicy
  import opened Lifecycle

  /** Props with left content only, everything else at its default. */
  const LeftContentProps := DefaultProps.(leftContent := true)

  /** Props with a left tray of two buttons, everything else at its default. */
  const TwoLeftButtonsProps := DefaultProps.(leftButtons := Some(2))

  /** The state after the tray of TwoLeftButtonsProps has opened and
      settled at x = 150. */
  const LeftTrayOpenState := InitialState.(lastOffset := Point(150.0, 0.0), leftButtonsActivated := true,
                                           leftButtonsOpen := true)

  /** With the default left action distance of 125, a sample at 130 from
      rest activates the left action, firing its activation once. */
  lemma LeftActionActivates()
    ensures MoveStep(LeftContentProps, InitialState, 130.0, 1.0)
            == Step(InitialState.(leftActionActivated := true), [SwipeMove, On(LeftAction, Activate)])
  {
    var s, n := InitialState, InitialState.(leftActionActivated := true);
    assert Activation(LeftContentProps, s, 130.0, 1.0) == n;
    MoveEventsInOrder(s, n);
    assert MoveEvents(s, n) == [SwipeMove] + [On(LeftAction, Activate)] + [] + [] + [];
  }

  /** A further sample past the distance fires only onSwipeMove: the
      activation does not fire a second time. */
  lemma LeftActionStaysActive()
    ensures var s := InitialState.(leftActionActivated := true);
            MoveStep(LeftContentProps, s, 140.0, 1.0) == Step(s, [SwipeMove])
  {
    var s := InitialState.(leftActionActivated := true);
    assert Activation(LeftContentProps, s, 140.0, 1.0) == s;
  }

  /** A sample at 100 from rest activates the left tray of two buttons
      (its distance is 75) but not the left action (125). */
  lemma LeftTrayActivates()
    ensures MoveStep(TwoLeftButtonsProps, InitialState, 100.0, 1.0)
            == Step(InitialState.(leftButtonsActivated := true), [SwipeMove, On(LeftButtons, Activate)])
  {
    var s, n := InitialState, InitialState.(leftButtonsActivated := true);
    assert Activation(TwoLeftButtonsProps, s, 100.0, 1.0) == n;
    MoveEventsInOrder(s, n);
    assert MoveEvents(s, n) == [SwipeMove] + [] + [] + [On(LeftButtons, Activate)] + [];
  }

  /** Releasing the active, not yet open tray of two 75-wide buttons fires
      its open release and settles at x = 150 with the tray committed as
      open. */
  lemma LeftTrayOpens()
    ensures var r := EndStep(TwoLeftButtonsProps, InitialState.(leftButtonsActivated := true));
            && r.outcome.Settling?
            && r.outcome.settle.config.toValue == Some(Point(150.0, 0.0))
            && r.step == Step(LeftTrayOpenState, [SwipeRelease, On(LeftButtons, OpenRelease)])
  {
    var p, s := TwoLeftButtonsProps, InitialState.(leftButtonsActivated := true);
    LeftTrayOpenTarget(p, s);
    assert ReleaseEvents(s) == [SwipeRelease] + [] + [] + TrayReleases(s);
    assert TrayReleases(s) == [On(LeftButtons, OpenRelease)] + [] + [] + [];
  }

  /** Its completion fires the open completion. */
  lemma LeftTrayOpenCompletes()
    ensures CompletionEvents(InitialState.(leftButtonsActivated := true))
            == [SwipeComplete, On(LeftButtons, OpenComplete)]
  {
    var s := InitialState.(leftButtonsActivated := true);
    assert CompletionEvents(s) == [SwipeComplete] + [] + [] + TrayCompletions(s);
    assert TrayCompletions(s) == [On(LeftButtons, OpenComplete)] + [] + [] + [];
  }

  /** Dragging the open tray back left (to x = 50, moving left)
      deactivates it. */
  lemma LeftTrayDeactivates()
    ensures MoveStep(TwoLeftButtonsProps, LeftTrayOpenState, -100.0, -1.0)
            == Step(LeftTrayOpenState.(leftButtonsActivated := false), [SwipeMove, On(LeftButtons, Deactivate)])
  {
    var s, n := LeftTrayOpenState, LeftTrayOpenState.(leftButtonsActivated := false);
    assert Activation(TwoLeftButtonsProps, s, 50.0, -1.0) == n;
    MoveEventsInOrder(s, n);
    assert MoveEvents(s, n) == [SwipeMove] + [] + [] + [On(LeftButtons, Deactivate)] + [];
  }

  /** Releasing it then fires the close release, runs the default config
      (no close override is set) to the origin, and commits the tray as
      closed: the rest state again. */
  lemma LeftTrayCloses()
    ensures var r := EndStep(TwoLeftButtonsProps, LeftTrayOpenState.(leftButtonsActivated := false));
            && r.outcome.Settling?
            && r.outcome.settle.config == DefaultReleaseConfig
            && r.step == Step(InitialState, [SwipeRelease, On(LeftButtons, CloseRelease)])
  {
    var p, s := TwoLeftButtonsProps, LeftTrayOpenState.(leftButtonsActivated := false);
    ReleaseConfigFollowsRules(p, s);
    assert ReleaseAnimationConfig(p, s) == Ok(DefaultReleaseConfig);
    assert ReleaseEvents(s) == [SwipeRelease] + [] + [] + TrayReleases(s);
    assert TrayReleases(s) == [] + [On(LeftButtons, CloseRelease)] + [] + [];
  }
}
