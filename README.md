# Swipeable gesture state machine in Dafny

This project models the gesture logic of `Swipeable`, a horizontally
swipeable list row for React Native. The row can reveal four zones:

- a left action and a right action, which are content revealed by dragging
  far enough;
- a left button tray and a right button tray, which open to the width of
  their buttons.

The model covers:

- the start gate, which decides whether a horizontal move claims the
  gesture;
- the per-sample zone activation of the move handler;
- the zone-presence predicates;
- the two release cascades, which choose the settle animation driver and
  its config;
- the end-of-gesture handler, with its release callbacks, its state commit
  and its completion closure;
- the reset operations `recenter`, `bounceLeft` and `bounceRight`.

Callbacks are events appended to a trace. Animation drivers are names and
are never run. An animation config is a record of optional fields.

Layout:

- `types.dfy` (`SwipeTypes`): props, state, zones and events.
- `gate.dfy` (`StartGate`): the start gate.
- `zones.dfy` (`Zones`): zone presence, one sample's flag update, and the
  order of its callbacks.
- `release.dfy` (`ReleasePolicy`): the two first-match release cascades.
- `lifecycle.dfy` (`Lifecycle`): each handler as a function of props and
  state, whole gestures (`Run`), and the properties that hold across them.
- `swipeable.dfy` (`Component`): the component as a class. Its state is
  updated in place, and each handler is proved against its `Lifecycle`
  function.
- `scenarios.dfy` (`Scenarios`): concrete gestures worked through.

## Behaviour a reader might not expect

- **Tray flags at release.** A reader might expect the tray *activated*
  flags to reset when a gesture ends, as the action flags do. The end
  handler (src/index.js:358-367) writes only the offset, the two action
  flags and the two *open* flags, so the activated flags keep their
  values. `Lifecycle.EndStep` states this.
- **Cascade order.** The driver cascade checks left-close before
  right-open (src/index.js:458-467). The config cascade checks both opens
  before either close (src/index.js:506-539). `ReleasePolicy.CascadesDisagree`
  shows a state where the driver and the config come from different slots.
- **Zero velocity.** A reader might expect a sample with no velocity to
  count as moving back and close an open tray. In the code, a tray is
  deactivated only by `vx < 0` on the left or `vx > 0` on the right
  (src/index.js:232-233, 281, 294), so `vx = 0` never closes an active
  tray. `Zones.ZeroVelocityKeepsTrays` states this.
- **Errors.** The handlers have no error handling of their own, and a
  reader might expect them never to fail. The code can throw a TypeError
  in two places:
  - reading `leftButtons.length` when the tray is active but the buttons
    prop is null (src/index.js:510, 520). `bounceLeft` reaches this with
    left content only. Nothing has fired yet when it throws;
  - reading `toValue.x` from a chosen override config that has no
    `toValue` (src/index.js:360). The release callbacks have already fired
    when it throws, and the state has not been written.

  Both are modelled as `EndOutcome.Threw`.
- **Overrides used as given.** Only the open-tray configs are merged over
  the default release config (src/index.js:506-525). The action and
  close override configs are used exactly as given, with no merge
  (src/index.js:500-504, 526-538). A reader might expect every override to
  be merged. Because they are not, an action or close override without
  `toValue` makes the end handler throw (src/index.js:360).
- **Routing.** Release, termination and termination-request all route to
  the same end handler (src/index.js:408-410). The model has one `End`
  input for all three.

## Model

| member | source | states |
|---|---|---|
| StartGate.ShouldStartSwipe | src/index.js:174-189 | The gate accepts only when the travel exceeds the minimum distance in either direction. A set left or right edge clearance rejects every start (moveX - dx) closer to that edge. With both clearances off, only the distance counts. A far-enough start is accepted when it clears every clearance that is set, so with a clearance off that edge imposes nothing, even on a start off screen. |
| StartGate.GateIgnoresDisable | src/index.js:174-189 | The gate gives the same answer whether or not `disable` is set. |
| StartGate.NearLeftEdgeRejected | src/index.js:180-184 | A start 5 units from the left edge never passes a left clearance of 20, whatever the travel. |
| Zones.HasLeftButtons | src/index.js:421-424 | Left content hides the left buttons, and a null or empty left button array has none. |
| Zones.HasRightButtons | src/index.js:426-429 | The mirror image for the right side. |
| Zones.CanSwipeRight | src/index.js:413-424 | The row can be swiped right exactly when it has left content or a non-empty left button array. It has left buttons exactly when it can be swiped right and has no left content. |
| Zones.CanSwipeLeft | src/index.js:417-429 | The mirror image for the right side. |
| Zones.Activation | src/index.js:226-297 | One sample at x = dx + lastOffset.x: <br>• each action flag equals "position reached" when its side is swipeable, and is otherwise unchanged; <br>• an active tray stays active exactly when not moving back; <br>• an inactive tray activates exactly when not moving back and reached; <br>• a tray that is not present is unchanged; <br>• the offset and the open flags are untouched. |
| Zones.ActionFlag | src/index.js:240-271 | The two action rules together: a swipeable zone's flag follows the position, and a non-swipeable zone's flag stays. |
| Zones.TrayFlag | src/index.js:272-297 | The two tray rules together, for each case of present, active and moving back. |
| Zones.Transition | src/index.js:240-297 | A zone fires at most one callback per sample: activate exactly when its flag turns on, deactivate exactly when it turns off, and nothing exactly when it stays. |
| Zones.Transitions | src/index.js:240-297 | The listed zones fire nothing exactly when none of their flags changed, and they fire no more callbacks than there are zones. |
| Zones.SameFlags | src/index.js:298-302 | Agreement on every zone in callback order is agreement on all four flags, the condition that `needsUpdate` negates. |
| Zones.MoveEvents | src/index.js:239-297 | A sample fires onSwipeMove first, then zero to four zone callbacks. Only onSwipeMove fires exactly when no flag changed. |
| Zones.MoveEventsInOrder | src/index.js:239-297 | A sample's callbacks are onSwipeMove, then the left action's, the right action's, the left tray's and the right tray's transitions, in that order. |
| Zones.TransitionsInOrder | src/index.js:240-297 | The transitions over the callback order split into the left action's, the right action's and the trays'. |
| Zones.TrayTransitionsInOrder | src/index.js:272-297 | The trays' transitions are the left tray's, then the right tray's. |
| Zones.ActionsExclusiveAfterSample | src/index.js:240-271 | With both sides swipeable and disjoint action ranges, no sample leaves both actions active. |
| Zones.ActivationIdempotent | src/index.js:219-297 | Applying the same sample a second time changes no flag. |
| Zones.ZeroVelocityKeepsTrays | src/index.js:281-296 | From any state, a sample with vx = 0 never deactivates an active tray. |
| ReleasePolicy.FirstMatch | src/index.js:449-475 | First-match selection: when no guard holds, the result is the fallback. When rule i is the first whose guard holds, the result is rule i's choice. |
| ReleasePolicy.Spread | src/index.js:507-514 | Object spread of an override config: each field the override has wins, every other field keeps the base value, and a null override changes nothing. |
| ReleasePolicy.TrayOpenConfig | src/index.js:506-525 | The open-tray config: <br>• it throws exactly when the buttons array is null; <br>• its target is the tray's width unless the override sets its own `toValue`, which then wins; <br>• every other field (duration, easing, native driver) is the override's when it sets one, and the default release config's otherwise. |
| ReleasePolicy.ReleaseAnimationFn | src/index.js:431-476 | An active left action with a driver override uses that driver. At rest, the default swipe release driver is used. |
| ReleasePolicy.ReleaseAnimationConfig | src/index.js:478-541 | The only failure is the TypeError of an active tray whose buttons array is null. |
| ReleasePolicy.ReleaseFnFollowsRules | src/index.js:449-475 | The driver is the first match over: left action, right action, left open, left close, right open, right close, then the default. |
| ReleasePolicy.ReleaseConfigFollowsRules | src/index.js:500-540 | The config is the first match over: left action, right action, left open, right open, left close, right close, then the default. |
| ReleasePolicy.LeftTrayOpenTarget | src/index.js:506-515 | With the left tray active and no action override in the way, the settle target is (buttons x width, 0) unless the open override sets its own target. |
| ReleasePolicy.RightTrayOpenTarget | src/index.js:516-525 | With the right tray active, the left one not, no action override in the way and no `toValue` in the open override, the settle target is (-(buttons x width), 0). |
| ReleasePolicy.RestingReleaseIsDefault | src/index.js:431-541 | At rest, both cascades return the default swipe release driver and config. |
| ReleasePolicy.CascadesDisagree | src/index.js:449-540 | With the left tray closing and the right tray opening, the driver comes from the left-close slot while the config comes from the right-open slot. |
| Lifecycle.StartStep | src/index.js:191-198 | The start handler fires onSwipeStart unless disabled, and never changes state. |
| Lifecycle.MoveStep | src/index.js:200-311 | When disabled, the move handler changes nothing and fires nothing. Otherwise it fires onSwipeMove first and at most four zone callbacks. It never touches the offset or the open flags. |
| Lifecycle.ReleaseEvents | src/index.js:339-357 | The release callbacks begin with onSwipeRelease. |
| Lifecycle.CompletionEvents | src/index.js:369-400 | The completion callbacks begin with onSwipeComplete. |
| Lifecycle.ReleaseEventsFire | src/index.js:339-357 | From the pre-release state: <br>• an action's release fires exactly when that action is active; <br>• a tray's open release fires exactly when the tray is active and was closed; <br>• its close release fires exactly when it was open and is inactive; <br>• no activation or deactivation fires. |
| Lifecycle.TrayReleasesFire | src/index.js:346-357 | The trays' open and close releases fire under exactly those conditions, and nothing else fires. |
| Lifecycle.CompletionEventsFire | src/index.js:379-399 | The completion fires under the same conditions as the release, read from the same snapshot. Each active action's completion is immediately followed by its deactivation: the left pair right after onSwipeComplete, the right pair after that. |
| Lifecycle.ActionCompletionsPaired | src/index.js:379-387 | Each active action's complete-then-deactivate pair sits at its place in the completion: the left pair at positions 1 and 2, the right pair next. |
| Lifecycle.TrayCompletionsFire | src/index.js:388-399 | The trays' open and close completions fire exactly when the matching release did. |
| Lifecycle.EndStep | src/index.js:313-367 | The end handler: <br>• it is ignored exactly when disabled, and then nothing happens; <br>• a null buttons array (the config cascade's only failure) throws before any callback; <br>• a throw leaves the state as it was; <br>• otherwise it settles exactly when the chosen config has a `toValue`, and then it fires the release callbacks and commits the chosen target as the offset, both actions off, each tray's open flag set to its active flag and the active flags kept; <br>• it starts the cascades' driver and config on the pre-release snapshot. |
| Lifecycle.Run | src/index.js:403-411 | A whole sequence of gesture inputs on a disabled row changes nothing and fires nothing. |
| Lifecycle.MoveEventsFlip | src/index.js:240-297 | One sample's callbacks take each zone's flag from its old value to its new value, one flip per activate or deactivate. |
| Lifecycle.TransitionsFlip | src/index.js:240-297 | The transitions of distinct zones flip each listed zone from old to new, and leave an unlisted zone alone. |
| Lifecycle.CompletionFlips | src/index.js:379-387 | The completion deactivates each action that was active, matching the action flags the release commits, and flips no tray. |
| Lifecycle.ActionCompletionFlips | src/index.js:380-387 | An action's complete-then-deactivate pair turns only that action's flag off. |
| Lifecycle.ReleaseEventsQuiet | src/index.js:339-357 | The release callbacks activate and deactivate nothing. |
| Lifecycle.TrayCompletionsQuiet | src/index.js:388-399 | The trays' completions activate and deactivate nothing. |
| Lifecycle.ApplyFlips | src/index.js:191-400 | When a settle completes before the next input: every handler's callbacks, the completion included, take each zone's flag from before to after by alternating activations and deactivations. |
| Lifecycle.RunFlips | src/index.js:191-400 | Over any sequence of gesture inputs, with each settle completing before the next input, each zone's activate and deactivate callbacks alternate, beginning from its flag before and ending at its flag after. |
| Lifecycle.ApplyKeepsActionsConsistent | src/index.js:240-367 | With disjoint action ranges, every handler keeps "at most one action active, and none on a side that cannot be swiped". |
| Lifecycle.RunKeepsActionsConsistent | src/index.js:240-367 | The same holds over any sequence of gesture inputs. |
| Lifecycle.MoveFiresIffChanged | src/index.js:298-310 | A sample fires a zone callback exactly when it writes the state. |
| Lifecycle.MoveRedeliveryQuiet | src/index.js:219-310 | Re-delivering the same sample fires only onSwipeMove and changes nothing. |
| Component.BounceConfig | src/index.js:155-159 | A bounce runs the default release timing, aimed at the bounce target. |
| Component.ActionRule | src/index.js:240-255 | One action's pair of rules yields the action flag rule's new flag and the transition callback between the old and new flags. |
| Component.TrayRule | src/index.js:272-284 | One tray's pair of rules yields the tray flag rule's new flag and its transition callback. |
| Component.MoveRules | src/index.js:226-297 | Running the eight rules in order on the pre-sample flags yields the flags and callbacks that one sample specifies. |
| Component.ReleaseCallbacks | src/index.js:339-357 | Firing the release callbacks in sequence yields exactly the specified release callbacks. |
| Component.TrayReleaseCallbacks | src/index.js:346-357 | The trays' part of the release callbacks. |
| Component.CompletionCallbacks | src/index.js:379-399 | The completion closure fires exactly the specified completion callbacks. |
| Component.TrayCompletionCallbacks | src/index.js:388-399 | The trays' part of the completion callbacks. |
| Component.Swipeable.constructor | src/index.js:83-93 | A new row is at rest: offset at the origin and every flag off. Nothing has fired. |
| Component.Swipeable.Recenter | src/index.js:110-127 | recenter commits the rest state and animates with the given driver and config, or the swipe release ones by default. It fires nothing. |
| Component.Swipeable.BounceRight | src/index.js:129-138 | When the row can be swiped left, bounceRight sets the three right flags, writes the state once and bounces to x = -50. Otherwise it does nothing. |
| Component.Swipeable.BounceLeft | src/index.js:140-149 | When the row can be swiped right, bounceLeft sets the three left flags, writes the state once and bounces to x = 50. Otherwise it does nothing. |
| Component.Swipeable.BounceDone | src/index.js:160-166 | The end of a bounce is a recenter with the swipe release driver and config, back to the rest state. |
| Component.Swipeable.Start | src/index.js:191-198 | The start handler appends the start step's callbacks to the trace. |
| Component.Swipeable.Move | src/index.js:200-311 | The move handler's new state and trace are those one sample specifies. The state is written once exactly when it changes, and not at all otherwise. |
| Component.Swipeable.End | src/index.js:313-368 | The end handler's outcome, state and trace are those of the end step. The state is written once exactly when a settle starts. |
| Component.Swipeable.Settled | src/index.js:369-400 | The settle's completion appends the completion callbacks of the pre-release snapshot. |
| Scenarios.LeftActionActivates | src/index.js:240-247 | With left content and the default distance of 125, a sample at 130 from rest activates the left action and fires its activation. |
| Scenarios.LeftActionStaysActive | src/index.js:240-255 | A further sample past the distance fires only onSwipeMove. |
| Scenarios.LeftTrayActivates | src/index.js:272-280 | A sample at 100 from rest activates a two-button left tray, whose distance is 75, without reaching the left action. |
| Scenarios.LeftTrayOpens | src/index.js:313-367 | Releasing that tray fires its open release, settles at x = 150 and commits it as open. |
| Scenarios.LeftTrayOpenCompletes | src/index.js:388-390 | Its completion fires the open completion. |
| Scenarios.LeftTrayDeactivates | src/index.js:281-284 | Dragging the open tray back to x = 50 while moving left deactivates it. |
| Scenarios.LeftTrayCloses | src/index.js:349-367 | Releasing it fires the close release, settles to the origin with the default config, and returns to the rest state. |

## Left out

- Rendering (`render`, `renderButtons`) and button layout are not modelled.
  They are view code.
- The animation engine is not modelled: `Animated.ValueXY`,
  `Animated.event`, `setOffset`, `flattenOffset` and running a driver. A
  driver is a name and a config is a record. The model chooses them but
  never runs them. Easing, duration and the native-driver flag are opaque
  fields.
- The model does not capture a `toValue` property that is present but
  explicitly `undefined`. Object spread of such a property overwrites the
  target with `undefined`. The model treats a missing field and an
  `undefined` one alike.
- The mount-time bounce (`componentDidMount`, a 700 ms `setTimeout`),
  `onRef` and `onPanAnimatedValueRef` are host-framework hooks and timing,
  so they are left out. `bounceRight` chaining into `bounceLeft` through
  `onDone` is not modelled; each bounce and its closing recenter is.
- The window width is a parameter of the start gate rather than a
  platform query.
- The PanResponder wiring is not modelled beyond noting that release,
  termination and termination-request share the end handler.
- React's `setState` is modelled as an immediate merge at the point where
  it is called. Asynchrony and batching are not modelled.
- Callbacks are events in a trace. The user's callback code never runs, so
  it cannot re-enter the component.
- Positions and velocities are mathematical reals. Floating-point rounding
  is not modelled.
- Props are fixed for the life of the component. Changing props between
  gestures is not modelled.
- Lifecycle.Run: a release that starts a settle runs its completion
  immediately. A completion that arrives after later gesture inputs is
  modelled only by the class, where `Settled` can be called at any point.
- Lifecycle.RunKeepsActionsConsistent: the invariant is proved over
  gesture inputs only. `bounceLeft` followed by `bounceRight`, both before
  the first bounce's recenter, leaves both actions active
  (src/index.js:131-135, 142-146).
- Lifecycle.RunFlips: alternation of activations and deactivations is not
  claimed when a completion arrives after later samples. A new gesture can
  begin during the 250 ms settle. With left content, an active left action
  released and then dragged to 130 before the settle finishes fires its
  activation again. The late completion then fires its deactivation while
  the flag stays on. Alternation also stops at a `recenter`, `bounceLeft` or
  `bounceRight`, which set or clear flags without firing any activation or
  deactivation.
- Lifecycle.EndStep: the TypeError of a missing `toValue` is reported as
  an outcome after the release callbacks. Nothing after the throw runs, as
  in the source. The JavaScript exception itself is not modelled.
