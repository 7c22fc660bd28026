/** Values shared by the model of the Swipeable component: geometry, the
    component's props, its committed state and the lifecycle callbacks it
    invokes. */
module SwipeTypes {

  datatype Option<+T> = None | Some(value: T) {
    /** The value, or `default` when there is none. */
    function GetOr(default: T): T {
      match this
      case Some(v) => v
      case None => default
    }
  }

  datatype Result<+T, +E> = Ok(value: T) | Err(error: E)

  /** A 2-D offset in layout units. */
  datatype Point = Point(x: real, y: real)

  const Origin := Point(0.0, 0.0)

  /** An animation driver such as Animated.timing, known by its name: the
      model chooses one, it never runs it. */
  type AnimFn = string

  /** An animation config object. A field is None when the object has no
      such property. */
  datatype AnimConfig = AnimConfig(
    toValue: Option<Point>,
    duration: Option<real>,
    easing: Option<string>,
    useNativeDriver: Option<bool>)

  /** The pair of props that override the release animation for one
      lifecycle slot; each is None when the prop is null. */
  datatype ReleaseOverride = ReleaseOverride(fn: Option<AnimFn>, config: Option<AnimConfig>)

  const NoOverride := ReleaseOverride(None, None)

  /** The props the gesture logic reads. `leftContent` and `rightContent`
      say whether that content is present (truthy); `leftButtons` and
      `rightButtons` are null (None) or an array of that many buttons. */
  datatype Props = Props(
    leftContent: bool,
    rightContent: bool,
    leftButtons: Option<nat>,
    rightButtons: Option<nat>,
    leftActionActivationDistance: real,
    rightActionActivationDistance: real,
    leftButtonsActivationDistance: real,
    rightButtonsActivationDistance: real,
    leftButtonWidth: real,
    rightButtonWidth: real,
    leftActionRelease: ReleaseOverride,
    rightActionRelease: ReleaseOverride,
    leftButtonsOpenRelease: ReleaseOverride,
    leftButtonsCloseRelease: ReleaseOverride,
    rightButtonsOpenRelease: ReleaseOverride,
    rightButtonsCloseRelease: ReleaseOverride,
    swipeReleaseAnimationFn: AnimFn,
    swipeReleaseAnimationConfig: AnimConfig,
    swipeStartMinDistance: real,
    swipeStartMinLeftEdgeClearance: real,
    swipeStartMinRightEdgeClearance: real,
    disable: bool)

  /** The default swipe release config: back to the origin in 250 ms on an
      elastic curve, on the native driver. */
  const DefaultReleaseConfig := AnimConfig(Some(Origin), Some(250.0), Some("Easing.elastic(0.5)"), Some(true))

  /** The component's default props. */
  const DefaultProps := Props(
    false, false, None, None,
    125.0, 125.0, 75.0, 75.0,
    75.0, 75.0,
    NoOverride, NoOverride, NoOverride, NoOverride, NoOverride, NoOverride,
    "Animated.timing", DefaultReleaseConfig,
    15.0, 0.0, 0.0,
    false)

  /** The component state the gesture logic reads and writes: the committed
      offset, the four activation flags and the two persisted tray flags. */
  datatype State = State(
    lastOffset: Point,
    leftActionActivated: bool,
    leftButtonsActivated: bool,
    leftButtonsOpen: bool,
    rightActionActivated: bool,
    rightButtonsActivated: bool,
    rightButtonsOpen: bool)

  /** The state at mount, and after every recenter. */
  const InitialState := State(Origin, false, false, false, false, false, false)

  /** The four reveal zones. */
  datatype Zone = LeftAction | RightAction | LeftButtons | RightButtons

  /** The lifecycle step a zone callback reports. Action zones use Release
      and Complete; button trays use the Open and Close variants. */
  datatype Kind =
    | Activate | Deactivate
    | Release | Complete
    | OpenRelease | OpenComplete
    | CloseRelease | CloseComplete

  /** The lifecycle callback props: onSwipeStart, onSwipeMove,
      onSwipeRelease, onSwipeComplete, and one per zone and kind
      (`onLeftButtonsOpenRelease` is `On(LeftButtons, OpenRelease)`). */
  datatype Event = SwipeStart | SwipeMove | SwipeRelease | SwipeComplete | On(zone: Zone, kind: Kind)

  /** The TypeErrors the end-of-gesture handler can throw: reading `length`
      of a null buttons array, and reading `x` of a missing `toValue`. */
  datatype EndError = ButtonsMissing | ToValueMissing
}
