/** The release policy: which animation driver and which config settle the
    surface when a gesture ends, chosen first-match from the state at
    release. */
module ReleasePolicy {
  import opened SwipeTypes

  /** First-match over an ordered list of (guard, choice) rules: the choice
      of the first rule whose guard holds, or `fallback` when none does. */
  function FirstMatch<T>(rules: seq<(bool, T)>, fallback: T): (r: T)
    ensures (forall i :: 0 <= i < |rules| ==> !rules[i].0) ==> r == fallback
    ensures forall i :: 0 <= i < |rules| && rules[i].0 && (forall j :: 0 <= j < i ==> !rules[j].0) ==> r == rules[i].1
  {
    if rules == [] then fallback
    else if rules[0].0 then rules[0].1
    else FirstMatch(rules[1..], fallback)
  }

  /** Object spread of an optional override over a base config: a field the
      override has wins, every other field keeps the base's value; spreading
      null changes nothing. */
  function Spread(base: AnimConfig, over: Option<AnimConfig>): (r: AnimConfig)
    ensures over.None? ==> r == base
    ensures over.Some? ==> r.toValue == (if over.value.toValue.Some? then over.value.toValue else base.toValue)
    ensures over.Some? ==> r.duration == (if over.value.duration.Some? then over.value.duration else base.duration)
    ensures over.Some? ==> r.easing == (if over.value.easing.Some? then over.value.easing else base.easing)
    ensures over.Some? ==> r.useNativeDriver
                           == (if over.value.useNativeDriver.Some? then over.value.useNativeDriver else base.useNativeDriver)
  {
    match over
    case None => base
    case Some(o) =>
      AnimConfig(
        if o.toValue.Some? then o.toValue else base.toValue,
        if o.duration.Some? then o.duration else base.duration,
        if o.easing.Some? then o.easing else base.easing,
        if o.useNativeDriver.Some? then o.useNativeDriver else base.useNativeDriver)
  }

  /** The target of an open tray: its total width, to the right of the
      origin for the left tray and to the left of it for the right tray. */
  function TrayTarget(count: nat, width: real, onRight: bool): Point {
    var span := count as real * width;
    Point(if onRight then -span else span, 0.0)
  }

  /** The config that opens a tray: the default release config, moved to
      the tray's target, with the open override spread on top. A null
      buttons array makes reading its length throw. */
  function TrayOpenConfig(buttons: Option<nat>, width: real, onRight: bool,
                          over: Option<AnimConfig>, base: AnimConfig): (r: Result<AnimConfig, EndError>)
    ensures r.Err? <==> buttons.None?
    ensures r.Err? ==> r.error == ButtonsMissing
    ensures r.Ok? && (over.None? || over.value.toValue.None?) ==>
              r.value.toValue == Some(TrayTarget(buttons.value, width, onRight))
    ensures r.Ok? && over.Some? && over.value.toValue.Some? ==> r.value.toValue == over.value.toValue
    // every other field: the override's when it has one, else the default's
    ensures r.Ok? ==> r.value.duration == (if over.Some? && over.value.duration.Some? then over.value.duration else base.duration)
    ensures r.Ok? ==> r.value.easing == (if over.Some? && over.value.easing.Some? then over.value.easing else base.easing)
    ensures r.Ok? ==> r.value.useNativeDriver
                      == (if over.Some? && over.value.useNativeDriver.Some? then over.value.useNativeDriver
                          else base.useNativeDriver)
  {
    match buttons
    case None => Err(ButtonsMissing)
    case Some(n) => Ok(Spread(base.(toValue := Some(TrayTarget(n, width, onRight))), over))
  }

  /** getReleaseAnimationFn: the driver that settles the surface. */
  function ReleaseAnimationFn(p: Props, s: State): (r: AnimFn)
    ensures s.leftActionActivated && p.leftActionRelease.fn.Some? ==> r == p.leftActionRelease.fn.value
    ensures (!s.leftActionActivated && !s.rightActionActivated && !s.leftButtonsActivated && !s.rightButtonsActivated
             && !s.leftButtonsOpen && !s.rightButtonsOpen) ==> r == p.swipeReleaseAnimationFn
  {
    if s.leftActionActivated && p.leftActionRelease.fn.Some? then p.leftActionRelease.fn.value
    else if s.rightActionActivated && p.rightActionRelease.fn.Some? then p.rightActionRelease.fn.value
    else if s.leftButtonsActivated && p.leftButtonsOpenRelease.fn.Some? then p.leftButtonsOpenRelease.fn.value
    else if !s.leftButtonsActivated && s.leftButtonsOpen && p.leftButtonsCloseRelease.fn.Some? then
      p.leftButtonsCloseRelease.fn.value
    else if s.rightButtonsActivated && p.rightButtonsOpenRelease.fn.Some? then p.rightButtonsOpenRelease.fn.value
    else if !s.rightButtonsActivated && s.rightButtonsOpen && p.rightButtonsCloseRelease.fn.Some? then
      p.rightButtonsCloseRelease.fn.value
    else p.swipeReleaseAnimationFn
  }

  /** The driver rules in priority order: left action, right action, left
      open, left close, right open, right close. */
  function FnRules(p: Props, s: State): (rules: seq<(bool, AnimFn)>) {
    var d := p.swipeReleaseAnimationFn;
    [ (s.leftActionActivated && p.leftActionRelease.fn.Some?, p.leftActionRelease.fn.GetOr(d)),
      (s.rightActionActivated && p.rightActionRelease.fn.Some?, p.rightActionRelease.fn.GetOr(d)),
      (s.leftButtonsActivated && p.leftButtonsOpenRelease.fn.Some?, p.leftButtonsOpenRelease.fn.GetOr(d)),
      (!s.leftButtonsActivated && s.leftButtonsOpen && p.leftButtonsCloseRelease.fn.Some?,
       p.leftButtonsCloseRelease.fn.GetOr(d)),
      (s.rightButtonsActivated && p.rightButtonsOpenRelease.fn.Some?, p.rightButtonsOpenRelease.fn.GetOr(d)),
      (!s.rightButtonsActivated && s.rightButtonsOpen && p.rightButtonsCloseRelease.fn.Some?,
       p.rightButtonsCloseRelease.fn.GetOr(d)) ]
  }

  /** getReleaseAnimationConfig: the config that settles the surface, or the
      TypeError that reading a null buttons array throws. */
  function ReleaseAnimationConfig(p: Props, s: State): (r: Result<AnimConfig, EndError>)
    ensures r.Err? ==> r.error == ButtonsMissing
                       && ((s.leftButtonsActivated && p.leftButtons.None?)
                           || (s.rightButtonsActivated && p.rightButtons.None?))
  {
    if s.leftActionActivated && p.leftActionRelease.config.Some? then Ok(p.leftActionRelease.config.value)
    else if s.rightActionActivated && p.rightActionRelease.config.Some? then Ok(p.rightActionRelease.config.value)
    else if s.leftButtonsActivated then
      TrayOpenConfig(p.leftButtons, p.leftButtonWidth, false, p.leftButtonsOpenRelease.config, p.swipeReleaseAnimationConfig)
    else if s.rightButtonsActivated then
      TrayOpenConfig(p.rightButtons, p.rightButtonWidth, true, p.rightButtonsOpenRelease.config, p.swipeReleaseAnimationConfig)
    else if !s.leftButtonsActivated && s.leftButtonsOpen && p.leftButtonsCloseRelease.config.Some? then
      Ok(p.leftButtonsCloseRelease.config.value)
    else if !s.rightButtonsActivated && s.rightButtonsOpen && p.rightButtonsCloseRelease.config.Some? then
      Ok(p.rightButtonsCloseRelease.config.value)
    else Ok(p.swipeReleaseAnimationConfig)
  }

  /** The config rules in priority order: left action, right action, left
      open, right open, left close, right close. The open rules need no
      override. */
  function ConfigRules(p: Props, s: State): (rules: seq<(bool, Result<AnimConfig, EndError>)>) {
    var d := p.swipeReleaseAnimationConfig;
    [ (s.leftActionActivated && p.leftActionRelease.config.Some?, Ok(p.leftActionRelease.config.GetOr(d))),
      (s.rightActionActivated && p.rightActionRelease.config.Some?, Ok(p.rightActionRelease.config.GetOr(d))),
      (s.leftButtonsActivated,
       TrayOpenConfig(p.leftButtons, p.leftButtonWidth, false, p.leftButtonsOpenRelease.config, d)),
      (s.rightButtonsActivated,
       TrayOpenConfig(p.rightButtons, p.rightButtonWidth, true, p.rightButtonsOpenRelease.config, d)),
      (!s.leftButtonsActivated && s.leftButtonsOpen && p.leftButtonsCloseRelease.config.Some?,
       Ok(p.leftButtonsCloseRelease.config.GetOr(d))),
      (!s.rightButtonsActivated && s.rightButtonsOpen && p.rightButtonsCloseRelease.config.Some?,
       Ok(p.rightButtonsCloseRelease.config.GetOr(d))) ]
  }

  /** The driver cascade is the first match over its rule list. */
  lemma ReleaseFnFollowsRules(p: Props, s: State)
    ensures ReleaseAnimationFn(p, s) == FirstMatch(FnRules(p, s), p.swipeReleaseAnimationFn)
  {
    var rules, d := FnRules(p, s), p.swipeReleaseAnimationFn;
    FirstMatchUnfold(rules, d);
  }

  /** The config cascade is the first match over its rule list. */
  lemma ReleaseConfigFollowsRules(p: Props, s: State)
    ensures ReleaseAnimationConfig(p, s) == FirstMatch(ConfigRules(p, s), Ok(p.swipeReleaseAnimationConfig))
  {
    var rules, d := ConfigRules(p, s), Ok(p.swipeReleaseAnimationConfig);
    FirstMatchUnfold(rules, d);
  }

  /** FirstMatch over a list of six rules, spelled out as a cascade. */
  lemma FirstMatchUnfold<T>(rules: seq<(bool, T)>, d: T)
    requires |rules| == 6
    ensures FirstMatch(rules, d)
            == if rules[0].0 then rules[0].1
               else if rules[1].0 then rules[1].1
               else if rules[2].0 then rules[2].1
               else if rules[3].0 then rules[3].1
               else if rules[4].0 then rules[4].1
               else if rules[5].0 then rules[5].1
               else d
  {
    var t1 := rules[1..];
    var t2 := t1[1..];
    var t3 := t2[1..];
    var t4 := t3[1..];
    var t5 := t4[1..];
    var t6 := t5[1..];
    assert t6 == [];
    assert FirstMatch(t6, d) == d;
    assert FirstMatch(t5, d) == if rules[5].0 then rules[5].1 else d;
    assert FirstMatch(t4, d) == if rules[4].0 then rules[4].1 else FirstMatch(t5, d);
    assert FirstMatch(t3, d) == if rules[3].0 then rules[3].1 else FirstMatch(t4, d);
    assert FirstMatch(t2, d) == if rules[2].0 then rules[2].1 else FirstMatch(t3, d);
    assert FirstMatch(t1, d) == if rules[1].0 then rules[1].1 else FirstMatch(t2, d);
  }

  /** An open left tray at release settles at the tray's width when no
      action override takes precedence and the open override leaves
      `toValue` alone. */
  lemma LeftTrayOpenTarget(p: Props, s: State)
    requires s.leftButtonsActivated && p.leftButtons.Some?
    requires !(s.leftActionActivated && p.leftActionRelease.config.Some?)
    requires !(s.rightActionActivated && p.rightActionRelease.config.Some?)
    requires p.leftButtonsOpenRelease.config.None? || p.leftButtonsOpenRelease.config.value.toValue.None?
    ensures ReleaseAnimationConfig(p, s).Ok?
    ensures ReleaseAnimationConfig(p, s).value.toValue
            == Some(Point(p.leftButtons.value as real * p.leftButtonWidth, 0.0))
  {
    var c := TrayOpenConfig(p.leftButtons, p.leftButtonWidth, false, p.leftButtonsOpenRelease.config, p.swipeReleaseAnimationConfig);
    assert ReleaseAnimationConfig(p, s) == c;
    assert TrayTarget(p.leftButtons.value, p.leftButtonWidth, false) == Point(p.leftButtons.value as real * p.leftButtonWidth, 0.0);
  }

  /** The mirror image for the right tray: the target is to the left. */
  lemma RightTrayOpenTarget(p: Props, s: State)
    requires !s.leftButtonsActivated && s.rightButtonsActivated && p.rightButtons.Some?
    requires !(s.leftActionActivated && p.leftActionRelease.config.Some?)
    requires !(s.rightActionActivated && p.rightActionRelease.config.Some?)
    requires p.rightButtonsOpenRelease.config.None? || p.rightButtonsOpenRelease.config.value.toValue.None?
    ensures ReleaseAnimationConfig(p, s).Ok?
    ensures ReleaseAnimationConfig(p, s).value.toValue
            == Some(Point(-(p.rightButtons.value as real * p.rightButtonWidth), 0.0))
  {
    var c := TrayOpenConfig(p.rightButtons, p.rightButtonWidth, true, p.rightButtonsOpenRelease.config, p.swipeReleaseAnimationConfig);
    assert ReleaseAnimationConfig(p, s) == c;
    assert TrayTarget(p.rightButtons.value, p.rightButtonWidth, true) == Point(-(p.rightButtons.value as real * p.rightButtonWidth), 0.0);
  }

  /** At rest (nothing active, no tray open) both cascades fall through to
      the default swipe release. */
  lemma RestingReleaseIsDefault(p: Props, s: State)
    requires !s.leftActionActivated && !s.rightActionActivated
    requires !s.leftButtonsActivated && !s.rightButtonsActivated
    requires !s.leftButtonsOpen && !s.rightButtonsOpen
    ensures ReleaseAnimationFn(p, s) == p.swipeReleaseAnimationFn
    ensures ReleaseAnimationConfig(p, s) == Ok(p.swipeReleaseAnimationConfig)
  {
  }

  /** The two cascades are ordered differently: with the left tray closing
      and the right tray opening, the driver comes from the left close slot
      while the config comes from the right open slot. */
  lemma CascadesDisagree()
    ensures var p := DefaultProps.(rightButtons := Some(1),
                                   leftButtonsCloseRelease := ReleaseOverride(Some("closeLeft"), None),
                                   rightButtonsOpenRelease := ReleaseOverride(Some("openRight"), None));
            var s := InitialState.(leftButtonsOpen := true, rightButtonsActivated := true);
            ReleaseAnimationFn(p, s) == "closeLeft"
            && ReleaseAnimationConfig(p, s) == Ok(DefaultReleaseConfig.(toValue := Some(Point(-75.0, 0.0))))
  {
  }
}
