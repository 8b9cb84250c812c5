/** The two input callbacks of the arbiter: the joystick snapshot update
    (Joy2Twist::joy_cb) and the passthrough command
    (Joy2Twist::callback_cmd_passthrough). */
module Snapshot {
  import opened JoyTypes
  import opened Validation

  /** Readings above this magnitude on a discrete axis override the
      continuous result. */
  const DiscreteThreshold: real := 0.9

  /** What the callback demands of a snapshot before it validates it: the
      dead-man button is read unconditionally, and, once the dead-man is
      held, the scale button is read whenever its index is non-negative, both
      without a bounds check. */
  predicate Readable(cfg: Config, joy: JoyMsg) {
    && 0 <= cfg.deadmanButton < |joy.buttons|
    && (joy.buttons[cfg.deadmanButton] ==> cfg.scaleButton < |joy.buttons|)
  }

  predicate DeadmanPressed(cfg: Config, joy: JoyMsg)
    requires Readable(cfg, joy)
  {
    joy.buttons[cfg.deadmanButton]
  }

  predicate ScalePressed(cfg: Config, joy: JoyMsg)
    requires Readable(cfg, joy) && DeadmanPressed(cfg, joy)
  {
    cfg.scaleButton >= 0 && joy.buttons[cfg.scaleButton]
  }

  /** The command formula shared by the continuous and the discrete axes. */
  function Command(axes: seq<real>, index: nat, max: real, scale: real): real
    requires index < |axes|
  {
    axes[index] * max * scale
  }

  /** The continuous pass over a zeroed triple: each enabled axis sets its
      component, in the order vx, vy, vw. */
  function ContinuousStage(cfg: Config, joy: JoyMsg, scale: real): (t: Triple)
    requires forall c :: cfg.Axis(c) < |joy.axes|
    ensures forall c :: cfg.Axis(c) >= 0 ==> t.Get(c) == Command(joy.axes, cfg.Axis(c), cfg.Max(c), scale)
    ensures forall c :: cfg.Axis(c) < 0 ==> t.Get(c) == 0.0
  {
    assert cfg.Axis(Vx) < |joy.axes| && cfg.Axis(Vy) < |joy.axes| && cfg.Axis(Vw) < |joy.axes|;
    var t0 := Zero;
    var t1 := if cfg.axisVx >= 0 then t0.(vx := Command(joy.axes, cfg.axisVx, cfg.maxVx, scale)) else t0;
    var t2 := if cfg.axisVy >= 0 then t1.(vy := Command(joy.axes, cfg.axisVy, cfg.maxVy, scale)) else t1;
    var t3 := if cfg.axisVw >= 0 then t2.(vw := Command(joy.axes, cfg.axisVw, cfg.maxVw, scale)) else t2;
    t3
  }

  /** Whether the discrete axis of a component overrides it: the axis is
      enabled and its reading exceeds the threshold in magnitude. */
  predicate DiscreteFires(cfg: Config, joy: JoyMsg, c: Component)
    requires cfg.Discrete(c) < |joy.axes|
  {
    cfg.Discrete(c) >= 0 && Abs(joy.axes[cfg.Discrete(c)]) > DiscreteThreshold
  }

  /** One discrete override as the source writes it: the reading is taken
      before the index is checked for being non-negative. None stands for a
      reading outside the axis array, which has no defined value. */
  function DiscreteOverrideAsWritten(axes: seq<real>, index: int, max: real, scale: real, current: real): (r: Option<real>)
    ensures r.None? <==> !(0 <= index < |axes|)
  {
    if !(0 <= index < |axes|) then None
    else if Abs(axes[index]) > DiscreteThreshold then
      if index >= 0 then Some(Command(axes, index, max, scale)) else Some(current)
    else Some(current)
  }

  /** One discrete override with the index checked before the reading. This
      is the definition the rest of the model uses. */
  function DiscreteOverride(axes: seq<real>, index: int, max: real, scale: real, current: real): (r: real)
    requires index < |axes|
    ensures index < 0 ==> r == current
    ensures index >= 0 && Abs(axes[index]) > DiscreteThreshold ==> r == axes[index] * max * scale
    ensures index >= 0 && Abs(axes[index]) <= DiscreteThreshold ==> r == current
  {
    if index >= 0 && Abs(axes[index]) > DiscreteThreshold then Command(axes, index, max, scale)
    else current
  }

  /** Wherever the source's reading is defined, the corrected override gives
      the same value, and it is defined for every disabled index as well. */
  lemma DiscreteOverrideAgrees(axes: seq<real>, index: int, max: real, scale: real, current: real)
    requires index < |axes|
    ensures DiscreteOverrideAsWritten(axes, index, max, scale, current).Some? ==>
              DiscreteOverrideAsWritten(axes, index, max, scale, current).value == DiscreteOverride(axes, index, max, scale, current)
    ensures index < 0 ==> DiscreteOverrideAsWritten(axes, index, max, scale, current).None?
  {
  }

  /** With the default parameters the lateral discrete axis is disabled (-1),
      so every snapshot that reaches the discrete pass makes the source read
      the axis array at index -1. */
  lemma DefaultLateralDiscreteReadsOutOfBounds(joy: JoyMsg, current: real)
    requires Readable(Defaults(), joy) && DeadmanPressed(Defaults(), joy)
    requires ButtonsOK(Defaults(), joy)
    ensures DiscreteOverrideAsWritten(joy.axes, Defaults().axisVyDiscrete, Defaults().maxVy, 1.0, current).None?
    ensures DiscreteOverride(joy.axes, Defaults().axisVyDiscrete, Defaults().maxVy, 1.0, current) == current
  {
  }

  /** The discrete pass, applied after the continuous one. */
  function DiscreteStage(cfg: Config, joy: JoyMsg, scale: real, t: Triple): (r: Triple)
    requires forall c :: cfg.Discrete(c) < |joy.axes|
    ensures forall c :: DiscreteFires(cfg, joy, c) ==> r.Get(c) == Command(joy.axes, cfg.Discrete(c), cfg.Max(c), scale)
    ensures forall c :: !DiscreteFires(cfg, joy, c) ==> r.Get(c) == t.Get(c)
  {
    assert cfg.Discrete(Vx) < |joy.axes| && cfg.Discrete(Vy) < |joy.axes| && cfg.Discrete(Vw) < |joy.axes|;
    Triple(
      DiscreteOverride(joy.axes, cfg.axisVxDiscrete, cfg.maxVx, scale, t.vx),
      DiscreteOverride(joy.axes, cfg.axisVyDiscrete, cfg.maxVy, scale, t.vy),
      DiscreteOverride(joy.axes, cfg.axisVwDiscrete, cfg.maxVw, scale, t.vw))
  }

  /** Reference value of one requested component after a valid snapshot with
      the dead-man held: a firing discrete axis wins, otherwise the enabled
      continuous axis, otherwise zero. */
  function Requested(cfg: Config, joy: JoyMsg, scale: real, c: Component): real
    requires ButtonsOK(cfg, joy)
  {
    if DiscreteFires(cfg, joy, c) then Command(joy.axes, cfg.Discrete(c), cfg.Max(c), scale)
    else if cfg.Axis(c) >= 0 then Command(joy.axes, cfg.Axis(c), cfg.Max(c), scale)
    else 0.0
  }

  /** The snapshot update. A released dead-man only clears the dead-man flag.
      A held dead-man selects the scale, stamps the receive time and zeroes the
      triple; a snapshot that then fails validation leaves it at zero,
      otherwise every component takes its requested value. */
  function OnJoy(cfg: Config, s: State, joy: JoyMsg, now: real): (r: State)
    requires Readable(cfg, joy)
    ensures r.deadman == DeadmanPressed(cfg, joy)
    ensures r.passthrough == s.passthrough
    ensures !r.deadman ==> r.req == s.req && r.reqScale == s.reqScale && r.lastJoy == s.lastJoy
    ensures r.deadman ==> r.lastJoy == now
    ensures r.deadman && ScalePressed(cfg, joy) ==> r.reqScale == cfg.scale
    ensures r.deadman && !ScalePressed(cfg, joy) ==> r.reqScale == 1.0
    ensures r.deadman && !ButtonsOK(cfg, joy) ==> r.req == Zero
    ensures r.deadman && ButtonsOK(cfg, joy) ==>
              forall c :: r.req.Get(c) == Requested(cfg, joy, r.reqScale, c)
  {
    if !joy.buttons[cfg.deadmanButton] then
      s.(deadman := false)
    else
      var scale := if cfg.scaleButton >= 0 && joy.buttons[cfg.scaleButton] then cfg.scale else 1.0;
      var stamped := s.(deadman := true, reqScale := scale, lastJoy := now, req := Zero);
      if !ButtonsOK(cfg, joy) then
        stamped
      else
        stamped.(req := DiscreteStage(cfg, joy, scale, ContinuousStage(cfg, joy, scale)))
  }

  /** The passthrough callback replaces the passthrough triple and nothing else. */
  function OnPassthrough(s: State, cmd: Triple): (r: State)
    ensures r.passthrough == cmd
    ensures r.(passthrough := s.passthrough) == s
  {
    s.(passthrough := cmd)
  }

  /** A released dead-man is all the callback needs to read: the scale button
      and every other index may lie outside the snapshot, and the state is
      frozen except for the dead-man flag. */
  lemma ReleasedSnapshotNeedsOnlyDeadman(cfg: Config, s: State, joy: JoyMsg, now: real)
    requires 0 <= cfg.deadmanButton < |joy.buttons| && !joy.buttons[cfg.deadmanButton]
    ensures Readable(cfg, joy)
    ensures OnJoy(cfg, s, joy, now) == s.(deadman := false)
  {
  }

  /** A component whose continuous and discrete axes are both disabled stays
      zero after any accepted snapshot. */
  lemma DisabledComponentIsZero(cfg: Config, s: State, joy: JoyMsg, now: real, c: Component)
    requires Readable(cfg, joy) && DeadmanPressed(cfg, joy)
    requires cfg.Axis(c) < 0 && cfg.Discrete(c) < 0
    ensures OnJoy(cfg, s, joy, now).req.Get(c) == 0.0
  {
  }

  /** A firing discrete axis sets its component even when the continuous axis
      of that component is disabled. */
  lemma DiscreteWorksWithoutContinuous(cfg: Config, s: State, joy: JoyMsg, now: real, c: Component)
    requires Readable(cfg, joy) && DeadmanPressed(cfg, joy) && ButtonsOK(cfg, joy)
    requires cfg.Axis(c) < 0 && DiscreteFires(cfg, joy, c)
    ensures OnJoy(cfg, s, joy, now).req.Get(c) ==
              joy.axes[cfg.Discrete(c)] * cfg.Max(c) * OnJoy(cfg, s, joy, now).reqScale
  {
  }

  /** A snapshot with the dead-man held determines the requested triple and
      scale on its own: the previous state has no influence on them. */
  lemma HeldSnapshotForgetsHistory(cfg: Config, s1: State, s2: State, joy: JoyMsg, now: real)
    requires Readable(cfg, joy) && DeadmanPressed(cfg, joy)
    ensures OnJoy(cfg, s1, joy, now).req == OnJoy(cfg, s2, joy, now).req
    ensures OnJoy(cfg, s1, joy, now).reqScale == OnJoy(cfg, s2, joy, now).reqScale
  {
    var r1 := OnJoy(cfg, s1, joy, now);
    var r2 := OnJoy(cfg, s2, joy, now);
    if ButtonsOK(cfg, joy) {
      assert forall c :: r1.req.Get(c) == r2.req.Get(c);
      assert r1.req.Get(Vx) == r2.req.Get(Vx);
      assert r1.req.Get(Vy) == r2.req.Get(Vy);
      assert r1.req.Get(Vw) == r2.req.Get(Vw);
    }
  }

  /** Delivering the same snapshot twice at the same time has the effect of
      delivering it once. */
  lemma OnJoyIdempotent(cfg: Config, s: State, joy: JoyMsg, now: real)
    requires Readable(cfg, joy)
    ensures OnJoy(cfg, OnJoy(cfg, s, joy, now), joy, now) == OnJoy(cfg, s, joy, now)
  {
    if DeadmanPressed(cfg, joy) {
      HeldSnapshotForgetsHistory(cfg, s, OnJoy(cfg, s, joy, now), joy, now);
    }
  }

  /** Dead-man and scale held, forward axis at 0.5, maximum 1.0 and scale 2.0
      give a requested forward velocity of 1.0. */
  lemma ScaledForwardExample(s: State, now: real)
    ensures var joy := JoyMsg([0.0, 0.5, 0.0, 0.0, 0.0, 0.0, 0.0, 0.0],
                              [false, false, false, false, true, true]);
            OnJoy(Defaults(), s, joy, now).req.vx == 1.0
  {
    var joy := JoyMsg([0.0, 0.5, 0.0, 0.0, 0.0, 0.0, 0.0, 0.0],
                      [false, false, false, false, true, true]);
    assert ButtonsOK(Defaults(), joy);
    assert OnJoy(Defaults(), s, joy, now).req.Get(Vx) == Requested(Defaults(), joy, 2.0, Vx);
  }
}
