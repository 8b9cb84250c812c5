/** The fixed-rate output step (Joy2Twist::send_cmd_vel) and the timeout
    normalisation done at start-up (Joy2Twist::init). */
module Tick {
  import opened JoyTypes

  /** The duration, in seconds, that stands in for "no timeout". */
  const NoTimeout: real := 9999999.0

  /** M_PI as a double. */
  const Pi: real := 3.141592653589793

  /** The stored timeout: a non-positive parameter means "no timeout". */
  function NormalizeTimeout(param: real): (d: real)
    ensures d > 0.0
    ensures param > 0.0 ==> d == param
    ensures param <= 0.0 ==> d == NoTimeout
  {
    if param <= 0.0 then NoTimeout else param
  }

  /** The last accepted snapshot is older than the timeout allows (strictly). */
  predicate Stale(cfg: Config, s: State, now: real) {
    s.lastJoy + NormalizeTimeout(cfg.joyMsgTimeout) < now
  }

  /** The tick substitutes the passthrough triple for the requested one. */
  predicate FallsBack(cfg: Config, s: State, now: real) {
    !s.deadman || Stale(cfg, s, now)
  }

  /** Steering angle derived from the angular component: the component is
      read as a fraction of a quarter turn, with the active scale taken out
      again. */
  function RawSteering(vw: real, scale: real): (angle: real)
    requires scale != 0.0
    ensures angle * (2.0 * scale) == vw * Pi
    ensures vw == 0.0 ==> angle == 0.0
    ensures scale > 0.0 ==> (angle > 0.0 <==> vw > 0.0)
  {
    vw * Pi / (2.0 * scale)
  }

  /** A command produced from an axis reading with the active scale steers by
      the same angle whatever that scale is: a full deflection with maximum 1
      asks for a quarter turn. */
  lemma ScaleCancelsInSteering(reading: real, max: real, scale: real)
    requires scale != 0.0
    ensures RawSteering(reading * max * scale, scale) == reading * max * Pi / 2.0
    ensures RawSteering(reading * max * scale, scale) == RawSteering(reading * max, 1.0)
  {
  }

  /** Limits the steering angle to the configured maximum. */
  function ClampSteering(raw: real, limit: real): (r: real)
    ensures limit >= 0.0 ==> -limit <= r <= limit
    ensures limit >= 0.0 && -limit <= raw <= limit ==> r == raw
    ensures raw > limit ==> r == limit
    ensures raw <= limit && raw < -limit ==> r == -limit
    ensures limit < 0.0 ==> r == limit || r == -limit
  {
    if raw > limit then limit
    else if raw < -limit then -limit
    else raw
  }

  datatype TickResult = TickResult(state: State, out: Option<Output>)

  /** One tick: on a released dead-man or stale input the passthrough triple
      overwrites the persistent requested triple; then the triple is
      published in the configured shape (nothing for an unknown shape). */
  function OnTick(cfg: Config, s: State, now: real): (r: TickResult)
    requires cfg.Mode() == AckermannMode ==> s.reqScale != 0.0
    ensures FallsBack(cfg, s, now) ==> r.state == s.(req := s.passthrough)
    ensures !FallsBack(cfg, s, now) ==> r.state == s
    ensures cfg.Mode() == TwistMode ==> r.out == Some(TwistCmd(r.state.req))
    ensures cfg.Mode() == NoPublisher ==> r.out == None
    ensures cfg.Mode() == AckermannMode ==>
              && r.out.Some? && r.out.value.AckermannCmd?
              && r.out.value.speed == r.state.req.vx
              && r.out.value.steering == ClampSteering(RawSteering(r.state.req.vw, r.state.reqScale), cfg.steeringAngle)
              && (cfg.steeringAngle >= 0.0 ==> -cfg.steeringAngle <= r.out.value.steering <= cfg.steeringAngle)
  {
    var s' := if FallsBack(cfg, s, now) then s.(req := s.passthrough) else s;
    match cfg.Mode()
    case TwistMode => TickResult(s', Some(TwistCmd(s'.req)))
    case AckermannMode =>
      var steering := ClampSteering(RawSteering(s'.req.vw, s'.reqScale), cfg.steeringAngle);
      TickResult(s', Some(AckermannCmd(s'.req.vx, steering)))
    case NoPublisher => TickResult(s', None)
  }

  /** Each published triple comes from exactly one source: the requested
      triple when the dead-man is held and the input fresh, the passthrough
      triple otherwise. */
  lemma OneSourcePerTick(cfg: Config, s: State, now: real)
    requires cfg.Mode() == TwistMode
    ensures !s.deadman ==> OnTick(cfg, s, now).out == Some(TwistCmd(s.passthrough))
    ensures s.deadman && now <= s.lastJoy + NormalizeTimeout(cfg.joyMsgTimeout) ==>
              OnTick(cfg, s, now).out == Some(TwistCmd(s.req))
    ensures s.deadman && now > s.lastJoy + NormalizeTimeout(cfg.joyMsgTimeout) ==>
              OnTick(cfg, s, now).out == Some(TwistCmd(s.passthrough))
  {
  }

  /** A non-positive timeout parameter behaves as a timeout of 9999999 s: the
      input only goes stale once that much time has passed. */
  lemma DisabledTimeoutIsLong(cfg: Config, s: State, now: real)
    requires cfg.joyMsgTimeout <= 0.0
    ensures Stale(cfg, s, now) <==> now - s.lastJoy > NoTimeout
    ensures Stale(cfg, s, now) <==> Stale(cfg.(joyMsgTimeout := NoTimeout), s, now)
  {
  }

  /** Once a tick falls back, every later tick falls back as well until a
      snapshot arrives, since ticks change neither the dead-man flag nor the
      receive time. */
  lemma FallbackIsSticky(cfg: Config, s: State, t1: real, t2: real)
    requires cfg.Mode() == AckermannMode ==> s.reqScale != 0.0
    requires FallsBack(cfg, s, t1) && t1 <= t2
    ensures FallsBack(cfg, OnTick(cfg, s, t1).state, t2)
    ensures OnTick(cfg, s, t1).state.req == s.passthrough
  {
  }

  /** Two ticks at the same instant publish the same command and leave the
      same state as one. */
  lemma TickIdempotent(cfg: Config, s: State, now: real)
    requires cfg.Mode() == AckermannMode ==> s.reqScale != 0.0
    ensures OnTick(cfg, OnTick(cfg, s, now).state, now) == OnTick(cfg, s, now)
  {
  }

  /** A raw steering angle of 2.0 rad against a 1.0 rad limit is clamped to
      1.0 rad. */
  lemma SteeringClampExample()
    ensures ClampSteering(2.0, 1.0) == 1.0
  {
  }
}
