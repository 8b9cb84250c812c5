/** Data model of the joystick command arbiter (class Joy2Twist of
    tuw_gamepad/src/gamepad2twist.cpp): its configuration, the controller
    snapshot it receives, the persistent state it keeps between callbacks and
    the command it emits on every tick.

    Floating-point quantities are modelled as `real`; times and durations are
    seconds as `real`. */
module JoyTypes {

  datatype Option<+T> = None | Some(value: T)

  /** One of the three commanded components: forward velocity, lateral
      velocity and angular rate (linear.x, linear.y, angular.z). */
  datatype Component = Vx | Vy | Vw

  /** A velocity triple, as held in req_vx/req_vy/req_vw and in the
      passthrough Twist. */
  datatype Triple = Triple(vx: real, vy: real, vw: real) {

    function Get(c: Component): real {
      match c
      case Vx => vx
      case Vy => vy
      case Vw => vw
    }
  }

  const Zero: Triple := Triple(0.0, 0.0, 0.0)

  /** A controller snapshot (sensor_msgs/Joy): axis readings and button states. */
  datatype JoyMsg = JoyMsg(axes: seq<real>, buttons: seq<bool>)

  /** The output wire shape selected by the integer parameter publisher_type. */
  datatype Mode = TwistMode | AckermannMode | NoPublisher

  /** Configuration read once at start-up. A negative index disables the
      corresponding button or axis. The wheel geometry parameters only feed
      the floating-point conversion of the Ackermann output and are not part
      of this model; `debug` only drives logging. */
  datatype Config = Config(
    publisherType: int,
    scale: real,
    axisVx: int,
    axisVy: int,
    axisVw: int,
    axisVxDiscrete: int,
    axisVyDiscrete: int,
    axisVwDiscrete: int,
    maxVx: real,
    maxVy: real,
    maxVw: real,
    deadmanButton: int,
    scaleButton: int,
    steeringAngle: real,
    joyMsgTimeout: real)
  {
    /** 0 selects Twist output, 1 Ackermann output; any other value is
        reported as an error and nothing is ever published. */
    function Mode(): (m: Mode)
      ensures m == TwistMode <==> publisherType == 0
      ensures m == AckermannMode <==> publisherType == 1
      ensures m == NoPublisher <==> publisherType !in {0, 1}
    {
      if publisherType == 0 then TwistMode
      else if publisherType == 1 then AckermannMode
      else NoPublisher
    }

    /** Continuous axis index for a component. */
    function Axis(c: Component): int {
      match c
      case Vx => axisVx
      case Vy => axisVy
      case Vw => axisVw
    }

    /** Discrete (digital pad) axis index for a component. */
    function Discrete(c: Component): int {
      match c
      case Vx => axisVxDiscrete
      case Vy => axisVyDiscrete
      case Vw => axisVwDiscrete
    }

    /** The same configuration with one continuous axis disabled. */
    function DisableAxis(c: Component): (cfg: Config)
      ensures cfg.Axis(c) < 0
      ensures forall d :: d != c ==> cfg.Axis(d) == Axis(d)
      ensures forall d :: cfg.Discrete(d) == Discrete(d)
      ensures cfg.scaleButton == scaleButton && cfg.deadmanButton == deadmanButton
    {
      match c
      case Vx => this.(axisVx := -1)
      case Vy => this.(axisVy := -1)
      case Vw => this.(axisVw := -1)
    }

    /** The same configuration with one discrete axis disabled. */
    function DisableDiscrete(c: Component): (cfg: Config)
      ensures cfg.Discrete(c) < 0
      ensures forall d :: d != c ==> cfg.Discrete(d) == Discrete(d)
      ensures forall d :: cfg.Axis(d) == Axis(d)
      ensures cfg.scaleButton == scaleButton && cfg.deadmanButton == deadmanButton
    {
      match c
      case Vx => this.(axisVxDiscrete := -1)
      case Vy => this.(axisVyDiscrete := -1)
      case Vw => this.(axisVwDiscrete := -1)
    }

    /** Maximal magnitude for a component. */
    function Max(c: Component): real {
      match c
      case Vx => maxVx
      case Vy => maxVy
      case Vw => maxVw
    }
  }

  /** The parameter defaults the node falls back to when nothing is configured
      (a Logitech F710 gamepad). */
  function Defaults(): (cfg: Config)
    ensures cfg.Mode() == TwistMode
    ensures cfg.Axis(Vy) < 0 && cfg.Discrete(Vy) < 0 && cfg.Max(Vy) == 0.0
    ensures cfg.Axis(Vx) >= 0 && cfg.Discrete(Vx) >= 0 && cfg.Max(Vx) == 1.0
    ensures cfg.Axis(Vw) >= 0 && cfg.Discrete(Vw) >= 0 && cfg.Max(Vw) == 1.0
    ensures cfg.scaleButton != cfg.deadmanButton && cfg.scale == 2.0
    ensures cfg.joyMsgTimeout <= 0.0
  {
    Config(
      publisherType := 0,
      scale := 2.0,
      axisVx := 1,
      axisVy := -1,
      axisVw := 3,
      axisVxDiscrete := 7,
      axisVyDiscrete := -1,
      axisVwDiscrete := 6,
      maxVx := 1.0,
      maxVy := 0.0,
      maxVw := 1.0,
      deadmanButton := 5,
      scaleButton := 4,
      steeringAngle := 0.0,
      joyMsgTimeout := -1.0)
  }

  /** The persistent part of the arbiter: the requested triple and its active
      scale, the dead-man flag, the time the last accepted snapshot was
      received and the most recent passthrough command. */
  datatype State = State(
    req: Triple,
    reqScale: real,
    deadman: bool,
    lastJoy: real,
    passthrough: Triple)

  /** What one tick publishes. `AckermannCmd` carries the forward velocity and
      the clamped steering angle from which the wheel rate and the published
      steering value are derived. */
  datatype Output = TwistCmd(v: Triple) | AckermannCmd(speed: real, steering: real)

  function Abs(x: real): real {
    if x < 0.0 then -x else x
  }
}
