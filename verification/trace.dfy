/** The node's event loop: snapshots, passthrough commands and ticks
    delivered one at a time to a single arbiter, starting from the state the
    constructor and start-up leave behind. */
module Trace {
  import opened JoyTypes
  import opened Validation
  import opened Snapshot
  import opened Tick

  datatype Event =
    | JoyEvent(joy: JoyMsg, at: real)
    | PassthroughEvent(cmd: Triple)
    | TickEvent(at: real)

  /** A snapshot the callback can read; other events impose nothing. */
  predicate Admissible(cfg: Config, e: Event) {
    e.JoyEvent? ==> Readable(cfg, e.joy)
  }

  /** An event that does not press the dead-man. */
  predicate Released(cfg: Config, e: Event) {
    Admissible(cfg, e) && (e.JoyEvent? ==> !DeadmanPressed(cfg, e.joy))
  }

  /** The active scale can divide the steering computation, now and after
      any later snapshot: the configured scale only becomes active when the
      scale button is enabled. */
  predicate ScaleUsable(cfg: Config, s: State) {
    cfg.Mode() == AckermannMode ==> s.reqScale != 0.0 && (cfg.scaleButton >= 0 ==> cfg.scale != 0.0)
  }

  /** The state after the constructor and start-up: zero requested and
      passthrough triples, scale 1.0 and receive time zero. The dead-man flag
      is given as a parameter because the constructor leaves it unset. */
  function StartState(deadman: bool): (s: State)
    ensures s.req == Zero && s.passthrough == Zero && s.reqScale == 1.0
    ensures s.lastJoy == 0.0 && s.deadman == deadman
  {
    State(Zero, 1.0, deadman, 0.0, Zero)
  }

  /** Whatever value the unset dead-man flag holds, the first tick falls back
      to the passthrough triple once the clock reads more than the timeout,
      because the receive time starts at zero. */
  lemma StartFallsBackRegardless(cfg: Config, deadman: bool, now: real)
    requires now > NormalizeTimeout(cfg.joyMsgTimeout)
    ensures FallsBack(cfg, StartState(deadman), now)
    ensures cfg.Mode() == TwistMode ==> OnTick(cfg, StartState(deadman), now).out == Some(TwistCmd(Zero))
  {
  }

  datatype StepResult = StepResult(state: State, out: seq<Output>)

  /** Number of tick events in a trace. */
  function Ticks(events: seq<Event>): nat {
    if |events| == 0 then 0
    else (if events[0].TickEvent? then 1 else 0) + Ticks(events[1..])
  }

  /** Dispatches one event to its callback. */
  function Step(cfg: Config, s: State, e: Event): (r: StepResult)
    requires Admissible(cfg, e) && ScaleUsable(cfg, s)
    ensures ScaleUsable(cfg, r.state)
    ensures |r.out| == (if e.TickEvent? && cfg.Mode() != NoPublisher then 1 else 0)
    ensures e.TickEvent? && cfg.Mode() == TwistMode ==> r.out == [TwistCmd(r.state.req)]
    ensures e.JoyEvent? ==> r.state == OnJoy(cfg, s, e.joy, e.at)
    ensures e.PassthroughEvent? ==> r.state == s.(passthrough := e.cmd)
    ensures e.TickEvent? ==> r.state == OnTick(cfg, s, e.at).state
    ensures e.TickEvent? && cfg.Mode() != NoPublisher ==> r.out == [OnTick(cfg, s, e.at).out.value]
    ensures !e.JoyEvent? ==> r.state.deadman == s.deadman && r.state.lastJoy == s.lastJoy
  {
    match e
    case JoyEvent(joy, at) => StepResult(OnJoy(cfg, s, joy, at), [])
    case PassthroughEvent(cmd) => StepResult(OnPassthrough(s, cmd), [])
    case TickEvent(at) =>
      var t := OnTick(cfg, s, at);
      StepResult(t.state, if t.out.Some? then [t.out.value] else [])
  }

  /** Runs a trace and collects what the ticks publish: one command per tick
      unless the output shape is unknown. */
  function Run(cfg: Config, s: State, events: seq<Event>): (r: StepResult)
    requires forall i :: 0 <= i < |events| ==> Admissible(cfg, events[i])
    requires ScaleUsable(cfg, s)
    ensures ScaleUsable(cfg, r.state)
    ensures |r.out| == (if cfg.Mode() == NoPublisher then 0 else Ticks(events))
    decreases |events|
  {
    if |events| == 0 then StepResult(s, [])
    else
      var first := Step(cfg, s, events[0]);
      var rest := Run(cfg, first.state, events[1..]);
      StepResult(rest.state, first.out + rest.out)
  }

  /** Reference behaviour of a node whose dead-man is never held: a relay
      that publishes the latest passthrough triple on every tick. */
  function Relay(p: Triple, events: seq<Event>): seq<Output>
    decreases |events|
  {
    if |events| == 0 then []
    else
      match events[0]
      case JoyEvent(_, _) => Relay(p, events[1..])
      case PassthroughEvent(cmd) => Relay(cmd, events[1..])
      case TickEvent(_) => [TwistCmd(p)] + Relay(p, events[1..])
  }

  /** In Twist mode, while no snapshot presses the dead-man, the arbiter is
      exactly the passthrough relay and the dead-man stays released. */
  lemma {:induction false} ReleasedArbiterIsRelay(cfg: Config, s: State, events: seq<Event>)
    requires cfg.Mode() == TwistMode && !s.deadman
    requires forall i :: 0 <= i < |events| ==> Admissible(cfg, events[i])
    requires forall i :: 0 <= i < |events| ==> Released(cfg, events[i])
    ensures Run(cfg, s, events).out == Relay(s.passthrough, events)
    ensures !Run(cfg, s, events).state.deadman
    decreases |events|
  {
    if |events| > 0 {
      var first := Step(cfg, s, events[0]);
      assert first.state.passthrough == (if events[0].PassthroughEvent? then events[0].cmd else s.passthrough);
      assert !first.state.deadman;
      assert first.out == (if events[0].TickEvent? then [TwistCmd(s.passthrough)] else []);
      forall i | 0 <= i < |events[1..]|
        ensures Released(cfg, events[1..][i])
      {
        assert events[1..][i] == events[i + 1];
      }
      ReleasedArbiterIsRelay(cfg, first.state, events[1..]);
    }
  }

  /** A node started with the dead-man released relays the passthrough
      triple, starting from zero, until the dead-man is pressed. */
  lemma ReleasedStartIsRelay(cfg: Config, events: seq<Event>)
    requires cfg.Mode() == TwistMode
    requires forall i :: 0 <= i < |events| ==> Admissible(cfg, events[i])
    requires forall i :: 0 <= i < |events| ==> Released(cfg, events[i])
    ensures Run(cfg, StartState(false), events).out == Relay(Zero, events)
  {
    ReleasedArbiterIsRelay(cfg, StartState(false), events);
  }

  /** An Ackermann node whose scale button is disabled runs with a configured
      scale of zero: that scale never becomes active, so nothing divides by it. */
  lemma UnusedZeroScaleIsAdmitted(cfg: Config, events: seq<Event>)
    requires cfg.Mode() == AckermannMode && cfg.scaleButton < 0 && cfg.scale == 0.0
    requires forall i :: 0 <= i < |events| ==> Admissible(cfg, events[i])
    ensures ScaleUsable(cfg, StartState(false))
    ensures Run(cfg, StartState(false), events).state.reqScale != 0.0
  {
  }

  /** Releasing the dead-man makes the next tick publish the passthrough
      triple, not the frozen requested one. */
  lemma ReleaseThenTick(cfg: Config, s: State, joy: JoyMsg, at: real, now: real)
    requires cfg.Mode() == TwistMode
    requires Readable(cfg, joy) && !DeadmanPressed(cfg, joy)
    ensures OnTick(cfg, OnJoy(cfg, s, joy, at), now).out == Some(TwistCmd(s.passthrough))
  {
  }

  /** A snapshot with the dead-man held that fails validation makes the next
      fresh tick publish zero, not the previous request and not the
      passthrough triple. */
  lemma InvalidSnapshotThenTick(cfg: Config, s: State, joy: JoyMsg, at: real, now: real)
    requires cfg.Mode() == TwistMode
    requires Readable(cfg, joy) && DeadmanPressed(cfg, joy) && !ButtonsOK(cfg, joy)
    requires at <= now <= at + NormalizeTimeout(cfg.joyMsgTimeout)
    ensures OnTick(cfg, OnJoy(cfg, s, joy, at), now).out == Some(TwistCmd(Zero))
  {
  }
}
