# Joystick command arbiter (tuw_gamepad `Joy2Twist`)

This project models the command arbiter of the `tuw_gamepad` teleoperation node in Dafny. The arbiter turns gamepad snapshots into a velocity command. It republishes a passthrough command whenever the dead-man button is released or the joystick input goes stale. The model has four parts:

- **Validation** (`Validation`): `buttonsOK` checks that every configured, non-negative button or axis index lies inside the arrays the device reports. A negative index means the feature is disabled.
- **Snapshot update** (`Snapshot`): `joy_cb` records the dead-man state. If the dead-man is released it stops there. Otherwise it selects the active scale, stamps the receive time and zeroes the requested triple. It then validates the snapshot and computes `axis * max * scale` for each enabled continuous axis. Last, a discrete axis reading above 0.9 in magnitude overrides the continuous value. `callback_cmd_passthrough` replaces the passthrough triple.
- **Tick** (`Tick`): `send_cmd_vel` overwrites the persistent requested triple with the passthrough triple when the dead-man is released or `last + timeout < now`. It then publishes the triple, either as a Twist or as an Ackermann command with a clamped steering angle. At start-up a timeout ≤ 0 is stored as 9999999 s.
- **Event loop** (`Trace`): snapshots, passthrough commands and ticks are delivered one at a time. The main property here is that, in Twist mode, a node whose dead-man is never held behaves exactly like a passthrough relay.

The state is an immutable record (`JoyTypes.State`), and each callback is a pure function from the old state to the new one. Floating-point values are `real`s, and times are seconds as `real`.

The model follows the code where it departs from the obvious reading of the node's behaviour:

- A held dead-man with a failing validation does not discard the snapshot. The receive time is already stamped and the triple already zeroed (lines 220–226), so the next fresh tick publishes zero.
- A non-positive timeout is not infinite. It is 9999999 s (line 97), so input still goes stale after that long.
- With 4 buttons and `deadman_button = 5`, the callback reads `buttons[5]` at line 190 before any validation. The model makes this bounds demand a `requires` (`Snapshot.Readable`). It covers the dead-man button, which is read unconditionally (line 190). It also covers the scale button, which is read only when the dead-man is held and the scale index is non-negative (line 194). A released snapshot may be shorter than the scale index (`Snapshot.ReleasedSnapshotNeedsOnlyDeadman`). A negative dead-man index is therefore outside the model, even though `buttonsOK` and the start-up log treat it as "unused".
- The constructor does not initialise `deadman_`. `Trace.StartState` takes the flag as a parameter. `Trace.StartFallsBackRegardless` shows that whatever its value, the first tick falls back once the clock is past the timeout, because the receive time starts at zero.

## Model

| member | source | states |
|---|---|---|
| Validation.FirstMissing | tuw_gamepad/src/gamepad2twist.cpp:153-185 | the checks run in order and stop at the first failure: None iff every check passes; otherwise the position of a failing check with all earlier checks passing |
| Validation.ButtonsOK | tuw_gamepad/src/gamepad2twist.cpp:151-186 | true exactly when the scale and dead-man button indices are negative or below the button count and all six axis indices are negative or below the axis count |
| Validation.DisablingNeverBreaksValidation | tuw_gamepad/src/gamepad2twist.cpp:151-186 | making any single index negative (either button, or the continuous or discrete axis of any component) never turns a passing validation into a failing one |
| Validation.DefaultsNeedSixButtonsEightAxes | tuw_gamepad/src/gamepad2twist.cpp:73-86 | with the default parameters a snapshot passes validation exactly when the device reports at least six buttons and eight axes |
| JoyTypes.Defaults | tuw_gamepad/src/gamepad2twist.cpp:67-102 | the defaults select Twist output, disable both lateral axes with maximum 0, enable the forward and angular axes with maximum 1, use distinct scale and dead-man buttons with scale 2, and leave the timeout disabled |
| JoyTypes.Config.Mode | tuw_gamepad/src/gamepad2twist.cpp:125-136 | publisher type 0 selects Twist output, 1 Ackermann output, and any other value no publisher |
| Validation.AllDisabledAlwaysValid | tuw_gamepad/src/gamepad2twist.cpp:151-186 | with every index negative the validator accepts any snapshot, including an empty one |
| Snapshot.OnJoy | tuw_gamepad/src/gamepad2twist.cpp:188-253 | the dead-man flag becomes the dead-man reading; released: triple, scale and receive time unchanged; held: receive time is now; scale is the configured scale iff the scale button is enabled and pressed, else 1.0; failing validation: triple zero; passing: every component equals the reference `Requested` value; passthrough untouched |
| Snapshot.ContinuousStage | tuw_gamepad/src/gamepad2twist.cpp:224-230 | each component with a non-negative axis index is `axes[idx] * max * scale`; each with a negative index is 0 |
| Snapshot.DiscreteStage | tuw_gamepad/src/gamepad2twist.cpp:245-253 | a component whose discrete index is non-negative with reading magnitude above 0.9 becomes `axes[disc] * max * scale`; every other component keeps its continuous value |
| Snapshot.DiscreteOverrideAsWritten | tuw_gamepad/src/gamepad2twist.cpp:245-253 | the source's order (read, then test the index): the reading is undefined exactly when the index is outside the axis array, negative indices included |
| Snapshot.DiscreteOverride | tuw_gamepad/src/gamepad2twist.cpp:245-253 | corrected order: negative index keeps the current value; otherwise override iff the reading's magnitude exceeds 0.9 |
| Snapshot.DiscreteOverrideAgrees | tuw_gamepad/src/gamepad2twist.cpp:245-253 | wherever the source's reading is defined the corrected override gives the same value; every negative index is a read the source leaves undefined |
| Snapshot.DefaultLateralDiscreteReadsOutOfBounds | tuw_gamepad/src/gamepad2twist.cpp:248-249 | with the default parameters (lateral discrete axis -1), every snapshot that reaches the discrete pass reads the axis array at -1, while the corrected override keeps the lateral value |
| Snapshot.ReleasedSnapshotNeedsOnlyDeadman | tuw_gamepad/src/gamepad2twist.cpp:190-192 | any snapshot whose dead-man index fits and reads released is accepted, however short its button array, and leaves the state unchanged except for the dead-man flag |
| Snapshot.OnPassthrough | tuw_gamepad/src/gamepad2twist.cpp:145-149 | the passthrough triple becomes the received command and nothing else in the state changes |
| Snapshot.DisabledComponentIsZero | tuw_gamepad/src/gamepad2twist.cpp:224-253 | a component with both its continuous and its discrete index negative is 0 after any snapshot with the dead-man held |
| Snapshot.DiscreteWorksWithoutContinuous | tuw_gamepad/src/gamepad2twist.cpp:245-253 | a firing discrete axis sets its component even when that component's continuous axis is disabled |
| Snapshot.HeldSnapshotForgetsHistory | tuw_gamepad/src/gamepad2twist.cpp:194-253 | with the dead-man held, the requested triple and scale depend only on the snapshot, not on the previous state |
| Snapshot.OnJoyIdempotent | tuw_gamepad/src/gamepad2twist.cpp:188-253 | delivering the same snapshot twice at the same time equals delivering it once |
| Snapshot.ScaledForwardExample | tuw_gamepad/src/gamepad2twist.cpp:194-230 | dead-man and scale held, forward axis 0.5, max 1.0, scale 2.0 gives forward velocity 1.0 |
| Tick.NormalizeTimeout | tuw_gamepad/src/gamepad2twist.cpp:94-102 | the stored timeout is positive: a positive parameter is kept and a non-positive one becomes 9999999 s |
| Tick.ClampSteering | tuw_gamepad/src/gamepad2twist.cpp:289-290 | for a non-negative limit the result lies in [-limit, limit] and equals the raw angle when that is already inside; above the limit gives the limit, below its negation gives the negation; for a negative limit the result is the limit or its negation |
| Tick.OnTick | tuw_gamepad/src/gamepad2twist.cpp:269-303 | on released dead-man or `last + timeout < now` the persistent triple becomes the passthrough triple, otherwise the state is unchanged; Twist mode publishes the resulting triple; Ackermann mode publishes its forward value and the clamp of the raw steering angle computed from the resulting angular value and active scale, which lies within the configured limit; an unknown mode publishes nothing |
| Tick.RawSteering | tuw_gamepad/src/gamepad2twist.cpp:287 | the raw angle times twice the active scale equals the angular value times π; it is zero for a zero angular value and has its sign for a positive scale |
| Tick.ScaleCancelsInSteering | tuw_gamepad/src/gamepad2twist.cpp:287 | for an angular value produced as reading × max × scale, the raw steering angle is reading × max × π/2, independent of the active scale |
| Tick.OneSourcePerTick | tuw_gamepad/src/gamepad2twist.cpp:270-281 | each published Twist is either the requested triple (dead-man held and input fresh) or the passthrough triple (otherwise), never a mix |
| Tick.DisabledTimeoutIsLong | tuw_gamepad/src/gamepad2twist.cpp:94-102 | with a non-positive timeout parameter, input is stale iff more than 9999999 s have passed, as with an explicit timeout of that length |
| Tick.FallbackIsSticky | tuw_gamepad/src/gamepad2twist.cpp:270-274 | a falling-back tick writes the passthrough triple into the state, and every later tick falls back too until a snapshot arrives |
| Tick.TickIdempotent | tuw_gamepad/src/gamepad2twist.cpp:269-303 | two ticks at the same instant leave the same state and publish the same command as one |
| Tick.SteeringClampExample | tuw_gamepad/src/gamepad2twist.cpp:287-290 | a raw steering angle of 2.0 rad against a 1.0 rad limit is clamped to 1.0 rad |
| Trace.StartState | tuw_gamepad/src/gamepad2twist.cpp:57-65 | the start state has zero requested and passthrough triples, scale 1.0, receive time zero and the given dead-man value |
| Trace.Step | tuw_gamepad/src/gamepad2twist.cpp:138-139 | each event goes to its callback: a snapshot leaves the state `OnJoy` gives, a passthrough event changes only the passthrough triple, and a tick leaves the state `OnTick` gives and publishes its command (nothing for an unknown shape); only snapshots change the dead-man flag and receive time; the active scale stays usable for steering |
| Trace.StartFallsBackRegardless | tuw_gamepad/src/gamepad2twist.cpp:57-61 | whatever value the unset dead-man flag holds, a tick after the timeout has elapsed since time zero falls back and publishes the zero passthrough triple |
| Trace.Run | tuw_gamepad/src/gamepad2twist.cpp:322-326 | running an event trace publishes exactly one command per tick, or none when the output shape is unknown, and keeps the active scale non-zero in Ackermann mode; the configured scale must be non-zero only when the scale button is enabled |
| Trace.UnusedZeroScaleIsAdmitted | tuw_gamepad/src/gamepad2twist.cpp:194-197 | an Ackermann node with the scale button disabled runs with a configured scale of 0, since that scale never becomes active and the active scale stays non-zero |
| Trace.ReleasedArbiterIsRelay | tuw_gamepad/src/gamepad2twist.cpp:188-281 | in Twist mode, while no snapshot presses the dead-man, the arbiter publishes exactly what a relay of the latest passthrough triple publishes, and the dead-man stays released |
| Trace.ReleasedStartIsRelay | tuw_gamepad/src/gamepad2twist.cpp:57-65 | a node started with the dead-man released relays the passthrough command, starting from zero, until the dead-man is pressed |
| Trace.ReleaseThenTick | tuw_gamepad/src/gamepad2twist.cpp:269-281 | after a snapshot with the dead-man released, the next tick publishes the passthrough triple, not the frozen request |
| Trace.InvalidSnapshotThenTick | tuw_gamepad/src/gamepad2twist.cpp:220-226 | after a held-dead-man snapshot that fails validation, the next fresh tick publishes zero |

## Left out

- ROS plumbing is not modelled: parameter loading, advertising, subscribing, publishing, and the 20 Hz loop with its rate sleep. Parameters are a `Config` value, the clock is a `now` argument, and the loop is an event sequence.
- Debug and error logging (lines 98–122, 199–217, 232–243, 255–266) is not modelled. The error messages at lines 154 and 158 print `axis_vx` instead of the failing button index. The debug blocks do more than print when `debug` is set: lines 237–239 read `axes[axis_vx]`, `axes[axis_vy]` and `axes[axis_vw]` with no `>= 0` guard, and lines 260–262 repeat the unguarded discrete reads. With the default `axis_vy = -1` (line 74), line 238 reads `axes[-1]` on every held snapshot that passes validation. The model describes the node with `debug` off.
- The `--deadman_no_publish` option (lines 309–315) is stored but never read.
- The `debug`, `wheel_base`, `wheel_diameter` and `steering_width` parameters are not part of `Config`. `debug` only switches the logging blocks above, `wheel_base` and `wheel_diameter` only feed the floating-point conversion below, and `steering_width` is read at line 90 and never used.
- Tick.OnTick: the Ackermann output is the forward velocity and the clamped steering angle. It stops before the wheel rate `vx / (wheel_diameter / 2)` and the published steering value `sin(angle) / wheel_base` (lines 284, 292), because those are floating-point trigonometry and divisions. The defaults give both divisors the value 0.
- Tick.OnTick: Ackermann mode requires a non-zero active scale. The source divides by `2 * req_scale` (line 287) and would produce an infinity or NaN for a zero scale.
- Buttons are booleans. `sensor_msgs/Joy` reports them as `int32`, and line 190 treats any non-zero value as pressed; the model keeps only pressed or not, which is all the callback uses.
- Floating-point rounding, infinities and NaN are not modelled. In particular `steering_angle` is a `float` compared against a `double`.
- `ros::Time` arithmetic is unbounded here. The source's `Time + Duration` throws on overflow of its 32-bit seconds field.
- The validator's error path is modelled only as the position of the first failing check (`Validation.FirstMissing`), not as the message text.
- A negative `deadman_button` index is outside the model, because line 190 reads `buttons[deadman_button]` without any check (`Snapshot.Readable`).

## Findings

| source | as written | input that shows it | evidently intended | confidence | as-written member | corrected member |
|---|---|---|---|---|---|---|
| tuw_gamepad/src/gamepad2twist.cpp:245-253 | the discrete axis is read (`fabs(axes[axis_*_discrete])`) before its index is tested for being non-negative | default parameters (`axis_vy_discrete = -1`, line 78) with the dead-man held and a snapshot that passes validation: line 248 reads `axes[-1]` | test the index before reading the axis, as the inner `if` shows was meant | high; not executed | Snapshot.DiscreteOverrideAsWritten, Snapshot.DefaultLateralDiscreteReadsOutOfBounds | Snapshot.DiscreteOverride, Snapshot.DiscreteOverrideAgrees |
