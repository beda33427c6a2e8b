# Arming / failsafe gate of the flight controller (class `Mode`)

This project models class `Mode` of the ROSflight firmware (`src/mode.cpp`):
the gate that decides, once per control cycle, whether the aircraft is
ARMED (motor output permitted) and whether the RC link has failed badly
enough to force FAILSAFE.

- `mode_types.dfy` (module `ModeTypes`): fixed-width integer types, the
  constants of the gate (20 ms epoch, 500 ms hold, the [900, 2100] µs pulse
  band, blink threshold 25, and the model's own bound of 127 configured
  channels), the error flags,
  the LED / calibration commands, the state of a `Mode` object as a value,
  the inputs of one `update_state` call, and the wrapping `uint32`
  arithmetic used for the clock and the hold timer.
- `mode_spec.dfy` (module `ModeSpec`): each member of `Mode` as a pure step
  function on the state. Their `ensures` clauses state what each member
  guarantees (rate limiting, failsafe pre-emption, error handling, the arm
  and calibration rules, the gesture and switch interfaces, the blink
  counter).
- `mode.dfy` (module `ModeClass`): `class Mode` itself. It has the member
  fields of the C++ class, plus the static blink counter of
  `check_failsafe` as a field. Its methods update those fields step by step
  in the order the source does, including the channel loop with its
  `int8_t` index. Each method is proved to leave exactly the state and the
  command log that the matching `ModeSpec` function gives.
- `mode_properties.dfy` (module `ModeProperties`): properties over several
  calls of `update_state`:
  - calls inside one epoch change nothing;
  - an error other than RcLost blocks arming forever;
  - the arm gesture arms on exactly the 26th epoch;
  - the disarm gesture held long enough disarms, and a mapped switch turned on arms in one epoch;
  - hold / release / hold hysteresis;
  - calibrate-on-arm gating;
  - disarm keeps the calibration latch;
  - the failsafe blink schedule;
  - a link-loss-then-restore scenario.

Collaborators are inputs:
- the clock;
- `pwm_lost` and `pwm_read`;
- the parameters;
- the gyro calibration status;
- the RC switch and the two stick conditions.

What the gate does to the status LED and to the gyro calibration is
recorded as a sequence of `Command`s. In the class this sequence is a ghost
field.

Four behaviours of the code that a reader might not expect:
- `disarm` clears only the armed flag. The calibration latch and the
  gesture hold timer survive it. `DisarmKeepsCalibrationLatch` shows the
  consequence: after a disarm, the next arm attempt does not start a new
  calibration.
- The blink counter is checked (`> 25`), then reset, then incremented. So
  from a fresh counter the first toggle comes on the 27th failsafe epoch,
  and after that one comes every 26th epoch. The counter is never reset
  when failsafe clears.
- With calibrate-on-arm, `arm()` on an armed aircraft with no error set
  returns true whenever the calibration reports complete.
- On the gesture path, a refused `arm()` keeps the accumulated hold time.
  `arm()` is therefore retried every epoch while the sticks stay held.

## Model

| member | source | states |
|---|---|---|
| ModeTypes.Elapsed | src/mode.cpp:164 | `now - prev` as `uint32`: the plain difference when `prev <= now`, and `2^32 - (prev - now)` when the clock has wrapped |
| ModeTypes.WrappingAdd | src/mode.cpp:189 | `uint32` addition of `dt` to the hold timer: exact without overflow; on overflow it wraps to `a + b - 2^32`, which is smaller than `a` |
| ModeSpec.Arm | src/mode.cpp:57-97 | With any error set, the call is refused and nothing changes. Only the armed flag and the latch can change, and arm never disarms. Success implies no error, a completed calibration when one is configured, and LED on (success iff LED on). Without calibrate-on-arm, it succeeds iff there is no error and the aircraft is disarmed. With calibrate-on-arm, the first call from disarmed/unlatched starts calibration, sets the latch and returns false; later calls, and calls while armed, succeed iff the calibration is complete. Calibration starts only while disarmed and unlatched. A failed call that starts nothing changes nothing. |
| ModeSpec.Disarm | src/mode.cpp:99-103 | The armed flag becomes false, LED off, and every other field (latch, timer, clock, errors, failsafe) is unchanged |
| ModeSpec.NextBlinkCount | src/mode.cpp:130-136 | The counter after a failsafe epoch is in 1..26: it is `count + 1` exactly when `count <= 25`, and 1 (reset to 0, then incremented) when `count > 25` |
| ModeSpec.BlinkCommands | src/mode.cpp:131-135 | The LED toggles in a failsafe epoch exactly when the counter seen on entry exceeds 25 |
| ModeSpec.CheckFailsafe | src/mode.cpp:105-156 | The result is true iff the link is lost or some configured channel is below 900 or above 2100. The failsafe flag equals the result. Link loss adds RcLost; a bad channel alone leaves the errors alone; a healthy link removes RcLost. Only the errors, the failsafe flag and the counter change. On a healthy link, the LED is on iff armed and the counter is kept. In failsafe, the counter is in 1..26 and the LED toggles iff the entry counter > 25. |
| ModeSpec.GestureStep | src/mode.cpp:183-218 | A released gesture resets the timer to 0. A hold that is not over 500 ms only grows the timer, with wrap-around. The armed flag changes only after a hold over 500 ms, and the timer then reads 0. An armed hold over 500 ms is `disarm()` plus a timer reset. A disarmed hold over 500 ms is `arm()`, with the timer reset only if arm succeeded. The clock, errors, failsafe flag and counter are not touched. |
| ModeSpec.SwitchStep | src/mode.cpp:220-231 | The armed flag is "switch on and (already armed or arm() succeeds)". Switch off is exactly `disarm()`. Switch on while armed changes nothing. Switch on while disarmed is exactly `arm()`. The hold timer is not touched. |
| ModeSpec.ArmingInterface | src/mode.cpp:181-231 | The switch interface runs when the arm switch is mapped, the gesture interface otherwise. Only the armed flag, the latch and the timer can change. |
| ModeSpec.ProcessEpoch | src/mode.cpp:173-232 | In a processed epoch, the failsafe flag equals "link failed". Failsafe changes nothing but the errors, the failsafe flag and the counter. Errors other than RcLost are untouched. RcLost is set on link loss and cleared on a healthy link. With a healthy link, a mapped switch that is off leaves the aircraft disarmed; in failsafe the armed flag is kept whatever the switch says. |
| ModeSpec.UpdateState | src/mode.cpp:159-234 | Returns true iff the wrapped elapsed time is at least 20 ms. When it returns false, state and commands are unchanged. When it returns true, the clock is recorded and the failsafe flag equals "link failed". Failsafe pre-empts arming: armed, timer and latch are kept. Errors other than RcLost are never touched, and the RcLost rules hold. In a processed epoch with a healthy link, a mapped switch that is off disarms; in failsafe it does not. |
| ModeSpec.ArmingNeedsPermission | src/mode.cpp:159-234 | One call arms a disarmed aircraft only if all of these hold: the epoch is processed; the link is healthy; there is no error but RcLost; when calibrate-on-arm is configured, an earlier call has started the calibration and it is now complete; and either the switch is on or the arm gesture has been held over 500 ms |
| ModeSpec.DisarmingNeedsCommand | src/mode.cpp:159-234 | One call disarms only if the epoch is processed, the link is healthy, and either the switch is off or the disarm gesture has been held over 500 ms |
| ModeSpec.Run | src/mode.cpp:159-234 | Over any sequence of `update_state` calls, errors other than RcLost are neither raised nor cleared |
| ModeClass.Mode.constructor | src/mode.cpp:41-46 | A new object is disarmed, with clock, hold timer and blink counter at 0 |
| ModeClass.Mode.Init | src/mode.cpp:48-55 | Disarmed, no error, no failsafe, latch clear; the clock, timer and counter are kept |
| ModeClass.Mode.SetErrorCode | src/mode.cpp:113 | Adds one error flag and changes nothing else |
| ModeClass.Mode.ClearErrorCode | src/mode.cpp:148 | Removes one error flag and changes nothing else |
| ModeClass.Mode.Arm | src/mode.cpp:57-97 | The imperative arm() leaves exactly the state, result and commands of `ModeSpec.Arm` |
| ModeClass.Mode.Disarm | src/mode.cpp:99-103 | The imperative disarm() leaves exactly the state and commands of `ModeSpec.Disarm` |
| ModeClass.Mode.CheckFailsafe | src/mode.cpp:105-156 | The channel loop, with invariant "failsafe iff some channel seen so far is out of band", plus the blink and flag updates, leaves exactly the state, result and commands of `ModeSpec.CheckFailsafe` |
| ModeClass.Mode.GestureInterface | src/mode.cpp:183-218 | The imperative gesture branch leaves exactly the state and commands of `ModeSpec.GestureStep` |
| ModeClass.Mode.SwitchInterface | src/mode.cpp:220-231 | The imperative switch branch leaves exactly the state and commands of `ModeSpec.SwitchStep` |
| ModeClass.Mode.ProcessEpoch | src/mode.cpp:173-232 | check_failsafe, then the selected arming interface unless failsafe, leaves exactly the state and commands of `ModeSpec.ProcessEpoch` |
| ModeClass.Mode.UpdateState | src/mode.cpp:159-234 | The imperative update_state leaves exactly the state, result and commands of `ModeSpec.UpdateState` |
| ModeProperties.RateLimitedCallsChangeNothing | src/mode.cpp:163-168 | Any number of calls within 20 ms of the last processed time leave state and commands unchanged |
| ModeProperties.ErrorBlocksArming | src/mode.cpp:60-64 | While an error other than RcLost is set, no sequence of calls arms a disarmed aircraft |
| ModeProperties.ArmGestureAccumulates | src/mode.cpp:183-199 | Epochs of exactly 20 ms with the arm gesture held, totalling at most 500 ms: the aircraft stays disarmed, the timer grows by 20 ms per epoch, no calibration starts, and each epoch only turns the LED off |
| ModeProperties.ArmGestureArmsOnTwentySixthEpoch | src/mode.cpp:183-199 | From a zero timer, with no error but RcLost and no calibration on arm, the first 25 epochs leave the aircraft disarmed, and the 26th arms it, turns the LED on and resets the timer |
| ModeProperties.ReleaseResetsHold | src/mode.cpp:191-194 | A processed healthy epoch with the gesture released leaves the aircraft disarmed with the timer at 0 |
| ModeProperties.DisarmGestureDisarms | src/mode.cpp:201-217 | In a processed healthy epoch, an armed aircraft whose disarm gesture has been held over 500 ms is disarmed; the timer restarts and the latch is kept. The LED is set on by the healthy link and then turned off. |
| ModeProperties.HoldReleaseHoldDoesNotArm | src/mode.cpp:186-199 | A hold of up to 500 ms, one released epoch, then another hold of up to 500 ms never arms, and the timer counts only the second hold |
| ModeProperties.SwitchOnArms | src/mode.cpp:220-226 | With the arm switch mapped and on, no error but RcLost and no calibrate-on-arm, one processed healthy epoch arms a disarmed aircraft and leaves the LED on; the hold timer is untouched |
| ModeProperties.CalibrationPending | src/mode.cpp:67-83 | While the calibration is latched and not complete, switch-on epochs never arm and keep the latch |
| ModeProperties.CalibrationStarts | src/mode.cpp:69-74 | The first switch-on epoch with calibrate-on-arm starts a calibration, sets the latch and does not arm, even if the calibration already reports complete |
| ModeProperties.CalibrationCompletes | src/mode.cpp:75-81 | A latched epoch that sees the calibration complete arms, clears the latch and turns the LED on |
| ModeProperties.CalibrationGatesArming | src/mode.cpp:67-83 | Start, any number of pending epochs, then completion: the aircraft is armed only after completion is seen |
| ModeProperties.DisarmKeepsCalibrationLatch | src/mode.cpp:57-103 | A disarm after a calibration start keeps the latch, and the next arm attempt arms on completion without starting a new calibration |
| ModeProperties.ToggleLogQuiet | src/mode.cpp:130-136 | No toggle while the counter has not passed 25 |
| ModeProperties.FirstToggle | src/mode.cpp:130-136 | From counter `c <= 26`, the first toggle comes on failsafe epoch `27 - c`, after which the counter restarts from 1 |
| ModeProperties.ToggleEvery26 | src/mode.cpp:130-136 | After a toggle, the LED toggles once every 26 failsafe epochs |
| ModeProperties.LinkLostRun | src/mode.cpp:109-139 | Link-lost epochs issue exactly the blink schedule. They keep failsafe active with RcLost set, and leave the armed flag, timer and latch unchanged. |
| ModeProperties.LinkLossBlinksOnce | src/mode.cpp:127-140 | 30 link-lost epochs from a fresh counter give no toggle in the first 26 epochs, exactly one toggle by the 27th, and one toggle in total; failsafe and RcLost are set and the armed flag is untouched |
| ModeProperties.LinkRestored | src/mode.cpp:141-154 | The first healthy epoch after loss leaves failsafe, clears RcLost and turns the LED off on a disarmed aircraft |
| ModeProperties.LinkLossScenario | src/mode.cpp:105-177 | 30 epochs of lost link while disarmed give one toggle, failsafe and RcLost; the next healthy epoch clears them and turns the LED off |

## Left out

- Stick positions and the arm threshold are floating point in the source. The two stick conditions are boolean inputs, `armGesture` and `disarmGesture`; the disarm gesture is the one with the opposite yaw sign. Float arithmetic is not modelled.
- The bodies of `set_error_code` and `clear_error_code`, and the error-code type, are in files that are not part of this model. The error code is modelled as a set of flags: set adds a flag, clear removes it, and the empty set is `ERROR_NONE`.
- ModeClass.Mode.CheckFailsafe: requires at most 127 configured channels, a bound of the model only; the source sets no limit. With 128 or more configured channels, the source's `int8_t` loop index overflows past 127. That is undefined behaviour, and in practice the channel loop never ends. The model does not cover it. The same bound is part of `WellFormed`, so it also applies to `ModeSpec.UpdateState`, `ModeSpec.ProcessEpoch` and `ModeSpec.Run`.
- The widths of `prev_time_ms` and of the hold timer are declared in `mode.h`, which is not part of this model. Both are taken as `uint32_t`, the type of `now_ms` and `dt`, with explicit wrap-around.
- The blink counter is a function-static variable, shared by every `Mode` object. It is modelled as a field of the one object.
- Hardware effects are not modelled. The LED, the calibration start, the clock, `pwm_lost`, `pwm_read`, parameters and RC queries are inputs or entries in the command log. The timing of hardware effects is not modelled.
- The `ROSflight` back-pointer stored by `init` is not modelled, since it carries no logic.
- ModeClass.Mode.constructor: states only the fields that `Mode::Mode` assigns. The error set, the failsafe flag and the latch are left unconstrained until `Init`, as in the source.
