/** Types, constants and fixed-width arithmetic shared by the model of the
    arming / failsafe gate (class Mode of the flight-control firmware). */
module ModeTypes {

  const TWO_32: int := 0x1_0000_0000

  type uint32 = x: int | 0 <= x < TWO_32
  type uint16 = x: int | 0 <= x < 0x1_0000
  type uint8 = x: int | 0 <= x < 0x100
  type int8 = x: int | -0x80 <= x < 0x80

  /** Length of one processing epoch of update_state, in milliseconds. */
  const EPOCH_MS: uint32 := 20
  /** A stick gesture must be held strictly longer than this to act. */
  const ARM_HOLD_MS: uint32 := 500
  /** Valid RC pulse-width band, in microseconds (both ends valid). */
  const PWM_MIN_US: int := 900
  const PWM_MAX_US: int := 2100
  /** The failsafe blink counter toggles the LED once it exceeds this. */
  const BLINK_THRESHOLD: uint8 := 25
  /** The model's bound on the configured channel count. The source scans
      with an int8_t index, which overflows past 127 channels; the model
      covers only counts the index can reach. */
  const MAX_RC_CHANNELS: int := 127

  /** The firmware-wide error flags. Only RcLost is owned by this module;
      the others are raised and cleared elsewhere. An empty set is ERROR_NONE. */
  datatype ErrorCode = RcLost | OtherError(code: nat)

  /** Commands issued to collaborators: the status LED and the gyro calibration. */
  datatype Command = LedOn | LedOff | LedToggle | StartGyroCalibration

  /** The member fields of Mode, plus the blink counter that the source keeps
      as a function-static variable of check_failsafe. */
  datatype ModeState = ModeState(
    armed: bool,
    errorCodes: set<ErrorCode>,
    failsafeActive: bool,
    startedGyroCalibration: bool,
    prevTimeMs: uint32,
    stickHoldMs: uint32,   // time_sticks_have_been_in_arming_position_ms
    blinkCount: uint8)

  /** Everything update_state reads from its collaborators in one call:
      the clock, the PWM link, the parameters, the gyro calibration status
      and the RC sticks and arm switch. The two stick conditions are float
      comparisons in the source and appear here as their boolean outcomes:
      armGesture is "throttle below the arm threshold and yaw above
      1 - threshold"; disarmGesture is "throttle below the threshold and
      yaw below -(1 - threshold)", the opposite yaw sign. */
  datatype Inputs = Inputs(
    nowMs: uint32,
    pwmLost: bool,
    rcNumChannels: int,
    pwm: seq<uint16>,           // pwm[i] is what pwm_read(i) returns
    calibrateGyroOnArm: bool,
    gyroCalibrationComplete: bool,
    armSwitchMapped: bool,
    armSwitchOn: bool,
    armGesture: bool,
    disarmGesture: bool)

  /** The channel scan reads one pulse width per configured channel, and
      the model bounds the channel count by MAX_RC_CHANNELS, the last
      value the source's int8_t index reaches. */
  predicate WellFormed(inp: Inputs) {
    inp.rcNumChannels <= MAX_RC_CHANNELS && inp.rcNumChannels <= |inp.pwm|
  }

  /** The outcome of a member that returns a bool: new state, the value
      returned and the commands issued, in order. */
  datatype Step = Step(state: ModeState, result: bool, commands: seq<Command>)

  /** The outcome of a member that returns nothing. */
  datatype Effect = Effect(state: ModeState, commands: seq<Command>)

  /** uint32 subtraction now - prev, which wraps once around 2^32. */
  function Elapsed(now: uint32, prev: uint32): (dt: uint32)
    ensures prev <= now ==> dt == now - prev
    ensures now < prev ==> dt == TWO_32 - (prev - now)
  {
    (now - prev) % TWO_32
  }

  /** uint32 addition, which wraps around 2^32. */
  function WrappingAdd(a: uint32, b: uint32): (r: uint32)
    ensures a + b < TWO_32 ==> r == a + b
    ensures a + b >= TWO_32 ==> r == a + b - TWO_32 && r < a
  {
    (a + b) % TWO_32
  }

  /** A pulse width outside [PWM_MIN_US, PWM_MAX_US] is invalid. */
  predicate OutOfBand(width: uint16) {
    width < PWM_MIN_US || width > PWM_MAX_US
  }

  /** Some configured channel (index below rcNumChannels) carries an invalid pulse. */
  predicate SomeChannelOutOfBand(rcNumChannels: int, pwm: seq<uint16>)
    requires rcNumChannels <= |pwm|
  {
    exists k :: 0 <= k < rcNumChannels && OutOfBand(pwm[k])
  }

  /** The link is bad enough to force failsafe. */
  predicate LinkFailed(inp: Inputs)
    requires WellFormed(inp)
  {
    inp.pwmLost || SomeChannelOutOfBand(inp.rcNumChannels, inp.pwm)
  }
}
