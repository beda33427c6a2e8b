/** The arming / failsafe gate as pure step functions on ModeState. Each
    function gives the effect of one member of class Mode; its ensures clauses
    state what that member guarantees. Class Mode (module ModeClass) is proved
    to change its fields exactly as these functions say. */
module ModeSpec {
  import opened ModeTypes

  /** arm(): refuses while any error is set; with calibrate-on-arm it first
      starts a gyro calibration and latches that, then arms on the first
      call that sees the calibration complete; otherwise it arms a disarmed
      aircraft at once. */
  function Arm(s: ModeState, calibrateGyroOnArm: bool, gyroCalibrationComplete: bool): (r: Step)
    // any error: refused, nothing changes
    ensures s.errorCodes != {} ==> r == Step(s, false, [])
    // only the armed flag and the calibration latch can change
    ensures r.state == s.(armed := r.state.armed, startedGyroCalibration := r.state.startedGyroCalibration)
    // arm never disarms, and a true result always leaves the aircraft armed
    ensures r.state.armed == (s.armed || r.result)
    // what a successful arm implies
    ensures r.result ==> s.errorCodes == {} && (calibrateGyroOnArm ==> gyroCalibrationComplete)
    ensures r.result ==> !r.state.startedGyroCalibration || !calibrateGyroOnArm
    ensures r.result <==> LedOn in r.commands
    // without calibrate-on-arm: succeeds exactly on a disarmed, error-free aircraft
    ensures !calibrateGyroOnArm ==> (r.result <==> s.errorCodes == {} && !s.armed)
    ensures !calibrateGyroOnArm ==> r.state.startedGyroCalibration == s.startedGyroCalibration
    // with calibrate-on-arm: the first call starts calibration and does not arm
    ensures calibrateGyroOnArm && s.errorCodes == {} && !s.startedGyroCalibration && !s.armed ==>
      r == Step(s.(startedGyroCalibration := true), false, [StartGyroCalibration])
    // later calls (or any call while armed) succeed exactly when calibration is complete
    ensures calibrateGyroOnArm && s.errorCodes == {} && (s.startedGyroCalibration || s.armed) ==>
      (r.result <==> gyroCalibrationComplete)
    // a calibration is started only while disarmed and not yet latched
    ensures StartGyroCalibration in r.commands ==> !s.armed && !s.startedGyroCalibration && r.state.startedGyroCalibration
    // a failed call that starts nothing changes nothing
    ensures !r.result && StartGyroCalibration !in r.commands ==> r == Step(s, false, [])
  {
    if s.errorCodes != {} then
      Step(s, false, [])
    else if calibrateGyroOnArm then
      if !s.startedGyroCalibration && !s.armed then
        Step(s.(startedGyroCalibration := true), false, [StartGyroCalibration])
      else if gyroCalibrationComplete then
        Step(s.(startedGyroCalibration := false, armed := true), true, [LedOn])
      else
        Step(s, false, [])
    else if !s.armed then
      Step(s.(armed := true), true, [LedOn])
    else
      Step(s, false, [])
  }

  /** disarm(): clears the armed flag and turns the LED off; nothing else. */
  function Disarm(s: ModeState): (r: Effect)
    ensures !r.state.armed
    ensures r.state.(armed := s.armed) == s
    ensures r.commands == [LedOff]
  {
    Effect(s.(armed := false), [LedOff])
  }

  /** The failsafe blink counter after one failsafe epoch: reset to 0 once
      it exceeds the threshold, then incremented. */
  function NextBlinkCount(count: uint8): (next: uint8)
    ensures 1 <= next <= BLINK_THRESHOLD + 1
    ensures count <= BLINK_THRESHOLD <==> next == count + 1
    ensures count > BLINK_THRESHOLD ==> next == 1
  {
    if count > BLINK_THRESHOLD then 1 else count + 1
  }

  /** The LED command of one failsafe epoch, decided by the counter on entry. */
  function BlinkCommands(count: uint8): (cmds: seq<Command>)
    ensures cmds == [] || cmds == [LedToggle]
    ensures cmds == [LedToggle] <==> count > BLINK_THRESHOLD
  {
    if count > BLINK_THRESHOLD then [LedToggle] else []
  }

  /** check_failsafe(): failsafe when the link is lost (which also raises
      RcLost) or when a configured channel is outside the valid band (which
      does not). In failsafe the LED blinks; otherwise RcLost is cleared
      and the LED shows the armed state. */
  function CheckFailsafe(s: ModeState, pwmLost: bool, rcNumChannels: int, pwm: seq<uint16>): (r: Step)
    requires rcNumChannels <= |pwm|
    ensures r.result <==> pwmLost || exists k :: 0 <= k < rcNumChannels && OutOfBand(pwm[k])
    ensures r.state.failsafeActive == r.result
    // RcLost is raised only on true link loss, and cleared whenever the link is healthy
    ensures pwmLost ==> r.state.errorCodes == s.errorCodes + {RcLost}
    ensures !pwmLost && r.result ==> r.state.errorCodes == s.errorCodes
    ensures !r.result ==> r.state.errorCodes == s.errorCodes - {RcLost}
    // only the error set, the failsafe flag and the blink counter change
    ensures r.state.(errorCodes := s.errorCodes, failsafeActive := s.failsafeActive, blinkCount := s.blinkCount) == s
    // healthy link: the LED follows the armed flag and the counter is left alone
    ensures !r.result ==> r.state.blinkCount == s.blinkCount
    ensures !r.result ==> r.commands == [if s.armed then LedOn else LedOff]
    // failsafe: the counter stays within 1..26, and the LED toggles exactly
    // when the counter seen on entry exceeds the threshold
    ensures r.result ==> 1 <= r.state.blinkCount <= BLINK_THRESHOLD + 1
    ensures r.result ==> (r.commands == [LedToggle] <==> s.blinkCount > BLINK_THRESHOLD)
    ensures r.result ==> (r.commands == [] || r.commands == [LedToggle])
  {
    var failsafe := pwmLost || SomeChannelOutOfBand(rcNumChannels, pwm);
    if failsafe then
      var errors := if pwmLost then s.errorCodes + {RcLost} else s.errorCodes;
      Step(s.(errorCodes := errors, failsafeActive := true, blinkCount := NextBlinkCount(s.blinkCount)),
           true, BlinkCommands(s.blinkCount))
    else
      Step(s.(errorCodes := s.errorCodes - {RcLost}, failsafeActive := false),
           false, [if s.armed then LedOn else LedOff])
  }

  /** Whether the gesture for the current direction is held: the arm
      gesture while disarmed, the disarm gesture while armed. */
  predicate GestureHeld(s: ModeState, inp: Inputs) {
    if s.armed then inp.disarmGesture else inp.armGesture
  }

  /** The stick-gesture interface of update_state (arm switch unmapped), for
      an epoch of length dt. The hold timer grows while the gesture for the
      current direction holds and drops to 0 as soon as it does not; arm()
      or disarm() is invoked only once the timer exceeds ARM_HOLD_MS. After
      a gesture disarm the timer is reset; after an arm attempt only if
      arm() returned true. */
  function GestureStep(s: ModeState, inp: Inputs, dt: uint32): (r: Effect)
    // the clock, errors, failsafe flag and blink counter are not touched
    ensures r.state.prevTimeMs == s.prevTimeMs && r.state.errorCodes == s.errorCodes
    ensures r.state.failsafeActive == s.failsafeActive && r.state.blinkCount == s.blinkCount
    // released: timer back to 0, no arming action
    ensures !GestureHeld(s, inp) ==> r == Effect(s.(stickHoldMs := 0), [])
    // held, but not yet longer than the hold time: only the timer grows
    ensures GestureHeld(s, inp) && WrappingAdd(s.stickHoldMs, dt) <= ARM_HOLD_MS ==>
      r == Effect(s.(stickHoldMs := WrappingAdd(s.stickHoldMs, dt)), [])
    // the armed flag changes only after a hold longer than ARM_HOLD_MS,
    // and every change restarts the timer
    ensures r.state.armed != s.armed ==>
      GestureHeld(s, inp) && WrappingAdd(s.stickHoldMs, dt) > ARM_HOLD_MS && r.state.stickHoldMs == 0
    // armed, disarm gesture held long enough: disarm and restart the timer
    ensures s.armed && GestureHeld(s, inp) && WrappingAdd(s.stickHoldMs, dt) > ARM_HOLD_MS ==>
      r == Effect(Disarm(s).state.(stickHoldMs := 0), [LedOff])
    // disarmed, arm gesture held long enough: the outcome of arm() decides;
    // a refused arm keeps the accumulated time, so arm() is retried next epoch
    ensures !s.armed && GestureHeld(s, inp) && WrappingAdd(s.stickHoldMs, dt) > ARM_HOLD_MS ==>
      var a := Arm(s, inp.calibrateGyroOnArm, inp.gyroCalibrationComplete);
      && r.state.armed == a.result
      && r.state.stickHoldMs == (if a.result then 0 else WrappingAdd(s.stickHoldMs, dt))
      && r.state.startedGyroCalibration == a.state.startedGyroCalibration
      && r.commands == a.commands
  {
    var held := if GestureHeld(s, inp) then WrappingAdd(s.stickHoldMs, dt) else 0;
    var s1 := s.(stickHoldMs := held);
    if held > ARM_HOLD_MS then
      if !s.armed then
        var a := Arm(s1, inp.calibrateGyroOnArm, inp.gyroCalibrationComplete);
        Effect(if a.result then a.state.(stickHoldMs := 0) else a.state, a.commands)
      else
        var d := Disarm(s1);
        Effect(d.state.(stickHoldMs := 0), d.commands)
    else
      Effect(s1, [])
  }

  /** The arm-switch interface of update_state (arm switch mapped): switch
      off disarms every epoch; switch on calls arm() only while disarmed. */
  function SwitchStep(s: ModeState, inp: Inputs): (r: Effect)
    // the armed flag follows the switch level, subject to arm() succeeding
    ensures r.state.armed == (inp.armSwitchOn &&
      (s.armed || Arm(s, inp.calibrateGyroOnArm, inp.gyroCalibrationComplete).result))
    ensures !inp.armSwitchOn ==> r == Disarm(s)
    ensures inp.armSwitchOn && s.armed ==> r == Effect(s, [])
    ensures inp.armSwitchOn && !s.armed ==>
      var a := Arm(s, inp.calibrateGyroOnArm, inp.gyroCalibrationComplete);
      r == Effect(a.state, a.commands)
    // the hold timer is not used by this interface
    ensures r.state.stickHoldMs == s.stickHoldMs
  {
    if inp.armSwitchOn then
      if !s.armed then
        var a := Arm(s, inp.calibrateGyroOnArm, inp.gyroCalibrationComplete);
        Effect(a.state, a.commands)
      else
        Effect(s, [])
    else
      Disarm(s)
  }

  /** The arming logic of a processed epoch without failsafe: the switch
      interface when the arm switch is mapped, the gesture interface otherwise. */
  function ArmingInterface(s: ModeState, inp: Inputs, dt: uint32): (r: Effect)
    // only the armed flag, the calibration latch and the hold timer can change
    ensures r.state == s.(armed := r.state.armed, startedGyroCalibration := r.state.startedGyroCalibration,
                          stickHoldMs := r.state.stickHoldMs)
    ensures inp.armSwitchMapped ==> r == SwitchStep(s, inp)
    ensures !inp.armSwitchMapped ==> r == GestureStep(s, inp, dt)
  {
    if !inp.armSwitchMapped then GestureStep(s, inp, dt) else SwitchStep(s, inp)
  }

  /** The work of a processed epoch of length dt, once the clock has been
      recorded: failsafe evaluation, then the arming logic unless failsafe. */
  function ProcessEpoch(s: ModeState, inp: Inputs, dt: uint32): (r: Effect)
    requires WellFormed(inp)
    ensures r.state.prevTimeMs == s.prevTimeMs
    ensures r.state.failsafeActive == LinkFailed(inp)
    ensures LinkFailed(inp) ==>
      r.state.(errorCodes := s.errorCodes, failsafeActive := s.failsafeActive, blinkCount := s.blinkCount) == s
    ensures r.state.errorCodes - {RcLost} == s.errorCodes - {RcLost}
    ensures inp.pwmLost ==> RcLost in r.state.errorCodes
    ensures !LinkFailed(inp) ==> RcLost !in r.state.errorCodes
    ensures !LinkFailed(inp) && inp.armSwitchMapped && !inp.armSwitchOn ==> !r.state.armed
  {
    var f := CheckFailsafe(s, inp.pwmLost, inp.rcNumChannels, inp.pwm);
    if f.result then
      Effect(f.state, f.commands)
    else
      var e := ArmingInterface(f.state, inp, dt);
      Effect(e.state, f.commands + e.commands)
  }

  /** update_state(): at most one epoch per EPOCH_MS of (wrapping) clock
      time; a processed epoch records the time, evaluates failsafe, and, only
      when there is no failsafe, runs the switch or the gesture interface. */
  function UpdateState(s: ModeState, inp: Inputs): (r: Step)
    requires WellFormed(inp)
    // rate limit: returns true exactly when at least EPOCH_MS have passed,
    // and otherwise changes nothing
    ensures r.result <==> Elapsed(inp.nowMs, s.prevTimeMs) >= EPOCH_MS
    ensures !r.result ==> r == Step(s, false, [])
    ensures r.result ==> r.state.prevTimeMs == inp.nowMs
    ensures r.result ==> r.state.failsafeActive == LinkFailed(inp)
    // failsafe pre-empts all arming logic
    ensures r.result && LinkFailed(inp) ==>
      && r.state.armed == s.armed
      && r.state.stickHoldMs == s.stickHoldMs
      && r.state.startedGyroCalibration == s.startedGyroCalibration
    // RcLost is raised on link loss and cleared on a healthy link; other
    // errors belong to the rest of the firmware and are never touched
    ensures r.state.errorCodes - {RcLost} == s.errorCodes - {RcLost}
    ensures r.result && inp.pwmLost ==> RcLost in r.state.errorCodes
    ensures r.result && !LinkFailed(inp) ==> RcLost !in r.state.errorCodes
    // with the switch mapped and off, every processed healthy epoch leaves the aircraft disarmed
    ensures r.result && !LinkFailed(inp) && inp.armSwitchMapped && !inp.armSwitchOn ==> !r.state.armed
  {
    var dt := Elapsed(inp.nowMs, s.prevTimeMs);
    if dt < EPOCH_MS then
      Step(s, false, [])
    else
      var e := ProcessEpoch(s.(prevTimeMs := inp.nowMs), inp, dt);
      Step(e.state, true, e.commands)
  }

  /** Arming requires a processed epoch with a healthy link, no error
      other than RcLost (which a healthy epoch clears), a calibration
      started by an earlier call and now complete when one is configured,
      and either the switch on or the arm gesture held for longer than
      ARM_HOLD_MS. */
  lemma ArmingNeedsPermission(s: ModeState, inp: Inputs)
    requires WellFormed(inp)
    ensures !s.armed && UpdateState(s, inp).state.armed ==>
      && UpdateState(s, inp).result && !LinkFailed(inp)
      && s.errorCodes - {RcLost} == {}
      && (inp.calibrateGyroOnArm ==> inp.gyroCalibrationComplete && s.startedGyroCalibration)
      && (inp.armSwitchMapped ==> inp.armSwitchOn)
      && (!inp.armSwitchMapped ==>
            inp.armGesture && WrappingAdd(s.stickHoldMs, Elapsed(inp.nowMs, s.prevTimeMs)) > ARM_HOLD_MS)
  {
  }

  /** Disarming requires a processed epoch with a healthy link and either
      the switch off or the disarm gesture held for longer than ARM_HOLD_MS. */
  lemma DisarmingNeedsCommand(s: ModeState, inp: Inputs)
    requires WellFormed(inp)
    ensures s.armed && !UpdateState(s, inp).state.armed ==>
      && UpdateState(s, inp).result && !LinkFailed(inp)
      && (inp.armSwitchMapped ==> !inp.armSwitchOn)
      && (!inp.armSwitchMapped ==>
            inp.disarmGesture && WrappingAdd(s.stickHoldMs, Elapsed(inp.nowMs, s.prevTimeMs)) > ARM_HOLD_MS)
  {
  }

  predicate AllWellFormed(ins: seq<Inputs>) {
    forall i | 0 <= i < |ins| :: WellFormed(ins[i])
  }

  /** Successive calls of update_state, one per element of ins. */
  function Run(s: ModeState, ins: seq<Inputs>): (r: Effect)
    requires AllWellFormed(ins)
    // errors other than RcLost are never raised or cleared by this module
    ensures r.state.errorCodes - {RcLost} == s.errorCodes - {RcLost}
    decreases |ins|
  {
    if ins == [] then
      Effect(s, [])
    else
      var st := UpdateState(s, ins[0]);
      var rest := Run(st.state, ins[1..]);
      Effect(rest.state, st.commands + rest.commands)
  }
}
