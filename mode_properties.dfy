/** Properties of the arming / failsafe gate over several calls of
    update_state: rate limiting, errors blocking arming, gesture timing,
    calibration gating and the failsafe blink schedule. */
module ModeProperties {
  import opened ModeTypes
  import opened ModeSpec

  /** The time stamp of the last call in ins, or prev when there is none. */
  function LastTime(prev: uint32, ins: seq<Inputs>): uint32 {
    if ins == [] then prev else ins[|ins| - 1].nowMs
  }

  /** Each call in ins comes exactly dt after the one before it, the first
      one dt after prev. */
  predicate Paced(prev: uint32, ins: seq<Inputs>, dt: uint32)
    decreases |ins|
  {
    ins == [] || (Elapsed(ins[0].nowMs, prev) == dt && Paced(ins[0].nowMs, ins[1..], dt))
  }

  lemma {:induction false} PacedAppend(prev: uint32, a: seq<Inputs>, b: seq<Inputs>, dt: uint32)
    ensures Paced(prev, a + b, dt) <==> Paced(prev, a, dt) && Paced(LastTime(prev, a), b, dt)
    decreases |a|
  {
    if a == [] {
      assert a + b == b;
    } else {
      assert (a + b)[1..] == a[1..] + b;
      PacedAppend(a[0].nowMs, a[1..], b, dt);
      assert LastTime(a[0].nowMs, a[1..]) == LastTime(prev, a);
    }
  }

  // ---------------------------------------------------------------------
  // Rate limiting

  /** Calls that come less than one epoch after the last processed time
      change nothing at all, however many there are. */
  lemma {:induction false} RateLimitedCallsChangeNothing(s: ModeState, ins: seq<Inputs>)
    requires AllWellFormed(ins)
    requires forall i | 0 <= i < |ins| :: Elapsed(ins[i].nowMs, s.prevTimeMs) < EPOCH_MS
    ensures Run(s, ins) == Effect(s, [])
    decreases |ins|
  {
    if ins != [] {
      assert UpdateState(s, ins[0]) == Step(s, false, []);
      RateLimitedCallsChangeNothing(s, ins[1..]);
    }
  }

  // ---------------------------------------------------------------------
  // Errors block arming

  /** While an error other than RcLost is set, no sequence of calls arms a
      disarmed aircraft, whatever the switch, the sticks or the calibration
      do. */
  lemma {:induction false} ErrorBlocksArming(s: ModeState, ins: seq<Inputs>, e: ErrorCode)
    requires AllWellFormed(ins)
    requires e in s.errorCodes && e != RcLost && !s.armed
    ensures !Run(s, ins).state.armed
    decreases |ins|
  {
    if ins != [] {
      var st := UpdateState(s, ins[0]).state;
      assert e in s.errorCodes - {RcLost};
      ArmingNeedsPermission(s, ins[0]);
      assert e in st.errorCodes - {RcLost};
      ErrorBlocksArming(st, ins[1..], e);
    }
  }

  // ---------------------------------------------------------------------
  // Stick-gesture timing

  /** An epoch with a healthy link, no arm switch and the arm gesture held. */
  predicate ArmGestureEpoch(inp: Inputs) {
    WellFormed(inp) && !LinkFailed(inp) && !inp.armSwitchMapped && inp.armGesture
  }

  /** Holding the arm gesture through epochs of EPOCH_MS each, while the
      total stays within ARM_HOLD_MS, only grows the hold timer: the
      aircraft stays disarmed, no calibration starts and the LED stays off. */
  lemma {:induction false} ArmGestureAccumulates(s: ModeState, ins: seq<Inputs>)
    requires forall i | 0 <= i < |ins| :: ArmGestureEpoch(ins[i])
    requires Paced(s.prevTimeMs, ins, EPOCH_MS)
    requires !s.armed && s.stickHoldMs + EPOCH_MS * |ins| <= ARM_HOLD_MS
    ensures AllWellFormed(ins)
    ensures !Run(s, ins).state.armed
    ensures Run(s, ins).state.stickHoldMs == s.stickHoldMs + EPOCH_MS * |ins|
    ensures Run(s, ins).state.startedGyroCalibration == s.startedGyroCalibration
    ensures Run(s, ins).state.prevTimeMs == LastTime(s.prevTimeMs, ins)
    ensures Run(s, ins).commands == seq(|ins|, _ => LedOff)
    decreases |ins|
  {
    if ins != [] {
      var inp := ins[0];
      var s1 := s.(prevTimeMs := inp.nowMs);
      var f := CheckFailsafe(s1, inp.pwmLost, inp.rcNumChannels, inp.pwm);
      assert !f.result && f.commands == [LedOff];
      var g := GestureStep(f.state, inp, EPOCH_MS);
      assert g == Effect(f.state.(stickHoldMs := s.stickHoldMs + EPOCH_MS), []);
      var st := UpdateState(s, inp);
      assert st.state == g.state && st.commands == [LedOff];
      ArmGestureAccumulates(st.state, ins[1..]);
      assert LastTime(inp.nowMs, ins[1..]) == LastTime(s.prevTimeMs, ins);
      assert [LedOff] + seq(|ins| - 1, _ => LedOff) == seq(|ins|, _ => LedOff);
    }
  }

  /** Holding the arm gesture from a zero timer, with no error but RcLost
      and no calibration on arm: the first 25 epochs of EPOCH_MS make
      500 ms, which is not more than ARM_HOLD_MS, so the aircraft stays
      disarmed; the 26th epoch arms it, turns the LED on and resets the
      timer. */
  lemma ArmGestureArmsOnTwentySixthEpoch(s: ModeState, ins: seq<Inputs>)
    requires |ins| == 26
    requires forall i | 0 <= i < |ins| :: ArmGestureEpoch(ins[i]) && !ins[i].calibrateGyroOnArm
    requires Paced(s.prevTimeMs, ins, EPOCH_MS)
    requires !s.armed && s.stickHoldMs == 0 && s.errorCodes - {RcLost} == {}
    ensures AllWellFormed(ins[..25]) && WellFormed(ins[25])
    ensures forall k | 0 <= k <= 25 :: !Run(s, ins[..k]).state.armed
    ensures var r := UpdateState(Run(s, ins[..25]).state, ins[25]);
      r.state.armed && r.state.stickHoldMs == 0 && LedOn in r.commands
  {
    forall k | 0 <= k <= 25
      ensures !Run(s, ins[..k]).state.armed
    {
      assert ins == ins[..k] + ins[k..];
      PacedAppend(s.prevTimeMs, ins[..k], ins[k..], EPOCH_MS);
      ArmGestureAccumulates(s, ins[..k]);
    }
    var a := ins[..25];
    assert ins == a + ins[25..];
    PacedAppend(s.prevTimeMs, a, ins[25..], EPOCH_MS);
    ArmGestureAccumulates(s, a);
    var s25 := Run(s, a).state;
    assert s25.stickHoldMs == ARM_HOLD_MS && !s25.armed;
    var inp := ins[25];
    assert Elapsed(inp.nowMs, s25.prevTimeMs) == EPOCH_MS;
    var f := CheckFailsafe(s25.(prevTimeMs := inp.nowMs), inp.pwmLost, inp.rcNumChannels, inp.pwm);
    assert !f.result && f.state.errorCodes == {};
    assert Arm(f.state.(stickHoldMs := ARM_HOLD_MS + EPOCH_MS), false, inp.gyroCalibrationComplete).result;
  }

  /** One processed epoch with a healthy link and the gesture released
      restarts the hold timer and does not arm. */
  lemma ReleaseResetsHold(s: ModeState, release: Inputs)
    requires WellFormed(release) && !LinkFailed(release) && !release.armSwitchMapped && !release.armGesture
    requires !s.armed && Elapsed(release.nowMs, s.prevTimeMs) >= EPOCH_MS
    ensures var r := UpdateState(s, release).state;
      !r.armed && r.stickHoldMs == 0 && r.prevTimeMs == release.nowMs
  {
    var f := CheckFailsafe(s.(prevTimeMs := release.nowMs), release.pwmLost, release.rcNumChannels, release.pwm);
    assert !f.result;
  }

  /** The disarm gesture held for longer than ARM_HOLD_MS in a processed
      healthy epoch disarms an armed aircraft: the LED is first set on by
      the healthy link, then turned off by disarm(), and the timer restarts. */
  lemma DisarmGestureDisarms(s: ModeState, inp: Inputs)
    requires WellFormed(inp) && !LinkFailed(inp) && !inp.armSwitchMapped && inp.disarmGesture
    requires s.armed && Elapsed(inp.nowMs, s.prevTimeMs) >= EPOCH_MS
    requires WrappingAdd(s.stickHoldMs, Elapsed(inp.nowMs, s.prevTimeMs)) > ARM_HOLD_MS
    ensures var r := UpdateState(s, inp);
      && r.result && !r.state.armed && r.state.stickHoldMs == 0
      && r.state.startedGyroCalibration == s.startedGyroCalibration
      && r.commands == [LedOn, LedOff]
  {
    var f := CheckFailsafe(s.(prevTimeMs := inp.nowMs), inp.pwmLost, inp.rcNumChannels, inp.pwm);
    assert !f.result && f.commands == [LedOn];
  }

  /** Hysteresis: a hold of up to 500 ms, one epoch with the gesture
      released, and another hold of up to 500 ms do not arm; the timer
      counts only the second hold. */
  lemma HoldReleaseHoldDoesNotArm(s: ModeState, hold1: seq<Inputs>, release: Inputs, hold2: seq<Inputs>)
    requires forall i | 0 <= i < |hold1| :: ArmGestureEpoch(hold1[i])
    requires forall i | 0 <= i < |hold2| :: ArmGestureEpoch(hold2[i])
    requires WellFormed(release) && !LinkFailed(release) && !release.armSwitchMapped && !release.armGesture
    requires Paced(s.prevTimeMs, hold1, EPOCH_MS)
    requires Elapsed(release.nowMs, LastTime(s.prevTimeMs, hold1)) == EPOCH_MS
    requires Paced(release.nowMs, hold2, EPOCH_MS)
    requires !s.armed && s.stickHoldMs == 0
    requires EPOCH_MS * |hold1| <= ARM_HOLD_MS && EPOCH_MS * |hold2| <= ARM_HOLD_MS
    ensures AllWellFormed(hold1) && AllWellFormed(hold2)
    ensures !Run(s, hold1).state.armed
    ensures var s2 := UpdateState(Run(s, hold1).state, release).state;
      && !s2.armed
      && !Run(s2, hold2).state.armed
      && Run(s2, hold2).state.stickHoldMs == EPOCH_MS * |hold2|
  {
    ArmGestureAccumulates(s, hold1);
    var s1 := Run(s, hold1).state;
    ReleaseResetsHold(s1, release);
    var s2 := UpdateState(s1, release).state;
    ArmGestureAccumulates(s2, hold2);
  }

  // ---------------------------------------------------------------------
  // Calibration on arm

  /** An epoch with a healthy link, the arm switch mapped and on, and
      calibrate-on-arm configured. */
  predicate SwitchArmEpoch(inp: Inputs) {
    WellFormed(inp) && !LinkFailed(inp) && inp.armSwitchMapped && inp.armSwitchOn && inp.calibrateGyroOnArm
  }

  /** With the arm switch mapped and turned on, no error but RcLost and no
      calibrate-on-arm, one processed healthy epoch arms a disarmed
      aircraft and ends with the LED on. */
  lemma SwitchOnArms(s: ModeState, inp: Inputs)
    requires WellFormed(inp) && !LinkFailed(inp) && inp.armSwitchMapped && inp.armSwitchOn
    requires !inp.calibrateGyroOnArm
    requires !s.armed && s.errorCodes - {RcLost} == {}
    requires Elapsed(inp.nowMs, s.prevTimeMs) >= EPOCH_MS
    ensures var r := UpdateState(s, inp);
      && r.result && r.state.armed && r.commands == [LedOff, LedOn]
      && r.state.stickHoldMs == s.stickHoldMs
  {
    var f := CheckFailsafe(s.(prevTimeMs := inp.nowMs), inp.pwmLost, inp.rcNumChannels, inp.pwm);
    assert !f.result && f.state.errorCodes == {} && f.commands == [LedOff];
  }

  /** While a calibration is pending and not complete, polling arm() every
      epoch never arms and keeps the latch. */
  lemma {:induction false} CalibrationPending(s: ModeState, ins: seq<Inputs>)
    requires forall i | 0 <= i < |ins| :: SwitchArmEpoch(ins[i]) && !ins[i].gyroCalibrationComplete
    requires !s.armed && s.startedGyroCalibration
    ensures AllWellFormed(ins)
    ensures !Run(s, ins).state.armed && Run(s, ins).state.startedGyroCalibration
    decreases |ins|
  {
    if ins != [] {
      var st := UpdateState(s, ins[0]).state;
      assert !st.armed && st.startedGyroCalibration;
      CalibrationPending(st, ins[1..]);
    }
  }

  /** With calibrate-on-arm and the switch on, the first processed epoch
      starts a calibration and does not arm, even if the calibration
      already reports complete. */
  lemma CalibrationStarts(s: ModeState, first: Inputs)
    requires SwitchArmEpoch(first)
    requires !s.armed && !s.startedGyroCalibration && s.errorCodes - {RcLost} == {}
    requires Elapsed(first.nowMs, s.prevTimeMs) >= EPOCH_MS
    ensures var r := UpdateState(s, first);
      && !r.state.armed && r.state.startedGyroCalibration
      && r.commands == [LedOff, StartGyroCalibration]
  {
    var f := CheckFailsafe(s.(prevTimeMs := first.nowMs), first.pwmLost, first.rcNumChannels, first.pwm);
    assert !f.result && f.state.errorCodes == {} && f.commands == [LedOff];
  }

  /** The first processed epoch that sees the pending calibration complete
      arms and clears the latch. */
  lemma CalibrationCompletes(s: ModeState, done: Inputs)
    requires SwitchArmEpoch(done) && done.gyroCalibrationComplete
    requires !s.armed && s.startedGyroCalibration && s.errorCodes - {RcLost} == {}
    requires Elapsed(done.nowMs, s.prevTimeMs) >= EPOCH_MS
    ensures var r := UpdateState(s, done);
      r.state.armed && !r.state.startedGyroCalibration && LedOn in r.commands
  {
    var f := CheckFailsafe(s.(prevTimeMs := done.nowMs), done.pwmLost, done.rcNumChannels, done.pwm);
    assert !f.result && f.state.errorCodes == {};
  }

  /** The whole calibrate-on-arm sequence with the switch on: start, any
      number of pending epochs, completion. The aircraft is armed only
      after the calibration has been seen complete. */
  lemma CalibrationGatesArming(s: ModeState, first: Inputs, pending: seq<Inputs>, done: Inputs)
    requires SwitchArmEpoch(first) && SwitchArmEpoch(done) && done.gyroCalibrationComplete
    requires forall i | 0 <= i < |pending| :: SwitchArmEpoch(pending[i]) && !pending[i].gyroCalibrationComplete
    requires !s.armed && !s.startedGyroCalibration && s.errorCodes - {RcLost} == {}
    requires Elapsed(first.nowMs, s.prevTimeMs) >= EPOCH_MS
    ensures AllWellFormed(pending)
    ensures !UpdateState(s, first).state.armed
    ensures !Run(UpdateState(s, first).state, pending).state.armed
    ensures var s2 := Run(UpdateState(s, first).state, pending).state;
      Elapsed(done.nowMs, s2.prevTimeMs) >= EPOCH_MS ==> UpdateState(s2, done).state.armed
  {
    CalibrationStarts(s, first);
    var s1 := UpdateState(s, first).state;
    CalibrationPending(s1, pending);
    var s2 := Run(s1, pending).state;
    if Elapsed(done.nowMs, s2.prevTimeMs) >= EPOCH_MS {
      CalibrationCompletes(s2, done);
    }
  }

  /** disarm() does not abandon a pending calibration: the latch survives,
      and the next arm() attempt arms on the old calibration without
      starting a new one. */
  lemma DisarmKeepsCalibrationLatch(s: ModeState)
    requires s.errorCodes == {} && !s.armed && !s.startedGyroCalibration
    ensures var a1 := Arm(s, true, false);
      && !a1.result && a1.commands == [StartGyroCalibration]
      && Disarm(a1.state).state.startedGyroCalibration
      && Arm(Disarm(a1.state).state, true, true).result
      && StartGyroCalibration !in Arm(Disarm(a1.state).state, true, true).commands
  {
  }

  // ---------------------------------------------------------------------
  // Failsafe blinking

  /** LED commands of k consecutive failsafe epochs entered with the blink
      counter at count. */
  function ToggleLog(count: uint8, k: nat): seq<Command>
    decreases k
  {
    if k == 0 then [] else BlinkCommands(count) + ToggleLog(NextBlinkCount(count), k - 1)
  }

  /** No toggle while the counter has not passed the threshold. */
  lemma {:induction false} ToggleLogQuiet(count: uint8, k: nat)
    requires count + k <= BLINK_THRESHOLD + 1
    ensures ToggleLog(count, k) == []
    decreases k
  {
    if k > 0 {
      ToggleLogQuiet(NextBlinkCount(count), k - 1);
    }
  }

  /** From a counter of count (at most 26) the first toggle comes on
      failsafe epoch 27 - count, after which the counter restarts from 1. */
  lemma {:induction false} FirstToggle(count: uint8, k: nat)
    requires count <= BLINK_THRESHOLD + 1 && k > BLINK_THRESHOLD + 1 - count
    ensures ToggleLog(count, k) == [LedToggle] + ToggleLog(1, k - (BLINK_THRESHOLD + 2 - count))
    decreases k
  {
    if count <= BLINK_THRESHOLD {
      FirstToggle(count + 1, k - 1);
    }
  }

  /** After a toggle the LED toggles once every 26 failsafe epochs. */
  lemma {:induction false} ToggleEvery26(m: nat)
    ensures ToggleLog(1, (BLINK_THRESHOLD + 1) * m) == seq(m, _ => LedToggle)
  {
    if m > 0 {
      FirstToggle(1, (BLINK_THRESHOLD + 1) * m);
      assert (BLINK_THRESHOLD + 1) * m - (BLINK_THRESHOLD + 1) == (BLINK_THRESHOLD + 1) * (m - 1);
      ToggleEvery26(m - 1);
      assert [LedToggle] + seq(m - 1, _ => LedToggle) == seq(m, _ => LedToggle);
    }
  }

  /** An epoch whose PWM link reports lost. */
  predicate LinkLostEpoch(inp: Inputs) {
    WellFormed(inp) && inp.pwmLost
  }

  /** Processed link-lost epochs keep the aircraft in failsafe with RcLost
      set, leave the arming state alone, and issue exactly the blink
      schedule of ToggleLog. */
  lemma {:induction false} LinkLostRun(s: ModeState, ins: seq<Inputs>)
    requires forall i | 0 <= i < |ins| :: LinkLostEpoch(ins[i])
    requires Paced(s.prevTimeMs, ins, EPOCH_MS)
    ensures AllWellFormed(ins)
    ensures Run(s, ins).commands == ToggleLog(s.blinkCount, |ins|)
    ensures Run(s, ins).state.armed == s.armed
    ensures Run(s, ins).state.stickHoldMs == s.stickHoldMs
    ensures Run(s, ins).state.startedGyroCalibration == s.startedGyroCalibration
    ensures Run(s, ins).state.prevTimeMs == LastTime(s.prevTimeMs, ins)
    ensures ins != [] ==> Run(s, ins).state.failsafeActive && RcLost in Run(s, ins).state.errorCodes
    decreases |ins|
  {
    if ins != [] {
      var st := UpdateState(s, ins[0]);
      assert st.state.blinkCount == NextBlinkCount(s.blinkCount);
      assert st.commands == BlinkCommands(s.blinkCount);
      LinkLostRun(st.state, ins[1..]);
      assert LastTime(ins[0].nowMs, ins[1..]) == LastTime(s.prevTimeMs, ins);
    }
  }

  /** Thirty epochs of lost link from a fresh counter: failsafe with
      RcLost set, the aircraft left as it was, and exactly one LED toggle,
      which comes on the 27th epoch. */
  lemma LinkLossBlinksOnce(s: ModeState, lost: seq<Inputs>)
    requires |lost| == 30 && forall i | 0 <= i < |lost| :: LinkLostEpoch(lost[i])
    requires Paced(s.prevTimeMs, lost, EPOCH_MS)
    requires s.blinkCount == 0
    ensures AllWellFormed(lost)
    ensures Run(s, lost[..26]).commands == []
    ensures Run(s, lost[..27]).commands == [LedToggle]
    ensures Run(s, lost).commands == [LedToggle]
    ensures Run(s, lost).state.failsafeActive && RcLost in Run(s, lost).state.errorCodes
    ensures Run(s, lost).state.armed == s.armed
    ensures Run(s, lost).state.prevTimeMs == lost[29].nowMs
  {
    LinkLostRun(s, lost);
    FirstToggle(0, 30);
    ToggleLogQuiet(1, 3);
    forall k | k == 26 || k == 27
      ensures Run(s, lost[..k]).commands == ToggleLog(0, k)
    {
      assert lost == lost[..k] + lost[k..];
      PacedAppend(s.prevTimeMs, lost[..k], lost[k..], EPOCH_MS);
      LinkLostRun(s, lost[..k]);
    }
    ToggleLogQuiet(0, 26);
    FirstToggle(0, 27);
    assert ToggleLog(1, 0) == [];
  }

  /** The first processed healthy epoch (gesture released, no arm switch)
      leaves failsafe, clears RcLost and turns the LED solid off on a
      disarmed aircraft. */
  lemma LinkRestored(s: ModeState, restored: Inputs)
    requires WellFormed(restored) && !LinkFailed(restored)
    requires !restored.armSwitchMapped && !restored.armGesture
    requires !s.armed && Elapsed(restored.nowMs, s.prevTimeMs) >= EPOCH_MS
    ensures var r := UpdateState(s, restored);
      && r.result && !r.state.failsafeActive && RcLost !in r.state.errorCodes
      && r.commands == [LedOff] && !r.state.armed
  {
    var f := CheckFailsafe(s.(prevTimeMs := restored.nowMs), restored.pwmLost, restored.rcNumChannels, restored.pwm);
    assert !f.result && f.commands == [LedOff];
  }

  /** Link lost for thirty epochs while disarmed, then restored. */
  lemma LinkLossScenario(s: ModeState, lost: seq<Inputs>, restored: Inputs)
    requires |lost| == 30 && forall i | 0 <= i < |lost| :: LinkLostEpoch(lost[i])
    requires Paced(s.prevTimeMs, lost + [restored], EPOCH_MS)
    requires s.blinkCount == 0 && !s.armed
    requires WellFormed(restored) && !LinkFailed(restored)
    requires !restored.armSwitchMapped && !restored.armGesture
    ensures AllWellFormed(lost)
    ensures Run(s, lost).commands == [LedToggle]
    ensures Run(s, lost).state.failsafeActive && RcLost in Run(s, lost).state.errorCodes
    ensures var r := UpdateState(Run(s, lost).state, restored);
      && r.result && !r.state.failsafeActive && RcLost !in r.state.errorCodes
      && r.commands == [LedOff] && !r.state.armed
  {
    PacedAppend(s.prevTimeMs, lost, [restored], EPOCH_MS);
    LinkLossBlinksOnce(s, lost);
    LinkRestored(Run(s, lost).state, restored);
  }
}
