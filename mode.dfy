/** Class Mode of the firmware: the arming / failsafe gate as an object whose
    methods update its fields step by step. Every collaborator query (clock,
    PWM, parameters, calibration status, RC sticks and switch) is a method
    input; LED commands and calibration starts are recorded in the ghost
    log `commands`. Each method is proved to change the fields exactly as
    the matching function of ModeSpec says. */
module ModeClass {
  import opened ModeTypes
  import opened ModeSpec

  class Mode {
    var armed: bool
    var errorCodes: set<ErrorCode>
    var failsafeActive: bool
    var startedGyroCalibration: bool
    var prevTimeMs: uint32
    var stickHoldMs: uint32        // time_sticks_have_been_in_arming_position_ms
    var blinkCount: uint8          // the static counter of check_failsafe
    ghost var commands: seq<Command>

    /** The fields as a value. */
    function State(): ModeState
      reads this
    {
      ModeState(armed, errorCodes, failsafeActive, startedGyroCalibration, prevTimeMs, stickHoldMs, blinkCount)
    }

    /** Mode::Mode sets the armed flag, the clock and the hold timer; the
        error set, the failsafe flag and the calibration latch keep whatever
        value they start with until Init. The blink counter is static
        storage and so starts at 0. */
    constructor ()
      ensures !armed && prevTimeMs == 0 && stickHoldMs == 0 && blinkCount == 0
      ensures commands == []
    {
      armed := false;
      prevTimeMs := 0;
      stickHoldMs := 0;
      blinkCount := 0;
      commands := [];
    }

    /** Mode::init: disarmed, no error, no failsafe, no calibration latched. */
    method Init()
      modifies this
      ensures State() == old(State()).(armed := false, errorCodes := {}, failsafeActive := false,
                                       startedGyroCalibration := false)
      ensures commands == old(commands)
    {
      armed := false;
      errorCodes := {};
      failsafeActive := false;
      startedGyroCalibration := false;
    }

    /** set_error_code: raise one error flag. */
    method SetErrorCode(e: ErrorCode)
      modifies this
      ensures State() == old(State()).(errorCodes := old(errorCodes) + {e})
      ensures commands == old(commands)
    {
      errorCodes := errorCodes + {e};
    }

    /** clear_error_code: drop one error flag. */
    method ClearErrorCode(e: ErrorCode)
      modifies this
      ensures State() == old(State()).(errorCodes := old(errorCodes) - {e})
      ensures commands == old(commands)
    {
      errorCodes := errorCodes - {e};
    }

    method Arm(calibrateGyroOnArm: bool, gyroCalibrationComplete: bool) returns (ok: bool)
      modifies this
      ensures var r := ModeSpec.Arm(old(State()), calibrateGyroOnArm, gyroCalibrationComplete);
        State() == r.state && ok == r.result && commands == old(commands) + r.commands
    {
      if errorCodes != {} {
        return false;
      } else if calibrateGyroOnArm {
        if !startedGyroCalibration && !armed {
          commands := commands + [StartGyroCalibration];
          startedGyroCalibration := true;
          return false;
        } else if gyroCalibrationComplete {
          startedGyroCalibration := false;
          armed := true;
          commands := commands + [LedOn];
          return true;
        }
        return false;
      } else {
        if !armed {
          armed := true;
          commands := commands + [LedOn];
          return true;
        }
        return false;
      }
    }

    method Disarm()
      modifies this
      ensures var r := ModeSpec.Disarm(old(State()));
        State() == r.state && commands == old(commands) + r.commands
    {
      armed := false;
      commands := commands + [LedOff];
    }

    /** check_failsafe, with the scan over the configured channels. */
    method CheckFailsafe(pwmLost: bool, rcNumChannels: int, pwm: seq<uint16>) returns (failsafe: bool)
      requires rcNumChannels <= MAX_RC_CHANNELS && rcNumChannels <= |pwm|
      modifies this
      ensures var r := ModeSpec.CheckFailsafe(old(State()), pwmLost, rcNumChannels, pwm);
        State() == r.state && failsafe == r.result && commands == old(commands) + r.commands
    {
      failsafe := false;
      if pwmLost {
        failsafe := true;
        errorCodes := errorCodes + {RcLost};
      } else {
        var i: int8 := 0;
        while i < rcNumChannels
          invariant 0 <= i && (i <= rcNumChannels || i == 0)
          invariant failsafe <==> exists k :: 0 <= k < i && OutOfBand(pwm[k])
        {
          if pwm[i] < PWM_MIN_US || pwm[i] > PWM_MAX_US {
            failsafe := true;
          }
          i := i + 1;
        }
      }

      if failsafe {
        if blinkCount > BLINK_THRESHOLD {
          commands := commands + [LedToggle];
          blinkCount := 0;
        }
        blinkCount := blinkCount + 1;
        failsafeActive := true;
      } else {
        failsafeActive := false;
        errorCodes := errorCodes - {RcLost};
        if armed {
          commands := commands + [LedOn];
        } else {
          commands := commands + [LedOff];
        }
      }
    }

    /** The stick-gesture branch of update_state (arm switch unmapped). */
    method GestureInterface(inp: Inputs, dt: uint32)
      modifies this
      ensures var r := GestureStep(old(State()), inp, dt);
        State() == r.state && commands == old(commands) + r.commands
    {
      if !armed {
        if inp.armGesture {
          stickHoldMs := WrappingAdd(stickHoldMs, dt);
        } else {
          stickHoldMs := 0;
        }
        if stickHoldMs > ARM_HOLD_MS {
          var ok := Arm(inp.calibrateGyroOnArm, inp.gyroCalibrationComplete);
          if ok {
            stickHoldMs := 0;
          }
        }
      } else {
        if inp.disarmGesture {
          stickHoldMs := WrappingAdd(stickHoldMs, dt);
        } else {
          stickHoldMs := 0;
        }
        if stickHoldMs > ARM_HOLD_MS {
          Disarm();
          stickHoldMs := 0;
        }
      }
    }

    /** The arm-switch branch of update_state (arm switch mapped). */
    method SwitchInterface(inp: Inputs)
      modifies this
      ensures var r := SwitchStep(old(State()), inp);
        State() == r.state && commands == old(commands) + r.commands
    {
      if inp.armSwitchOn {
        if !armed {
          var _ := Arm(inp.calibrateGyroOnArm, inp.gyroCalibrationComplete);
        }
      } else {
        Disarm();
      }
    }

    /** The processed part of update_state: failsafe evaluation, then the
        arming interface unless failsafe pre-empts it. */
    method ProcessEpoch(inp: Inputs, dt: uint32)
      requires WellFormed(inp)
      modifies this
      ensures var r := ModeSpec.ProcessEpoch(old(State()), inp, dt);
        State() == r.state && commands == old(commands) + r.commands
    {
      var failsafe := CheckFailsafe(inp.pwmLost, inp.rcNumChannels, inp.pwm);
      if failsafe {
        return;
      }
      if !inp.armSwitchMapped {
        GestureInterface(inp, dt);
      } else {
        SwitchInterface(inp);
      }
    }

    /** update_state: one call per firmware cycle, at most one processed
        epoch per EPOCH_MS. */
    method UpdateState(inp: Inputs) returns (processed: bool)
      requires WellFormed(inp)
      modifies this
      ensures var r := ModeSpec.UpdateState(old(State()), inp);
        State() == r.state && processed == r.result && commands == old(commands) + r.commands
    {
      var dt := Elapsed(inp.nowMs, prevTimeMs);
      if dt < EPOCH_MS {
        return false;
      }
      prevTimeMs := inp.nowMs;
      ProcessEpoch(inp, dt);
      return true;
    }
  }
}
