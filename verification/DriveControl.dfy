/** The speed, arc and rotation routines on the fields they update, refining SpeedSpec and
    RotationSpec. */
module DriveControl {
  import opened Motion
  import opened SpeedSpec
  import opened RotationSpec

  /** The static locals of an arc routine: arrivingFlag, pathdirection and the radius the speeds
      are derived from. */
  datatype ArcLocals = ArcLocals(arriving: bool, clockwise: bool, radius: int)

  /** The static locals of a rotation routine. */
  datatype RotateLocals = RotateLocals(lastCarAngle: real, rotateCarAngle: real)

  class Drive {
    /** DELAY_ANGLE_OFFSET: how far the car coasts after a rotation. */
    const delay: real

    var runningMode: RunMode
    var initParaFlag: bool
    var isChangeSpeedInit: bool
    var currentLinearSpeed: int
    var targetSpeed: int
    var aspeed: int
    var dspeed: int
    var baseAngularSpeed: Float
    var barrierStatus: int
    var lastStatus: int
    var forwardArc: ArcLocals
    var backwardArc: ArcLocals
    var left: RotateLocals
    var right: RotateLocals
    var deltaSpeed: int
    var lastAngle: real

    ghost predicate Valid()
      reads this
    {
      lastStatus == barrierStatus
    }

    ghost function Speed(): Speeds
      reads this
    {
      Speeds(currentLinearSpeed, targetSpeed, aspeed, dspeed, baseAngularSpeed, barrierStatus)
    }

    ghost function Arc(dir: Direction): ArcRun
      reads this
    {
      var l := if dir == Forward then forwardArc else backwardArc;
      ArcRun(Speed(), initParaFlag, l.arriving, l.clockwise, l.radius, runningMode)
    }

    ghost function Turning(way: Way): Rotation
      reads this
    {
      var l := if way == Left then left else right;
      Rotation(initParaFlag, isChangeSpeedInit, l.lastCarAngle, l.rotateCarAngle, currentLinearSpeed, targetSpeed,
               deltaSpeed, lastAngle, runningMode)
    }

    constructor (delay: real)
      ensures Valid() && this.delay == delay
      ensures !initParaFlag && !isChangeSpeedInit && runningMode == StopMode
      ensures currentLinearSpeed == targetSpeed == 0 && baseAngularSpeed == Finite(0.0) && barrierStatus == 0
    {
      this.delay := delay;
      runningMode, initParaFlag, isChangeSpeedInit := StopMode, false, false;
      currentLinearSpeed, targetSpeed, aspeed, dspeed, baseAngularSpeed := 0, 0, 0, 0, Finite(0.0);
      barrierStatus, lastStatus := 0, 0;
      forwardArc, backwardArc := ArcLocals(false, false, 0), ArcLocals(false, false, 0);
      left, right := RotateLocals(0.0, 0.0), RotateLocals(0.0, 0.0);
      deltaSpeed, lastAngle := 0, 0.0;
    }

    method SetBarrierStatus(status: int)
      requires Valid()
      modifies this`barrierStatus, this`lastStatus
      ensures Valid() && barrierStatus == status
    {
      if lastStatus != status {
        lastStatus := status;
        barrierStatus := status;
      }
    }

    method CalAspeed() returns (r: int)
      modifies this`aspeed
      ensures r == aspeed == ChangeFor(currentLinearSpeed, targetSpeed)
    {
      aspeed := Abs(targetSpeed - currentLinearSpeed) / RAMP_PERIODS;
      if aspeed < MIN_CHANGE {
        aspeed := MIN_CHANGE;
      }
      return aspeed;
    }

    method CalDspeed() returns (r: int)
      modifies this`dspeed
      ensures r == dspeed == ChangeFor(currentLinearSpeed, targetSpeed)
    {
      dspeed := Abs(currentLinearSpeed - targetSpeed) / RAMP_PERIODS;
      if dspeed < MIN_CHANGE {
        dspeed := MIN_CHANGE;
      }
      return dspeed;
    }

    method ManageWheelSpeed()
      modifies this`currentLinearSpeed, this`baseAngularSpeed
      ensures Speed() == Managed(old(Speed()))
    {
      var saved := currentLinearSpeed;
      if targetSpeed >= 0 && currentLinearSpeed >= 0 {
        if barrierStatus == 1 || barrierStatus == 2 {
          if currentLinearSpeed > LOW_SPEED_ALLOWED {
            currentLinearSpeed := LOW_SPEED_ALLOWED;
          }
        } else if currentLinearSpeed > targetSpeed {
          currentLinearSpeed := currentLinearSpeed - dspeed;
          if currentLinearSpeed < targetSpeed {
            currentLinearSpeed := targetSpeed;
          }
        } else if currentLinearSpeed < targetSpeed {
          currentLinearSpeed := currentLinearSpeed + aspeed;
          if currentLinearSpeed > targetSpeed {
            currentLinearSpeed := targetSpeed;
          }
        }
        baseAngularSpeed := Rescaled(baseAngularSpeed, currentLinearSpeed, saved);
      } else if targetSpeed <= 0 && currentLinearSpeed <= 0 {
        if currentLinearSpeed < targetSpeed {
          currentLinearSpeed := currentLinearSpeed + dspeed;
          if currentLinearSpeed > targetSpeed {
            currentLinearSpeed := targetSpeed;
          }
        } else if currentLinearSpeed > targetSpeed {
          currentLinearSpeed := currentLinearSpeed - aspeed;
          if currentLinearSpeed < targetSpeed {
            currentLinearSpeed := targetSpeed;
          }
        }
        baseAngularSpeed := Rescaled(baseAngularSpeed, currentLinearSpeed, saved);
      }
    }

    /** The speeds a run starts with: the angular one is that of the circle of the given radius. */
    method StartArc(dir: Direction, i: ArcInput) returns (locals: ArcLocals)
      requires i.radius > 0
      modifies this`currentLinearSpeed, this`targetSpeed, this`aspeed, this`baseAngularSpeed, this`initParaFlag
      ensures var a := ArcStart(dir, old(Arc(dir)), i);
              Speed() == a.speeds && initParaFlag == a.initParaFlag
              && locals == ArcLocals(a.arriving, a.clockwise, a.radius)
    {
      var arriving := if dir == Forward then forwardArc.arriving else backwardArc.arriving;
      currentLinearSpeed := if dir == Forward then INIT_SPEED + 50 else -INIT_SPEED - 50;
      targetSpeed := if dir == Forward then RUNARC_SPEED else -RUNARC_SPEED;
      var change := CalAspeed();
      aspeed := if dir == Forward then change * 2 else change;
      var base := currentLinearSpeed as real / i.radius as real;
      if i.clockwise {
        base := -base;
      }
      baseAngularSpeed := Finite(base);
      initParaFlag := i.started;
      locals := ArcLocals(arriving && !i.started, i.clockwise, i.radius);
    }

    method ForwardToArc(i: ArcInput) returns (r: int)
      requires i.radius > 0 && i.barrier == barrierStatus
      modifies this`currentLinearSpeed, this`targetSpeed, this`aspeed, this`dspeed, this`baseAngularSpeed
      modifies this`initParaFlag, this`runningMode, this`forwardArc
      ensures (Arc(Forward), r) == ArcTick(Forward, old(Arc(Forward)), i)
    {
      if !initParaFlag {
        if i.wrongSide {
          return -1;
        }
        forwardArc := StartArc(Forward, i);
      } else {
        if !forwardArc.arriving && i.near {
          forwardArc := forwardArc.(arriving := true);
          targetSpeed := BASE_LINEAR_SPEED + 50;
          var change := CalDspeed();
          dspeed := Truncated(change as real * 1.4);
        }
        if i.period {
          ManageWheelSpeed();
        }
        if i.arrived {
          forwardArc := forwardArc.(arriving := false);
          runningMode := StopMode;
          initParaFlag := false;
          return 1;
        }
      }
      return 0;
    }

    method BackwardToArc(i: ArcInput) returns (r: int)
      requires i.radius > 0 && i.barrier == barrierStatus
      modifies this`currentLinearSpeed, this`targetSpeed, this`aspeed, this`dspeed, this`baseAngularSpeed
      modifies this`initParaFlag, this`runningMode, this`backwardArc
      ensures (Arc(Backward), r) == ArcTick(Backward, old(Arc(Backward)), i)
    {
      if !initParaFlag {
        if i.wrongSide {
          return -1;
        }
        backwardArc := StartArc(Backward, i);
      } else {
        if !backwardArc.arriving && i.near {
          backwardArc := backwardArc.(arriving := true);
          targetSpeed := -BASE_LINEAR_SPEED - 50;
          var change := CalDspeed();
          if !i.handling {
            dspeed := Truncated(change as real * 0.5);
          }
        }
        if i.period {
          ManageWheelSpeed();
        }
        if i.arrived {
          backwardArc := backwardArc.(arriving := false);
          runningMode := StopMode;
          initParaFlag := false;
          return 1;
        }
      }
      return 0;
    }

    /** Right turns to the right by a positive angle and to the left by a negative one. */
    method Rotate(angle: real, heading: real, started: bool) returns (r: int)
      modifies this`currentLinearSpeed, this`targetSpeed, this`initParaFlag, this`isChangeSpeedInit, this`runningMode
      modifies this`left, this`right, this`deltaSpeed, this`lastAngle
      ensures angle == 0.0 ==> r == 1 && Turning(Left) == old(Turning(Left)) && Turning(Right) == old(Turning(Right))
      ensures angle < 0.0 ==>
                (Turning(Left), r) == RotateTick(Left, old(Turning(Left)), -angle, delay, heading, started)
      ensures angle > 0.0 ==>
                (Turning(Right), r) == RotateTick(Right, old(Turning(Right)), angle, delay, heading, started)
      ensures angle >= 0.0 ==> left == old(left)
      ensures angle <= 0.0 ==> right == old(right)
    {
      if angle == 0.0 {
        return 1;
      } else if angle < 0.0 {
        r := RotateLeft(-angle, heading, started);
      } else {
        r := RotateRight(angle, heading, started);
      }
    }

    /** The speed a rotation starts with. */
    method StartRotation(angle: real, started: bool)
      modifies this`currentLinearSpeed, this`targetSpeed, this`initParaFlag
      ensures currentLinearSpeed == targetSpeed == TurningSpeed(angle) && initParaFlag == started
    {
      targetSpeed := Truncated(angle / 180.0 * TURNING_SPEED as real * 1.75);
      if targetSpeed > TURNING_SPEED {
        targetSpeed := TURNING_SPEED;
      } else if targetSpeed < TURNING_MID_SPEED {
        targetSpeed := TURNING_MID_SPEED;
      }
      currentLinearSpeed := targetSpeed;
      initParaFlag := started;
    }

    method RotateLeft(angle: real, heading: real, started: bool) returns (r: int)
      modifies this`currentLinearSpeed, this`targetSpeed, this`initParaFlag, this`isChangeSpeedInit, this`runningMode
      modifies this`left, this`deltaSpeed, this`lastAngle
      ensures (Turning(Left), r) == RotateTick(Left, old(Turning(Left)), angle, delay, heading, started)
    {
      if angle <= 0.0 {
        return -1;
      }
      if !initParaFlag {
        left := RotateLocals(heading, 0.0);
        StartRotation(angle, started);
      } else {
        var dec := heading - left.lastCarAngle;
        if dec < -270.0 && dec > -360.0 {
          dec := dec + 360.0;
        } else if dec > 270.0 && dec < 360.0 {
          dec := dec - 360.0;
        }
        left := RotateLocals(heading, left.rotateCarAngle + dec);
      }
      var need := if angle <= delay then angle / 3.0 else angle - delay;
      if left.rotateCarAngle >= need {
        initParaFlag := false;
        isChangeSpeedInit := false;
        left := RotateLocals(0.0, 0.0);
        runningMode := StopMode;
        return 1;
      }
      if angle - left.rotateCarAngle <= 24.0 && left.rotateCarAngle > 0.55 * angle {
        ChangeRotateSpeedByAngle(Left, angle - left.rotateCarAngle);
      }
      return 0;
    }

    method RotateRight(angle: real, heading: real, started: bool) returns (r: int)
      modifies this`currentLinearSpeed, this`targetSpeed, this`initParaFlag, this`isChangeSpeedInit, this`runningMode
      modifies this`right, this`deltaSpeed, this`lastAngle
      ensures (Turning(Right), r) == RotateTick(Right, old(Turning(Right)), angle, delay, heading, started)
    {
      if angle <= 0.0 {
        return -1;
      }
      if !initParaFlag {
        right := RotateLocals(heading, 0.0);
        StartRotation(angle, started);
      } else {
        var dec := right.lastCarAngle - heading;
        if dec < -270.0 && dec > -360.0 {
          dec := dec + 360.0;
        } else if dec > 270.0 && dec < 360.0 {
          dec := dec - 360.0;
        }
        right := RotateLocals(heading, right.rotateCarAngle + dec);
      }
      var need := if angle <= delay then angle / 3.0 else angle - delay;
      if right.rotateCarAngle >= need {
        initParaFlag := false;
        isChangeSpeedInit := false;
        right := RotateLocals(0.0, 0.0);
        runningMode := StopMode;
        return 1;
      }
      if angle - right.rotateCarAngle <= 24.0 && right.rotateCarAngle > 0.58 * angle {
        ChangeRotateSpeedByAngle(Right, angle - right.rotateCarAngle);
      }
      return 0;
    }

    method ChangeRotateSpeedByAngle(way: Way, angle: real)
      modifies this`currentLinearSpeed, this`targetSpeed, this`isChangeSpeedInit, this`deltaSpeed, this`lastAngle
      ensures Turning(way) == Slowed(old(Turning(way)), angle)
    {
      if !isChangeSpeedInit {
        deltaSpeed := Quotient(currentLinearSpeed - ARRIVING_SPEED, SPEED_CHANGE_TIMES);
        lastAngle := angle;
        isChangeSpeedInit := true;
      } else if AbsReal(angle - lastAngle) > 1.0 {
        currentLinearSpeed := currentLinearSpeed - deltaSpeed;
        if currentLinearSpeed < ARRIVING_SPEED {
          currentLinearSpeed := ARRIVING_SPEED;
        }
        targetSpeed := currentLinearSpeed;
        lastAngle := angle;
      }
    }
  }
}
