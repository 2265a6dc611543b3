/** The line, arc and rotation routines do to the executor what its replies stand for. */
module SegmentReplies {
  import opened Motion
  import opened ExecSpec
  import opened ExecDrives
  import opened SpeedSpec
  import opened RotationSpec

  function ArcMode(dir: Direction): RunMode
  {
    if dir == Forward then ForwardToArcMode else BackwardToArcMode
  }

  /** Every call of an arc routine is a reply: it arrives only when initialised and then leaves
      initParaFlag false, and fails only before. */
  lemma ArcIsReply(dir: Direction, a: ArcRun, i: ArcInput, s: Exec) returns (reply: Reply)
    requires i.radius > 0
    requires s.runningMode == a.runningMode == ArcMode(dir) && s.initParaFlag == a.initParaFlag
    ensures var (b, ret) := ArcTick(dir, a, i);
            Segment(s, reply) == (s.(runningMode := b.runningMode, initParaFlag := b.initParaFlag), ret)
    ensures Steady(s) ==> Orderly(s, reply)
  {
    var (b, ret) := ArcTick(dir, a, i);
    reply := if ret == 1 then Arrived else if ret < 0 then Failed(ret)
             else Busy(b.initParaFlag, s.isChangeSpeedInit);
  }

  /** Rotate turns left by a negative angle. */
  function WayOf(angle: real): Way
  {
    if angle < 0.0 then Left else Right
  }

  /** Every call of a rotation routine is a reply: it completes only when initialised and then leaves
      both flags false, and it never fails. */
  lemma RotationIsReply(r: Rotation, delay: real, heading: real, started: bool, s: Exec) returns (reply: Reply)
    requires IsRotateMode(s.runningMode) && s.targetPose.angle != 0.0
    requires s.runningMode == r.runningMode
    requires s.initParaFlag == r.initParaFlag && s.isChangeSpeedInit == r.isChangeSpeedInit
    ensures var angle := s.targetPose.angle;
            var (b, ret) := RotateTick(WayOf(angle), r, AbsReal(angle), delay, heading, started);
            Segment(s, reply) == (s.(runningMode := b.runningMode, initParaFlag := b.initParaFlag,
                                     isChangeSpeedInit := b.isChangeSpeedInit), ret)
    ensures Steady(s) ==> Orderly(s, reply)
  {
    var angle := s.targetPose.angle;
    NeedPositive(AbsReal(angle), delay);
    var (b, ret) := RotateTick(WayOf(angle), r, AbsReal(angle), delay, heading, started);
    reply := if ret == 1 then Arrived else Busy(b.initParaFlag, b.isChangeSpeedInit);
  }

  // Lines -----------------------------------------------------------------------------------------

  /** The flags and the running mode ForwardToLine and BackwardToLine leave, and whether they have
      stopped the car. */
  datatype LineRun = LineRun(initParaFlag: bool, isChangeSpeedInit: bool, runningMode: RunMode, stopped: bool)

  /** What one call sees: whether the start is on the wrong side of the target, whether the drive
      accepted the start, whether the car has arrived. */
  datatype LineInput = LineInput(wrongSide: bool, started: bool, arrived: bool)

  /** One call of ForwardToLine or BackwardToLine; backwards the car is stopped at once when it is to
      lift. */
  function LineTick(dir: Direction, lifting: bool, a: LineRun, i: LineInput): (LineRun, int)
  {
    if !a.initParaFlag then if i.wrongSide then (a, -1) else (a.(initParaFlag := i.started), 0)
    else if i.arrived then (LineRun(false, false, StopMode, a.stopped || (dir == Backward && lifting)), 1)
    else (a, 0)
  }

  function LineMode(dir: Direction): RunMode
  {
    if dir == Forward then GoForwardMode else GoBackwardMode
  }

  /** Every call of a line routine is a reply: it arrives only when initialised and then leaves both
      flags false and the running mode StopMode, and fails only before. */
  lemma LineIsReply(dir: Direction, a: LineRun, i: LineInput, s: Exec) returns (reply: Reply)
    requires s.runningMode == a.runningMode == LineMode(dir)
    requires s.initParaFlag == a.initParaFlag && s.isChangeSpeedInit == a.isChangeSpeedInit
    ensures var (b, ret) := LineTick(dir, s.point.action == LiftUpDown, a, i);
            Segment(s, reply) == (s.(runningMode := b.runningMode, initParaFlag := b.initParaFlag,
                                     isChangeSpeedInit := b.isChangeSpeedInit), ret)
    ensures Steady(s) ==> Orderly(s, reply)
  {
    var (b, ret) := LineTick(dir, s.point.action == LiftUpDown, a, i);
    reply := if ret == 1 then Arrived else if ret < 0 then Failed(ret)
             else Busy(b.initParaFlag, b.isChangeSpeedInit);
  }

  /** A car that arrives backwards to lift is stopped by BackwardToLine itself: the stop LoopRunning
      has for it is never reached, because the running mode is StopMode by then. */
  lemma LiftStopsInRoutine(a: LineRun, i: LineInput, s: Exec, heading: real)
    requires s.isRunning && s.point.action == LiftUpDown && s.pathIndex + 1 >= |s.plan|
    requires s.runningMode == a.runningMode == GoBackwardMode
    requires s.initParaFlag == a.initParaFlag && s.isChangeSpeedInit == a.isChangeSpeedInit
    requires LineTick(Backward, true, a, i).1 == 1
    ensures LineTick(Backward, true, a, i).0.stopped
    ensures Tick(s, Arrived, heading).events == s.events + [NextPathPoint(s.point.station)]
  {
  }
}
