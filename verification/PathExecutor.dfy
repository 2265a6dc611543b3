/** SetTarget, LoopRunning and ClearTarget on the fields they update, refining ExecSpec. */
module PathExecutor {
  import opened Options
  import opened Motion
  import opened PlanSpec
  import opened PlanSimplify
  import opened PathPlanner
  import opened ExecSpec

  class Executor {
    const planner: Planner

    var isRunning: bool
    var runningMode: RunMode
    var carRunningMode: RunMode
    var pathIndex: nat
    var absolute: bool
    var targetPose: Pose
    var targetSpeed: int
    var initParaFlag: bool
    var isChangeSpeedInit: bool
    var targetPoint: RunContext
    var events: seq<Event>

    ghost predicate Valid()
      reads this, planner
    {
      planner.Valid()
    }

    ghost function View(): Exec
      reads this, planner, planner.subpath
      requires Valid()
    {
      Exec(isRunning, runningMode, carRunningMode, pathIndex, planner.subpath[..planner.subpathSize], absolute,
           targetPose, targetSpeed, initParaFlag, isChangeSpeedInit, targetPoint, events)
    }

    constructor (planner: Planner)
      requires planner.Valid()
      ensures Valid() && this.planner == planner
      ensures !isRunning && !initParaFlag && !isChangeSpeedInit && runningMode == StopMode && events == []
    {
      this.planner := planner;
      isRunning, runningMode, carRunningMode, pathIndex, absolute := false, StopMode, StopMode, 0, false;
      targetPose, targetSpeed, initParaFlag, isChangeSpeedInit := ORIGIN, 0, false, false;
      targetPoint, events := RunContext(0, StopMode, Run), [];
    }

    /** The first slot as SetTarget leaves it in each mode. carried is what the fork adjustment of
        CarryGoods, which is not modelled, has put into the sub-path array. */
    static function FirstSlot(m: RunMode, plan: seq<SubPath>, target: Pose): SubPath
    {
      if plan != [] then plan[0]
      else if m == CarryGoods then CLEARED
      else SubPath(target, m, 0, INIT_SPEED)
    }

    static predicate NeedsStop(m: RunMode, action: Action)
    {
      m == CarryGoods
      || (IsLineMode(m) && (action == Stop || (action == LiftUpDown && m == GoBackwardMode) || action == Charge))
    }

    static function DirectionOf(m: RunMode): Direction
    {
      if m == GoForwardMode then Forward else Backward
    }

    /** The plan SetTarget ends up with: the planner's for a line target, unless it rejects the pose,
        what the fork adjustment left for CarryGoods, none in the other modes. */
    static function PlanFor(m: RunMode, outcome: Outcome, carried: seq<SubPath>): Option<seq<SubPath>>
    {
      if !IsLineMode(m) then Some(if m == CarryGoods then carried else [])
      else if outcome.Planned? then Some(outcome.steps)
      else None
    }

    /** pose is the car's pose relative to the target; circleRadius is as for SplitToSubTarget. */
    method SetTarget(station: int, mode: RunMode, speed: int, target: Pose, pose: Pose, circleRadius: int,
                     heading: real, action: Action, carried: seq<SubPath>)
        returns (r: int)
      requires Valid() && TrigLaws(planner.trig) && |carried| <= SLOTS
      modifies this, planner, planner.subpath
      ensures Valid()
      ensures var outcome := Plan(planner.trig, DirectionOf(mode), circleRadius, planner.savedRadius, pose,
                                  old(planner.needStop), speed);
              match PlanFor(mode, outcome, carried)
              case None => r == -1 && View() == Refused(old(View()), mode) && planner.needStop == old(planner.needStop)
              case Some(plan) =>
                && r == 0 && (IsLineMode(mode) ==> plan != [])
                && View() == Targeted(old(View()), plan, FirstSlot(mode, plan, target), mode == CarryGoods,
                                      heading, RunContext(station, mode, action))
                && planner.needStop == NeedsStop(mode, action)
    {
      ghost var outcome := Plan(planner.trig, DirectionOf(mode), circleRadius, planner.savedRadius, pose,
                                planner.needStop, speed);
      r := Ask(mode, speed, pose, circleRadius, outcome);
      r := Settle(RunContext(station, mode, action), target, heading, carried, r, outcome, old(View()));
    }

    /** The line modes ask the planner; a plan is never empty. */
    method Ask(mode: RunMode, speed: int, pose: Pose, circleRadius: int, ghost outcome: Outcome) returns (r: int)
      requires Valid() && TrigLaws(planner.trig)
      requires outcome == Plan(planner.trig, DirectionOf(mode), circleRadius, planner.savedRadius, pose,
                               planner.needStop, speed)
      modifies this`carRunningMode, planner, planner.subpath
      ensures Asked(mode, outcome, old(View()), r) && planner.needStop == old(planner.needStop)
    {
      carRunningMode := mode;
      planner.maxSpeedAllowed := speed;
      planner.ClearSubpath();
      r := 0;
      if mode == GoForwardMode || mode == GoBackwardMode {
        PlanNeverEmpty(planner.trig, DirectionOf(mode), circleRadius, planner.savedRadius, pose, planner.needStop,
                       speed);
        r := planner.SplitToSubTarget(pose, circleRadius, DirectionOf(mode));
      }
    }

    /** The planner holds its answer, or nothing, and the other fields are as before. */
    ghost predicate Asked(mode: RunMode, outcome: Outcome, before: Exec, r: int)
      reads this, planner, planner.subpath
    {
      && Valid()
      && var plan := if IsLineMode(mode) && outcome.Planned? then outcome.steps else [];
         && planner.Holds(plan) && View() == before.(carRunningMode := mode, plan := plan)
         && (IsLineMode(mode) && outcome.Planned? ==> plan != [])
         && r == if IsLineMode(mode) && outcome.Rejected? then -1 else 0
    }

    /** SetTarget behind the planner's answer. */
    method Settle(point: RunContext, target: Pose, heading: real, carried: seq<SubPath>, answer: int,
                  ghost outcome: Outcome, ghost before: Exec)
        returns (r: int)
      requires Asked(point.mode, outcome, before, answer) && |carried| <= SLOTS
      modifies this, planner, planner.subpath
      ensures Valid()
      ensures match PlanFor(point.mode, outcome, carried)
              case None => r == -1 && View() == Refused(before, point.mode) && planner.needStop == old(planner.needStop)
              case Some(plan) =>
                && r == 0 && (IsLineMode(point.mode) ==> plan != [])
                && View() == Targeted(before, plan, FirstSlot(point.mode, plan, target), point.mode == CarryGoods,
                                      heading, point)
                && planner.needStop == NeedsStop(point.mode, point.action)
    {
      if answer != 0 {
        events := events + [PathMagError(answer)];
        return answer;
      }
      if point.mode == GoForwardMode || point.mode == GoBackwardMode {
        PlanLine(point);
      } else {
        PlanOther(point.mode, target, carried);
      }
      Start(point, target, heading, before, planner.subpath[..planner.subpathSize]);
      return 0;
    }

    /** What the two line modes note beside the plan. */
    method PlanLine(point: RunContext)
      requires Valid() && IsLineMode(point.mode)
      modifies this`absolute, planner`needStop
      ensures Valid() && View() == old(View()).(absolute := false)
      ensures planner.needStop == NeedsStop(point.mode, point.action)
    {
      planner.needStop := point.action == Stop || (point.action == LiftUpDown && point.mode == GoBackwardMode)
                          || point.action == Charge;
      absolute := false;
    }

    /** SetTarget from the point where the sub-paths are filled. */
    method Start(point: RunContext, ghost target: Pose, heading: real, ghost before: Exec, ghost plan: seq<SubPath>)
      requires Valid()
      requires View() == before.(carRunningMode := point.mode, plan := plan, absolute := point.mode == CarryGoods)
      requires planner.subpath[0] == FirstSlot(point.mode, plan, target)
      modifies this
      ensures Valid()
      ensures View() == Targeted(before, plan, FirstSlot(point.mode, plan, target), point.mode == CarryGoods, heading,
                                 point)
    {
      PreparedIsTargeted(before, plan, FirstSlot(point.mode, plan, target), point.mode == CarryGoods, heading, point);
      Activate(point, heading);
    }

    lemma PreparedIsTargeted(s: Exec, plan: seq<SubPath>, slot: SubPath, absolute: bool, heading: real,
                             point: RunContext)
      ensures Targeted(s.(carRunningMode := point.mode, plan := plan, absolute := absolute), plan, slot, absolute,
                       heading, point)
           == Targeted(s, plan, slot, absolute, heading, point)
    {
    }

    /** Every other mode: CarryGoods runs what the fork adjustment left, the rest one slot of their own. */
    method PlanOther(mode: RunMode, target: Pose, carried: seq<SubPath>)
      requires Valid() && planner.Holds([]) && !IsLineMode(mode) && |carried| <= SLOTS
      modifies this`absolute, planner, planner.subpath
      ensures Valid()
      ensures var plan := if mode == CarryGoods then carried else [];
              && planner.subpath[0] == FirstSlot(mode, plan, target)
              && View() == old(View()).(plan := plan, absolute := mode == CarryGoods)
      ensures planner.needStop == (mode == CarryGoods)
    {
      if mode == CarryGoods {
        Carry(carried);
        planner.needStop := true;
        absolute := true;
      } else {
        planner.subpath[0] := SubPath(target, mode, 0, INIT_SPEED);
        planner.needStop := false;
        absolute := false;
      }
    }

    /** The part of SetTarget that all modes share: the first slot is loaded and running starts. */
    method Activate(point: RunContext, heading: real)
      requires Valid() && carRunningMode == point.mode
      modifies this
      ensures Valid()
      ensures View() == Targeted(old(View()), old(View().plan), planner.subpath[0], old(absolute), heading, point)
    {
      targetPoint := point;
      pathIndex := 0;
      Load(0, heading);
      isRunning := true;
      initParaFlag := false;
      isChangeSpeedInit := false;
      events := events + [SegmentStarted(pathIndex, initParaFlag)];
    }

    /** Slot i becomes the target. */
    method Load(i: nat, heading: real)
      requires Valid() && i < SLOTS
      modifies this`targetPose, this`runningMode, this`targetSpeed
      ensures var step := planner.subpath[i];
              targetPose == Loaded(step, absolute, heading) && runningMode == step.runmode && targetSpeed == step.speed
    {
      targetPose := planner.subpath[i].target;
      runningMode := planner.subpath[i].runmode;
      targetSpeed := planner.subpath[i].speed;
      if absolute {
        if runningMode == RotateLeftMode || runningMode == RotateRightMode {
          targetPose := targetPose.(angle := heading - targetPose.angle);
          targetPose := targetPose.(angle := Normalise(targetPose.angle));
        }
      }
    }

    /** The sub-paths the fork adjustment leaves. */
    method Carry(carried: seq<SubPath>)
      requires Valid() && |carried| <= SLOTS && planner.Holds([])
      modifies planner, planner.subpath
      ensures Valid() && planner.Holds(carried)
      ensures planner.needStop == old(planner.needStop)
    {
      for i := 0 to |carried|
        invariant planner.subpath[..i] == carried[..i] && planner.ClearFrom(i)
        invariant Valid() && planner.needStop == old(planner.needStop)
      {
        planner.subpath[i] := carried[i];
      }
      planner.subpathSize := |carried|;
    }

    method ClearTarget() returns (r: int)
      requires Valid()
      modifies this
      ensures r == 0 && Valid() && View() == Cleared(old(View()))
    {
      isRunning := false;
      runningMode := StopMode;
      initParaFlag := false;
      isChangeSpeedInit := false;
      carRunningMode := StopMode;
      return 0;
    }

    /** The dispatch on the running mode; reply stands for what the segment routine does. */
    method RunSegment(reply: Reply) returns (ret: int)
      requires Valid()
      modifies this`runningMode, this`initParaFlag, this`isChangeSpeedInit
      ensures var (t, r) := Segment(old(View()), reply);
              && ret == r && runningMode == t.runningMode
              && initParaFlag == t.initParaFlag && isChangeSpeedInit == t.isChangeSpeedInit
    {
      ret := 0;
      if runningMode == RotateLeftMode || runningMode == RotateRightMode {
        if targetPose.angle == 0.0 {
          ret := 1;
        } else if !reply.Failed? {
          ret := Move(reply, false);
        }
      } else if runningMode == GoForwardMode || runningMode == GoBackwardMode {
        ret := Move(reply, false);
      } else if runningMode == ForwardToArcMode || runningMode == BackwardToArcMode {
        ret := Move(reply, isChangeSpeedInit);
      }
    }

    /** The flags a routine leaves: it arrives only when initialised and fails only before. */
    method Move(reply: Reply, change: bool) returns (ret: int)
      modifies this`runningMode, this`initParaFlag, this`isChangeSpeedInit
      ensures match reply
              case Busy(init, b) =>
                ret == 0 && initParaFlag == init && isChangeSpeedInit == b && runningMode == old(runningMode)
              case Arrived =>
                if old(initParaFlag) then
                  ret == 1 && !initParaFlag && isChangeSpeedInit == change && runningMode == StopMode
                else
                  ret == 0 && !initParaFlag && isChangeSpeedInit == old(isChangeSpeedInit)
                  && runningMode == old(runningMode)
              case Failed(code) =>
                && ret == (if old(initParaFlag) || code >= 0 then 0 else code)
                && initParaFlag == old(initParaFlag) && isChangeSpeedInit == old(isChangeSpeedInit)
                && runningMode == old(runningMode)
    {
      ret := 0;
      match reply
      case Busy(init, b) =>
        initParaFlag, isChangeSpeedInit := init, b;
      case Arrived =>
        if initParaFlag {
          runningMode, initParaFlag, isChangeSpeedInit := StopMode, false, change;
          ret := 1;
        }
      case Failed(code) =>
        if !initParaFlag && code < 0 {
          ret := code;
        }
    }

    method LoopRunning(reply: Reply, heading: real) returns (r: int)
      requires Valid()
      modifies this, planner, planner.subpath
      ensures r == 0 && Valid() && View() == Tick(old(View()), reply, heading)
    {
      r := 0;
      if !isRunning {
        return;
      }
      ghost var t := Segment(View(), reply).0;
      SegmentFlags(View(), reply);
      var ret := RunSegment(reply);
      assert View() == t;
      Continue(ret, heading);
    }

    /** What LoopRunning does on the return code of the segment routine. */
    method Continue(ret: int, heading: real)
      requires Valid()
      modifies this, planner, planner.subpath
      ensures Valid() && View() == Proceed(old(View()), ret, heading)
    {
      if ret == 1 {
        if pathIndex + 1 < planner.subpathSize {
          pathIndex := pathIndex + 1;
          Load(pathIndex, heading);
          events := events + [SegmentStarted(pathIndex, initParaFlag)];
        } else {
          Finish();
        }
      } else if ret < 0 {
        events := events + [PathMagError(ret)];
      }
    }

    /** A segment routine changes no more than the running mode and the two flags. */
    lemma SegmentFlags(s: Exec, reply: Reply)
      ensures var t := Segment(s, reply).0;
              t == s.(runningMode := t.runningMode, initParaFlag := t.initParaFlag,
                      isChangeSpeedInit := t.isChangeSpeedInit)
    {
    }

    /** The wheels are stopped as the action asks, the plan is cleared and the station announced. */
    method Finish()
      requires Valid()
      modifies this, planner, planner.subpath
      ensures Valid() && View() == Finished(old(View()))
    {
      if (targetPoint.action == LiftUpDown && runningMode == GoBackwardMode) || targetPoint.action == Charge {
        events := events + [StopCar(true)];
      } else if targetPoint.action == Stop
             && targetPoint.mode != RotateLeftMode && targetPoint.mode != RotateRightMode {
        events := events + [StopCar(false)];
        events := events + [SetBreak];
      }
      assert events == old(events) + Halt(old(View()));
      runningMode := StopMode;
      pathIndex := 0;
      planner.ClearSubpath();
      events := events + [NextPathPoint(targetPoint.station)];
    }
  }
}
