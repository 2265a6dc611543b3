/** SplitToSubTarget of controler/AgvMoveHelperForklift.cpp: the plan is filled into the sub-path
    array, mirrored, checked and compacted in place, and refines PlanSpec. */
module PathPlanner {
  import opened Motion
  import opened PlanSpec
  import opened PlanShape
  import opened PlanSymmetry

  const SLOTS := 5

  class Planner {
    const trig: Trig
    const savedRadius: int
    const subpath: array<SubPath>

    var subpathSize: nat
    var standardRadius: int
    var maxSpeedAllowed: int
    /** targetPoint.needStop, as the previous SetTarget left it. */
    var needStop: bool

    ghost predicate Valid()
      reads this
    {
      subpath.Length == SLOTS && subpathSize <= SLOTS
    }

    /** The plan is a list of steps; the remaining slots are cleared. */
    ghost predicate Holds(steps: seq<SubPath>)
      reads this, subpath
    {
      && subpath.Length == SLOTS
      && subpathSize == |steps| <= SLOTS
      && subpath[..subpathSize] == steps
      && ClearFrom(subpathSize)
    }

    ghost predicate ClearFrom(i: nat)
      reads subpath
    {
      forall k :: i <= k < subpath.Length ==> subpath[k] == CLEARED
    }

    constructor (trig: Trig, savedRadius: int)
      ensures Valid() && Holds([]) && fresh(subpath)
      ensures this.trig == trig && this.savedRadius == savedRadius
    {
      this.trig, this.savedRadius := trig, savedRadius;
      subpath := new SubPath[SLOTS](_ => CLEARED);
      subpathSize, standardRadius, maxSpeedAllowed, needStop := 0, savedRadius, 0, false;
    }

    method ClearSubpath()
      requires Valid()
      modifies this`subpathSize, subpath
      ensures Valid() && Holds([])
    {
      for i := 0 to subpath.Length
        invariant forall k :: 0 <= k < i ==> subpath[k] == CLEARED
      {
        subpath[i] := SubPath(Pose(0, 0, 0.0), StopMode, 0, 0);
      }
      subpathSize := 0;
    }

    /** setSubpath(subindex++, ...): the slot's distance and speed are still cleared. */
    method SetSubpath(index: nat, target: Pose, mode: RunMode) returns (next: nat)
      requires Valid() && index < SLOTS && ClearFrom(index)
      modifies subpath
      ensures next == index + 1 && ClearFrom(next)
      ensures subpath[..next] == old(subpath[..index]) + [SubPath(target, mode, 0, 0)]
    {
      subpath[index] := subpath[index].(target := target, runmode := mode);
      next := index + 1;
    }

    /** One leaf of the case split: the size, the rotation in front if the heading is more than
        20 degrees off, then the moves, each by setSubpath. */
    method FillPlan(diff: real, moves: seq<(Pose, RunMode)>)
      requires Valid() && |moves| < SLOTS && ClearFrom(0)
      modifies this`subpathSize, subpath
      ensures Valid() && Holds(AfterTurn(diff, Cleared(moves)))
    {
      var subindex := 0;
      if AbsReal(diff) > 20.0 {
        subpathSize := |moves| + 1;
        subindex := SetSubpath(subindex, Pose(0, 0, diff), RotateLeftMode);
      } else {
        subpathSize := |moves|;
      }
      ghost var turn := subpath[..subindex];
      for i := 0 to |moves|
        invariant Valid() && subpathSize == |turn| + |moves|
        invariant subindex == |turn| + i && ClearFrom(subindex)
        invariant subpath[..subindex] == turn + Cleared(moves[..i])
      {
        subindex := SetSubpath(subindex, moves[i].0, moves[i].1);
        assert Cleared(moves[..i + 1]) == Cleared(moves[..i]) + [SubPath(moves[i].0, moves[i].1, 0, 0)];
      }
      assert moves[..|moves|] == moves;
    }

    function Cleared(moves: seq<(Pose, RunMode)>): seq<SubPath>
    {
      seq(|moves|, i requires 0 <= i < |moves| => SubPath(moves[i].0, moves[i].1, 0, 0))
    }

    /** The forward half of the case split. */
    method SplitForward(p: Pose)
      requires Valid() && TrigLaws(trig) && ClearFrom(0) && Relative(p) && standardRadius >= MIN_TURNING_RADIUS
      modifies this`subpathSize, subpath
      ensures Valid() && Holds(ForwardSteps(trig, standardRadius, p))
    {
      var r := standardRadius;
      if p.y <= NEAR && p.y >= 0 {
        FillPlan(ForwardNearTurn(trig, p), [(Pose(0, 0, 0.0), GoForwardMode)]);
      } else if p.y <= r && p.y > NEAR {
        var x := Leg(r, p.y);
        FillPlan(ForwardArcTurn(trig, r, x, p),
                 [(Pose(p.x + x, 0, 0.0), ForwardToArcMode), (Pose(0, 0, 0.0), GoForwardMode)]);
      } else if p.y > r {
        SplitForwardFar(p);
      }
    }

    /** The forward half beyond the radius. */
    method SplitForwardFar(p: Pose)
      requires Valid() && TrigLaws(trig) && ClearFrom(0) && Relative(p) && standardRadius >= MIN_TURNING_RADIUS
      requires p.y > standardRadius
      modifies this`subpathSize, subpath
      ensures Valid() && Holds(ForwardSteps(trig, standardRadius, p))
    {
      var r := standardRadius;
      if p.angle >= 90.0 && p.angle <= 270.0 {
        ForwardVerticalPlan(ForwardDownTurn(p), p);
      } else if p.angle >= 0.0 && p.angle < 90.0 {
        if p.y > 2 * r {
          ForwardBendPlan(StraightTurn(p), p);
        } else {
          ForwardTwoArcsPlan(Leg(r, p.y), ForwardTwoArcsTurn(trig, r, Leg(r, p.y), p), p);
        }
      } else if p.angle > 270.0 && p.angle < 360.0 {
        var rad := 90.0 + p.angle - 360.0;
        AEIsBounded(trig, r, rad);
        var ae := LengthAE(trig, r, rad);
        if p.y > r + ae {
          var be := LengthBE(trig, r, rad);
          ForwardInclinePlan(ae, be, p);
        } else {
          ForwardTwoArcsPlan(Leg(r, p.y), ForwardTwoArcsTurn(trig, r, Leg(r, p.y), p), p);
        }
      }
    }

    method ForwardVerticalPlan(diff: real, p: Pose)
      requires Valid() && ClearFrom(0) && standardRadius >= 0
      modifies this`subpathSize, subpath
      ensures Valid() && Holds(ForwardVertical(standardRadius, diff, p))
    {
      var r := standardRadius;
      FillPlan(diff,
               [(Pose(p.x, r, 270.0), GoForwardMode), (Pose(p.x + r, 0, 0.0), ForwardToArcMode),
                (Pose(0, 0, 0.0), GoForwardMode)]);
    }

    method ForwardBendPlan(diff: real, p: Pose)
      requires Valid() && ClearFrom(0) && standardRadius >= 0
      modifies this`subpathSize, subpath
      ensures Valid() && Holds(ForwardBend(standardRadius, diff, p))
    {
      var r := standardRadius;
      FillPlan(diff,
               [(Pose(p.x + r, p.y - r, 270.0), ForwardToArcMode), (Pose(p.x + r, r, 270.0), GoForwardMode),
                (Pose(p.x + 2 * r, 0, 0.0), ForwardToArcMode), (Pose(0, 0, 0.0), GoForwardMode)]);
    }

    method ForwardInclinePlan(ae: nat, be: nat, p: Pose)
      requires Valid() && ClearFrom(0) && standardRadius >= 0
      modifies this`subpathSize, subpath
      ensures Valid() && Holds(ForwardIncline(standardRadius, ae, be, p))
    {
      var r := standardRadius;
      FillPlan(0.0,
               [(Pose(p.x + be, p.y - ae, 270.0), ForwardToArcMode), (Pose(p.x + be, r, 270.0), GoForwardMode),
                (Pose(p.x + be + r, 0, 0.0), ForwardToArcMode), (Pose(0, 0, 0.0), GoForwardMode)]);
    }

    method ForwardTwoArcsPlan(x: nat, diff: real, p: Pose)
      requires Valid() && ClearFrom(0) && standardRadius >= 0
      modifies this`subpathSize, subpath
      ensures Valid() && Holds(ForwardTwoArcs(standardRadius, x, diff, p))
    {
      var r := standardRadius;
      var lengthBE := r - x;
      FillPlan(diff,
               [(Pose(p.x + lengthBE, r, 270.0), ForwardToArcMode),
                (Pose(p.x + lengthBE + r, 0, 0.0), ForwardToArcMode),
                (Pose(0, 0, 0.0), GoForwardMode)]);
    }

    /** The backward half of the case split. */
    method SplitBackward(p: Pose)
      requires Valid() && TrigLaws(trig) && ClearFrom(0) && Relative(p) && standardRadius >= MIN_TURNING_RADIUS
      modifies this`subpathSize, subpath
      ensures Valid() && Holds(BackwardSteps(trig, standardRadius, p))
    {
      var r := standardRadius;
      if p.y <= NEAR && p.y >= 0 {
        FillPlan(BackwardNearTurn(trig, p), [(Pose(0, 0, 0.0), GoBackwardMode)]);
      } else if p.y <= r && p.y > NEAR {
        var x := Leg(r, p.y);
        FillPlan(BackwardArcTurn(trig, r, x, p),
                 [(Pose(p.x - x, 0, 0.0), BackwardToArcMode), (Pose(0, 0, 0.0), GoBackwardMode)]);
      } else if p.y > r {
        SplitBackwardFar(p);
      }
    }

    /** The backward half beyond the radius. */
    method SplitBackwardFar(p: Pose)
      requires Valid() && TrigLaws(trig) && ClearFrom(0) && Relative(p) && standardRadius >= MIN_TURNING_RADIUS
      requires p.y > standardRadius
      modifies this`subpathSize, subpath
      ensures Valid() && Holds(BackwardSteps(trig, standardRadius, p))
    {
      var r := standardRadius;
      if p.angle >= 90.0 && p.angle <= 270.0 {
        BackwardVerticalPlan(BackwardDownTurn(p), p);
      } else if p.angle > 270.0 && p.angle < 360.0 {
        if p.y > 2 * r {
          BackwardBendPlan(StraightTurn(p), p);
        } else {
          BackwardTwoArcsPlan(Leg(r, p.y), BackwardTwoArcsTurn(trig, r, Leg(r, p.y), p), p);
        }
      } else if p.angle >= 0.0 && p.angle < 90.0 {
        var rad := 90.0 - p.angle;
        AEIsBounded(trig, r, rad);
        var ae := LengthAE(trig, r, rad);
        if p.y > r + ae {
          var be := LengthBE(trig, r, rad);
          BackwardInclinePlan(ae, be, p);
        } else {
          BackwardTwoArcsPlan(Leg(r, p.y), BackwardTwoArcsTurn(trig, r, Leg(r, p.y), p), p);
        }
      }
    }

    method BackwardVerticalPlan(diff: real, p: Pose)
      requires Valid() && ClearFrom(0) && standardRadius >= 0
      modifies this`subpathSize, subpath
      ensures Valid() && Holds(BackwardVertical(standardRadius, diff, p))
    {
      var r := standardRadius;
      FillPlan(diff,
               [(Pose(p.x, r, 90.0), GoBackwardMode), (Pose(p.x - r, 0, 0.0), BackwardToArcMode),
                (Pose(0, 0, 0.0), GoBackwardMode)]);
    }

    method BackwardBendPlan(diff: real, p: Pose)
      requires Valid() && ClearFrom(0) && standardRadius >= 0
      modifies this`subpathSize, subpath
      ensures Valid() && Holds(BackwardBend(standardRadius, diff, p))
    {
      var r := standardRadius;
      FillPlan(diff,
               [(Pose(p.x - r, p.y - r, 90.0), BackwardToArcMode), (Pose(p.x - r, r, 90.0), GoBackwardMode),
                (Pose(p.x - 2 * r, 0, 0.0), BackwardToArcMode), (Pose(0, 0, 0.0), GoBackwardMode)]);
    }

    method BackwardInclinePlan(ae: nat, be: nat, p: Pose)
      requires Valid() && ClearFrom(0) && standardRadius >= 0
      modifies this`subpathSize, subpath
      ensures Valid() && Holds(BackwardIncline(standardRadius, ae, be, p))
    {
      var r := standardRadius;
      FillPlan(0.0,
               [(Pose(p.x - be, p.y - ae, 90.0), BackwardToArcMode), (Pose(p.x - be, r, 90.0), GoBackwardMode),
                (Pose(p.x - be - r, 0, 0.0), BackwardToArcMode), (Pose(0, 0, 0.0), GoBackwardMode)]);
    }

    method BackwardTwoArcsPlan(x: nat, diff: real, p: Pose)
      requires Valid() && ClearFrom(0) && standardRadius >= 0
      modifies this`subpathSize, subpath
      ensures Valid() && Holds(BackwardTwoArcs(standardRadius, x, diff, p))
    {
      var r := standardRadius;
      var lengthBE := r - x;
      FillPlan(diff,
               [(Pose(p.x - lengthBE, r, 90.0), BackwardToArcMode),
                (Pose(p.x - lengthBE - r, 0, 0.0), BackwardToArcMode),
                (Pose(0, 0, 0.0), GoBackwardMode)]);
    }

    /** The mirroring of the plan of a pose below the line: first the rotation, then the moves. */
    method MirrorSubpath()
      requires Valid() && ClearFrom(subpathSize)
      requires forall i :: 0 < i < subpathSize ==> !IsRotation(subpath[i])
      modifies subpath
      ensures Valid() && Holds(MirrorAll(old(subpath[..subpathSize])))
    {
      ghost var was := subpath[..subpathSize];
      MirrorTurn();
      for i := 0 to subpathSize
        invariant ClearFrom(subpathSize)
        invariant forall k :: 0 <= k < i ==> subpath[k] == MirrorStep(was[k])
        invariant forall k :: i <= k < subpathSize ==>
                    subpath[k] == if IsRotation(was[k]) then MirrorStep(was[k]) else was[k]
      {
        if subpath[i].runmode != RotateLeftMode && subpath[i].runmode != RotateRightMode {
          var to := subpath[i].target.(y := -subpath[i].target.y);
          if to.angle != 0.0 {
            to := to.(angle := 360.0 - to.angle);
          }
          subpath[i] := subpath[i].(target := to);
        }
      }
      assert subpath[..subpathSize] == MirrorAll(was);
    }

    /** A rotation in front is turned the other way. */
    method MirrorTurn()
      requires Valid()
      modifies subpath
      ensures subpath[0] == if IsRotation(old(subpath[0])) then MirrorStep(old(subpath[0])) else old(subpath[0])
      ensures forall k :: 0 < k < subpath.Length ==> subpath[k] == old(subpath[k])
    {
      if subpath[0].runmode == RotateLeftMode || subpath[0].runmode == RotateRightMode {
        var angle := -subpath[0].target.angle;
        subpath[0] := subpath[0].(target := subpath[0].target.(angle := angle));
        if -180.0 == subpath[0].target.angle {
          subpath[0] := subpath[0].(target := subpath[0].target.(angle := 180.0));
        }
      }
    }

    /** The post-check. */
    method BehindTarget(dir: Direction) returns (behind: bool)
      requires Valid()
      ensures behind == PassesTarget(dir, subpath[..subpathSize])
    {
      for i := 0 to subpathSize
        invariant forall k :: 0 <= k < i ==> !Passed(dir, subpath[k].target.x)
      {
        if (dir == Forward && subpath[i].target.x > 0) || (dir == Backward && subpath[i].target.x < 0) {
          assert Passed(dir, subpath[..subpathSize][i].target.x);
          return true;
        }
      }
      return false;
    }

    /** The distance array of a plan of at least two steps. */
    method Distances(saved: Pose) returns (distances: array<int>)
      requires Valid() && subpathSize > 1
      ensures fresh(distances) && distances.Length == SLOTS
      ensures forall i :: 0 <= i < subpathSize ==> distances[i] == StepDistance(saved, subpath[..subpathSize], i)
    {
      distances := new int[SLOTS](_ => 0);
      if subpath[0].runmode == RotateLeftMode || subpath[0].runmode == RotateRightMode {
        distances[0] := 0;
        distances[1] := Distance(saved, subpath[1].target);
      } else {
        distances[0] := Distance(saved, subpath[0].target);
        distances[1] := Distance(subpath[0].target, subpath[1].target);
      }
      for i := 2 to subpathSize
        invariant forall k :: 0 <= k < i ==> distances[k] == StepDistance(saved, subpath[..subpathSize], k)
      {
        distances[i] := Distance(subpath[i - 1].target, subpath[i].target);
      }
    }

    /** The steps that simplification keeps, copied out in order. */
    method CopyKept(saved: Pose) returns (copies: array<SubPath>, index: nat)
      requires Valid() && subpathSize > 1
      ensures fresh(copies) && index <= copies.Length == subpathSize
      ensures copies[..index] == Simplified(saved, subpath[..subpathSize], needStop)
    {
      ghost var steps := subpath[..subpathSize];
      var distances := Distances(saved);
      ghost var ds := distances[..];
      copies := new SubPath[subpathSize](_ => CLEARED);
      index := 0;
      for i := 0 to subpathSize - 1
        invariant 0 <= index <= i && distances[..] == ds
        invariant copies[..index] == Kept(saved, steps, needStop, i)
        invariant forall k :: index <= k < copies.Length ==> copies[k] == CLEARED
      {
        assert ds[i] == StepDistance(saved, steps, i);
        index := CopyIf(copies, index, saved, i, distances[i], false, steps);
      }
      assert ds[subpathSize - 1] == StepDistance(saved, steps, subpathSize - 1);
      index := CopyIf(copies, index, saved, subpathSize - 1, distances[subpathSize - 1], needStop, steps);
    }

    /** Step i is copied when it is a rotation, long enough, or has to stop precisely. */
    method CopyIf(copies: array<SubPath>, index: nat, saved: Pose, i: nat, distance: int, mustStop: bool,
                  ghost steps: seq<SubPath>)
        returns (next: nat)
      requires Valid() && copies != subpath && index <= i < subpathSize == copies.Length
      requires steps == subpath[..subpathSize] && distance == StepDistance(saved, steps, i)
      requires mustStop == (needStop && i == |steps| - 1)
      requires copies[..index] == Kept(saved, steps, needStop, i)
      requires forall k :: index <= k < copies.Length ==> copies[k] == CLEARED
      modifies copies
      ensures index <= next <= i + 1
      ensures copies[..next] == Kept(saved, steps, needStop, i + 1)
      ensures forall k :: next <= k < copies.Length ==> copies[k] == CLEARED
    {
      next := index;
      assert steps[i] == subpath[i];
      if mustStop || subpath[i].runmode == RotateLeftMode || subpath[i].runmode == RotateRightMode || distance > NEAR {
        copies[index] := copies[index].(target := subpath[i].target, runmode := subpath[i].runmode,
                                        distance := distance);
        next := index + 1;
      }
    }

    /** The simplification pass: kept steps are copied out, the array is cleared and refilled. */
    method Simplify(saved: Pose)
      requires Valid() && subpathSize > 1
      modifies this`subpathSize, subpath
      ensures Valid() && Holds(Simplified(saved, old(subpath[..subpathSize]), needStop))
    {
      var copies, index := CopyKept(saved);
      ghost var kept := copies[..index];
      ClearSubpath();
      subpathSize := index;
      for i := 0 to subpathSize
        invariant subpathSize == index && copies[..index] == kept
        invariant subpath[..i] == kept[..i] && ClearFrom(i)
      {
        subpath[i] := copies[i];
      }
    }

    method SetSpeeds()
      requires Valid() && ClearFrom(subpathSize)
      modifies subpath
      ensures Valid() && Holds(WithSpeeds(old(subpath[..subpathSize]), maxSpeedAllowed))
    {
      ghost var was := subpath[..subpathSize];
      for i := 0 to subpathSize
        invariant ClearFrom(subpathSize)
        invariant forall k :: 0 <= k < i ==> subpath[k] == WithSpeed(was[k], maxSpeedAllowed)
        invariant forall k :: i <= k < subpathSize ==> subpath[k] == was[k]
      {
        if subpath[i].runmode == GoForwardMode || subpath[i].runmode == ForwardToArcMode {
          subpath[i] := subpath[i].(speed := TargetSpeed(subpath[i].distance, maxSpeedAllowed));
        } else if subpath[i].runmode == GoBackwardMode || subpath[i].runmode == BackwardToArcMode {
          subpath[i] := subpath[i].(speed := -TargetSpeed(subpath[i].distance, maxSpeedAllowed));
        } else {
          subpath[i] := subpath[i].(speed := 100);
        }
      }
      assert subpath[..subpathSize] == WithSpeeds(was, maxSpeedAllowed);
    }

    /** STANDARD_RADIUS for this plan. circleRadius is the truncated radius of the circle through
        the pose that is tangent to the target line 400 mm before the target. */
    method AdjustRadius(dir: Direction, circleRadius: int, p: Pose)
      modifies this`standardRadius
      ensures standardRadius == Radius(dir, circleRadius, savedRadius, p)
    {
      standardRadius := circleRadius;
      if standardRadius >= Abs(p.x) - 400 && Abs(p.y) > Abs(p.x) - 400 {
        standardRadius := 2800;
      }
      if AbsReal(p.angle - 90.0) <= 20.0 || AbsReal(p.angle - 270.0) <= 20.0 {
        standardRadius := savedRadius;
      } else if standardRadius > MAX_TURNING_RADIUS {
        standardRadius := MAX_TURNING_RADIUS;
      }
      if dir == Backward || standardRadius < MIN_TURNING_RADIUS {
        standardRadius := MIN_TURNING_RADIUS;
      }
    }

    /** The case split and the mirroring. */
    method SplitToSteps(dir: Direction, pose: Pose)
      requires Valid() && TrigLaws(trig) && ClearFrom(0)
      requires 0.0 <= pose.angle < 360.0 && standardRadius >= MIN_TURNING_RADIUS
      requires !Passed(dir, pose.x)
      modifies this`subpathSize, subpath
      ensures Valid() && Holds(Steps(trig, dir, standardRadius, pose))
    {
      var p := pose;
      var mirrorFlag := false;
      if p.y < 0 {
        mirrorFlag := true;
        p := p.(y := -p.y);
        if 0.0 != p.angle {
          p := p.(angle := 360.0 - p.angle);
        }
      }
      assert p == if pose.y < 0 then Mirror(pose) else pose;
      ghost var body := SplitBody(dir, p);
      Mirrored(dir, mirrorFlag, body);
    }

    /** The half of the case split for the driving direction. */
    method SplitBody(dir: Direction, p: Pose) returns (ghost body: seq<SubPath>)
      requires Valid() && TrigLaws(trig) && ClearFrom(0) && Relative(p) && standardRadius >= MIN_TURNING_RADIUS
      requires !Passed(dir, p.x)
      modifies this`subpathSize, subpath
      ensures Valid() && Holds(body) && Kinds(dir, body)
      ensures body == BodySteps(trig, dir, standardRadius, p)
    {
      body := BodySteps(trig, dir, standardRadius, p);
      BodyKinds(trig, dir, standardRadius, p);
      if dir == Forward {
        SplitForward(p);
      } else {
        SplitBackward(p);
      }
    }

    /** The mirroring, and the two tests for a rotation by -180 degrees. */
    method Mirrored(dir: Direction, mirrorFlag: bool, ghost body: seq<SubPath>)
      requires Valid() && Holds(body) && Kinds(dir, body)
      modifies subpath
      ensures Valid() && Holds(if mirrorFlag then MirrorAll(body) else body)
    {
      if mirrorFlag {
        MirrorSubpath();
        MirrorKinds(dir, body);
      }
      ghost var steps := subpath[..subpathSize];
      assert Kinds(dir, steps);
      assert InRange(dir, steps[0]) && steps[0] == subpath[0];
      StraightenTurn();
      assert subpath[..subpathSize] == steps;
    }

    function Straightened(s: SubPath): SubPath
    {
      if IsRotation(s) && s.target.angle == -180.0 then s.(target := s.target.(angle := 180.0)) else s
    }

    /** A rotation by -180 degrees is written as one by 180. */
    method StraightenTurn()
      requires Valid()
      modifies subpath
      ensures subpath[..] == old(subpath[..])[0 := Straightened(old(subpath[0]))]
    {
      if subpath[0].runmode == RotateLeftMode || subpath[0].runmode == RotateRightMode {
        if -180.0 == subpath[0].target.angle {
          subpath[0] := subpath[0].(target := subpath[0].target.(angle := 180.0));
        }
      }
    }

    /** The post-check, the simplification and the speeds. */
    method FinishPlan(dir: Direction, pose: Pose, ghost steps: seq<SubPath>) returns (r: int)
      requires Valid() && Holds(steps) && steps != []
      modifies this`subpathSize, subpath
      ensures Valid()
      ensures if PassesTarget(dir, steps) then r == -1 && Holds([])
              else r == 0 && Holds(WithSpeeds(Simplified(pose, steps, needStop), maxSpeedAllowed))
    {
      var behind := BehindTarget(dir);
      if behind {
        ClearSubpath();
        return -1;
      }
      if subpathSize > 1 {
        Simplify(pose);
      } else {
        var distance := Distance(pose, subpath[0].target);
        subpath[0] := subpath[0].(distance := distance);
      }
      assert Holds(Simplified(pose, steps, needStop));
      SetSpeeds();
      return 0;
    }

    /** SplitToSubTarget in the target-relative frame, up to the transformation back. */
    method SplitToSubTarget(pose: Pose, circleRadius: int, dir: Direction) returns (r: int)
      requires Valid() && TrigLaws(trig)
      modifies this`subpathSize, this`standardRadius, subpath
      ensures Valid()
      ensures match Plan(trig, dir, circleRadius, savedRadius, pose, needStop, maxSpeedAllowed)
              case Rejected => r == -1 && Holds([])
              case Planned(steps) => r == 0 && Holds(steps)
    {
      ClearSubpath();
      if pose.angle >= 360.0 || pose.angle < 0.0 {
        return -1;
      }
      AdjustRadius(dir, circleRadius, pose);
      if (dir == Forward && pose.x > 0) || (dir == Backward && pose.x < 0) {
        return -1;
      }
      SplitToSteps(dir, pose);
      StepsKinds(trig, dir, standardRadius, pose);
      r := FinishPlan(dir, pose, Steps(trig, dir, standardRadius, pose));
    }
  }
}
