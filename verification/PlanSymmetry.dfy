/** Symmetries of the planner: reflection in the target line, and driving direction. */
module PlanSymmetry {
  import opened Motion
  import opened PlanSpec
  import opened PlanShape

  /** A step reflected across the target line's normal, driven the other way. */
  function Reverse(s: SubPath): SubPath
  {
    if IsRotation(s) then s.(target := s.target.(angle := FlipTurn(s.target.angle)))
    else
      s.(target := Pose(-s.target.x, s.target.y, FlipAngle(s.target.angle)),
         runmode := match s.runmode
                    case GoForwardMode => GoBackwardMode
                    case GoBackwardMode => GoForwardMode
                    case ForwardToArcMode => BackwardToArcMode
                    case BackwardToArcMode => ForwardToArcMode
                    case m => m)
  }

  function ReverseAll(steps: seq<SubPath>): seq<SubPath>
  {
    seq(|steps|, i requires 0 <= i < |steps| => Reverse(steps[i]))
  }

  lemma RotateAngleFlips(t: Trig, p: Pose, q: Pose, dy: int, dx: int, way: PathDirection)
    requires TrigLaws(t) && 0.0 <= p.angle < 360.0 && q.angle == FlipAngle(p.angle)
    requires dx > 0 || dy != 0
    requires dx >= 0 && (way == Anticlockwise ==> dy >= 0) && (way == Clockwise ==> dy <= 0)
    ensures RotateAngle(t, q, q.x - dx, q.y + dy, way) == FlipTurn(RotateAngle(t, p, p.x + dx, p.y + dy, way))
  {
    var b, c := t.atan2(dy, dx), t.atan2(dy, -dx);
    if dy > 0 {
      assert c == 180.0 - b;
    } else if dy < 0 {
      assert t.atan2(-dy, dx) == -b;
      assert t.atan2(-dy, -dx) == 180.0 + b;
      assert c == -180.0 - b;
    } else {
      assert b == 0.0 && c == 180.0;
    }
    assert q.y + dy - q.y == dy && q.x - dx - q.x == -dx && p.y + dy - p.y == dy && p.x + dx - p.x == dx;
  }

  function Opposite(p: Pose): Pose
  {
    Pose(-p.x, p.y, FlipAngle(p.angle))
  }

  /** The backward plan is the forward plan of the opposite pose, reversed. */
  lemma BackwardIsReversedForward(t: Trig, r: nat, p: Pose)
    requires Relative(p) && r >= MIN_TURNING_RADIUS && TrigLaws(t) && p.x >= 0
    ensures BackwardSteps(t, r, p) == ReverseAll(ForwardSteps(t, r, Opposite(p)))
  {
    var q := Opposite(p);
    if p.y <= NEAR {
      NearTurnReverses(t, p);
    } else if p.y <= r {
      LegPositive(r, p.y);
      ArcTurnReverses(t, r, Leg(r, p.y), p);
      ReversedArc(r, Leg(r, p.y), ForwardArcTurn(t, r, Leg(r, p.y), q), p);
    } else if 90.0 <= p.angle <= 270.0 {
      PlainTurnsReverse(p);
      ReversedVertical(r, ForwardDownTurn(q), p);
    } else {
      FarReverses(t, r, p);
    }
  }

  lemma FarReverses(t: Trig, r: nat, p: Pose)
    requires Relative(p) && r >= MIN_TURNING_RADIUS && TrigLaws(t) && p.x >= 0
    requires p.y > r && !(90.0 <= p.angle <= 270.0)
    ensures BackwardSteps(t, r, p) == ReverseAll(ForwardSteps(t, r, Opposite(p)))
  {
    if p.angle > 270.0 {
      FarReversesDown(t, r, p);
    } else {
      FarReversesUp(t, r, p);
    }
  }

  lemma FarReversesDown(t: Trig, r: nat, p: Pose)
    requires Relative(p) && r >= MIN_TURNING_RADIUS && TrigLaws(t) && p.y > r && p.angle > 270.0
    ensures BackwardSteps(t, r, p) == ReverseAll(ForwardSteps(t, r, Opposite(p)))
  {
    var q := Opposite(p);
    if p.y > 2 * r {
      PlainTurnsReverse(p);
      ReversedBend(r, StraightTurn(q), p);
    } else {
      TwoArcsTurnReverses(t, r, Leg(r, p.y), p);
      ReversedTwoArcs(r, Leg(r, p.y), ForwardTwoArcsTurn(t, r, Leg(r, p.y), q), p);
    }
  }

  lemma FarReversesUp(t: Trig, r: nat, p: Pose)
    requires Relative(p) && r >= MIN_TURNING_RADIUS && TrigLaws(t) && p.y > r && p.angle < 90.0
    ensures BackwardSteps(t, r, p) == ReverseAll(ForwardSteps(t, r, Opposite(p)))
  {
    var rad := 90.0 - p.angle;
    AEIsBounded(t, r, rad);
    if p.angle == 0.0 {
      ReversedStraight(t, r, p);
    } else {
      assert 90.0 + Opposite(p).angle - 360.0 == rad;
      ReversedIncline(r, LengthAE(t, r, rad), LengthBE(t, r, rad), p);
    }
    if p.y <= r + LengthAE(t, r, rad) {
      TwoArcsTurnReverses(t, r, Leg(r, p.y), p);
      ReversedTwoArcs(r, Leg(r, p.y), ForwardTwoArcsTurn(t, r, Leg(r, p.y), Opposite(p)), p);
    }
  }

  lemma NearTurnReverses(t: Trig, p: Pose)
    requires Relative(p) && TrigLaws(t) && p.x >= 0
    ensures BackwardNearTurn(t, p) == FlipTurn(ForwardNearTurn(t, Opposite(p)))
  {
  }

  lemma ArcTurnReverses(t: Trig, r: nat, leg: nat, p: Pose)
    requires Relative(p) && TrigLaws(t) && p.y <= r && leg > 0
    ensures BackwardArcTurn(t, r, leg, p) == FlipTurn(ForwardArcTurn(t, r, leg, Opposite(p)))
  {
  }

  lemma PlainTurnsReverse(p: Pose)
    requires 0.0 <= p.angle < 360.0
    ensures BackwardDownTurn(p) == FlipTurn(ForwardDownTurn(Opposite(p)))
    ensures StraightTurn(p) == FlipTurn(StraightTurn(Opposite(p)))
  {
  }

  lemma TwoArcsTurnReverses(t: Trig, r: nat, leg: nat, p: Pose)
    requires Relative(p) && TrigLaws(t) && p.y > r
    ensures BackwardTwoArcsTurn(t, r, leg, p) == FlipTurn(ForwardTwoArcsTurn(t, r, leg, Opposite(p)))
  {
    RotateAngleFlips(t, p, Opposite(p), r - p.y, leg, Clockwise);
  }

  lemma LegPositive(r: nat, y: int)
    requires 0 < y <= r
    ensures Leg(r, y) > 0
  {
  }

  lemma ReversedArc(r: nat, leg: nat, diff: real, p: Pose)
    ensures BackwardArc(r, leg, FlipTurn(diff), p) == ReverseAll(ForwardArc(r, leg, diff, Opposite(p)))
  {
  }

  lemma ReversedVertical(r: nat, diff: real, p: Pose)
    ensures BackwardVertical(r, FlipTurn(diff), p) == ReverseAll(ForwardVertical(r, diff, Opposite(p)))
  {
  }

  lemma ReversedBend(r: nat, diff: real, p: Pose)
    ensures BackwardBend(r, FlipTurn(diff), p) == ReverseAll(ForwardBend(r, diff, Opposite(p)))
  {
  }

  /** Heading along the line: the two halves of the code reach the same plan through different
      branches. */
  lemma ReversedStraight(t: Trig, r: nat, p: Pose)
    requires TrigLaws(t) && p.angle == 0.0
    ensures LengthAE(t, r, 90.0) == r && LengthBE(t, r, 90.0) == r
    ensures StraightTurn(p) == 0.0
    ensures BackwardIncline(r, r, r, p) == ReverseAll(ForwardBend(r, 0.0, Opposite(p)))
  {
  }

  lemma ReversedIncline(r: nat, ae: int, be: int, p: Pose)
    ensures BackwardIncline(r, ae, be, p) == ReverseAll(ForwardIncline(r, ae, be, Opposite(p)))
  {
  }

  lemma ReversedTwoArcs(r: nat, leg: nat, diff: real, p: Pose)
    ensures BackwardTwoArcs(r, leg, FlipTurn(diff), p) == ReverseAll(ForwardTwoArcs(r, leg, diff, Opposite(p)))
  {
  }

  lemma {:induction false} ApproachReverses(x: int, y: int, moves: seq<SubPath>)
    requires Approach(Forward, x, y, moves)
    ensures Approach(Backward, -x, y, ReverseAll(moves))
    decreases |moves|
  {
    var back := ReverseAll(moves);
    if |moves| > 1 {
      ApproachReverses(moves[0].target.x, moves[0].target.y, moves[1..]);
      assert back[1..] == ReverseAll(moves[1..]);
      assert back[0] == Reverse(moves[0]);
    } else {
      assert back == [Reverse(moves[0])];
    }
  }

  lemma ReverseMoves(steps: seq<SubPath>)
    requires steps != []
    ensures Moves(ReverseAll(steps)) == ReverseAll(Moves(steps))
  {
  }

  lemma ShapeReverses(p: Pose, steps: seq<SubPath>)
    requires Shaped(Forward, Opposite(p), steps)
    ensures Shaped(Backward, p, ReverseAll(steps))
  {
    var moves := Moves(steps);
    ApproachReverses(-p.x, p.y, moves);
    ReverseMoves(steps);
    assert ReverseAll(steps)[0] == Reverse(steps[0]);
    assert --p.x == p.x;
  }

  lemma BodyShaped(t: Trig, dir: Direction, r: nat, p: Pose)
    requires Relative(p) && r >= MIN_TURNING_RADIUS && TrigLaws(t) && !Passed(dir, p.x)
    ensures Shaped(dir, p, BodySteps(t, dir, r, p))
  {
    if dir == Forward {
      ForwardShape(t, r, p);
    } else {
      ForwardShape(t, r, Opposite(p));
      BackwardIsReversedForward(t, r, p);
      ShapeReverses(p, ForwardSteps(t, r, Opposite(p)));
    }
  }

  lemma BodyKinds(t: Trig, dir: Direction, r: nat, p: Pose)
    requires Relative(p) && r >= MIN_TURNING_RADIUS && TrigLaws(t) && !Passed(dir, p.x)
    ensures Kinds(dir, BodySteps(t, dir, r, p))
  {
    BodyShaped(t, dir, r, p);
    ShapedKinds(dir, p, BodySteps(t, dir, r, p));
  }

  lemma ReflectAllTwice(dir: Direction, steps: seq<SubPath>)
    requires Kinds(dir, steps)
    ensures MirrorAll(MirrorAll(steps)) == steps
    ensures ReverseAll(ReverseAll(steps)) == steps
  {
  }

  lemma MirrorKinds(dir: Direction, steps: seq<SubPath>)
    requires Kinds(dir, steps)
    ensures Kinds(dir, MirrorAll(steps))
  {
  }

  /** A pose on the target line is its own mirror image up to its heading, and so is its plan. */
  lemma MirrorOnLine(t: Trig, dir: Direction, r: nat, p: Pose)
    requires 0.0 <= p.angle < 360.0 && r >= MIN_TURNING_RADIUS && TrigLaws(t)
    requires p.y == 0 && !Passed(dir, p.x)
    ensures BodySteps(t, dir, r, Mirror(p)) == MirrorAll(BodySteps(t, dir, r, p))
  {
    NearTurnOnLine(t, dir, p);
    if dir == Forward {
      NearMirrors(dir, ForwardNear(ForwardNearTurn(t, p)), ForwardNearTurn(t, p));
    } else {
      NearMirrors(dir, BackwardNear(BackwardNearTurn(t, p)), BackwardNearTurn(t, p));
    }
  }

  lemma NearTurnOnLine(t: Trig, dir: Direction, p: Pose)
    requires 0.0 <= p.angle < 360.0 && TrigLaws(t) && p.y == 0 && !Passed(dir, p.x)
    ensures dir == Forward ==> ForwardNearTurn(t, Mirror(p)) == FlipTurn(ForwardNearTurn(t, p))
    ensures dir == Backward ==> BackwardNearTurn(t, Mirror(p)) == FlipTurn(BackwardNearTurn(t, p))
  {
    assert dir == Forward ==> Abs(p.x) >= 300 ==> t.atan2(-p.y, -p.x) == 0.0;
    assert dir == Backward ==> Abs(p.x) >= 300 ==> t.atan2(p.y, p.x) == 0.0;
  }

  lemma NearMirrors(dir: Direction, plan: seq<SubPath>, diff: real)
    requires -180.0 < diff <= 180.0 && plan == AfterTurn(diff, [Line(dir, 0, 0, 0.0)])
    ensures MirrorAll(plan) == AfterTurn(FlipTurn(diff), [Line(dir, 0, 0, 0.0)])
  {
  }

  /** Planning commutes with reflection in the target line, before the post-check. */
  lemma StepsMirror(t: Trig, dir: Direction, r: nat, p: Pose)
    requires 0.0 <= p.angle < 360.0 && r >= MIN_TURNING_RADIUS && TrigLaws(t)
    requires !Passed(dir, p.x)
    ensures Steps(t, dir, r, Mirror(p)) == MirrorAll(Steps(t, dir, r, p))
  {
    if p.y == 0 {
      MirrorOnLine(t, dir, r, p);
    } else {
      var up := if p.y < 0 then Mirror(p) else p;
      assert Mirror(Mirror(p)) == p;
      BodyKinds(t, dir, r, up);
      ReflectAllTwice(dir, BodySteps(t, dir, r, up));
    }
  }

  lemma RadiusMirrors(dir: Direction, circleRadius: int, saved: int, p: Pose)
    requires 0.0 <= p.angle < 360.0
    ensures Radius(dir, circleRadius, saved, Mirror(p)) == Radius(dir, circleRadius, saved, p)
  {
  }

  lemma DistanceMirrors(a: Pose, b: Pose, a': Pose, b': Pose)
    requires a'.x == a.x && a'.y == -a.y && b'.x == b.x && b'.y == -b.y
    ensures Distance(a', b') == Distance(a, b)
  {
    var d := a.y - b.y;
    assert a'.y - b'.y == -d && (-d) * (-d) == d * d;
  }

  lemma StepDistanceMirrors(p: Pose, steps: seq<SubPath>, i: nat)
    requires i < |steps|
    requires forall k :: 0 < k < |steps| ==> !IsRotation(steps[k])
    ensures StepDistance(Mirror(p), MirrorAll(steps), i) == StepDistance(p, steps, i)
  {
    var steps' := MirrorAll(steps);
    assert steps'[0] == MirrorStep(steps[0]) && steps'[i] == MirrorStep(steps[i]);
    if i == 0 || (i == 1 && IsRotation(steps[0])) {
      if !IsRotation(steps[i]) {
        DistanceMirrors(p, steps[i].target, Mirror(p), steps'[i].target);
      }
    } else {
      assert steps'[i - 1] == MirrorStep(steps[i - 1]);
      DistanceMirrors(steps[i - 1].target, steps[i].target, steps'[i - 1].target, steps'[i].target);
    }
  }

  lemma {:induction false} KeptMirrors(p: Pose, steps: seq<SubPath>, needStop: bool, k: nat)
    requires k <= |steps|
    requires forall i :: 0 < i < |steps| ==> !IsRotation(steps[i])
    ensures Kept(Mirror(p), MirrorAll(steps), needStop, k) == MirrorAll(Kept(p, steps, needStop, k))
  {
    if k > 0 {
      KeptMirrors(p, steps, needStop, k - 1);
      MirroredStep(p, steps, needStop, k - 1);
    }
  }

  lemma MirroredStep(p: Pose, steps: seq<SubPath>, needStop: bool, i: nat)
    requires i < |steps|
    requires forall k :: 0 < k < |steps| ==> !IsRotation(steps[k])
    ensures IsKept(Mirror(p), MirrorAll(steps), needStop, i) == IsKept(p, steps, needStop, i)
    ensures Measured(Mirror(p), MirrorAll(steps), i) == MirrorStep(Measured(p, steps, i))
  {
    StepDistanceMirrors(p, steps, i);
    assert MirrorAll(steps)[i] == MirrorStep(steps[i]);
  }

  lemma SpeedsMirror(steps: seq<SubPath>, maxSpeed: int)
    ensures WithSpeeds(MirrorAll(steps), maxSpeed) == MirrorAll(WithSpeeds(steps, maxSpeed))
  {
  }

  function MirrorOutcome(o: Outcome): Outcome
  {
    match o
    case Rejected => Rejected
    case Planned(steps) => Planned(MirrorAll(steps))
  }

  lemma StepsKinds(t: Trig, dir: Direction, r: nat, p: Pose)
    requires 0.0 <= p.angle < 360.0 && r >= MIN_TURNING_RADIUS && TrigLaws(t) && !Passed(dir, p.x)
    ensures Kinds(dir, Steps(t, dir, r, p))
  {
    var up := if p.y < 0 then Mirror(p) else p;
    BodyKinds(t, dir, r, up);
    MirrorKinds(dir, BodySteps(t, dir, r, up));
  }

  /** What the check and the simplification see of a mirrored plan. */
  lemma PipelineMirrors(dir: Direction, p: Pose, steps: seq<SubPath>, needStop: bool, maxSpeed: int)
    requires Kinds(dir, steps)
    ensures PassesTarget(dir, MirrorAll(steps)) == PassesTarget(dir, steps)
    ensures WithSpeeds(Simplified(Mirror(p), MirrorAll(steps), needStop), maxSpeed)
         == MirrorAll(WithSpeeds(Simplified(p, steps, needStop), maxSpeed))
  {
    var steps' := MirrorAll(steps);
    assert forall i :: 0 <= i < |steps| ==> steps'[i] == MirrorStep(steps[i]);
    if |steps| > 1 {
      KeptMirrors(p, steps, needStop, |steps|);
    } else {
      SingleMirrors(p, steps, needStop);
    }
    SpeedsMirror(Simplified(p, steps, needStop), maxSpeed);
  }

  lemma SingleMirrors(p: Pose, steps: seq<SubPath>, needStop: bool)
    requires |steps| == 1 && !IsRotation(steps[0])
    ensures Simplified(Mirror(p), MirrorAll(steps), needStop) == MirrorAll(Simplified(p, steps, needStop))
  {
    var s := steps[0];
    assert MirrorAll(steps)[0] == MirrorStep(s);
    DistanceMirrors(p, s.target, Mirror(p), MirrorStep(s).target);
  }

  /** The whole planner, from radius choice to post-check, simplification and speeds, commutes
      with reflection in the target line. */
  lemma PlanMirrors(t: Trig, dir: Direction, circleRadius: int, saved: int, p: Pose, needStop: bool, maxSpeed: int)
    requires TrigLaws(t) && 0.0 <= p.angle < 360.0
    ensures Plan(t, dir, circleRadius, saved, Mirror(p), needStop, maxSpeed)
         == MirrorOutcome(Plan(t, dir, circleRadius, saved, p, needStop, maxSpeed))
  {
    if !Passed(dir, p.x) {
      var r := Radius(dir, circleRadius, saved, p);
      RadiusMirrors(dir, circleRadius, saved, p);
      StepsMirror(t, dir, r, p);
      StepsKinds(t, dir, r, p);
      PipelineMirrors(dir, p, Steps(t, dir, r, p), needStop, maxSpeed);
    }
  }
}
