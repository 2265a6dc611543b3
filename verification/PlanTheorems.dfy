/** What holds of every plan, for both driving directions and both sides of the target line. */
module PlanTheorems {
  import opened Motion
  import opened PlanSpec
  import opened PlanShape
  import opened PlanGeometry
  import opened PlanSymmetry

  /** The pose the body of the planner sees: above the target line. */
  function Upright(p: Pose): Pose
  {
    if p.y < 0 then Mirror(p) else p
  }

  function Unmirrored(p: Pose, steps: seq<SubPath>): seq<SubPath>
  {
    if p.y < 0 then MirrorAll(steps) else steps
  }

  /** The pose and the plan reflected into the forward case above the target line. */
  function CanonicalPose(dir: Direction, p: Pose): Pose
  {
    if dir == Backward then Opposite(Upright(p)) else Upright(p)
  }

  function CanonicalPlan(dir: Direction, p: Pose, steps: seq<SubPath>): seq<SubPath>
  {
    if dir == Backward then ReverseAll(Unmirrored(p, steps)) else Unmirrored(p, steps)
  }

  lemma UnmirroredSteps(t: Trig, dir: Direction, r: nat, p: Pose)
    requires 0.0 <= p.angle < 360.0 && r >= MIN_TURNING_RADIUS && TrigLaws(t) && !Passed(dir, p.x)
    ensures Unmirrored(p, Steps(t, dir, r, p)) == BodySteps(t, dir, r, Upright(p))
  {
    if p.y < 0 {
      StepsMirror(t, dir, r, p);
    }
  }

  /** Every plan is, up to the two reflections, a forward plan above the target line. */
  lemma PlanIsCanonical(t: Trig, dir: Direction, r: nat, p: Pose)
    requires 0.0 <= p.angle < 360.0 && r >= MIN_TURNING_RADIUS && TrigLaws(t) && !Passed(dir, p.x)
    ensures CanonicalPlan(dir, p, Steps(t, dir, r, p)) == ForwardSteps(t, r, CanonicalPose(dir, p))
  {
    UnmirroredSteps(t, dir, r, p);
    if dir == Backward {
      var q := CanonicalPose(dir, p);
      BackwardIsReversedForward(t, r, Upright(p));
      BodyKinds(t, Forward, r, q);
      ReflectAllTwice(Forward, ForwardSteps(t, r, q));
    }
  }

  /** Geometry of every plan: the moves join and run on lines and circles of the plan's radius. */
  lemma PlanFits(t: Trig, dir: Direction, r: nat, p: Pose)
    requires 0.0 <= p.angle < 360.0 && r >= MIN_TURNING_RADIUS && TrigLaws(t) && !Passed(dir, p.x)
    ensures var q := CanonicalPose(dir, p);
            Fits(r, q.x, q.y, Moves(CanonicalPlan(dir, p, Steps(t, dir, r, p))), true)
  {
    PlanIsCanonical(t, dir, r, p);
    ForwardFits(t, r, CanonicalPose(dir, p));
  }

  /** Every plan but the inclined ones starts its first move aligned with it: exactly after a
      rotation, within 20 degrees otherwise. */
  lemma PlanEntersAligned(t: Trig, dir: Direction, r: nat, p: Pose)
    requires 0.0 <= p.angle < 360.0 && r >= MIN_TURNING_RADIUS && TrigLaws(t) && !Passed(dir, p.x)
    requires !Inclined(t, r, CanonicalPose(dir, p))
    ensures EntersAligned(t, r, CanonicalPose(dir, p), CanonicalPlan(dir, p, Steps(t, dir, r, p)))
  {
    PlanIsCanonical(t, dir, r, p);
    ForwardAligned(t, r, CanonicalPose(dir, p));
  }

  /** Shape of every plan: at most one rotation and that in front, at most five steps in all,
      the last a line to the target, x advancing, y sinking and never negative. */
  lemma PlanShaped(t: Trig, dir: Direction, r: nat, p: Pose)
    requires 0.0 <= p.angle < 360.0 && r >= MIN_TURNING_RADIUS && TrigLaws(t) && !Passed(dir, p.x)
    ensures Shaped(dir, Upright(p), Unmirrored(p, Steps(t, dir, r, p)))
  {
    UnmirroredSteps(t, dir, r, p);
    BodyShaped(t, dir, r, Upright(p));
  }

  /** The radius is at least a metre, whatever the settings and the pose. */
  lemma RadiusIsLarge(dir: Direction, circleRadius: int, saved: int, p: Pose)
    ensures Radius(dir, circleRadius, saved, p) >= 1000
    ensures dir == Backward ==> Radius(dir, circleRadius, saved, p) == 1000
    ensures Radius(dir, circleRadius, saved, p) <= 4000 || Radius(dir, circleRadius, saved, p) == saved
  {
  }

  lemma {:induction false} ApproachPasses(dir: Direction, x: int, y: int, moves: seq<SubPath>, i: nat)
    requires Approach(dir, x, y, moves) && i < |moves| && Passed(dir, moves[i].target.x)
    ensures |moves| >= 2 && Passed(dir, moves[|moves| - 2].target.x)
    decreases |moves|
  {
    if |moves| > 2 {
      var rest := moves[1..];
      if i > 0 {
        assert rest[i - 1] == moves[i];
        ApproachPasses(dir, moves[0].target.x, moves[0].target.y, rest, i - 1);
      } else {
        assert Towards(dir, moves[0].target.x, rest[0].target.x);
        ApproachPasses(dir, moves[0].target.x, moves[0].target.y, rest, 0);
      }
      assert rest[|rest| - 2] == moves[|moves| - 2];
    }
  }

  lemma ShownPasses(dir: Direction, p: Pose, steps: seq<SubPath>, i: nat)
    requires Shaped(dir, p, steps) && i < |steps| && Passed(dir, steps[i].target.x)
    ensures |steps| >= 2 && Passed(dir, steps[|steps| - 2].target.x)
  {
    var moves := Moves(steps);
    var k := |steps| - |moves|;
    assert i >= k;
    assert moves[i - k] == steps[i];
    ApproachPasses(dir, p.x, p.y, moves, i - k);
    assert moves[|moves| - 2] == steps[|steps| - 2];
  }

  /** The post-check refuses a plan exactly when its last step but one ends beyond the target. */
  lemma PostCheckExact(t: Trig, dir: Direction, r: nat, p: Pose)
    requires 0.0 <= p.angle < 360.0 && r >= MIN_TURNING_RADIUS && TrigLaws(t) && !Passed(dir, p.x)
    ensures var steps := Steps(t, dir, r, p);
            PassesTarget(dir, steps) <==> |steps| >= 2 && Passed(dir, steps[|steps| - 2].target.x)
  {
    PlanShaped(t, dir, r, p);
    var steps := Steps(t, dir, r, p);
    PostCheckOf(dir, Upright(p), steps, Unmirrored(p, steps));
  }

  lemma PostCheckOf(dir: Direction, p: Pose, steps: seq<SubPath>, shown: seq<SubPath>)
    requires Shaped(dir, p, shown) && (shown == steps || shown == MirrorAll(steps))
    ensures PassesTarget(dir, steps) <==> |steps| >= 2 && Passed(dir, steps[|steps| - 2].target.x)
  {
    forall i | 0 <= i < |steps| && Passed(dir, steps[i].target.x)
      ensures |steps| >= 2 && Passed(dir, steps[|steps| - 2].target.x)
    {
      assert shown[i].target.x == steps[i].target.x;
      ShownPasses(dir, p, shown, i);
      assert shown[|steps| - 2].target.x == steps[|steps| - 2].target.x;
    }
  }
}
