/** What the planner answers, in coordinates: which poses it rejects, what it makes of the others. */
module PlanOutcomes {
  import opened Motion
  import opened PlanSpec
  import opened PlanShape
  import opened PlanSymmetry
  import opened PlanTheorems
  import opened PlanSimplify

  /** A pose is rejected if and only if its heading is out of range, it is beyond the target, or the
      last step but one of its plan ends there. */
  lemma RejectedExactly(t: Trig, dir: Direction, circleRadius: int, saved: int, p: Pose, needStop: bool, maxSpeed: int)
    requires TrigLaws(t)
    ensures Plan(t, dir, circleRadius, saved, p, needStop, maxSpeed) == Rejected <==>
      || p.angle < 0.0 || p.angle >= 360.0
      || (if dir == Forward then p.x > 0 else p.x < 0)
      || var steps := Steps(t, dir, Radius(dir, circleRadius, saved, p), p);
         |steps| >= 2 &&
         (if dir == Forward then steps[|steps| - 2].target.x > 0 else steps[|steps| - 2].target.x < 0)
  {
    var r := Radius(dir, circleRadius, saved, p);
    if 0.0 <= p.angle < 360.0 && !Passed(dir, p.x) {
      RejectedAt(t, dir, r, p, needStop, maxSpeed, Steps(t, dir, r, p));
    }
  }

  lemma RejectedAt(t: Trig, dir: Direction, r: nat, p: Pose, needStop: bool, maxSpeed: int, steps: seq<SubPath>)
    requires TrigLaws(t) && r >= MIN_TURNING_RADIUS && 0.0 <= p.angle < 360.0 && !Passed(dir, p.x)
    requires steps == Steps(t, dir, r, p)
    ensures PlanAt(t, dir, r, p, needStop, maxSpeed) == Rejected <==>
              |steps| >= 2 && Passed(dir, steps[|steps| - 2].target.x)
  {
    StepsKinds(t, dir, r, p);
    PostCheckExact(t, dir, r, p);
    PlanOfSteps(t, dir, r, p, needStop, maxSpeed, steps);
  }

  lemma PlanOfSteps(t: Trig, dir: Direction, r: nat, p: Pose, needStop: bool, maxSpeed: int, steps: seq<SubPath>)
    requires TrigLaws(t) && r >= MIN_TURNING_RADIUS && 0.0 <= p.angle < 360.0 && !Passed(dir, p.x)
    requires steps == Steps(t, dir, r, p)
    ensures PlanAt(t, dir, r, p, needStop, maxSpeed) == Rejected <==> steps == [] || PassesTarget(dir, steps)
  {
  }

  /** The positions of the steps that an answer holds. */
  function Chosen(p: Pose, steps: seq<SubPath>, needStop: bool): seq<nat>
  {
    if |steps| == 1 then [0] else KeptIndices(p, steps, needStop, |steps|)
  }

  /** Step out of an answer is the step of the plan, with its distance and the speed for it. */
  predicate Answers(p: Pose, dir: Direction, steps: seq<SubPath>, i: nat, maxSpeed: int, out: SubPath)
  {
    && i < |steps| && out.target == steps[i].target && out.runmode == steps[i].runmode
    && out.distance == StepDistance(p, steps, i)
    && out.speed == if IsRotation(out) then 100
                    else if dir == Forward then TargetSpeed(out.distance, maxSpeed)
                    else -TargetSpeed(out.distance, maxSpeed)
  }

  lemma StepAnswers(p: Pose, dir: Direction, steps: seq<SubPath>, i: nat, maxSpeed: int, kept: SubPath)
    requires i < |steps| && InRange(dir, steps[i])
    requires kept.target == steps[i].target && kept.runmode == steps[i].runmode
    requires kept.distance == StepDistance(p, steps, i)
    ensures Answers(p, dir, steps, i, maxSpeed, WithSpeed(kept, maxSpeed))
  {
  }

  /** An accepted pose gets the chosen steps of its plan, in order. */
  lemma PlannedSteps(t: Trig, dir: Direction, circleRadius: int, saved: int, p: Pose, needStop: bool, maxSpeed: int)
    requires TrigLaws(t)
    ensures match Plan(t, dir, circleRadius, saved, p, needStop, maxSpeed)
            case Rejected => true
            case Planned(out) =>
              && 0.0 <= p.angle < 360.0
              && var steps := Steps(t, dir, Radius(dir, circleRadius, saved, p), p);
                 var at := Chosen(p, steps, needStop);
                 |out| == |at| && forall j :: 0 <= j < |at| ==> Answers(p, dir, steps, at[j], maxSpeed, out[j])
  {
    if 0.0 <= p.angle < 360.0 && !Passed(dir, p.x) {
      var steps := Steps(t, dir, Radius(dir, circleRadius, saved, p), p);
      StepsKinds(t, dir, Radius(dir, circleRadius, saved, p), p);
      ChosenAnswer(p, dir, steps, needStop, maxSpeed);
    }
  }

  lemma ChosenAnswer(p: Pose, dir: Direction, steps: seq<SubPath>, needStop: bool, maxSpeed: int)
    requires Kinds(dir, steps)
    ensures var out, at := WithSpeeds(Simplified(p, steps, needStop), maxSpeed), Chosen(p, steps, needStop);
            |out| == |at| && forall j :: 0 <= j < |at| ==> Answers(p, dir, steps, at[j], maxSpeed, out[j])
  {
    var kept, at := Simplified(p, steps, needStop), Chosen(p, steps, needStop);
    KeptIsSubsequence(p, steps, needStop);
    forall j | 0 <= j < |at|
      ensures Answers(p, dir, steps, at[j], maxSpeed, WithSpeed(kept[j], maxSpeed))
    {
      assert InRange(dir, steps[at[j]]);
      StepAnswers(p, dir, steps, at[j], maxSpeed, kept[j]);
    }
  }

  // The four frames -------------------------------------------------------------------------------

  /** Whether the reflections of a backward pose and of one below the line turn headings round. */
  predicate Flips(dir: Direction, p: Pose)
  {
    (dir == Backward) != (p.y < 0)
  }

  function InFrame(flips: bool, angle: real): real
  {
    if flips && angle != 0.0 then 360.0 - angle else angle
  }

  /** Step s is the forward step f above the line in the frame of direction and side. */
  predicate SameStep(dir: Direction, below: bool, flips: bool, f: SubPath, s: SubPath)
  {
    if IsRotation(f) then
      && s.runmode == f.runmode
      && s.target.angle == (if flips && f.target.angle != 180.0 then -f.target.angle else f.target.angle)
    else
      && s.target.x == (if dir == Backward then -f.target.x else f.target.x)
      && s.target.y == (if below then -f.target.y else f.target.y)
      && s.target.angle == InFrame(flips, f.target.angle)
      && s.runmode == match f.runmode
                      case GoForwardMode => if dir == Backward then GoBackwardMode else GoForwardMode
                      case ForwardToArcMode => if dir == Backward then BackwardToArcMode else ForwardToArcMode
                      case m => m
  }

  lemma FrameOfPose(dir: Direction, p: Pose)
    requires 0.0 <= p.angle < 360.0 && !Passed(dir, p.x)
    ensures CanonicalPose(dir, p) == Pose(-(Abs(p.x) as int), Abs(p.y), InFrame(Flips(dir, p), p.angle))
  {
  }

  /** Every plan, in coordinates: step by step the forward plan of the pose (-|x|, |y|), with the signs
      and headings of the frame it is for. */
  lemma PlanInFrame(t: Trig, dir: Direction, r: nat, p: Pose)
    requires 0.0 <= p.angle < 360.0 && r >= MIN_TURNING_RADIUS && TrigLaws(t) && !Passed(dir, p.x)
    ensures var q := Pose(-(Abs(p.x) as int), Abs(p.y), InFrame(Flips(dir, p), p.angle));
            var plan, steps := ForwardSteps(t, r, q), Steps(t, dir, r, p);
            |steps| == |plan| &&
            forall i :: 0 <= i < |plan| ==> SameStep(dir, p.y < 0, Flips(dir, p), plan[i], steps[i])
  {
    FrameOfPose(dir, p);
    var up, q := Upright(p), CanonicalPose(dir, p);
    BodyKinds(t, Forward, r, q);
    if dir == Backward {
      BackwardIsReversedForward(t, r, up);
    }
    FrameOfSteps(dir, p.y < 0, ForwardSteps(t, r, q), BodySteps(t, dir, r, up), Steps(t, dir, r, p));
  }

  lemma FrameOfSteps(dir: Direction, below: bool, plan: seq<SubPath>, body: seq<SubPath>, steps: seq<SubPath>)
    requires Kinds(Forward, plan) && body == (if dir == Backward then ReverseAll(plan) else plan)
    requires steps == if below then MirrorAll(body) else body
    ensures |steps| == |plan|
    ensures forall i :: 0 <= i < |plan| ==> SameStep(dir, below, (dir == Backward) != below, plan[i], steps[i])
  {
    forall i | 0 <= i < |plan|
      ensures SameStep(dir, below, (dir == Backward) != below, plan[i], steps[i])
    {
      assert InRange(Forward, plan[i]);
    }
  }
}
