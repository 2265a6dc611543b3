/** The direction symmetry of the whole planner: post-check, simplification and speeds included. */
module PlanReversal {
  import opened Motion
  import opened PlanSpec
  import opened PlanShape
  import opened PlanSymmetry

  /** A step driven the other way, its speed the other way round too; a rotation keeps its speed. */
  function ReverseDriven(s: SubPath): SubPath
  {
    if IsRotation(s) then Reverse(s) else Reverse(s).(speed := -s.speed)
  }

  function AllReverseDriven(steps: seq<SubPath>): seq<SubPath>
  {
    seq(|steps|, i requires 0 <= i < |steps| => ReverseDriven(steps[i]))
  }

  function ReverseOutcome(o: Outcome): Outcome
  {
    match o
    case Rejected => Rejected
    case Planned(steps) => Planned(AllReverseDriven(steps))
  }

  lemma ReflectionsCommute(p: Pose, steps: seq<SubPath>)
    requires 0.0 <= p.angle < 360.0
    ensures Mirror(Opposite(p)) == Opposite(Mirror(p))
    ensures MirrorAll(ReverseAll(steps)) == ReverseAll(MirrorAll(steps))
  {
    forall i | 0 <= i < |steps|
      ensures MirrorStep(Reverse(steps[i])) == Reverse(MirrorStep(steps[i]))
    {
    }
  }

  /** The steps of a backward plan are the reversed steps of the forward plan from the opposite
      pose, on both sides of the target line. */
  lemma StepsReverse(t: Trig, r: nat, p: Pose)
    requires 0.0 <= p.angle < 360.0 && r >= MIN_TURNING_RADIUS && TrigLaws(t) && p.x >= 0
    ensures Steps(t, Backward, r, p) == ReverseAll(Steps(t, Forward, r, Opposite(p)))
  {
    if p.y < 0 {
      BackwardIsReversedForward(t, r, Mirror(p));
      ReflectionsCommute(p, ForwardSteps(t, r, Opposite(Mirror(p))));
    } else {
      BackwardIsReversedForward(t, r, p);
    }
  }

  lemma DistanceReverses(a: Pose, b: Pose, a': Pose, b': Pose)
    requires a'.x == -a.x && a'.y == a.y && b'.x == -b.x && b'.y == b.y
    ensures Distance(a', b') == Distance(a, b)
  {
    var d := a.x - b.x;
    assert a'.x - b'.x == -d && (-d) * (-d) == d * d;
  }

  lemma StepDistanceReverses(p: Pose, steps: seq<SubPath>, i: nat)
    requires i < |steps|
    requires forall k :: 0 < k < |steps| ==> !IsRotation(steps[k])
    ensures StepDistance(Opposite(p), ReverseAll(steps), i) == StepDistance(p, steps, i)
  {
    var steps' := ReverseAll(steps);
    assert steps'[0] == Reverse(steps[0]) && steps'[i] == Reverse(steps[i]);
    if i == 0 || (i == 1 && IsRotation(steps[0])) {
      if !IsRotation(steps[i]) {
        DistanceReverses(p, steps[i].target, Opposite(p), steps'[i].target);
      }
    } else {
      assert steps'[i - 1] == Reverse(steps[i - 1]);
      DistanceReverses(steps[i - 1].target, steps[i].target, steps'[i - 1].target, steps'[i].target);
    }
  }

  lemma {:induction false} KeptReverses(p: Pose, steps: seq<SubPath>, needStop: bool, k: nat)
    requires k <= |steps|
    requires forall i :: 0 < i < |steps| ==> !IsRotation(steps[i])
    ensures Kept(Opposite(p), ReverseAll(steps), needStop, k) == ReverseAll(Kept(p, steps, needStop, k))
  {
    if k > 0 {
      KeptReverses(p, steps, needStop, k - 1);
      ReversedStep(p, steps, needStop, k - 1);
    }
  }

  lemma ReversedStep(p: Pose, steps: seq<SubPath>, needStop: bool, i: nat)
    requires i < |steps|
    requires forall k :: 0 < k < |steps| ==> !IsRotation(steps[k])
    ensures IsKept(Opposite(p), ReverseAll(steps), needStop, i) == IsKept(p, steps, needStop, i)
    ensures Measured(Opposite(p), ReverseAll(steps), i) == Reverse(Measured(p, steps, i))
  {
    StepDistanceReverses(p, steps, i);
    assert ReverseAll(steps)[i] == Reverse(steps[i]);
  }

  lemma {:induction false} KeptModes(p: Pose, steps: seq<SubPath>, needStop: bool, k: nat)
    requires k <= |steps| && Kinds(Forward, steps)
    ensures forall s :: s in Kept(p, steps, needStop, k) ==>
              IsRotation(s) || s.runmode == GoForwardMode || s.runmode == ForwardToArcMode
  {
    if k > 0 {
      KeptModes(p, steps, needStop, k - 1);
      assert InRange(Forward, steps[k - 1]);
    }
  }

  lemma SimplifiedReverses(p: Pose, steps: seq<SubPath>, needStop: bool)
    requires Kinds(Forward, steps)
    ensures Simplified(Opposite(p), ReverseAll(steps), needStop) == ReverseAll(Simplified(p, steps, needStop))
  {
    if |steps| > 1 {
      KeptReverses(p, steps, needStop, |steps|);
    } else {
      assert ReverseAll(steps)[0] == Reverse(steps[0]);
      DistanceReverses(p, steps[0].target, Opposite(p), Reverse(steps[0]).target);
    }
  }

  lemma SimplifiedModes(p: Pose, steps: seq<SubPath>, needStop: bool)
    requires Kinds(Forward, steps)
    ensures var kept := Simplified(p, steps, needStop);
            forall i :: 0 <= i < |kept| ==>
              IsRotation(kept[i]) || kept[i].runmode == GoForwardMode || kept[i].runmode == ForwardToArcMode
  {
    KeptModes(p, steps, needStop, |steps|);
    assert InRange(Forward, steps[0]);
  }

  predicate TurnsInPlace(steps: seq<SubPath>)
  {
    forall i :: 0 <= i < |steps| && IsRotation(steps[i]) ==> steps[i].target.x == 0
  }

  lemma StepsTurnInPlace(t: Trig, r: nat, p: Pose)
    requires 0.0 <= p.angle < 360.0 && r >= MIN_TURNING_RADIUS && TrigLaws(t) && p.x <= 0
    ensures TurnsInPlace(Steps(t, Forward, r, p))
  {
    var up := if p.y < 0 then Mirror(p) else p;
    BodyShaped(t, Forward, r, up);
    ShapedKinds(Forward, up, BodySteps(t, Forward, r, up));
  }

  /** What the post-check, the simplification and the speeds make of reversed steps. */
  lemma PipelineReverses(p: Pose, steps: seq<SubPath>, needStop: bool, maxSpeed: int)
    requires Kinds(Forward, steps) && TurnsInPlace(steps)
    ensures PassesTarget(Backward, ReverseAll(steps)) == PassesTarget(Forward, steps)
    ensures WithSpeeds(Simplified(Opposite(p), ReverseAll(steps), needStop), maxSpeed)
         == AllReverseDriven(WithSpeeds(Simplified(p, steps, needStop), maxSpeed))
  {
    CheckReverses(steps);
    SimplifiedReverses(p, steps, needStop);
    SimplifiedModes(p, steps, needStop);
  }

  lemma CheckReverses(steps: seq<SubPath>)
    requires TurnsInPlace(steps)
    ensures PassesTarget(Backward, ReverseAll(steps)) == PassesTarget(Forward, steps)
  {
    var steps' := ReverseAll(steps);
    assert forall i :: 0 <= i < |steps| ==> Passed(Backward, steps'[i].target.x) == Passed(Forward, steps[i].target.x);
  }

  /** For equal radius the backward plan from (x, y, a) is the forward plan from (-x, y, 360 - a)
      driven the other way, whole outcome for whole outcome. */
  lemma PlanReverses(t: Trig, r: nat, p: Pose, needStop: bool, maxSpeed: int)
    requires TrigLaws(t) && r >= MIN_TURNING_RADIUS && 0.0 <= p.angle < 360.0
    ensures PlanAt(t, Backward, r, p, needStop, maxSpeed)
         == ReverseOutcome(PlanAt(t, Forward, r, Opposite(p), needStop, maxSpeed))
  {
    if p.x >= 0 {
      var q := Opposite(p);
      assert Opposite(q) == p;
      StepsReverse(t, r, p);
      StepsKinds(t, Forward, r, q);
      StepsTurnInPlace(t, r, q);
      PipelineReverses(q, Steps(t, Forward, r, q), needStop, maxSpeed);
    }
  }
}
