/** The simplification pass: exactly which steps it keeps, and that it never empties a plan. */
module PlanSimplify {
  import opened Motion
  import opened PlanSpec
  import opened PlanShape
  import opened PlanGeometry
  import opened PlanSymmetry
  import opened PlanTheorems

  /** The positions of the kept steps. */
  function KeptIndices(p: Pose, steps: seq<SubPath>, needStop: bool, k: nat): seq<nat>
    requires k <= |steps|
  {
    if k == 0 then []
    else
      var before := KeptIndices(p, steps, needStop, k - 1);
      if IsKept(p, steps, needStop, k - 1) then before + [k - 1] else before
  }

  /** The kept positions come in order, and are those that IsKept says. */
  lemma {:induction false} KeptIndicesExact(p: Pose, steps: seq<SubPath>, needStop: bool, k: nat)
    requires k <= |steps|
    ensures var at := KeptIndices(p, steps, needStop, k);
            && (forall i, j :: 0 <= i < j < |at| ==> at[i] < at[j])
            && (forall i :: i in at <==> 0 <= i < k && IsKept(p, steps, needStop, i))
  {
    if k > 0 {
      KeptIndicesExact(p, steps, needStop, k - 1);
      var at := KeptIndices(p, steps, needStop, k - 1);
      assert forall j :: 0 <= j < |at| ==> at[j] in at;
      assert IsKept(p, steps, needStop, k - 1) ==> KeptIndices(p, steps, needStop, k) == at + [k - 1];
    }
  }

  lemma {:induction false} KeptContents(p: Pose, steps: seq<SubPath>, needStop: bool, k: nat)
    requires k <= |steps|
    ensures var at, kept := KeptIndices(p, steps, needStop, k), Kept(p, steps, needStop, k);
            && |kept| == |at|
            && forall j :: 0 <= j < |at| ==>
                 && at[j] < k
                 && kept[j] == Measured(p, steps, at[j])
  {
    if k > 0 {
      KeptContents(p, steps, needStop, k - 1);
    }
  }

  /** Simplification takes an in-order subsequence: the rotations, the steps of more than 200 mm,
      and a last step that must stop precisely; nothing else, with their distances. */
  lemma KeptIsSubsequence(p: Pose, steps: seq<SubPath>, needStop: bool)
    ensures var n := |steps|;
            var at, kept := KeptIndices(p, steps, needStop, n), Kept(p, steps, needStop, n);
            && |kept| == |at|
            && (forall i, j :: 0 <= i < j < |at| ==> at[i] < at[j])
            && (forall i :: i in at <==>
                  && 0 <= i < n
                  && (IsRotation(steps[i]) || StepDistance(p, steps, i) > 200 || (needStop && i == n - 1)))
            && (forall j :: 0 <= j < |at| ==>
                  && at[j] < n
                  && kept[j] == Measured(p, steps, at[j]))
  {
    KeptIndicesExact(p, steps, needStop, |steps|);
    KeptContents(p, steps, needStop, |steps|);
  }

  lemma DistanceBoundsDrop(a: Pose, b: Pose)
    ensures Distance(a, b) >= Abs(a.y - b.y)
  {
    RootOfSum(Square(a.x - b.x), Abs(a.y - b.y));
    SquareOfAbs(a.y - b.y);
  }

  lemma RootOfSum(n: nat, d: nat)
    ensures ISqrt(n + d * d) >= d
  {
    var s := ISqrt(n + d * d);
    ISqrtSpec(n + d * d);
    if s + 1 <= d {
      SquareMonotone(s + 1, d);
    }
  }

  lemma SquareOfAbs(d: int)
    ensures Square(d) == Abs(d) * Abs(d)
  {
  }

  /** Some move sinks by more than 200 mm. */
  ghost predicate Drops(y: int, moves: seq<SubPath>)
    decreases |moves|
  {
    moves != [] && (y - moves[0].target.y > NEAR || Drops(moves[0].target.y, moves[1..]))
  }

  /** A forward plan of more than one move sinks by more than 200 mm in one of them. */
  lemma ForwardDrops(t: Trig, r: nat, p: Pose)
    requires Relative(p) && r >= MIN_TURNING_RADIUS && TrigLaws(t) && p.x <= 0
    ensures var moves := Moves(ForwardSteps(t, r, p)); |moves| == 1 || Drops(p.y, moves)
  {
    var rad := 90.0 + p.angle - 360.0;
    AEIsBounded(t, r, rad);
    if p.y <= NEAR {
      MovesAfterTurn(ForwardNearTurn(t, p), [Line(Forward, 0, 0, 0.0)]);
    } else if p.y <= r {
      ArcDrops(r, Leg(r, p.y), ForwardArcTurn(t, r, Leg(r, p.y), p), p);
    } else if 90.0 <= p.angle <= 270.0 {
      VerticalDrops(r, ForwardDownTurn(p), p);
    } else if p.angle < 90.0 && p.y > 2 * r {
      BendDrops(r, StraightTurn(p), p);
    } else if p.angle > 270.0 && p.y > r + LengthAE(t, r, rad) {
      InclineDrops(r, LengthAE(t, r, rad), LengthBE(t, r, rad), p);
    } else {
      TwoArcsDrop(r, Leg(r, p.y), ForwardTwoArcsTurn(t, r, Leg(r, p.y), p), p);
    }
  }

  lemma ArcDrops(r: nat, leg: nat, diff: real, p: Pose)
    requires p.y > NEAR
    ensures Drops(p.y, Moves(ForwardArc(r, leg, diff, p)))
  {
  }

  lemma VerticalDrops(r: nat, diff: real, p: Pose)
    requires r >= MIN_TURNING_RADIUS
    ensures Drops(p.y, Moves(ForwardVertical(r, diff, p)))
  {
  }

  lemma BendDrops(r: nat, diff: real, p: Pose)
    requires r >= MIN_TURNING_RADIUS
    ensures Drops(p.y, Moves(ForwardBend(r, diff, p)))
  {
  }

  lemma InclineDrops(r: nat, ae: nat, be: nat, p: Pose)
    requires r >= MIN_TURNING_RADIUS
    ensures Drops(p.y, Moves(ForwardIncline(r, ae, be, p)))
  {
  }

  lemma TwoArcsDrop(r: nat, leg: nat, diff: real, p: Pose)
    requires r >= MIN_TURNING_RADIUS
    ensures Drops(p.y, Moves(ForwardTwoArcs(r, leg, diff, p)))
  {
  }

  /** Heights along the moves, without signs: what both reflections leave alone. */
  ghost predicate SameHeights(a: seq<SubPath>, b: seq<SubPath>, flipped: bool)
  {
    |a| == |b| && forall i :: 0 <= i < |a| ==>
      && IsRotation(a[i]) == IsRotation(b[i])
      && (!IsRotation(a[i]) ==> b[i].target.y == if flipped then -a[i].target.y else a[i].target.y)
  }

  /** A drop among the moves of a plan without rotation is a long step of the plan and of its
      reflections. */
  lemma DropIsLongStep(p: Pose, steps: seq<SubPath>, y: int, moves: seq<SubPath>, flipped: bool) returns (i: nat)
    requires Drops(y, moves) && SameHeights(moves, steps, flipped)
    requires forall j :: 0 <= j < |steps| ==> !IsRotation(steps[j])
    requires p.y == if flipped then -y else y
    ensures i < |steps| && StepDistance(p, steps, i) > NEAR
  {
    var from := y;
    i := 0;
    while from - moves[i].target.y <= NEAR
      invariant 0 <= i < |moves|
      invariant from == if i == 0 then y else moves[i - 1].target.y
      invariant Drops(from, moves[i..])
      decreases |moves| - i
    {
      assert moves[i..][1..] == moves[i + 1..];
      from, i := moves[i].target.y, i + 1;
    }
    DistanceBoundsDrop(if i == 0 then p else steps[i - 1].target, steps[i].target);
  }

  /** Every plan but the single line holds a step that simplification keeps. */
  lemma SomeStepIsKept(t: Trig, dir: Direction, r: nat, p: Pose, needStop: bool) returns (i: nat)
    requires 0.0 <= p.angle < 360.0 && r >= MIN_TURNING_RADIUS && TrigLaws(t) && !Passed(dir, p.x)
    requires |Steps(t, dir, r, p)| > 1
    ensures i < |Steps(t, dir, r, p)| && IsKept(p, Steps(t, dir, r, p), needStop, i)
  {
    var q := CanonicalPose(dir, p);
    PlanIsCanonical(t, dir, r, p);
    ForwardDrops(t, r, q);
    StepsKinds(t, dir, r, p);
    i := KeptByDrop(dir, p, Steps(t, dir, r, p), ForwardSteps(t, r, q), needStop);
  }

  lemma CanonicalHeights(dir: Direction, p: Pose, steps: seq<SubPath>)
    ensures SameHeights(CanonicalPlan(dir, p, steps), steps, p.y < 0)
  {
    var shown := Unmirrored(p, steps);
    assert forall j :: 0 <= j < |steps| ==> MirrorAll(steps)[j] == MirrorStep(steps[j]);
    assert forall j :: 0 <= j < |shown| ==> ReverseAll(shown)[j] == Reverse(shown[j]);
  }

  lemma KeptByDrop(dir: Direction, p: Pose, steps: seq<SubPath>, canonical: seq<SubPath>, needStop: bool)
      returns (i: nat)
    requires Kinds(dir, steps) && |steps| > 1
    requires canonical == CanonicalPlan(dir, p, steps)
    requires |Moves(canonical)| == 1 || Drops(CanonicalPose(dir, p).y, Moves(canonical))
    ensures i < |steps| && IsKept(p, steps, needStop, i)
  {
    CanonicalHeights(dir, p, steps);
    if IsRotation(steps[0]) {
      i := 0;
    } else {
      i := DropIsLongStep(p, steps, CanonicalPose(dir, p).y, canonical, p.y < 0);
    }
  }

  /** An accepted pose always yields a plan of one to five steps: simplification never drops all
      of them, whatever the settings. */
  lemma PlanNeverEmpty(t: Trig, dir: Direction, circleRadius: int, saved: int, p: Pose, needStop: bool, maxSpeed: int)
    requires TrigLaws(t)
    ensures match Plan(t, dir, circleRadius, saved, p, needStop, maxSpeed)
            case Rejected => true
            case Planned(steps) => 1 <= |steps| <= 5
  {
    if 0.0 <= p.angle < 360.0 && !Passed(dir, p.x) {
      var r := Radius(dir, circleRadius, saved, p);
      StepsKinds(t, dir, r, p);
      if |Steps(t, dir, r, p)| > 1 {
        var i := SomeStepIsKept(t, dir, r, p, needStop);
        KeptSize(p, Steps(t, dir, r, p), needStop, i);
      }
    }
  }

  lemma KeptSize(p: Pose, steps: seq<SubPath>, needStop: bool, i: nat)
    requires i < |steps| && IsKept(p, steps, needStop, i)
    ensures 1 <= |Kept(p, steps, needStop, |steps|)| <= |steps|
  {
    KeptIsSubsequence(p, steps, needStop);
    KeptAtMost(p, steps, needStop, |steps|);
    assert i in KeptIndices(p, steps, needStop, |steps|);
  }

  lemma {:induction false} KeptAtMost(p: Pose, steps: seq<SubPath>, needStop: bool, k: nat)
    requires k <= |steps|
    ensures |Kept(p, steps, needStop, k)| <= k
  {
    if k > 0 {
      KeptAtMost(p, steps, needStop, k - 1);
    }
  }
}
