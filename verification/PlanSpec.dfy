/** The decomposition of a target-relative pose into steps, as SplitToSubTarget of
    controler/AgvMoveHelperForklift.cpp makes it, stated on values. */
module PlanSpec {
  import opened Motion

  const MAX_TURNING_RADIUS := 4000
  const MIN_TURNING_RADIUS := 1000
  const NEAR := 200

  function Line(dir: Direction, x: int, y: int, angle: real): SubPath
  {
    SubPath(Pose(x, y, angle), if dir == Forward then GoForwardMode else GoBackwardMode, 0, 0)
  }

  function Arc(dir: Direction, x: int, y: int, angle: real): SubPath
  {
    SubPath(Pose(x, y, angle), if dir == Forward then ForwardToArcMode else BackwardToArcMode, 0, 0)
  }

  function Turn(diff: real): SubPath
  {
    SubPath(Pose(0, 0, diff), RotateLeftMode, 0, 0)
  }

  /** A rotation comes first when the heading is more than 20 degrees off. */
  function AfterTurn(diff: real, steps: seq<SubPath>): seq<SubPath>
  {
    if AbsReal(diff) > 20.0 then [Turn(diff)] + steps else steps
  }

  /** STANDARD_RADIUS for this plan, from the radius of the circle through the pose that is
      tangent to the target line 400 mm ahead of the target. */
  function Radius(dir: Direction, circleRadius: int, saved: int, p: Pose): int
  {
    var r0 := if circleRadius >= Abs(p.x) - 400 && Abs(p.y) > Abs(p.x) - 400 then 2800 else circleRadius;
    var r1 := if AbsReal(p.angle - 90.0) <= 20.0 || AbsReal(p.angle - 270.0) <= 20.0 then saved
              else if r0 > MAX_TURNING_RADIUS then MAX_TURNING_RADIUS
              else r0;
    if dir == Backward || r1 < MIN_TURNING_RADIUS then MIN_TURNING_RADIUS else r1
  }

  /** The horizontal leg of a circle of radius r around (_, r) at height y. */
  function Leg(r: nat, y: int): (leg: nat)
    requires 0 <= y <= 2 * r
    ensures leg <= r
  {
    SquareMonotone(r - y, r);
    var leg := ISqrt(r * r - (r - y) * (r - y));
    ISqrtSpec(r * r - (r - y) * (r - y));
    SquareOrder(leg, r);
    leg
  }

  /** The arc's height and width when turning from an inclined heading: length_AE, length_BE. */
  function LengthAE(t: Trig, r: nat, rad: real): int
  {
    (r as real * t.sin(rad)).Floor
  }

  function LengthBE(t: Trig, r: nat, rad: real): int
  {
    (r as real - r as real * t.cos(rad)).Floor
  }

  predicate Relative(p: Pose)
  {
    p.y >= 0 && 0.0 <= p.angle < 360.0
  }

  /** At most 200 mm off the target line: along the line. */
  function ForwardNear(diff: real): seq<SubPath>
  {
    AfterTurn(diff, [Line(Forward, 0, 0, 0.0)])
  }

  function StraightTurn(p: Pose): real
  {
    AngleDiff(Normalise(p.angle), 0.0)
  }

  function ForwardNearTurn(t: Trig, p: Pose): real
  {
    AngleDiff(Normalise(p.angle), if Abs(p.x) < 300 then 0.0 else t.atan2(-p.y, -p.x))
  }

  function ForwardArcTurn(t: Trig, r: nat, leg: nat, p: Pose): real
  {
    RotateAngle(t, p, p.x + leg, r, Anticlockwise)
  }

  function ForwardDownTurn(p: Pose): real
  {
    AngleDiff(Normalise(p.angle), -90.0)
  }

  function ForwardTwoArcsTurn(t: Trig, r: nat, leg: nat, p: Pose): real
  {
    RotateAngle(t, p, p.x - leg, r, Clockwise)
  }

  /** Within the radius: an arc onto the line. */
  function ForwardArc(r: nat, leg: nat, diff: real, p: Pose): seq<SubPath>
  {
    AfterTurn(diff,
              [Arc(Forward, p.x + leg, 0, 0.0), Line(Forward, 0, 0, 0.0)])
  }

  /** Heading away: straight down to the radius, then an arc. */
  function ForwardVertical(r: nat, diff: real, p: Pose): seq<SubPath>
  {
    AfterTurn(diff,
              [Line(Forward, p.x, r, 270.0), Arc(Forward, p.x + r, 0, 0.0), Line(Forward, 0, 0, 0.0)])
  }

  /** More than two radii off: arc, straight down, arc. */
  function ForwardBend(r: nat, diff: real, p: Pose): seq<SubPath>
  {
    AfterTurn(diff,
              [Arc(Forward, p.x + r, p.y - r, 270.0), Line(Forward, p.x + r, r, 270.0),
               Arc(Forward, p.x + 2 * r, 0, 0.0), Line(Forward, 0, 0, 0.0)])
  }

  /** From an inclined heading: the rest of an arc, straight down, arc. */
  function ForwardIncline(r: nat, ae: int, be: int, p: Pose): seq<SubPath>
  {
    [Arc(Forward, p.x + be, p.y - ae, 270.0), Line(Forward, p.x + be, r, 270.0),
     Arc(Forward, p.x + be + r, 0, 0.0), Line(Forward, 0, 0, 0.0)]
  }

  /** Two arcs. */
  function ForwardTwoArcs(r: nat, leg: nat, diff: real, p: Pose): seq<SubPath>
  {
    AfterTurn(diff,
              [Arc(Forward, p.x + (r - leg), r, 270.0), Arc(Forward, p.x + (r - leg) + r, 0, 0.0),
               Line(Forward, 0, 0, 0.0)])
  }

  function ForwardSteps(t: Trig, r: nat, p: Pose): seq<SubPath>
    requires Relative(p) && r >= MIN_TURNING_RADIUS && TrigLaws(t)
  {
    if p.y <= NEAR then ForwardNear(ForwardNearTurn(t, p))
    else if p.y <= r then ForwardArc(r, Leg(r, p.y), ForwardArcTurn(t, r, Leg(r, p.y), p), p)
    else if 90.0 <= p.angle <= 270.0 then ForwardVertical(r, ForwardDownTurn(p), p)
    else if p.angle < 90.0 && p.y > 2 * r then ForwardBend(r, StraightTurn(p), p)
    else if p.angle > 270.0 && p.y > r + LengthAE(t, r, 90.0 + p.angle - 360.0) then
      ForwardIncline(r, LengthAE(t, r, 90.0 + p.angle - 360.0), LengthBE(t, r, 90.0 + p.angle - 360.0), p)
    else
      AEIsBounded(t, r, 90.0 + p.angle - 360.0);
      ForwardTwoArcs(r, Leg(r, p.y), ForwardTwoArcsTurn(t, r, Leg(r, p.y), p), p)
  }

  /** At most 200 mm off the target line: along the line. */
  function BackwardNear(diff: real): seq<SubPath>
  {
    AfterTurn(diff, [Line(Backward, 0, 0, 0.0)])
  }

  function BackwardNearTurn(t: Trig, p: Pose): real
  {
    AngleDiff(Normalise(p.angle), if Abs(p.x) < 300 then 0.0 else t.atan2(p.y, p.x))
  }

  function BackwardArcTurn(t: Trig, r: nat, leg: nat, p: Pose): real
  {
    RotateAngle(t, p, p.x - leg, r, Anticlockwise)
  }

  function BackwardDownTurn(p: Pose): real
  {
    AngleDiff(Normalise(p.angle), 90.0)
  }

  function BackwardTwoArcsTurn(t: Trig, r: nat, leg: nat, p: Pose): real
  {
    RotateAngle(t, p, p.x + leg, r, Clockwise)
  }

  /** Within the radius: an arc onto the line. */
  function BackwardArc(r: nat, leg: nat, diff: real, p: Pose): seq<SubPath>
  {
    AfterTurn(diff,
              [Arc(Backward, p.x - leg, 0, 0.0), Line(Backward, 0, 0, 0.0)])
  }

  /** Heading away: straight down to the radius, then an arc. */
  function BackwardVertical(r: nat, diff: real, p: Pose): seq<SubPath>
  {
    AfterTurn(diff,
              [Line(Backward, p.x, r, 90.0), Arc(Backward, p.x - r, 0, 0.0), Line(Backward, 0, 0, 0.0)])
  }

  /** More than two radii off: arc, straight down, arc. */
  function BackwardBend(r: nat, diff: real, p: Pose): seq<SubPath>
  {
    AfterTurn(diff,
              [Arc(Backward, p.x - r, p.y - r, 90.0), Line(Backward, p.x - r, r, 90.0),
               Arc(Backward, p.x - 2 * r, 0, 0.0), Line(Backward, 0, 0, 0.0)])
  }

  /** From an inclined heading: the rest of an arc, straight down, arc. */
  function BackwardIncline(r: nat, ae: int, be: int, p: Pose): seq<SubPath>
  {
    [Arc(Backward, p.x - be, p.y - ae, 90.0), Line(Backward, p.x - be, r, 90.0),
     Arc(Backward, p.x - be - r, 0, 0.0), Line(Backward, 0, 0, 0.0)]
  }

  /** Two arcs. */
  function BackwardTwoArcs(r: nat, leg: nat, diff: real, p: Pose): seq<SubPath>
  {
    AfterTurn(diff,
              [Arc(Backward, p.x - (r - leg), r, 90.0), Arc(Backward, p.x - (r - leg) - r, 0, 0.0),
               Line(Backward, 0, 0, 0.0)])
  }

  function BackwardSteps(t: Trig, r: nat, p: Pose): seq<SubPath>
    requires Relative(p) && r >= MIN_TURNING_RADIUS && TrigLaws(t)
  {
    if p.y <= NEAR then BackwardNear(BackwardNearTurn(t, p))
    else if p.y <= r then BackwardArc(r, Leg(r, p.y), BackwardArcTurn(t, r, Leg(r, p.y), p), p)
    else if 90.0 <= p.angle <= 270.0 then BackwardVertical(r, BackwardDownTurn(p), p)
    else if p.angle > 270.0 && p.y > 2 * r then BackwardBend(r, StraightTurn(p), p)
    else if p.angle < 90.0 && p.y > r + LengthAE(t, r, 90.0 - p.angle) then
      BackwardIncline(r, LengthAE(t, r, 90.0 - p.angle), LengthBE(t, r, 90.0 - p.angle), p)
    else
      AEIsBounded(t, r, 90.0 - p.angle);
      BackwardTwoArcs(r, Leg(r, p.y), BackwardTwoArcsTurn(t, r, Leg(r, p.y), p), p)
  }

  lemma Scaled(q: real, c: real)
    requires q >= 0.0 && 0.0 <= c <= 1.0
    ensures 0.0 <= q * c <= q
  {
  }

  lemma FloorBetween(z: real, r: nat)
    requires 0.0 <= z <= r as real
    ensures 0 <= z.Floor <= r
  {
  }

  lemma AEIsBounded(t: Trig, r: nat, rad: real)
    requires TrigLaws(t)
    ensures 0.0 <= rad <= 90.0 ==> 0 <= LengthAE(t, r, rad) <= r && 0 <= LengthBE(t, r, rad) <= r
  {
    if 0.0 <= rad <= 90.0 {
      UnitLegs(t, rad);
      LegsBounded(r, t.sin(rad), t.cos(rad));
    }
  }

  lemma LegsBounded(r: nat, s: real, c: real)
    requires 0.0 <= s <= 1.0 && 0.0 <= c <= 1.0
    ensures 0 <= (r as real * s).Floor <= r && 0 <= (r as real - r as real * c).Floor <= r
  {
    var q := r as real;
    Scaled(q, s);
    Scaled(q, c);
    FloorBetween(q * s, r);
    FloorBetween(q - q * c, r);
  }

  /** The heading opposite in the target line, or in the line across it. */
  function FlipAngle(a: real): real
  {
    if a == 0.0 then 0.0 else 360.0 - a
  }

  /** A rotation the other way round, -180 being written as 180. */
  function FlipTurn(d: real): real
  {
    if -d == -180.0 then 180.0 else -d
  }

  function Mirror(p: Pose): Pose
  {
    Pose(p.x, -p.y, FlipAngle(p.angle))
  }

  /** A step reflected in the target line. */
  function MirrorStep(s: SubPath): SubPath
  {
    if IsRotation(s) then s.(target := s.target.(angle := FlipTurn(s.target.angle)))
    else s.(target := Mirror(s.target))
  }

  function MirrorAll(steps: seq<SubPath>): seq<SubPath>
  {
    seq(|steps|, i requires 0 <= i < |steps| => MirrorStep(steps[i]))
  }

  function BodySteps(t: Trig, dir: Direction, r: nat, p: Pose): seq<SubPath>
    requires Relative(p) && r >= MIN_TURNING_RADIUS && TrigLaws(t)
  {
    if dir == Forward then ForwardSteps(t, r, p) else BackwardSteps(t, r, p)
  }

  /** The plan before the post-check: poses below the target line are planned mirrored. */
  function Steps(t: Trig, dir: Direction, r: nat, p: Pose): seq<SubPath>
    requires 0.0 <= p.angle < 360.0 && r >= MIN_TURNING_RADIUS && TrigLaws(t)
  {
    if p.y < 0 then MirrorAll(BodySteps(t, dir, r, Mirror(p))) else BodySteps(t, dir, r, p)
  }

  /** On the far side of the target, seen in the driving direction. */
  predicate Passed(dir: Direction, x: int)
  {
    if dir == Forward then x > 0 else x < 0
  }

  predicate PassesTarget(dir: Direction, steps: seq<SubPath>)
  {
    exists i :: 0 <= i < |steps| && Passed(dir, steps[i].target.x)
  }

  /** The driving distance of step i, starting from the pose p; a rotation has none. */
  function StepDistance(p: Pose, steps: seq<SubPath>, i: nat): nat
    requires i < |steps|
  {
    if i == 0 then if IsRotation(steps[0]) then 0 else Distance(p, steps[0].target)
    else if i == 1 && IsRotation(steps[0]) then Distance(p, steps[1].target)
    else Distance(steps[i - 1].target, steps[i].target)
  }

  /** Rotations stay, steps of at most 200 mm go, except a last one that has to stop precisely. */
  predicate IsKept(p: Pose, steps: seq<SubPath>, needStop: bool, i: nat)
    requires i < |steps|
  {
    IsRotation(steps[i]) || StepDistance(p, steps, i) > NEAR || (i == |steps| - 1 && needStop)
  }

  /** Step i as it is kept: with its distance, its speed not set yet. */
  function Measured(p: Pose, steps: seq<SubPath>, i: nat): SubPath
    requires i < |steps|
  {
    steps[i].(distance := StepDistance(p, steps, i), speed := 0)
  }

  /** What simplification keeps of the first k steps. */
  function Kept(p: Pose, steps: seq<SubPath>, needStop: bool, k: nat): seq<SubPath>
    requires k <= |steps|
  {
    if k == 0 then []
    else
      var before := Kept(p, steps, needStop, k - 1);
      if IsKept(p, steps, needStop, k - 1)
      then before + [Measured(p, steps, k - 1)]
      else before
  }

  function Simplified(p: Pose, steps: seq<SubPath>, needStop: bool): seq<SubPath>
    requires steps != []
  {
    if |steps| > 1 then Kept(p, steps, needStop, |steps|)
    else [steps[0].(distance := Distance(p, steps[0].target))]
  }

  /** calTargetSpeedByPathDistance. */
  function TargetSpeed(distance: int, maxSpeed: int): int
  {
    var speed := if distance > 7000 then 1500
                 else if distance > 5000 then 1300
                 else if distance > 3000 then 1000
                 else if distance > 2000 then 500
                 else if distance > 500 then 300
                 else 150;
    if speed > maxSpeed then maxSpeed else speed
  }

  function WithSpeed(s: SubPath, maxSpeed: int): SubPath
  {
    s.(speed :=
      if s.runmode == GoForwardMode || s.runmode == ForwardToArcMode then TargetSpeed(s.distance, maxSpeed)
      else if s.runmode == GoBackwardMode || s.runmode == BackwardToArcMode then -TargetSpeed(s.distance, maxSpeed)
      else 100)
  }

  function WithSpeeds(steps: seq<SubPath>, maxSpeed: int): seq<SubPath>
  {
    seq(|steps|, i requires 0 <= i < |steps| => WithSpeed(steps[i], maxSpeed))
  }

  datatype Outcome = Rejected | Planned(steps: seq<SubPath>)

  /** SplitToSubTarget for a given radius, up to the transformation back to global coordinates. */
  function PlanAt(t: Trig, dir: Direction, r: nat, p: Pose, needStop: bool, maxSpeed: int): Outcome
    requires TrigLaws(t) && r >= MIN_TURNING_RADIUS
  {
    if !(0.0 <= p.angle < 360.0) || Passed(dir, p.x) then Rejected
    else
      var steps := Steps(t, dir, r, p);
      if steps == [] || PassesTarget(dir, steps) then Rejected
      else Planned(WithSpeeds(Simplified(p, steps, needStop), maxSpeed))
  }

  function Plan(t: Trig, dir: Direction, circleRadius: int, saved: int, p: Pose, needStop: bool, maxSpeed: int): Outcome
    requires TrigLaws(t)
  {
    PlanAt(t, dir, Radius(dir, circleRadius, saved, p), p, needStop, maxSpeed)
  }
}
