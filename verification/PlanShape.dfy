/** The shape of every plan: how many steps, which kinds, and how they approach the target. */
module PlanShape {
  import opened Motion
  import opened PlanSpec

  /** No further from the target line's normal than x, seen in the driving direction. */
  predicate Towards(dir: Direction, x: int, x': int)
  {
    if dir == Forward then x <= x' else x' <= x
  }

  predicate IsMove(dir: Direction, s: SubPath)
  {
    if dir == Forward then s.runmode == GoForwardMode || s.runmode == ForwardToArcMode
    else s.runmode == GoBackwardMode || s.runmode == BackwardToArcMode
  }

  /** Moves from (x, y): x advances, y sinks and stays on the near side of the target line, and
      the last one is the line to the target itself. */
  ghost predicate Approach(dir: Direction, x: int, y: int, moves: seq<SubPath>)
    decreases |moves|
  {
    if |moves| <= 1 then moves == [Line(dir, 0, 0, 0.0)]
    else
      var to := moves[0].target;
      && IsMove(dir, moves[0])
      && 0.0 <= to.angle < 360.0
      && Towards(dir, x, to.x) && 0 <= to.y <= y
      && Approach(dir, to.x, to.y, moves[1..])
  }

  function Moves(steps: seq<SubPath>): seq<SubPath>
  {
    if steps != [] && IsRotation(steps[0]) then steps[1..] else steps
  }

  /** At most one rotation, in front, by more than 20 and at most 180 degrees; then one to four
      moves approaching the target. */
  ghost predicate Shaped(dir: Direction, p: Pose, steps: seq<SubPath>)
  {
    && steps != []
    && (IsRotation(steps[0]) ==>
          && steps[0] == Turn(steps[0].target.angle)
          && -180.0 < steps[0].target.angle <= 180.0
          && AbsReal(steps[0].target.angle) > 20.0)
    && 1 <= |Moves(steps)| <= 4
    && Approach(dir, p.x, p.y, Moves(steps))
  }

  lemma Step(dir: Direction, x: int, y: int, m: SubPath, rest: seq<SubPath>)
    requires rest != [] && Approach(dir, m.target.x, m.target.y, rest)
    requires IsMove(dir, m) && 0.0 <= m.target.angle < 360.0
    requires Towards(dir, x, m.target.x) && 0 <= m.target.y <= y
    ensures Approach(dir, x, y, [m] + rest)
  {
  }

  lemma NearTurnRange(t: Trig, p: Pose)
    requires TrigLaws(t) && 0.0 <= p.angle < 360.0
    ensures -180.0 < ForwardNearTurn(t, p) <= 180.0
  {
  }

  lemma ForwardShape(t: Trig, r: nat, p: Pose)
    requires Relative(p) && r >= MIN_TURNING_RADIUS && TrigLaws(t) && p.x <= 0
    ensures Shaped(Forward, p, ForwardSteps(t, r, p))
  {
    var rad := 90.0 + p.angle - 360.0;
    AEIsBounded(t, r, rad);
    if p.y <= NEAR {
      NearTurnRange(t, p);
    } else if p.y <= r {
      ArcShape(r, Leg(r, p.y), ForwardArcTurn(t, r, Leg(r, p.y), p), p);
    } else if 90.0 <= p.angle <= 270.0 {
      VerticalShape(r, ForwardDownTurn(p), p);
    } else if p.angle < 90.0 && p.y > 2 * r {
      BendShape(r, StraightTurn(p), p);
    } else if p.angle > 270.0 && p.y > r + LengthAE(t, r, rad) {
      InclineShape(r, LengthAE(t, r, rad), LengthBE(t, r, rad), p);
    } else {
      TwoArcsShape(r, Leg(r, p.y), ForwardTwoArcsTurn(t, r, Leg(r, p.y), p), p);
    }
  }

  lemma ArcShape(r: nat, leg: nat, diff: real, p: Pose)
    requires p.y >= 0 && -180.0 < diff <= 180.0
    ensures Shaped(Forward, p, ForwardArc(r, leg, diff, p))
  {
  }

  lemma VerticalShape(r: nat, diff: real, p: Pose)
    requires p.y > r && -180.0 < diff <= 180.0
    ensures Shaped(Forward, p, ForwardVertical(r, diff, p))
  {
  }

  lemma BendShape(r: nat, diff: real, p: Pose)
    requires p.y > 2 * r && -180.0 < diff <= 180.0
    ensures Shaped(Forward, p, ForwardBend(r, diff, p))
  {
    var x, y := p.x, p.y;
    var home := Line(Forward, 0, 0, 0.0);
    var arc, line := Arc(Forward, x + 2 * r, 0, 0.0), Line(Forward, x + r, r, 270.0);
    Step(Forward, x + r, r, arc, [home]);
    Step(Forward, x + r, y - r, line, [arc, home]);
    Step(Forward, x, y, Arc(Forward, x + r, y - r, 270.0), [line, arc, home]);
  }

  lemma InclineShape(r: nat, ae: nat, be: nat, p: Pose)
    requires p.y > r + ae
    ensures Shaped(Forward, p, ForwardIncline(r, ae, be, p))
  {
    var x, y := p.x, p.y;
    var home := Line(Forward, 0, 0, 0.0);
    var arc, line := Arc(Forward, x + be + r, 0, 0.0), Line(Forward, x + be, r, 270.0);
    Step(Forward, x + be, r, arc, [home]);
    Step(Forward, x + be, y - ae, line, [arc, home]);
    Step(Forward, x, y, Arc(Forward, x + be, y - ae, 270.0), [line, arc, home]);
    assert [Arc(Forward, x + be, y - ae, 270.0)] + [line, arc, home] == ForwardIncline(r, ae, be, p);
  }

  lemma TwoArcsShape(r: nat, leg: nat, diff: real, p: Pose)
    requires r < p.y && leg <= r && -180.0 < diff <= 180.0
    ensures Shaped(Forward, p, ForwardTwoArcs(r, leg, diff, p))
  {
  }

  lemma {:induction false} ApproachKinds(dir: Direction, x: int, y: int, moves: seq<SubPath>, i: nat)
    requires Approach(dir, x, y, moves) && i < |moves|
    ensures IsMove(dir, moves[i]) && 0.0 <= moves[i].target.angle < 360.0
    ensures moves[|moves| - 1] == Line(dir, 0, 0, 0.0)
    decreases |moves|
  {
    if |moves| > 1 {
      var rest := moves[1..];
      ApproachKinds(dir, moves[0].target.x, moves[0].target.y, rest, if i == 0 then 0 else i - 1);
      assert i > 0 ==> rest[i - 1] == moves[i];
      assert rest[|rest| - 1] == moves[|moves| - 1];
    }
  }

  predicate InRange(dir: Direction, s: SubPath)
  {
    if IsRotation(s) then -180.0 < s.target.angle <= 180.0
    else IsMove(dir, s) && 0.0 <= s.target.angle < 360.0
  }

  /** Step by step: one to five steps, a rotation at most in front, angles in range. */
  ghost predicate Kinds(dir: Direction, steps: seq<SubPath>)
  {
    && 1 <= |steps| <= 5
    && (forall i :: 0 <= i < |steps| ==> InRange(dir, steps[i]))
    && (forall i :: 0 < i < |steps| ==> !IsRotation(steps[i]))
    && !IsRotation(steps[|steps| - 1])
  }

  lemma ShapedKindAt(dir: Direction, p: Pose, steps: seq<SubPath>, i: nat)
    requires Shaped(dir, p, steps) && i < |steps|
    ensures InRange(dir, steps[i])
    ensures i > 0 || |steps| == 1 ==> !IsRotation(steps[i])
    ensures steps[|steps| - 1] == Line(dir, 0, 0, 0.0)
  {
    var moves := Moves(steps);
    var k := |steps| - |moves|;
    assert moves[|moves| - 1] == steps[|steps| - 1];
    if i >= k {
      assert moves[i - k] == steps[i];
      ApproachKinds(dir, p.x, p.y, moves, i - k);
    } else {
      ApproachKinds(dir, p.x, p.y, moves, 0);
    }
  }

  lemma ShapedKinds(dir: Direction, p: Pose, steps: seq<SubPath>)
    requires Shaped(dir, p, steps)
    ensures Kinds(dir, steps)
  {
    forall i | 0 <= i < |steps|
      ensures InRange(dir, steps[i]) && (i > 0 || |steps| == 1 ==> !IsRotation(steps[i]))
    {
      ShapedKindAt(dir, p, steps, i);
    }
  }
}
