/** The headings at the joints of a plan: every move after the first starts exactly along the exit
    heading of the one before. */
module PlanJoints {
  import opened Motion
  import opened PlanSpec
  import opened PlanShape
  import opened PlanGeometry
  import opened PlanTheorems

  /** The heading with which move m sets out from a pose: its own for a line, the tangent of its
      circle for an arc. */
  function HeadingInto(t: Trig, r: nat, from: Pose, m: SubPath): real
  {
    if m.runmode == GoForwardMode then m.target.angle
    else
      TangentHeading(t, from.x, from.y, CentreX(r, m.target), CentreY(r, m.target),
                     if m.target.angle == 0.0 then Anticlockwise else Clockwise)
  }

  ghost predicate Smooth(t: Trig, r: nat, moves: seq<SubPath>)
  {
    |moves| >= 2 ==>
      HeadingInto(t, r, moves[0].target, moves[1]) == moves[0].target.angle && Smooth(t, r, moves[1..])
  }

  lemma Joint(t: Trig, r: nat, m: SubPath, rest: seq<SubPath>)
    requires rest != [] && Smooth(t, r, rest) && HeadingInto(t, r, m.target, rest[0]) == m.target.angle
    ensures Smooth(t, r, [m] + rest)
  {
    assert ([m] + rest)[1..] == rest;
  }

  /** The last quarter: from a heading down, R above the line, along the line home. */
  lemma HomeSmooth(t: Trig, r: nat, x: int, first: SubPath)
    requires TrigLaws(t) && r > 0 && first.target == Pose(x, r, 270.0)
    ensures Smooth(t, r, [first, Arc(Forward, x + r, 0, 0.0), Line(Forward, 0, 0, 0.0)])
  {
    var arc, home := Arc(Forward, x + r, 0, 0.0), Line(Forward, 0, 0, 0.0);
    Joint(t, r, arc, [home]);
    assert [arc] + [home] == [arc, home];
    assert t.atan2(0, r) == 0.0;
    Joint(t, r, first, [arc, home]);
    assert [first] + [arc, home] == [first, arc, home];
  }

  lemma ForwardSmooth(t: Trig, r: nat, p: Pose)
    requires Relative(p) && r >= MIN_TURNING_RADIUS && TrigLaws(t)
    ensures Smooth(t, r, Moves(ForwardSteps(t, r, p)))
  {
    if p.y <= NEAR {
      NearSmooth(t, r, ForwardNearTurn(t, p));
    } else if p.y <= r {
      ArcSmooth(t, r, Leg(r, p.y), ForwardArcTurn(t, r, Leg(r, p.y), p), p);
    } else {
      ForwardFarSmooth(t, r, p);
    }
  }

  lemma ForwardFarSmooth(t: Trig, r: nat, p: Pose)
    requires Relative(p) && r >= MIN_TURNING_RADIUS && TrigLaws(t) && p.y > r
    ensures Smooth(t, r, Moves(ForwardSteps(t, r, p)))
  {
    var rad := 90.0 + p.angle - 360.0;
    AEIsBounded(t, r, rad);
    if 90.0 <= p.angle <= 270.0 {
      VerticalSmooth(t, r, ForwardDownTurn(p), p);
    } else if p.angle < 90.0 && p.y > 2 * r {
      BendSmooth(t, r, StraightTurn(p), p);
    } else if p.angle > 270.0 && p.y > r + LengthAE(t, r, rad) {
      InclineSmooth(t, r, LengthAE(t, r, rad), LengthBE(t, r, rad), p);
    } else {
      TwoArcsSmooth(t, r, Leg(r, p.y), ForwardTwoArcsTurn(t, r, Leg(r, p.y), p), p);
    }
  }

  lemma NearSmooth(t: Trig, r: nat, diff: real)
    ensures Smooth(t, r, Moves(ForwardNear(diff)))
  {
    MovesAfterTurn(diff, [Line(Forward, 0, 0, 0.0)]);
  }

  lemma ArcSmooth(t: Trig, r: nat, leg: nat, diff: real, p: Pose)
    ensures Smooth(t, r, Moves(ForwardArc(r, leg, diff, p)))
  {
    var arc, home := Arc(Forward, p.x + leg, 0, 0.0), Line(Forward, 0, 0, 0.0);
    MovesAfterTurn(diff, [arc, home]);
    Joint(t, r, arc, [home]);
    assert [arc] + [home] == [arc, home];
  }

  lemma VerticalSmooth(t: Trig, r: nat, diff: real, p: Pose)
    requires TrigLaws(t) && r > 0
    ensures Smooth(t, r, Moves(ForwardVertical(r, diff, p)))
  {
    var down := Line(Forward, p.x, r, 270.0);
    MovesAfterTurn(diff, [down, Arc(Forward, p.x + r, 0, 0.0), Line(Forward, 0, 0, 0.0)]);
    HomeSmooth(t, r, p.x, down);
  }

  /** Straight down into the last quarter. */
  lemma DownSmooth(t: Trig, r: nat, x: int, first: SubPath)
    requires TrigLaws(t) && r > 0 && first.target.angle == 270.0
    ensures Smooth(t, r, [first, Line(Forward, x, r, 270.0), Arc(Forward, x + r, 0, 0.0), Line(Forward, 0, 0, 0.0)])
  {
    var down := Line(Forward, x, r, 270.0);
    var rest := [down, Arc(Forward, x + r, 0, 0.0), Line(Forward, 0, 0, 0.0)];
    HomeSmooth(t, r, x, down);
    Joint(t, r, first, rest);
    assert [first] + rest == [first, down, rest[1], rest[2]];
  }

  lemma BendSmooth(t: Trig, r: nat, diff: real, p: Pose)
    requires TrigLaws(t) && r > 0
    ensures Smooth(t, r, Moves(ForwardBend(r, diff, p)))
  {
    var x := p.x + r;
    var first, down, arc := Arc(Forward, x, p.y - r, 270.0), Line(Forward, x, r, 270.0), Arc(Forward, x + r, 0, 0.0);
    var moves := [first, down, arc, Line(Forward, 0, 0, 0.0)];
    DownSmooth(t, r, x, first);
    MovesAfterTurn(diff, moves);
    assert ForwardBend(r, diff, p) == AfterTurn(diff, moves);
  }

  lemma InclineSmooth(t: Trig, r: nat, ae: int, be: int, p: Pose)
    requires TrigLaws(t) && r > 0
    ensures Smooth(t, r, Moves(ForwardIncline(r, ae, be, p)))
  {
    DownSmooth(t, r, p.x + be, Arc(Forward, p.x + be, p.y - ae, 270.0));
  }

  lemma TwoArcsSmooth(t: Trig, r: nat, leg: nat, diff: real, p: Pose)
    requires TrigLaws(t) && r > 0
    ensures Smooth(t, r, Moves(ForwardTwoArcs(r, leg, diff, p)))
  {
    var first := Arc(Forward, p.x + (r - leg), r, 270.0);
    MovesAfterTurn(diff, [first, Arc(Forward, p.x + (r - leg) + r, 0, 0.0), Line(Forward, 0, 0, 0.0)]);
    HomeSmooth(t, r, p.x + (r - leg), first);
  }

  /** In every plan of either direction and side the moves run into each other without a kink. */
  lemma PlanSmooth(t: Trig, dir: Direction, r: nat, p: Pose)
    requires 0.0 <= p.angle < 360.0 && r >= MIN_TURNING_RADIUS && TrigLaws(t) && !Passed(dir, p.x)
    ensures Smooth(t, r, Moves(CanonicalPlan(dir, p, Steps(t, dir, r, p))))
  {
    PlanIsCanonical(t, dir, r, p);
    ForwardSmooth(t, r, CanonicalPose(dir, p));
  }
}
