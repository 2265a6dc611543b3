/** Which case a pose falls in and how far the car turns in it: the rotation in front, the number and
    kind of the moves, and the turn of every arc. */
module PlanTurns {
  import opened Motion
  import opened PlanSpec
  import opened PlanShape
  import opened PlanGeometry
  import opened PlanSymmetry
  import opened PlanTheorems

  /** The heading points to the side of the driving direction. */
  predicate Ahead(p: Pose)
  {
    p.angle < 90.0 || p.angle > 270.0
  }

  /** The angle of the rotation in front; 0 without one. */
  function FirstTurn(steps: seq<SubPath>): real
  {
    if steps != [] && IsRotation(steps[0]) then AbsReal(steps[0].target.angle) else 0.0
  }

  // The rotation in front -------------------------------------------------------------------------

  /** Beyond the radius a car that heads forwards turns by at most a right angle, or, between one and
      two radii off, by less than it would to head straight for the line; a car that heads backwards
      turns to head straight for the line. Whatever is less than 20 degrees is not turned. */
  predicate TurnsLittle(r: nat, p: Pose, turn: real)
  {
    && (turn == 0.0 || 20.0 < turn <= 180.0)
    && (p.y > r && Ahead(p) ==> turn <= 90.0 || (p.angle < 90.0 && p.y <= 2 * r && turn < p.angle + 90.0))
    && (p.y > r && !Ahead(p) ==> turn == if p.angle > 290.0 || p.angle < 250.0 then AbsReal(p.angle - 270.0) else 0.0)
  }

  /** The tangent at which two arcs are entered points down and towards the target. */
  lemma TwoArcsHeading(t: Trig, x: int, y: int, leg: nat, r: nat)
    requires TrigLaws(t) && y > r
    ensures var h := TangentHeading(t, x, y, x - leg, r, Clockwise);
            if leg > 0 then 270.0 < h < 360.0 else h == 0.0
  {
    var up: int := y - r;
    assert t.atan2(-up, -(leg as int)) == -t.atan2(up, -(leg as int));
    assert t.atan2(up, -(leg as int)) == 180.0 - t.atan2(up, leg);
    if leg == 0 {
      assert t.atan2(up, -0) == 180.0 - t.atan2(up, 0);
    }
  }

  lemma TwoArcsTurn(t: Trig, r: nat, leg: nat, p: Pose)
    requires TrigLaws(t) && p.y > r && 0.0 <= p.angle < 360.0 && Ahead(p)
    ensures var d := AbsReal(ForwardTwoArcsTurn(t, r, leg, p));
            if p.angle > 270.0 then d <= 90.0 else d < p.angle + 90.0
  {
    TwoArcsHeading(t, p.x, p.y, leg, r);
  }

  lemma ForwardTurnsLittle(t: Trig, r: nat, p: Pose)
    requires Relative(p) && r >= MIN_TURNING_RADIUS && TrigLaws(t) && p.x <= 0
    ensures TurnsLittle(r, p, FirstTurn(ForwardSteps(t, r, p)))
  {
    ForwardShape(t, r, p);
    if p.y > r {
      FarTurnsLittle(t, r, p);
    }
  }

  lemma FarTurnsLittle(t: Trig, r: nat, p: Pose)
    requires Relative(p) && r >= MIN_TURNING_RADIUS && TrigLaws(t) && p.y > r
    requires var turn := FirstTurn(ForwardSteps(t, r, p)); turn == 0.0 || 20.0 < turn <= 180.0
    ensures TurnsLittle(r, p, FirstTurn(ForwardSteps(t, r, p)))
  {
    AEIsBounded(t, r, 90.0 + p.angle - 360.0);
    if 90.0 <= p.angle <= 270.0 {
      CaseTurn(r, ForwardDownTurn(p), p);
    } else if p.angle < 90.0 && p.y > 2 * r {
      CaseTurn(r, StraightTurn(p), p);
    } else if !Inclined(t, r, p) {
      TwoArcsTurn(t, r, Leg(r, p.y), p);
    }
  }

  lemma CaseTurn(r: nat, diff: real, p: Pose)
    ensures FirstTurn(ForwardVertical(r, diff, p)) == if AbsReal(diff) > 20.0 then AbsReal(diff) else 0.0
    ensures FirstTurn(ForwardBend(r, diff, p)) == if AbsReal(diff) > 20.0 then AbsReal(diff) else 0.0
  {
  }

  // The moves -------------------------------------------------------------------------------------

  /** One move within 200 mm of the line, two within the radius; beyond it a car that heads backwards
      makes three, the first straight down; one that heads forwards starts with an arc, and makes four
      moves when it is more than two radii off or has come down an incline, and three otherwise. */
  ghost predicate CaseOf(t: Trig, r: nat, p: Pose, moves: seq<SubPath>)
  {
    && moves != []
    && (|moves| == 1 <==> p.y <= 200)
    && (|moves| == 2 <==> 200 < p.y <= r)
    && (moves[0].runmode == GoForwardMode <==> p.y <= 200 || (p.y > r && !Ahead(p)))
    && (|moves| == 4 <==> p.y > r && Ahead(p) && (if p.angle < 90.0 then p.y > 2 * r else Inclined(t, r, p)))
  }

  lemma ForwardCase(t: Trig, r: nat, p: Pose)
    requires Relative(p) && r >= MIN_TURNING_RADIUS && TrigLaws(t) && p.x <= 0
    ensures CaseOf(t, r, p, Moves(ForwardSteps(t, r, p)))
  {
    AEIsBounded(t, r, 90.0 + p.angle - 360.0);
    if p.y <= NEAR {
      MovesAfterTurn(ForwardNearTurn(t, p), [Line(Forward, 0, 0, 0.0)]);
    } else if p.y <= r {
      ArcMoves(r, Leg(r, p.y), ForwardArcTurn(t, r, Leg(r, p.y), p), p);
    } else {
      FarCase(t, r, p);
    }
  }

  lemma FarCase(t: Trig, r: nat, p: Pose)
    requires Relative(p) && r >= MIN_TURNING_RADIUS && TrigLaws(t) && p.x <= 0 && p.y > r
    ensures CaseOf(t, r, p, Moves(ForwardSteps(t, r, p)))
  {
    var rad := 90.0 + p.angle - 360.0;
    AEIsBounded(t, r, rad);
    if 90.0 <= p.angle <= 270.0 {
      VerticalMoves(r, ForwardDownTurn(p), p);
    } else if p.angle < 90.0 && p.y > 2 * r {
      BendMoves(r, StraightTurn(p), p);
    } else if Inclined(t, r, p) {
      InclineMoves(r, LengthAE(t, r, rad), LengthBE(t, r, rad), p);
    } else {
      TwoArcsMoves(r, Leg(r, p.y), ForwardTwoArcsTurn(t, r, Leg(r, p.y), p), p);
    }
  }

  lemma ArcMoves(r: nat, leg: nat, diff: real, p: Pose)
    ensures Moves(ForwardArc(r, leg, diff, p)) == [Arc(Forward, p.x + leg, 0, 0.0), Line(Forward, 0, 0, 0.0)]
  {
  }

  lemma VerticalMoves(r: nat, diff: real, p: Pose)
    ensures Moves(ForwardVertical(r, diff, p)) ==
              [Line(Forward, p.x, r, 270.0), Arc(Forward, p.x + r, 0, 0.0), Line(Forward, 0, 0, 0.0)]
  {
  }

  lemma BendMoves(r: nat, diff: real, p: Pose)
    ensures Moves(ForwardBend(r, diff, p)) ==
              [Arc(Forward, p.x + r, p.y - r, 270.0), Line(Forward, p.x + r, r, 270.0),
               Arc(Forward, p.x + 2 * r, 0, 0.0), Line(Forward, 0, 0, 0.0)]
  {
  }

  lemma InclineMoves(r: nat, ae: nat, be: nat, p: Pose)
    ensures Moves(ForwardIncline(r, ae, be, p)) ==
              [Arc(Forward, p.x + be, p.y - ae, 270.0), Line(Forward, p.x + be, r, 270.0),
               Arc(Forward, p.x + be + r, 0, 0.0), Line(Forward, 0, 0, 0.0)]
  {
  }

  lemma TwoArcsMoves(r: nat, leg: nat, diff: real, p: Pose)
    ensures Moves(ForwardTwoArcs(r, leg, diff, p)) ==
              [Arc(Forward, p.x + (r - leg), r, 270.0), Arc(Forward, p.x + (r - leg) + r, 0, 0.0),
               Line(Forward, 0, 0, 0.0)]
  {
  }

  // The arcs --------------------------------------------------------------------------------------

  /** An arc onto the line starts to the lower left of its centre, one that ends heading down to the
      upper right: it turns the car by a quarter at most. */
  predicate Quarter(r: nat, x: int, y: int, exit: Pose)
  {
    if exit.angle == 0.0 then x <= CentreX(r, exit) && y <= CentreY(r, exit)
    else CentreX(r, exit) <= x && CentreY(r, exit) <= y
  }

  ghost predicate Quarters(r: nat, x: int, y: int, moves: seq<SubPath>)
    decreases |moves|
  {
    moves != [] ==>
      var m := moves[0];
      && (m.runmode == ForwardToArcMode ==> Quarter(r, x, y, m.target))
      && Quarters(r, m.target.x, m.target.y, moves[1..])
  }

  lemma QuarterFirst(r: nat, x: int, y: int, m: SubPath, rest: seq<SubPath>)
    requires m.runmode == ForwardToArcMode ==> Quarter(r, x, y, m.target)
    requires Quarters(r, m.target.x, m.target.y, rest)
    ensures Quarters(r, x, y, [m] + rest)
  {
  }

  /** From (x, y), at or below the radius, onto the line. */
  lemma QuarterOntoLine(r: nat, x: int, y: int, leg: nat)
    requires y <= r
    ensures Quarters(r, x, y, [Arc(Forward, x + leg, 0, 0.0), Line(Forward, 0, 0, 0.0)])
  {
    var home := Line(Forward, 0, 0, 0.0);
    QuarterFirst(r, x + leg, 0, home, []);
    assert [home] + [] == [home];
    QuarterFirst(r, x, y, Arc(Forward, x + leg, 0, 0.0), [home]);
  }

  lemma ForwardQuarters(t: Trig, r: nat, p: Pose)
    requires Relative(p) && r >= MIN_TURNING_RADIUS && TrigLaws(t) && p.x <= 0
    ensures Quarters(r, p.x, p.y, Moves(ForwardSteps(t, r, p)))
  {
    if p.y <= NEAR {
      MovesAfterTurn(ForwardNearTurn(t, p), [Line(Forward, 0, 0, 0.0)]);
      QuarterFirst(r, p.x, p.y, Line(Forward, 0, 0, 0.0), []);
      assert [Line(Forward, 0, 0, 0.0)] + [] == [Line(Forward, 0, 0, 0.0)];
    } else if p.y <= r {
      ArcMoves(r, Leg(r, p.y), ForwardArcTurn(t, r, Leg(r, p.y), p), p);
      QuarterOntoLine(r, p.x, p.y, Leg(r, p.y));
    } else {
      FarQuarters(t, r, p);
    }
  }

  lemma FarQuarters(t: Trig, r: nat, p: Pose)
    requires Relative(p) && r >= MIN_TURNING_RADIUS && TrigLaws(t) && p.x <= 0 && p.y > r
    ensures Quarters(r, p.x, p.y, Moves(ForwardSteps(t, r, p)))
  {
    var rad := 90.0 + p.angle - 360.0;
    AEIsBounded(t, r, rad);
    if 90.0 <= p.angle <= 270.0 {
      VerticalQuarters(r, ForwardDownTurn(p), p);
    } else if p.angle < 90.0 && p.y > 2 * r {
      BendQuarters(r, StraightTurn(p), p);
    } else if Inclined(t, r, p) {
      InclineQuarters(r, LengthAE(t, r, rad), LengthBE(t, r, rad), p);
    } else {
      TwoArcsQuarters(r, Leg(r, p.y), ForwardTwoArcsTurn(t, r, Leg(r, p.y), p), p);
    }
  }

  lemma VerticalQuarters(r: nat, diff: real, p: Pose)
    ensures Quarters(r, p.x, p.y, Moves(ForwardVertical(r, diff, p)))
  {
    VerticalMoves(r, diff, p);
    QuarterDown(r, p.x, p.y);
  }

  lemma BendQuarters(r: nat, diff: real, p: Pose)
    ensures Quarters(r, p.x, p.y, Moves(ForwardBend(r, diff, p)))
  {
    BendMoves(r, diff, p);
    QuarterAround(r, p.x, p.y, r, r);
    assert p.x + r + r == p.x + 2 * r;
  }

  lemma InclineQuarters(r: nat, ae: nat, be: nat, p: Pose)
    requires be <= r
    ensures Quarters(r, p.x, p.y, Moves(ForwardIncline(r, ae, be, p)))
  {
    InclineMoves(r, ae, be, p);
    QuarterAround(r, p.x, p.y, ae, be);
  }

  lemma TwoArcsQuarters(r: nat, leg: nat, diff: real, p: Pose)
    requires p.y >= r
    ensures Quarters(r, p.x, p.y, Moves(ForwardTwoArcs(r, leg, diff, p)))
  {
    TwoArcsMoves(r, leg, diff, p);
    QuarterTwice(r, p.x, p.y, leg);
  }

  /** Straight down, then onto the line. */
  lemma QuarterDown(r: nat, x: int, y: int)
    ensures Quarters(r, x, y,
                     [Line(Forward, x, r, 270.0), Arc(Forward, x + r, 0, 0.0), Line(Forward, 0, 0, 0.0)])
  {
    var line, arc, home := Line(Forward, x, r, 270.0), Arc(Forward, x + r, 0, 0.0), Line(Forward, 0, 0, 0.0);
    QuarterOntoLine(r, x, r, r);
    QuarterFirst(r, x, y, line, [arc, home]);
    assert [line] + [arc, home] == [line, arc, home];
  }

  /** A quarter or less, straight down, then onto the line. */
  lemma QuarterAround(r: nat, x: int, y: int, ae: nat, be: nat)
    requires be <= r
    ensures Quarters(r, x, y,
                     [Arc(Forward, x + be, y - ae, 270.0), Line(Forward, x + be, r, 270.0),
                      Arc(Forward, x + be + r, 0, 0.0), Line(Forward, 0, 0, 0.0)])
  {
    var first, line := Arc(Forward, x + be, y - ae, 270.0), Line(Forward, x + be, r, 270.0);
    var arc, home := Arc(Forward, x + be + r, 0, 0.0), Line(Forward, 0, 0, 0.0);
    QuarterDown(r, x + be, y - ae);
    QuarterFirst(r, x, y, first, [line, arc, home]);
    assert [first] + [line, arc, home] == [first, line, arc, home];
  }

  lemma QuarterTwice(r: nat, x: int, y: int, leg: nat)
    requires y >= r
    ensures Quarters(r, x, y,
                     [Arc(Forward, x + (r - leg), r, 270.0), Arc(Forward, x + (r - leg) + r, 0, 0.0),
                      Line(Forward, 0, 0, 0.0)])
  {
    var first, arc := Arc(Forward, x + (r - leg), r, 270.0), Arc(Forward, x + (r - leg) + r, 0, 0.0);
    var home := Line(Forward, 0, 0, 0.0);
    QuarterOntoLine(r, x + (r - leg), r, r);
    QuarterFirst(r, x, y, first, [arc, home]);
    assert [first] + [arc, home] == [first, arc, home];
  }

  // Every plan ------------------------------------------------------------------------------------

  lemma SameTurn(dir: Direction, p: Pose, steps: seq<SubPath>)
    ensures FirstTurn(CanonicalPlan(dir, p, steps)) == FirstTurn(steps)
  {
    ReflectedTurn(steps);
    ReflectedTurn(Unmirrored(p, steps));
  }

  lemma ReflectedTurn(steps: seq<SubPath>)
    ensures FirstTurn(MirrorAll(steps)) == FirstTurn(steps) && FirstTurn(ReverseAll(steps)) == FirstTurn(steps)
  {
    if steps != [] {
      assert MirrorAll(steps)[0] == MirrorStep(steps[0]) && ReverseAll(steps)[0] == Reverse(steps[0]);
    }
  }

  /** The rotation in front of any plan, in both directions and on both sides of the line. */
  lemma PlanTurnsLittle(t: Trig, dir: Direction, r: nat, p: Pose)
    requires 0.0 <= p.angle < 360.0 && r >= MIN_TURNING_RADIUS && TrigLaws(t) && !Passed(dir, p.x)
    ensures TurnsLittle(r, CanonicalPose(dir, p), FirstTurn(Steps(t, dir, r, p)))
  {
    PlanIsCanonical(t, dir, r, p);
    SameTurn(dir, p, Steps(t, dir, r, p));
    ForwardTurnsLittle(t, r, CanonicalPose(dir, p));
  }

  /** The case of any plan. */
  lemma PlanCase(t: Trig, dir: Direction, r: nat, p: Pose)
    requires 0.0 <= p.angle < 360.0 && r >= MIN_TURNING_RADIUS && TrigLaws(t) && !Passed(dir, p.x)
    ensures CaseOf(t, r, CanonicalPose(dir, p), Moves(CanonicalPlan(dir, p, Steps(t, dir, r, p))))
  {
    PlanIsCanonical(t, dir, r, p);
    ForwardCase(t, r, CanonicalPose(dir, p));
  }

  /** No arc of any plan turns the car by more than a quarter. */
  lemma PlanQuarters(t: Trig, dir: Direction, r: nat, p: Pose)
    requires 0.0 <= p.angle < 360.0 && r >= MIN_TURNING_RADIUS && TrigLaws(t) && !Passed(dir, p.x)
    ensures var q := CanonicalPose(dir, p);
            Quarters(r, q.x, q.y, Moves(CanonicalPlan(dir, p, Steps(t, dir, r, p))))
  {
    PlanIsCanonical(t, dir, r, p);
    ForwardQuarters(t, r, CanonicalPose(dir, p));
  }

  /** What the canonical pose keeps: the distances and whether the car heads forwards. */
  lemma CanonicalKeeps(dir: Direction, p: Pose)
    requires 0.0 <= p.angle < 360.0
    ensures var q := CanonicalPose(dir, p);
            Abs(q.x) == Abs(p.x) && q.y == Abs(p.y) && (Ahead(q) <==> Ahead(p)) && 0.0 <= q.angle < 360.0
  {
  }
}
