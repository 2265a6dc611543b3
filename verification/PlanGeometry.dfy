/** The geometry of forward plans above the target line; PlanSymmetry carries it to the rest. */
module PlanGeometry {
  import opened Motion
  import opened PlanSpec
  import opened PlanShape

  /** r squared less the squared distance of (x, y) from the centre. */
  function RadiusDefect(r: nat, x: int, y: int, cx: int, cy: int): int
  {
    r * r - (x - cx) * (x - cx) - (y - cy) * (y - cy)
  }

  /** The centre of the circle of radius r that is tangent to the exit heading at the arc's end:
      to its left when the arc leaves along the target line, to its right when it leaves down. */
  function CentreX(r: nat, exit: Pose): int
  {
    if exit.angle == 0.0 then exit.x else exit.x - r
  }

  function CentreY(r: nat, exit: Pose): int
  {
    if exit.angle == 0.0 then exit.y + r else exit.y
  }

  /** (x, y) lies on that circle up to the truncation of one square root. */
  predicate OnCircle(r: nat, x: int, y: int, exit: Pose)
  {
    0 <= RadiusDefect(r, x, y, CentreX(r, exit), CentreY(r, exit)) <= 2 * Abs(x - CentreX(r, exit))
  }

  /** (x, y) lies on that circle up to the truncation of a sine and a cosine product. */
  predicate NearCircle(r: nat, x: int, y: int, exit: Pose)
  {
    -2 * Abs(x - CentreX(r, exit)) <= RadiusDefect(r, x, y, CentreX(r, exit), CentreY(r, exit))
      <= 2 * Abs(y - CentreY(r, exit)) + 1
  }

  /** Each move starts where the one before ended. Straight moves keep one coordinate and run along
      their heading; only a plan that is a single line may start off it, by at most 200 mm. Arcs
      run on circles of the plan's radius; only a first arc may be of the inclined kind. */
  ghost predicate Fits(r: nat, x: int, y: int, moves: seq<SubPath>, first: bool)
    decreases |moves|
  {
    moves != [] ==>
      var m := moves[0];
      var to := m.target;
      && (m.runmode == GoForwardMode ==>
            if to.angle == 0.0 then to == ORIGIN && |moves| == 1 && (y == 0 || (first && 0 <= y <= NEAR))
            else to.angle == 270.0 && to.x == x && to.y <= y)
      && (m.runmode == ForwardToArcMode ==>
            && to.angle in {0.0, 270.0}
            && (OnCircle(r, x, y, to) || (first && to.angle == 270.0 && NearCircle(r, x, y, to))))
      && Fits(r, to.x, to.y, moves[1..], false)
  }

  lemma Fit(r: nat, x: int, y: int, m: SubPath, rest: seq<SubPath>, first: bool)
    requires Fits(r, m.target.x, m.target.y, rest, false) && rest != []
    requires m.runmode == GoForwardMode ==> m.target.angle == 270.0 && m.target.x == x && m.target.y <= y
    requires m.runmode == ForwardToArcMode ==>
               && m.target.angle in {0.0, 270.0}
               && (OnCircle(r, x, y, m.target)
                   || (first && m.target.angle == 270.0 && NearCircle(r, x, y, m.target)))
    ensures Fits(r, x, y, [m] + rest, first)
  {
  }

  lemma MovesAfterTurn(diff: real, moves: seq<SubPath>)
    requires moves != [] && !IsRotation(moves[0])
    ensures Moves(AfterTurn(diff, moves)) == moves
  {
  }

  lemma QuarterAcross(r: nat, x: int, y: int)
    ensures OnCircle(r, x, y, Pose(x + r, y - r, 270.0))
  {
  }

  /** The root computed for the leg leaves a defect below twice the leg plus one. */
  lemma LegDefect(r: nat, y: int)
    requires 0 <= y <= 2 * r
    ensures var leg := Leg(r, y); 0 <= r * r - (r - y) * (r - y) - leg * leg <= 2 * leg
  {
    SquareMonotone(r - y, r);
    ISqrtSpec(r * r - (r - y) * (r - y));
    var leg := Leg(r, y);
    assert (leg + 1) * (leg + 1) == leg * leg + 2 * leg + 1;
  }

  lemma LegOnArc(r: nat, x: int, y: int)
    requires 0 <= y <= 2 * r
    ensures OnCircle(r, x, y, Pose(x + Leg(r, y), 0, 0.0))
    ensures OnCircle(r, x, y, Pose(x + (r - Leg(r, y)), r, 270.0))
  {
    LegDefect(r, y);
    var leg: int := Leg(r, y);
    OnCircleAt(r, x, y, Pose(x + leg, 0, 0.0), -leg, y - r);
    OnCircleAt(r, x, y, Pose(x + (r - leg), r, 270.0), leg, y - r);
  }

  /** (x, y) is (dx, dy) from the centre. */
  lemma OnCircleAt(r: nat, x: int, y: int, exit: Pose, dx: int, dy: int)
    requires x - CentreX(r, exit) == dx && y - CentreY(r, exit) == dy
    requires 0 <= r * r - (-dy) * (-dy) - Abs(dx) * Abs(dx) <= 2 * Abs(dx)
    ensures OnCircle(r, x, y, exit)
  {
    assert (-dy) * (-dy) == dy * dy && Abs(dx) * Abs(dx) == dx * dx;
  }

  lemma SquareGap(a: real, b: real, sum: real, gap: real)
    requires 0.0 <= a <= b <= a + 1.0
    requires sum == a + b && gap == b - a
    ensures 0.0 <= b * b - a * a <= sum
  {
    DifferenceOfSquares(a, b, sum, gap);
    Scaled(sum, gap);
  }

  lemma DifferenceOfSquares(a: real, b: real, sum: real, gap: real)
    requires sum == a + b && gap == b - a
    ensures sum * gap == b * b - a * a
  {
  }

  lemma RealSquare(i: int)
    ensures (i as real) * (i as real) == (i * i) as real
  {
  }

  lemma Pythagoras(q: real, s: real, c: real)
    requires s * s + c * c == 1.0
    ensures (q * s) * (q * s) + (q * c) * (q * c) == q * q
  {
  }

  lemma GapBelow(z: real, f: nat)
    requires f as real <= z <= f as real + 1.0
    ensures 0.0 <= z * z - (f * f) as real <= f as real + z
  {
    var g := f as real;
    SquareGap(g, z, g + z, z - g);
    RealSquare(f);
  }

  lemma GapAbove(z: real, u: nat)
    requires 0.0 <= z <= u as real <= z + 1.0
    ensures 0.0 <= (u * u) as real - z * z <= z + u as real
  {
    var g := u as real;
    SquareGap(z, g, z + g, g - z);
    RealSquare(u);
  }

  /** Truncating the arc's height and width moves its start off the circle by less than the
      legs allow. */
  lemma InclineDefect(r: nat, qs: real, qc: real, ae: nat, u: nat)
    requires qs * qs + qc * qc == (r as real) * (r as real)
    requires 0.0 <= qc && ae as real <= qs <= ae as real + 1.0
    requires qc <= u as real && u as real <= qc + 1.0
    ensures -2 * u <= r * r - u * u - ae * ae <= 2 * ae + 1
  {
    GapBelow(qs, ae);
    GapAbove(qc, u);
    RealSquare(r);
    CombineGaps(qs * qs, qc * qc, qs, qc, r * r, u * u, ae * ae, u, ae);
  }

  lemma CombineGaps(ss: real, cc: real, s: real, c: real, rr: int, uu: int, aa: int, u: nat, ae: nat)
    requires ss + cc == rr as real
    requires 0.0 <= ss - aa as real <= ae as real + s && s <= ae as real + 1.0
    requires 0.0 <= uu as real - cc <= c + u as real && c <= u as real
    ensures -2 * u <= rr - uu - aa <= 2 * ae + 1
  {
  }

  lemma InclineStart(t: Trig, r: nat, p: Pose, rad: real)
    requires TrigLaws(t) && 0.0 <= rad <= 90.0
    ensures NearCircle(r, p.x, p.y, Pose(p.x + LengthBE(t, r, rad), p.y - LengthAE(t, r, rad), 270.0))
  {
    UnitLegs(t, rad);
    AEIsBounded(t, r, rad);
    var ae, be := LengthAE(t, r, rad), LengthBE(t, r, rad);
    TruncatedLegs(r, t.sin(rad), t.cos(rad), ae, be);
    var u := r - be;
    assert p.x - (p.x + be - r) == u && p.y - (p.y - ae) == ae;
  }

  /** An inclined start enters its first circle along the heading, whose direction is
      (sin rad, -cos rad): the radius to it is perpendicular up to 2 mm of truncation. */
  lemma InclineTangent(t: Trig, r: nat, p: Pose, rad: real)
    requires TrigLaws(t) && 0.0 <= rad <= 90.0
    ensures var exit := Pose(p.x + LengthBE(t, r, rad), p.y - LengthAE(t, r, rad), 270.0);
            var dx, dy := (p.x - CentreX(r, exit)) as real, (p.y - CentreY(r, exit)) as real;
            0.0 <= dx * t.sin(rad) - dy * t.cos(rad) <= 2.0
  {
    UnitLegs(t, rad);
    var q, s, c := r as real, t.sin(rad), t.cos(rad);
    var ae, be := LengthAE(t, r, rad), LengthBE(t, r, rad);
    var exit := Pose(p.x + be, p.y - ae, 270.0);
    assert p.x - CentreX(r, exit) == r - be && p.y - CentreY(r, exit) == ae;
    AlmostPerpendicular(q, s, c, (r - be) as real, ae as real);
  }

  lemma AlmostPerpendicular(q: real, s: real, c: real, u: real, ae: real)
    requires 0.0 <= s <= 1.0 && 0.0 <= c <= 1.0
    requires 0.0 <= u - q * c <= 1.0 && 0.0 <= q * s - ae <= 1.0
    ensures 0.0 <= u * s - ae * c <= 2.0
  {
    var d, e := u - q * c, q * s - ae;
    Scaled(d, s);
    Scaled(e, c);
    Distribute(u, q * c, d, s);
    Distribute(q * s, ae, e, c);
    Reordered(q, s, c);
    BothSmall(u * s, ae * c, d * s, e * c, (q * c) * s);
  }

  lemma Distribute(a: real, b: real, d: real, s: real)
    requires a == b + d
    ensures a * s == b * s + d * s
  {
  }

  lemma Reordered(q: real, s: real, c: real)
    ensures (q * c) * s == (q * s) * c
  {
  }

  lemma BothSmall(us: real, ac: real, ds: real, ec: real, common: real)
    requires us == common + ds && ac == common - ec && 0.0 <= ds <= 1.0 && 0.0 <= ec <= 1.0
    ensures 0.0 <= us - ac <= 2.0
  {
  }

  lemma TruncatedLegs(r: nat, s: real, c: real, ae: nat, be: nat)
    requires 0.0 <= s <= 1.0 && 0.0 <= c <= 1.0 && s * s + c * c == 1.0 && be <= r
    requires ae == (r as real * s).Floor && be == (r as real - r as real * c).Floor
    ensures -2 * (r - be) <= r * r - (r - be) * (r - be) - ae * ae <= 2 * ae + 1
  {
    var q := r as real;
    Scaled(q, s);
    Scaled(q, c);
    Pythagoras(q, s, c);
    FlooredLegs(r, q * s, q * c, ae, be);
  }

  lemma FlooredLegs(r: nat, qs: real, qc: real, ae: nat, be: nat)
    requires qs * qs + qc * qc == (r as real) * (r as real) && 0.0 <= qc && be <= r
    requires ae == qs.Floor && be == (r as real - qc).Floor
    ensures -2 * (r - be) <= r * r - (r - be) * (r - be) - ae * ae <= 2 * ae + 1
  {
    InclineDefect(r, qs, qc, ae, r - be);
  }

  /** Forward plans above the line fit together. */
  lemma ForwardFits(t: Trig, r: nat, p: Pose)
    requires Relative(p) && r >= MIN_TURNING_RADIUS && TrigLaws(t) && p.x <= 0
    ensures Fits(r, p.x, p.y, Moves(ForwardSteps(t, r, p)), true)
  {
    if p.y <= NEAR {
      NearFits(r, ForwardNearTurn(t, p), p);
    } else if p.y <= r {
      LegOnArc(r, p.x, p.y);
      ArcFits(r, Leg(r, p.y), ForwardArcTurn(t, r, Leg(r, p.y), p), p);
    } else {
      ForwardFarFits(t, r, p);
    }
  }

  lemma ForwardFarFits(t: Trig, r: nat, p: Pose)
    requires Relative(p) && r >= MIN_TURNING_RADIUS && TrigLaws(t) && p.x <= 0 && p.y > r
    ensures Fits(r, p.x, p.y, Moves(ForwardSteps(t, r, p)), true)
  {
    var rad := 90.0 + p.angle - 360.0;
    AEIsBounded(t, r, rad);
    if 90.0 <= p.angle <= 270.0 {
      VerticalFits(r, ForwardDownTurn(p), p);
    } else if p.angle < 90.0 && p.y > 2 * r {
      BendFits(r, StraightTurn(p), p);
    } else if p.angle > 270.0 && p.y > r + LengthAE(t, r, rad) {
      InclineStart(t, r, p, rad);
      InclineFits(r, LengthAE(t, r, rad), LengthBE(t, r, rad), p);
    } else {
      LegOnArc(r, p.x, p.y);
      TwoArcsFit(r, Leg(r, p.y), ForwardTwoArcsTurn(t, r, Leg(r, p.y), p), p);
    }
  }

  lemma NearFits(r: nat, diff: real, p: Pose)
    requires 0 <= p.y <= NEAR
    ensures Fits(r, p.x, p.y, Moves(ForwardNear(diff)), true)
  {
  }

  lemma ArcFits(r: nat, leg: nat, diff: real, p: Pose)
    requires OnCircle(r, p.x, p.y, Pose(p.x + leg, 0, 0.0))
    ensures Fits(r, p.x, p.y, Moves(ForwardArc(r, leg, diff, p)), true)
  {
  }

  /** The last quarter onto the line and the line itself. */
  lemma QuarterHome(r: nat, x: int)
    ensures Fits(r, x, r, [Arc(Forward, x + r, 0, 0.0), Line(Forward, 0, 0, 0.0)], false)
  {
  }

  lemma VerticalFits(r: nat, diff: real, p: Pose)
    requires p.y > r
    ensures Fits(r, p.x, p.y, Moves(ForwardVertical(r, diff, p)), true)
  {
    var home, arc, line := Line(Forward, 0, 0, 0.0), Arc(Forward, p.x + r, 0, 0.0), Line(Forward, p.x, r, 270.0);
    QuarterHome(r, p.x);
    Fit(r, p.x, p.y, line, [arc, home], true);
    MovesAfterTurn(diff, [line, arc, home]);
  }

  lemma BendFits(r: nat, diff: real, p: Pose)
    requires p.y > 2 * r
    ensures Fits(r, p.x, p.y, Moves(ForwardBend(r, diff, p)), true)
  {
    var x, y := p.x, p.y;
    var home, arc, line := Line(Forward, 0, 0, 0.0), Arc(Forward, x + 2 * r, 0, 0.0), Line(Forward, x + r, r, 270.0);
    BendMovesFit(r, x, y, Arc(Forward, x + r, y - r, 270.0), line, arc, home);
    MovesAfterTurn(diff, [Arc(Forward, x + r, y - r, 270.0), line, arc, home]);
  }

  lemma BendMovesFit(r: nat, x: int, y: int, first: SubPath, line: SubPath, arc: SubPath, home: SubPath)
    requires y > 2 * r
    requires first == Arc(Forward, x + r, y - r, 270.0) && line == Line(Forward, x + r, r, 270.0)
    requires arc == Arc(Forward, x + 2 * r, 0, 0.0) && home == Line(Forward, 0, 0, 0.0)
    ensures Fits(r, x, y, [first, line, arc, home], true)
  {
    QuarterHome(r, x + r);
    Fit(r, x + r, y - r, line, [arc, home], false);
    QuarterAcross(r, x, y);
    Fit(r, x, y, first, [line, arc, home], true);
    assert [first] + ([line] + [arc, home]) == [first, line, arc, home];
  }

  lemma InclineFits(r: nat, ae: nat, be: nat, p: Pose)
    requires p.y > r + ae
    requires NearCircle(r, p.x, p.y, Pose(p.x + be, p.y - ae, 270.0))
    ensures Fits(r, p.x, p.y, Moves(ForwardIncline(r, ae, be, p)), true)
  {
    var x, y := p.x, p.y;
    var home, arc, line := Line(Forward, 0, 0, 0.0), Arc(Forward, x + be + r, 0, 0.0), Line(Forward, x + be, r, 270.0);
    QuarterHome(r, x + be);
    Fit(r, x + be, y - ae, line, [arc, home], false);
    var first := Arc(Forward, x + be, y - ae, 270.0);
    Fit(r, x, y, first, [line, arc, home], true);
    assert [first] + [line, arc, home] == ForwardIncline(r, ae, be, p);
  }

  lemma TwoArcsFit(r: nat, leg: nat, diff: real, p: Pose)
    requires OnCircle(r, p.x, p.y, Pose(p.x + (r - leg), r, 270.0))
    ensures Fits(r, p.x, p.y, Moves(ForwardTwoArcs(r, leg, diff, p)), true)
  {
    var x := p.x + (r - leg);
    var home, arc, first := Line(Forward, 0, 0, 0.0), Arc(Forward, x + r, 0, 0.0), Arc(Forward, x, r, 270.0);
    QuarterHome(r, x);
    Fit(r, p.x, p.y, first, [arc, home], true);
    MovesAfterTurn(diff, [first, arc, home]);
  }

  /** The heading the first move of a plan from (x, y) wants: its own for a straight move down,
      the bearing of the target for a plan that is a single line, and for an arc the tangent at
      (x, y) of its circle. */
  function EntryHeading(t: Trig, r: nat, x: int, y: int, m: SubPath): real
  {
    if m.runmode == GoForwardMode then
      if m.target.angle == 270.0 then 270.0 else if Abs(x) < 300 then 0.0 else t.atan2(-y, -x)
    else
      TangentHeading(t, x, y, CentreX(r, m.target), CentreY(r, m.target),
                     if m.target.angle == 0.0 then Anticlockwise else Clockwise)
  }

  /** Headings a and b differ by at most tolerance, up to whole turns. */
  predicate Aligned(a: real, b: real, tolerance: real)
  {
    || AbsReal(a - b) <= tolerance
    || AbsReal(a - b - 360.0) <= tolerance
    || AbsReal(a - b + 360.0) <= tolerance
  }

  /** The heading with which the first move starts: after the rotation, if there is one. */
  function HeadingAfter(p: Pose, steps: seq<SubPath>): real
  {
    if steps != [] && IsRotation(steps[0]) then p.angle - steps[0].target.angle else p.angle
  }

  /** When an arc is entered from an inclined heading, without a rotation. */
  predicate Inclined(t: Trig, r: nat, p: Pose)
  {
    var rad := 90.0 + p.angle - 360.0;
    p.y > r && p.angle > 270.0 && p.y > r + LengthAE(t, r, rad)
  }

  /** A rotation turns exactly onto the first move; without one the heading is within 20 degrees. */
  ghost predicate EntersAligned(t: Trig, r: nat, p: Pose, steps: seq<SubPath>)
  {
    && Moves(steps) != []
    && Aligned(HeadingAfter(p, steps), EntryHeading(t, r, p.x, p.y, Moves(steps)[0]),
               if IsRotation(steps[0]) then 0.0 else 20.0)
  }

  lemma AlignedAfterTurn(t: Trig, r: nat, p: Pose, diff: real, entry: real, moves: seq<SubPath>)
    requires moves != [] && !IsRotation(moves[0])
    requires entry == EntryHeading(t, r, p.x, p.y, moves[0])
    requires Aligned(p.angle - diff, entry, 0.0)
    ensures EntersAligned(t, r, p, AfterTurn(diff, moves))
  {
  }

  lemma DiffAligns(a: real, target: real)
    requires 0.0 <= a < 360.0 && -180.0 < target <= 180.0
    ensures Aligned(a - AngleDiff(Normalise(a), target), target, 0.0)
    ensures target == -90.0 && a >= 90.0 ==> Aligned(a - AngleDiff(Normalise(a), target), 270.0, 0.0)
  {
  }

  lemma RotateAligns(t: Trig, p: Pose, cx: int, cy: int, way: PathDirection)
    requires TrigLaws(t) && 0.0 <= p.angle < 360.0
    ensures Aligned(p.angle - RotateAngle(t, p, cx, cy, way), TangentHeading(t, p.x, p.y, cx, cy, way), 0.0)
  {
  }

  lemma ForwardAligned(t: Trig, r: nat, p: Pose)
    requires Relative(p) && r >= MIN_TURNING_RADIUS && TrigLaws(t) && p.x <= 0
    requires !Inclined(t, r, p)
    ensures EntersAligned(t, r, p, ForwardSteps(t, r, p))
  {
    AEIsBounded(t, r, 90.0 + p.angle - 360.0);
    if p.y <= NEAR {
      NearAligned(t, r, p);
    } else if p.y <= r {
      ArcAligned(t, r, Leg(r, p.y), p);
    } else if 90.0 <= p.angle <= 270.0 {
      VerticalAligned(t, r, p);
    } else if p.angle < 90.0 && p.y > 2 * r {
      BendAligned(t, r, p);
    } else {
      TwoArcsAligned(t, r, Leg(r, p.y), p);
    }
  }

  lemma NearAligned(t: Trig, r: nat, p: Pose)
    requires Relative(p) && TrigLaws(t)
    ensures EntersAligned(t, r, p, ForwardNear(ForwardNearTurn(t, p)))
  {
    var diff := ForwardNearTurn(t, p);
    var target := if Abs(p.x) < 300 then 0.0 else t.atan2(-p.y, -p.x);
    DiffAligns(p.angle, target);
    AlignedAfterTurn(t, r, p, diff, target, [Line(Forward, 0, 0, 0.0)]);
  }

  lemma VerticalAligned(t: Trig, r: nat, p: Pose)
    requires 90.0 <= p.angle < 360.0
    ensures EntersAligned(t, r, p, ForwardVertical(r, ForwardDownTurn(p), p))
  {
  }

  lemma ArcAligned(t: Trig, r: nat, leg: nat, p: Pose)
    requires TrigLaws(t) && 0.0 <= p.angle < 360.0
    ensures EntersAligned(t, r, p, ForwardArc(r, leg, ForwardArcTurn(t, r, leg, p), p))
  {
    RotateAligns(t, p, p.x + leg, r, Anticlockwise);
    ArcTurnAligned(t, r, leg, ForwardArcTurn(t, r, leg, p), p);
  }

  lemma ArcTurnAligned(t: Trig, r: nat, leg: nat, diff: real, p: Pose)
    requires Aligned(p.angle - diff, TangentHeading(t, p.x, p.y, p.x + leg, r, Anticlockwise), 0.0)
    ensures EntersAligned(t, r, p, ForwardArc(r, leg, diff, p))
  {
  }

  lemma BendAligned(t: Trig, r: nat, p: Pose)
    requires TrigLaws(t) && r > 0 && 0.0 <= p.angle < 360.0
    ensures EntersAligned(t, r, p, ForwardBend(r, StraightTurn(p), p))
  {
    DiffAligns(p.angle, 0.0);
    BendTurnAligned(t, r, StraightTurn(p), p);
  }

  lemma BendTurnAligned(t: Trig, r: nat, diff: real, p: Pose)
    requires TrigLaws(t) && r > 0 && Aligned(p.angle - diff, 0.0, 0.0)
    ensures EntersAligned(t, r, p, ForwardBend(r, diff, p))
  {
    var first := Arc(Forward, p.x + r, p.y - r, 270.0);
    var below := 0 - r;
    assert t.atan2(r, 0) == 90.0 by { assert t.atan2(r, -0) == 180.0 - t.atan2(r, 0); }
    assert t.atan2(-below, 0) == -t.atan2(below, 0);
    assert EntryHeading(t, r, p.x, p.y, first) == 0.0;
    AlignedAfterTurn(t, r, p, diff, 0.0,
                     [first, Line(Forward, p.x + r, r, 270.0), Arc(Forward, p.x + 2 * r, 0, 0.0),
                      Line(Forward, 0, 0, 0.0)]);
  }

  lemma TwoArcsAligned(t: Trig, r: nat, leg: nat, p: Pose)
    requires TrigLaws(t) && 0.0 <= p.angle < 360.0
    ensures EntersAligned(t, r, p, ForwardTwoArcs(r, leg, ForwardTwoArcsTurn(t, r, leg, p), p))
  {
    RotateAligns(t, p, p.x - leg, r, Clockwise);
    TwoArcsTurnAligned(t, r, leg, ForwardTwoArcsTurn(t, r, leg, p), p);
  }

  lemma TwoArcsTurnAligned(t: Trig, r: nat, leg: nat, diff: real, p: Pose)
    requires Aligned(p.angle - diff, TangentHeading(t, p.x, p.y, p.x - leg, r, Clockwise), 0.0)
    ensures EntersAligned(t, r, p, ForwardTwoArcs(r, leg, diff, p))
  {
  }
}
