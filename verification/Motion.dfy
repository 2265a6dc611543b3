/** Poses, run modes, sub-paths and the angle arithmetic of utils/AgvMathUtils.cpp. */
module Motion {

  /** A pose in millimetres and degrees. */
  datatype Pose = Pose(x: int, y: int, angle: real)

  const ORIGIN := Pose(0, 0, 0.0)

  const INIT_SPEED := 100

  datatype RunMode =
    | StopMode | GoForwardMode | GoBackwardMode | TurnLeftMode | TurnRightMode
    | RotateLeftMode | RotateRightMode | ForwardToArcMode | BackwardToArcMode
    | GuideWithVision | CarryGoods

  datatype Direction = Forward | Backward

  datatype PathDirection = Clockwise | Anticlockwise

  datatype SubPath = SubPath(target: Pose, runmode: RunMode, distance: int, speed: int)

  const CLEARED := SubPath(ORIGIN, StopMode, 0, 0)

  predicate IsRotation(s: SubPath)
  {
    s.runmode == RotateLeftMode || s.runmode == RotateRightMode
  }

  function Abs(i: int): nat
  {
    if i < 0 then -i else i
  }

  function AbsReal(r: real): real
  {
    if r < 0.0 then -r else r
  }

  /** The library's square root of an integer, truncated to an integer. */
  function ISqrt(n: nat): nat
  {
    if n == 0 then 0
    else
      var p := ISqrt(n - 1);
      if (p + 1) * (p + 1) <= n then p + 1 else p
  }

  lemma {:induction false} ISqrtSpec(n: nat)
    ensures var r := ISqrt(n); r * r <= n < (r + 1) * (r + 1)
  {
    if n > 0 {
      ISqrtSpec(n - 1);
    }
  }

  lemma SquareOrder(a: nat, b: nat)
    requires a * a <= b * b
    ensures a <= b
  {
  }

  lemma SquareMonotone(a: int, b: nat)
    requires 0 - b <= a <= b
    ensures 0 <= a * a <= b * b
  {
  }

  function Square(i: int): nat
  {
    i * i
  }

  /** getDistanceBetweenPose, truncated as its callers truncate it. */
  function Distance(a: Pose, b: Pose): nat
  {
    ISqrt(Square(a.x - b.x) + Square(a.y - b.y))
  }

  /** transformAngle from [-360, 360) to (-180, 180]. */
  function Normalise(angle: real): (r: real)
    ensures -180.0 < r <= 180.0
  {
    if angle >= 360.0 || angle < -360.0 then 0.0
    else if angle > 180.0 then angle - 360.0
    else if angle <= -180.0 then angle + 360.0
    else angle
  }

  /** getAngleDiff. */
  function AngleDiff(current: real, target: real): real
  {
    var d := current - target;
    if d > 180.0 then d - 360.0 else if d <= -180.0 then 360.0 + d else d
  }

  /** The C library functions the planner calls, in degrees. */
  datatype Trig = Trig(atan2: (int, int) -> real, sin: real -> real, cos: real -> real)

  /** The identities of those functions that the symmetry and geometry of plans rest on. */
  ghost predicate TrigLaws(t: Trig)
  {
    && (forall y, x :: -180.0 < t.atan2(y, x) <= 180.0)
    && (forall x :: x > 0 ==> t.atan2(0, x) == 0.0)
    && (forall x :: x < 0 ==> t.atan2(0, x) == 180.0)
    && (forall y, x :: y > 0 ==> 0.0 < t.atan2(y, x) < 180.0)
    && (forall y, x :: y > 0 && x > 0 ==> t.atan2(y, x) < 90.0)
    && (forall y, x :: y < 0 ==> -180.0 < t.atan2(y, x) < 0.0)
    && (forall y, x :: y != 0 ==> t.atan2(-y, x) == -t.atan2(y, x))
    && (forall y, x :: y > 0 ==> t.atan2(y, -x) == 180.0 - t.atan2(y, x))
    && (forall a :: 0.0 <= a <= 90.0 ==> t.sin(a) >= 0.0 && t.cos(a) >= 0.0)
    && (forall a :: t.sin(a) * t.sin(a) + t.cos(a) * t.cos(a) == 1.0)
    && t.sin(90.0) == 1.0 && t.cos(90.0) == 0.0
  }

  /** Functions with those identities: the bearing by quadrant, a unit vector across. */
  function Quadrant(x: int): real
  {
    if x > 0 then 45.0 else if x < 0 then 135.0 else 90.0
  }

  function SampleBearing(y: int, x: int): real
  {
    if y > 0 then Quadrant(x) else if y < 0 then -Quadrant(x) else if x < 0 then 180.0 else 0.0
  }

  ghost predicate SampleBearings(t: Trig)
  {
    forall y, x :: t.atan2(y, x) == SampleBearing(y, x)
  }

  lemma SampleMirrors(t: Trig)
    requires SampleBearings(t)
    ensures forall y, x :: y != 0 ==> t.atan2(-y, x) == -t.atan2(y, x)
    ensures forall y, x :: y > 0 ==> t.atan2(y, -x) == 180.0 - t.atan2(y, x)
  {
    forall y: int, x: int | y != 0
      ensures t.atan2(-y, x) == -t.atan2(y, x)
    {
      assert t.atan2(-y, x) == SampleBearing(-y, x);
    }
    forall y: int, x: int | y > 0
      ensures t.atan2(y, -x) == 180.0 - t.atan2(y, x)
    {
      assert t.atan2(y, -x) == SampleBearing(y, -x);
    }
  }

  lemma SampleUnits(t: Trig)
    requires forall a :: t.sin(a) == 1.0 && t.cos(a) == 0.0
    ensures forall a :: t.sin(a) * t.sin(a) + t.cos(a) * t.cos(a) == 1.0
  {
    forall a: real
      ensures t.sin(a) * t.sin(a) + t.cos(a) * t.cos(a) == 1.0
    {
      var s, c := t.sin(a), t.cos(a);
      assert s * s == 1.0 && c * c == 0.0;
    }
  }

  /** The identities do not contradict each other. */
  lemma TrigLawsHaveModel() returns (t: Trig)
    ensures TrigLaws(t)
  {
    t := Trig((y, x) => SampleBearing(y, x), a => 1.0, a => 0.0);
    SampleLaws(t);
  }

  lemma SampleLaws(t: Trig)
    requires SampleBearings(t) && forall a :: t.sin(a) == 1.0 && t.cos(a) == 0.0
    ensures TrigLaws(t)
  {
    SampleMirrors(t);
    SampleUnits(t);
  }

  lemma UnitLegs(t: Trig, a: real)
    requires TrigLaws(t) && 0.0 <= a <= 90.0
    ensures 0.0 <= t.sin(a) <= 1.0 && 0.0 <= t.cos(a) <= 1.0
  {
  }

  /** The heading tangent at (x, y) to the circle around (cx, cy): the rotateAngle of
      getRotateAngle. */
  function TangentHeading(t: Trig, x: int, y: int, cx: int, cy: int, way: PathDirection): real
  {
    var bearing := t.atan2(cy - y, cx - x);
    match way
    case Anticlockwise =>
      var r := bearing - 90.0;
      if r < 0.0 then r + 360.0 else r
    case Clockwise =>
      var r := bearing + 90.0;
      if r < 0.0 then r + 360.0 else if r >= 360.0 then r - 360.0 else r
  }

  lemma TangentRange(t: Trig, x: int, y: int, cx: int, cy: int, way: PathDirection)
    requires TrigLaws(t)
    ensures 0.0 <= TangentHeading(t, x, y, cx, cy, way) < 360.0
  {
    assert -180.0 < t.atan2(cy - y, cx - x) <= 180.0;
  }

  /** getRotateAngle. */
  function RotateAngle(t: Trig, p: Pose, cx: int, cy: int, way: PathDirection): (r: real)
    ensures -180.0 < r <= 180.0
  {
    Normalise(p.angle - TangentHeading(t, p.x, p.y, cx, cy, way))
  }

  lemma NormaliseSpec(angle: real)
    ensures -360.0 <= angle < 360.0 ==> Normalise(angle) - angle in {-360.0, 0.0, 360.0}
    ensures !(-360.0 <= angle < 360.0) ==> Normalise(angle) == 0.0
  {
  }

  /** Turning by it leaves the car along the tangent, up to a whole turn. */
  lemma RotateAngleSpec(t: Trig, p: Pose, cx: int, cy: int, way: PathDirection)
    requires TrigLaws(t) && 0.0 <= p.angle < 360.0
    ensures p.angle - RotateAngle(t, p, cx, cy, way) - TangentHeading(t, p.x, p.y, cx, cy, way)
              in {-360.0, 0.0, 360.0}
  {
    TangentRange(t, p.x, p.y, cx, cy, way);
    NormaliseSpec(p.angle - TangentHeading(t, p.x, p.y, cx, cy, way));
  }
}
