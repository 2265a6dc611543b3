/** The steering linearisation and speed conversions of controler/AgvSteeringBaseControler.cpp. */
module Steering {
  import opened Options
  import opened SpeedSpec

  /** The angles that were set when the feedback was measured. */
  function SetAngle(j: int): real
  {
    match j
    case 0 => -90.0 case 1 => -30.0 case 2 => -25.0 case 3 => -23.0 case 4 => -20.0
    case 5 => -15.0 case 6 => -10.0 case 7 => -8.0 case 8 => -5.0 case 9 => -3.0
    case 10 => -2.0 case 11 => -1.0 case 12 => 0.0 case 13 => 1.0 case 14 => 2.0
    case 15 => 3.0 case 16 => 5.0 case 17 => 8.0 case 18 => 10.0 case 19 => 15.0
    case 20 => 20.0 case 21 => 23.0 case 22 => 25.0 case 23 => 30.0 case _ => 90.0
  }

  /** What car 1001 reported for them. */
  function Feedback1(j: int): real
  {
    match j
    case 0 => -90.0 case 1 => -30.10 case 2 => -24.94 case 3 => -22.79 case 4 => -19.58
    case 5 => -14.22 case 6 => -8.88 case 7 => -6.72 case 8 => -3.50 case 9 => -1.36
    case 10 => -0.28 case 11 => -0.08 case 12 => -0.08 case 13 => -0.08 case 14 => 0.12
    case 15 => 1.18 case 16 => 3.34 case 17 => 6.56 case 18 => 8.72 case 19 => 14.06
    case 20 => 19.42 case 21 => 22.64 case 22 => 24.78 case 23 => 29.88 case _ => 90.0
  }

  /** What car 1002 reported; also used for every other car. */
  function Feedback2(j: int): real
  {
    match j
    case 0 => -90.0 case 1 => -29.96 case 2 => -25.12 case 3 => -23.10 case 4 => -20.10
    case 5 => -15.10 case 6 => -10.10 case 7 => -8.10 case 8 => -5.10 case 9 => -3.10
    case 10 => -2.10 case 11 => -1.14 case 12 => -0.08 case 13 => 0.86 case 14 => 1.90
    case 15 => 2.86 case 16 => 4.90 case 17 => 7.90 case 18 => 9.90 case 19 => 14.88
    case 20 => 19.92 case 21 => 22.94 case 22 => 24.88 case 23 => 29.88 case _ => 90.0
  }

  function SetAngles(): seq<real>
  {
    seq(25, j => SetAngle(j))
  }

  function Feedback(canId: int): seq<real>
  {
    if canId == 1001 then seq(25, j => Feedback1(j)) else seq(25, j => Feedback2(j))
  }

  predicate Ascending(xs: seq<real>)
  {
    && |xs| >= 2 && xs[0] == -90.0 && xs[0] < xs[1] && xs[|xs| - 1] == 90.0
    && forall j :: 0 <= j < |xs| - 1 ==> xs[j] <= xs[j + 1]
  }

  predicate StrictlyAscending(xs: seq<real>)
  {
    Ascending(xs) && forall j :: 0 <= j < |xs| - 1 ==> xs[j] < xs[j + 1]
  }

  predicate InSegment(xs: seq<real>, a: real, j: nat)
  {
    j + 1 < |xs| && xs[j] <= a < xs[j + 1]
  }

  /** The segment the search finds from index j on; |xs| - 1 if there is none. */
  function SegmentFrom(xs: seq<real>, a: real, j: nat): (k: nat)
    requires j < |xs|
    ensures j <= k < |xs|
    ensures k < |xs| - 1 ==> InSegment(xs, a, k)
    ensures forall i :: j <= i < k ==> !InSegment(xs, a, i)
    decreases |xs| - j
  {
    if j == |xs| - 1 || InSegment(xs, a, j) then j else SegmentFrom(xs, a, j + 1)
  }

  function Line(k: real, x0: real, y0: real, a: real): real
  {
    k * (a - x0) + y0
  }

  /** The line through two points. */
  function OnLine(x0: real, x1: real, y0: real, y1: real, a: real): real
    requires x0 != x1
  {
    Line(Slope(x0, x1, y0, y1), x0, y0, a)
  }

  /** The piecewise linear curve through the points (xs[j], ys[j]), clamped outside (-90, 90). */
  function Curve(xs: seq<real>, ys: seq<real>, a: real): real
    requires Ascending(xs) && |ys| == |xs|
  {
    if a <= -90.0 then -90.0
    else if a >= 90.0 then 90.0
    else
      SegmentFound(xs, a);
      var j := SegmentFrom(xs, a, 0);
      OnLine(xs[j], xs[j + 1], ys[j], ys[j + 1], a)
  }

  /** The search succeeds before the table's last entry, and in a segment that is not flat. */
  lemma SegmentFound(xs: seq<real>, a: real)
    requires Ascending(xs) && -90.0 <= a < 90.0
    ensures var j := SegmentFrom(xs, a, 0);
            j < |xs| - 1 && xs[j] <= a < xs[j + 1]
  {
    if SegmentFrom(xs, a, 0) == |xs| - 1 {
      NoSegmentBelow(xs, a, |xs| - 1);
    }
  }

  lemma {:induction false} NoSegmentBelow(xs: seq<real>, a: real, n: nat)
    requires Ascending(xs) && -90.0 <= a && n < |xs|
    requires forall i :: 0 <= i < n ==> !InSegment(xs, a, i)
    ensures xs[n] <= a
  {
    if n > 0 {
      NoSegmentBelow(xs, a, n - 1);
      assert !InSegment(xs, a, n - 1);
    }
  }

  lemma {:induction false} AscendingOrder(xs: seq<real>, i: nat, j: nat)
    requires Ascending(xs) && i <= j < |xs|
    ensures xs[i] <= xs[j]
    decreases j
  {
    if i < j {
      AscendingOrder(xs, i, j - 1);
    }
  }

  /** A point lies in one segment only. */
  lemma SegmentUnique(xs: seq<real>, a: real, i: nat, j: nat)
    requires Ascending(xs) && InSegment(xs, a, i) && InSegment(xs, a, j)
    ensures i == j
  {
    if i < j {
      AscendingOrder(xs, i + 1, j);
    } else if j < i {
      AscendingOrder(xs, j + 1, i);
    }
  }

  lemma SegmentIs(xs: seq<real>, a: real, j: nat)
    requires Ascending(xs) && InSegment(xs, a, j)
    ensures SegmentFrom(xs, a, 0) == j && -90.0 <= a < 90.0
  {
    AscendingOrder(xs, 0, j);
    AscendingOrder(xs, j + 1, |xs| - 1);
    SegmentFound(xs, a);
    SegmentUnique(xs, a, SegmentFrom(xs, a, 0), j);
  }

  lemma CurveInSegment(xs: seq<real>, ys: seq<real>, a: real, j: nat)
    requires Ascending(xs) && |ys| == |xs| && InSegment(xs, a, j) && -90.0 < a < 90.0
    ensures SegmentFrom(xs, a, 0) == j && xs[j] != xs[j + 1]
    ensures Curve(xs, ys, a) == OnLine(xs[j], xs[j + 1], ys[j], ys[j + 1], a)
  {
    SegmentIs(xs, a, j);
  }

  function Slope(x0: real, x1: real, y0: real, y1: real): real
    requires x0 != x1
  {
    (y0 - y1) / (x0 - x1)
  }

  lemma SlopeSpec(x0: real, x1: real, y0: real, y1: real)
    requires x0 < x1 && y0 < y1
    ensures var k := Slope(x0, x1, y0, y1); k > 0.0 && k * (x1 - x0) == y1 - y0
  {
  }

  lemma Times(slope: real, a: real, b: real)
    requires slope > 0.0 && 0.0 <= a < b
    ensures 0.0 <= slope * a < slope * b
  {
  }

  lemma LineBetween(x0: real, x1: real, y0: real, y1: real, a: real)
    requires x0 <= a < x1 && y0 < y1
    ensures y0 <= OnLine(x0, x1, y0, y1, a) < y1
  {
    SlopeSpec(x0, x1, y0, y1);
    Times(Slope(x0, x1, y0, y1), a - x0, x1 - x0);
  }

  lemma LineInverts(x0: real, x1: real, y0: real, y1: real, a: real)
    requires x0 < x1 && y0 < y1
    ensures OnLine(y0, y1, x0, x1, OnLine(x0, x1, y0, y1, a)) == a
  {
  }

  lemma LineSteps(x0: real, x1: real, y0: real, y1: real, a: real, b: real)
    requires x0 <= a < b && x0 < x1 && y0 < y1
    ensures OnLine(x0, x1, y0, y1, a) < OnLine(x0, x1, y0, y1, b)
  {
  }

  /** Where a requested angle lands: in the segment of set angles that matches its own. */
  lemma CurveSegment(xs: seq<real>, ys: seq<real>, a: real)
    requires Ascending(xs) && StrictlyAscending(ys) && |ys| == |xs| && -90.0 < a < 90.0
    ensures var j := SegmentFrom(xs, a, 0);
            && InSegment(xs, a, j) && InSegment(ys, Curve(xs, ys, a), j)
            && SegmentFrom(ys, Curve(xs, ys, a), 0) == j
            && -90.0 < Curve(xs, ys, a) < 90.0
  {
    SegmentFound(xs, a);
    var j := SegmentFrom(xs, a, 0);
    LineBetween(xs[j], xs[j + 1], ys[j], ys[j + 1], a);
    SegmentIs(ys, Curve(xs, ys, a), j);
    if j > 0 {
      AscendingOrder(ys, 0, j - 1);
    } else {
      LineSteps(xs[0], xs[1], ys[0], ys[1], xs[0], a);
      assert OnLine(xs[0], xs[1], ys[0], ys[1], xs[0]) == ys[0];
    }
  }

  /** The map is strictly increasing on [-90, 90], even where the feedback table is flat, and
      stays in [-90, 90]. */
  lemma CurveIncreasing(xs: seq<real>, ys: seq<real>, a: real, b: real)
    requires Ascending(xs) && StrictlyAscending(ys) && |ys| == |xs| && a < b
    ensures -90.0 <= Curve(xs, ys, a) <= Curve(xs, ys, b) <= 90.0
    ensures -90.0 <= a < b <= 90.0 ==> Curve(xs, ys, a) < Curve(xs, ys, b)
  {
    if -90.0 < a < 90.0 {
      CurveSegment(xs, ys, a);
    }
    if -90.0 < b < 90.0 {
      CurveSegment(xs, ys, b);
    }
    if -90.0 < a && b < 90.0 {
      CurveOrder(xs, ys, a, b);
    }
  }

  lemma CurveOrder(xs: seq<real>, ys: seq<real>, a: real, b: real)
    requires Ascending(xs) && StrictlyAscending(ys) && |ys| == |xs| && -90.0 < a < b < 90.0
    ensures Curve(xs, ys, a) < Curve(xs, ys, b)
  {
    CurveSegment(xs, ys, a);
    CurveSegment(xs, ys, b);
    var i, j := SegmentFrom(xs, a, 0), SegmentFrom(xs, b, 0);
    if i < j {
      AscendingOrder(ys, i + 1, j);
    } else if j < i {
      AscendingOrder(xs, j + 1, i);
    } else {
      LineSteps(xs[i], xs[i + 1], ys[i], ys[i + 1], a, b);
    }
  }

  /** Interpolating the feedback at the angle to set gives back the angle that was requested. */
  lemma FeedbackInverts(xs: seq<real>, ys: seq<real>, a: real)
    requires Ascending(xs) && StrictlyAscending(ys) && |ys| == |xs| && -90.0 < a < 90.0
    ensures Curve(ys, xs, Curve(xs, ys, a)) == a
  {
    CurveSegment(xs, ys, a);
    var j := SegmentFrom(xs, a, 0);
    LineInverts(xs[j], xs[j + 1], ys[j], ys[j + 1], a);
  }

  /** The other way round: a set angle is found again from its feedback if and only if its segment
      of the feedback table is not flat. */
  lemma SetAngleInverts(xs: seq<real>, ys: seq<real>, s: real)
    requires Ascending(xs) && StrictlyAscending(ys) && |ys| == |xs| && -90.0 < s < 90.0
    ensures var j := SegmentFrom(ys, s, 0);
            && InSegment(ys, s, j)
            && (Curve(xs, ys, Curve(ys, xs, s)) == s <==> xs[j] < xs[j + 1])
  {
    SegmentFound(ys, s);
    var j := SegmentFrom(ys, s, 0);
    if xs[j] < xs[j + 1] {
      RisingKept(xs, ys, s, j);
    } else {
      FlatLost(xs, ys, s, j);
    }
  }

  lemma RisingKept(xs: seq<real>, ys: seq<real>, s: real, j: nat)
    requires Ascending(xs) && StrictlyAscending(ys) && |ys| == |xs| && -90.0 < s < 90.0
    requires InSegment(ys, s, j) && SegmentFrom(ys, s, 0) == j && xs[j] < xs[j + 1]
    ensures Curve(xs, ys, Curve(ys, xs, s)) == s
  {
    var c := OnLine(ys[j], ys[j + 1], xs[j], xs[j + 1], s);
    assert Curve(ys, xs, s) == c;
    LineBetween(ys[j], ys[j + 1], xs[j], xs[j + 1], s);
    AboveLeast(xs, ys, s, j, c);
    SegmentIs(xs, c, j);
    LineInverts(ys[j], ys[j + 1], xs[j], xs[j + 1], s);
  }

  lemma AboveLeast(xs: seq<real>, ys: seq<real>, s: real, j: nat, c: real)
    requires Ascending(xs) && StrictlyAscending(ys) && |ys| == |xs| && -90.0 < s < 90.0
    requires InSegment(ys, s, j) && xs[j] < xs[j + 1]
    requires c == OnLine(ys[j], ys[j + 1], xs[j], xs[j + 1], s) && xs[j] <= c
    ensures -90.0 < c
  {
    if j > 0 {
      AscendingOrder(xs, 1, j);
    } else {
      LineSteps(ys[0], ys[1], xs[0], xs[1], ys[0], s);
      assert OnLine(ys[0], ys[1], xs[0], xs[1], ys[0]) == xs[0];
    }
  }

  lemma FlatLost(xs: seq<real>, ys: seq<real>, s: real, j: nat)
    requires Ascending(xs) && StrictlyAscending(ys) && |ys| == |xs| && -90.0 < s < 90.0
    requires InSegment(ys, s, j) && SegmentFrom(ys, s, 0) == j && xs[j] == xs[j + 1]
    ensures Curve(xs, ys, Curve(ys, xs, s)) > s
  {
    var c := xs[j];
    AscendingOrder(xs, 1, j);
    AscendingOrder(xs, j, |xs| - 1);
    assert Curve(ys, xs, s) == c;
    if c < 90.0 {
      CurveSegment(xs, ys, c);
      var i := SegmentFrom(xs, c, 0);
      if i <= j {
        AscendingOrder(xs, i + 1, j + 1);
        assert false;
      }
      AscendingOrder(ys, j + 1, i);
    }
  }

  // The two cars --------------------------------------------------------------------------------

  lemma TablesAscend(canId: int)
    ensures StrictlyAscending(SetAngles()) && Ascending(Feedback(canId))
    ensures |Feedback(canId)| == |SetAngles()| == 25
    ensures StrictlyAscending(Feedback(canId)) <==> canId != 1001
  {
    SetAnglesAscend();
    FeedbackAscends(canId);
  }

  lemma SetAnglesAscend()
    ensures StrictlyAscending(SetAngles())
  {
    assert forall j :: 0 <= j < 24 ==> SetAngle(j) < SetAngle(j + 1);
  }

  lemma FeedbackAscends(canId: int)
    ensures Ascending(Feedback(canId)) && (StrictlyAscending(Feedback(canId)) <==> canId != 1001)
  {
    assert Feedback(1001)[11] == Feedback(1001)[12];
    assert forall j :: 0 <= j < 24 ==> Feedback1(j) <= Feedback1(j + 1);
    assert forall j :: 0 <= j < 24 ==> Feedback2(j) < Feedback2(j + 1);
  }

  /** The first table is flat around 0: exactly the angles in [-1, 1) cannot be told apart by their
      feedback, for that car only. */
  lemma FlatRegion(canId: int, s: real)
    requires -90.0 < s < 90.0
    ensures |Feedback(canId)| == |SetAngles()| && StrictlyAscending(SetAngles()) && Ascending(Feedback(canId))
    ensures Curve(Feedback(canId), SetAngles(), Curve(SetAngles(), Feedback(canId), s)) == s <==>
              !(canId == 1001 && -1.0 <= s < 1.0)
  {
    TablesAscend(canId);
    SetAngleInverts(Feedback(canId), SetAngles(), s);
    var j := SegmentFrom(SetAngles(), s, 0);
    FlatEntries(canId, j);
    FlatAngles(s, j);
  }

  lemma FlatEntries(canId: int, j: nat)
    requires j < 24
    ensures Feedback(canId)[j] < Feedback(canId)[j + 1] <==> !(canId == 1001 && (j == 11 || j == 12))
  {
  }

  lemma FlatAngles(s: real, j: nat)
    requires j < 24 && SetAngles()[j] <= s < SetAngles()[j + 1]
    ensures j == 11 || j == 12 <==> -1.0 <= s < 1.0
  {
  }

  method Along(x0: real, x1: real, y0: real, y1: real, angle: real) returns (r: real)
    requires x0 != x1
    ensures r == OnLine(x0, x1, y0, y1, angle)
  {
    var k := (y0 - y1) / (x0 - x1);
    r := k * (angle - x0) + y0;
  }

  /** The search of getTransformedAngle in given tables. */
  method Interpolate(feedback: seq<real>, setAngle: seq<real>, angle: real) returns (r: real)
    requires Ascending(feedback) && StrictlyAscending(setAngle) && |feedback| == |setAngle|
    requires -90.0 < angle < 90.0
    ensures r == Curve(feedback, setAngle, angle)
  {
    SegmentFound(feedback, angle);
    ghost var found := SegmentFrom(feedback, angle, 0);
    var j := 0;
    while j < |feedback|
      invariant 0 <= j <= found
    {
      if angle - feedback[j] >= 0.0 && angle - feedback[j + 1] < 0.0 {
        CurveInSegment(feedback, setAngle, angle, j);
        r := Along(feedback[j], feedback[j + 1], setAngle[j], setAngle[j + 1], angle);
        return;
      }
      j := j + 1;
    }
    assert false;
  }

  /** getTransformedAngle: the angle whose measured feedback is the requested one. */
  method GetTransformedAngle(canId: int, angle: real) returns (r: real)
    ensures |Feedback(canId)| == |SetAngles()| && StrictlyAscending(SetAngles()) && Ascending(Feedback(canId))
    ensures r == Curve(Feedback(canId), SetAngles(), angle)
    ensures -90.0 <= r <= 90.0
    ensures -90.0 <= angle <= 90.0 ==> Curve(SetAngles(), Feedback(canId), r) == angle
  {
    TablesAscend(canId);
    if angle <= -90.0 {
      return -90.0;
    } else if angle >= 90.0 {
      return 90.0;
    }
    CurveSegment(Feedback(canId), SetAngles(), angle);
    FeedbackInverts(Feedback(canId), SetAngles(), angle);
    r := Interpolate(Feedback(canId), SetAngles(), angle);
  }

  function Clamped(angle: real): real
  {
    if angle < -90.0 then -90.0 else if angle > 90.0 then 90.0 else angle
  }

  /** SetSteeringAngle: what is sent to the steering motor, if one is connected. The feedback of
      that angle is the requested one with the offset, clamped once; the second clamp changes
      nothing. */
  method SetSteeringAngle(connected: bool, canId: int, offset: real, angle: real) returns (sent: Option<real>)
    ensures |Feedback(canId)| == |SetAngles()| && StrictlyAscending(SetAngles()) && Ascending(Feedback(canId))
    ensures !connected <==> sent == None
    ensures connected ==>
              && sent == Some(Curve(Feedback(canId), SetAngles(), angle + offset))
              && -90.0 <= sent.value <= 90.0
              && Curve(SetAngles(), Feedback(canId), sent.value) == Clamped(angle + offset)
  {
    TablesAscend(canId);
    if !connected {
      return None;
    }
    var a := angle + offset;
    if a < -90.0 {
      a := -90.0;
    } else if a > 90.0 {
      a := 90.0;
    }
    a := GetTransformedAngle(canId, a);
    if a < -90.0 {
      a := -90.0;
    } else if a > 90.0 {
      a := 90.0;
    }
    return Some(a);
  }

  // Speeds --------------------------------------------------------------------------------------

  /** Sixty times the revolutions of the motor per millimetre. */
  function Gear(wheelLength: real, gearRatio: real): (c: real)
    requires wheelLength > 0.0 && gearRatio > 0.0
    ensures c > 0.0 && c * wheelLength == 60.0 * gearRatio
  {
    GearPositive(wheelLength, 60.0 * gearRatio);
    60.0 * gearRatio / wheelLength
  }

  lemma GearPositive(l: real, g: real)
    requires l > 0.0 && g > 0.0
    ensures g / l > 0.0 && g / l * l == g
  {
  }

  /** MM_S_to_RPM for a gear c. */
  function MmSToRpm(v: int, c: real): int
    requires c > 0.0
  {
    Truncated(v as real * c)
  }

  /** RPM_to_MM_S for a gear c. */
  function RpmToMmS(rpm: int, c: real): int
    requires c > 0.0
  {
    Truncated(rpm as real / c)
  }

  /** The two expressions of the code are the multiplication by the gear and the division by it. */
  lemma ConversionsScale(n: int, wheelLength: real, gearRatio: real)
    requires wheelLength > 0.0 && gearRatio > 0.0
    ensures var c := Gear(wheelLength, gearRatio);
            && Truncated(n as real * 60.0 * gearRatio / wheelLength) == MmSToRpm(n, c)
            && Truncated(n as real * wheelLength / (60.0 * gearRatio)) == RpmToMmS(n, c)
  {
    var c, g := Gear(wheelLength, gearRatio), 60.0 * gearRatio;
    var up := n as real * 60.0 * gearRatio;
    assert up == n as real * g;
    MovesIn(n as real, g, c, wheelLength);
    assert up / wheelLength == n as real * c;
    DividesBack(n as real, c, wheelLength, g);
    assert n as real * wheelLength / g == n as real / c;
  }

  lemma MovesIn(n: real, g: real, c: real, l: real)
    requires l > 0.0 && c * l == g
    ensures n * g / l == n * c
  {
  }

  lemma DividesBack(n: real, c: real, l: real, g: real)
    requires c * l == g && c > 0.0 && l > 0.0 && g > 0.0
    ensures n * l / g == n / c
  {
  }

  lemma TruncatedSpec(r: real)
    ensures r >= 0.0 ==> 0 <= Truncated(r) && Truncated(r) as real <= r < Truncated(r) as real + 1.0
    ensures Truncated(-r) == -Truncated(r)
  {
  }

  lemma TruncatedMonotone(a: real, b: real)
    requires a <= b
    ensures Truncated(a) <= Truncated(b)
  {
  }

  lemma Scaled(a: real, b: real, c: real)
    requires a <= b && c > 0.0
    ensures a * c <= b * c && a / c <= b / c
  {
  }

  lemma UpMonotone(m: int, n: int, c: real)
    requires c > 0.0 && m <= n
    ensures MmSToRpm(m, c) <= MmSToRpm(n, c)
  {
    var a, b := m as real * c, n as real * c;
    Scaled(m as real, n as real, c);
    TruncatedMonotone(a, b);
  }

  lemma DownMonotone(m: int, n: int, c: real)
    requires c > 0.0 && m <= n
    ensures RpmToMmS(m, c) <= RpmToMmS(n, c)
  {
    var a, b := m as real / c, n as real / c;
    Scaled(m as real, n as real, c);
    TruncatedMonotone(a, b);
  }

  lemma ConversionsMonotone(m: int, n: int, c: real)
    requires c > 0.0 && m <= n
    ensures MmSToRpm(m, c) <= MmSToRpm(n, c) && RpmToMmS(m, c) <= RpmToMmS(n, c)
  {
    UpMonotone(m, n, c);
    DownMonotone(m, n, c);
  }

  lemma ConversionsOdd(n: int, c: real)
    requires c > 0.0
    ensures MmSToRpm(-n, c) == -MmSToRpm(n, c) && RpmToMmS(-n, c) == -RpmToMmS(n, c)
  {
    TruncatedSpec(n as real * c);
    TruncatedSpec(n as real / c);
    Negated(n as real, c);
  }

  lemma Negated(n: real, c: real)
    requires c > 0.0
    ensures (-n) * c == -(n * c) && (-n) / c == -(n / c)
  {
  }

  /** A speed converted to revolutions and back has lost less than one millimetre and what one
      revolution is worth, never gains, and keeps its direction. */
  lemma SpeedRoundTrip(v: int, c: real)
    requires c > 0.0
    ensures var w := RpmToMmS(MmSToRpm(v, c), c);
            && (v >= 0 ==> 0 <= w <= v && v as real - 1.0 / c - 1.0 < w as real)
            && (v <= 0 ==> v <= w <= 0 && w as real < v as real + 1.0 / c + 1.0)
  {
    if v >= 0 {
      SpeedUp(v, c);
    } else {
      SpeedUp(-v, c);
      ConversionsOdd(-v, c);
      ConversionsOdd(MmSToRpm(-v, c), c);
    }
  }

  lemma SpeedUp(v: nat, c: real)
    requires c > 0.0
    ensures var w := RpmToMmS(MmSToRpm(v, c), c);
            0 <= w <= v && v as real - 1.0 / c - 1.0 < w as real
  {
    var r := MmSToRpm(v, c);
    Scaled(0.0, v as real, c);
    TruncatedSpec(v as real * c);
    RoundTripBounds(v as real, r as real, c);
    TruncatedSpec(r as real / c);
  }

  lemma RoundTripBounds(v: real, r: real, c: real)
    requires c > 0.0 && 0.0 <= r <= v * c < r + 1.0
    ensures 0.0 <= r / c <= v && v - 1.0 / c < r / c
  {
  }
}
