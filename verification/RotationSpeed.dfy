/** The speed of a rotation: what it starts with, how long it keeps it, and how it falls. */
module RotationSpeed {
  import opened Motion
  import opened SpeedSpec
  import opened RotationSpec

  /** The starting speed is 35/9 mm/s for every degree to turn, cut off below 150 and above 400. */
  lemma TurningSpeedSpec(angle: real)
    requires angle > 0.0
    ensures var v, exact := TurningSpeed(angle), angle * 35.0 / 9.0;
            && (exact >= 400.0 <==> v == 400)
            && (exact < 151.0 <==> v == 150)
            && (151.0 <= exact < 400.0 ==> v as real <= exact < v as real + 1.0)
  {
    assert angle / 180.0 * TURNING_SPEED as real * 1.75 == angle * 35.0 / 9.0;
  }

  /** A sample with at most 24 degrees left and more than 55, to the right 58, percent done. */
  predicate NearEnd(way: Way, angle: real, rotated: real)
  {
    angle - rotated <= 24.0 && rotated * 100.0 > angle * (if way == Left then 55.0 else 58.0)
  }

  /** Before sample n the rotation has not turned far enough. */
  ghost predicate StillTurning(way: Way, angle: real, delay: real, hs: seq<real>, started: seq<bool>,
                               first: nat, n: nat)
  {
    && first <= n < |hs| == |started| && angle > 0.0
    && started[first] && (forall k :: 0 <= k < first ==> !started[k])
    && forall k :: first <= k <= n ==> Rotated(way, hs, first, k) < NeedRotateAngle(angle, delay)
  }

  /** A seventh of what the starting speed is above 50 mm/s. */
  function Seventh(angle: real): int
  {
    (TurningSpeed(angle) - ARRIVING_SPEED) / SPEED_CHANGE_TIMES
  }

  /** The call with this sample slows the car down: it is near the end, not for the first time, and
      has turned by more than a degree since it was slowed down last. */
  predicate SlowsNow(way: Way, before: Rotation, angle: real, rotated: real)
  {
    NearEnd(way, angle, rotated) && before.isChangeSpeedInit && AbsReal(angle - rotated - before.lastAngle) > 1.0
  }

  function Slowdowns(way: Way, s: Rotation, angle: real, delay: real, hs: seq<real>, started: seq<bool>,
                     first: nat, n: nat): nat
    requires first <= n < |hs| == |started|
  {
    if n == first then 0
    else
      Slowdowns(way, s, angle, delay, hs, started, first, n - 1) +
      if SlowsNow(way, RotateTo(way, s, angle, delay, hs, started, n - 1).0, angle, Rotated(way, hs, first, n))
      then 1 else 0
  }

  /** The speed after m slowdowns. */
  function SpeedAfter(angle: real, m: nat): int
  {
    Max(TurningSpeed(angle) - m * Seventh(angle), ARRIVING_SPEED)
  }

  ghost predicate Falling(r: Rotation, angle: real, m: nat)
  {
    && r.current == r.target == SpeedAfter(angle, m)
    && (if r.isChangeSpeedInit then r.deltaSpeed == Seventh(angle) else m == 0)
  }

  lemma NextSpeedAfter(angle: real, m: nat)
    requires angle > 0.0
    ensures Max(SpeedAfter(angle, m) - Seventh(angle), ARRIVING_SPEED) == SpeedAfter(angle, m + 1)
    ensures SpeedAfter(angle, 0) == TurningSpeed(angle)
  {
    assert (m + 1) * Seventh(angle) == m * Seventh(angle) + Seventh(angle);
  }

  lemma TickFalls(way: Way, b: Rotation, angle: real, delay: real, heading: real, started: bool, m: nat,
                  rotated: real, r: Rotation)
    requires angle > 0.0 && b.initParaFlag && Falling(b, angle, m)
    requires rotated == b.rotateCarAngle + DecAngle(way, b.lastCarAngle, heading)
    requires rotated < NeedRotateAngle(angle, delay)
    requires r == RotateTick(way, b, angle, delay, heading, started).0
    ensures Falling(r, angle, if SlowsNow(way, b, angle, rotated) then m + 1 else m)
  {
    NextSpeedAfter(angle, m);
  }

  /** While the car turns its speed falls from the starting speed by a seventh of the excess over 50
      with every slowdown, and never below 50. */
  lemma {:induction false} FallsBySevenths(way: Way, s: Rotation, angle: real, delay: real, hs: seq<real>,
                                           started: seq<bool>, first: nat, n: nat)
    requires StillTurning(way, angle, delay, hs, started, first, n) && Fresh(s)
    ensures Falling(RotateTo(way, s, angle, delay, hs, started, n).0, angle,
                    Slowdowns(way, s, angle, delay, hs, started, first, n))
  {
    if n > first {
      FallsBySevenths(way, s, angle, delay, hs, started, first, n - 1);
      var b := RotateTo(way, s, angle, delay, hs, started, n - 1).0;
      MidRotation(way, s, angle, delay, hs, started, first, n, b);
      TickFalls(way, b, angle, delay, hs[n], started[n],
                Slowdowns(way, s, angle, delay, hs, started, first, n - 1),
                Rotated(way, hs, first, n), RotateTo(way, s, angle, delay, hs, started, n).0);
    } else {
      FirstSample(way, s, angle, delay, hs, started, n);
    }
  }

  lemma MidRotation(way: Way, s: Rotation, angle: real, delay: real, hs: seq<real>, started: seq<bool>,
                    first: nat, n: nat, b: Rotation)
    requires StillTurning(way, angle, delay, hs, started, first, n) && Fresh(s) && n > first
    requires b == RotateTo(way, s, angle, delay, hs, started, n - 1).0
    ensures b.initParaFlag
    ensures b.rotateCarAngle + DecAngle(way, b.lastCarAngle, hs[n]) == Rotated(way, hs, first, n)
  {
    CompletesAtFirst(way, s, angle, delay, hs, started, first, n - 1);
    assert Rotating(way, b, angle, hs, first, n - 1);
  }

  lemma FirstSample(way: Way, s: Rotation, angle: real, delay: real, hs: seq<real>, started: seq<bool>, n: nat)
    requires n < |hs| == |started| && angle > 0.0 && Fresh(s)
    requires started[n] && forall k :: 0 <= k < n ==> !started[k]
    ensures Falling(RotateTo(way, s, angle, delay, hs, started, n).0, angle, 0)
  {
    if n > 0 {
      RejectedStarts(way, s, angle, delay, hs, started, n - 1);
    }
    NeedPositive(angle, delay);
    NextSpeedAfter(angle, 0);
  }

  /** Seven slowdowns leave less than 57 mm/s, eight leave 50. */
  lemma EightSlowdowns(angle: real, m: nat)
    requires angle > 0.0
    ensures m >= 7 ==> ARRIVING_SPEED <= SpeedAfter(angle, m) <= 56
    ensures m >= 8 ==> SpeedAfter(angle, m) == 50
    ensures m < 7 ==> SpeedAfter(angle, m) > SpeedAfter(angle, m + 1)
  {
    Sevenths(TurningSpeed(angle) - ARRIVING_SPEED, m);
  }

  lemma Sevenths(excess: nat, m: nat)
    requires excess >= 100
    ensures m >= 7 ==> excess - m * (excess / 7) <= 6
    ensures m >= 8 ==> excess - m * (excess / 7) <= 0
    ensures m < 7 ==> excess - m * (excess / 7) > 0
    ensures excess - (m + 1) * (excess / 7) < excess - m * (excess / 7)
  {
    var d := excess / 7;
    assert m >= 7 ==> m * d >= 7 * d;
    assert m >= 8 ==> m * d >= 8 * d;
    assert m < 7 ==> m * d <= 6 * d;
    assert (m + 1) * d == m * d + d;
  }

  /** Until a sample is near the end the car keeps its starting speed. */
  lemma {:induction false} FullSpeedUntilNear(way: Way, s: Rotation, angle: real, delay: real, hs: seq<real>,
                                              started: seq<bool>, first: nat, n: nat)
    requires StillTurning(way, angle, delay, hs, started, first, n) && Fresh(s)
    requires forall k :: first < k <= n ==> !NearEnd(way, angle, Rotated(way, hs, first, k))
    ensures RotateTo(way, s, angle, delay, hs, started, n).0.current == TurningSpeed(angle)
  {
    FallsBySevenths(way, s, angle, delay, hs, started, first, n);
    NoSlowdowns(way, s, angle, delay, hs, started, first, n);
    NextSpeedAfter(angle, 0);
  }

  lemma {:induction false} NoSlowdowns(way: Way, s: Rotation, angle: real, delay: real, hs: seq<real>,
                                       started: seq<bool>, first: nat, n: nat)
    requires first <= n < |hs| == |started|
    requires forall k :: first < k <= n ==> !NearEnd(way, angle, Rotated(way, hs, first, k))
    ensures Slowdowns(way, s, angle, delay, hs, started, first, n) == 0
  {
    if n > first {
      NoSlowdowns(way, s, angle, delay, hs, started, first, n - 1);
    }
  }
}
