/** RotateLeft and RotateRight of controler/AgvMoveHelperForklift.cpp on values: the heading is
    sampled, unwrapped and summed until the car has turned far enough. */
module RotationSpec {
  import opened Motion
  import opened SpeedSpec

  const TURNING_SPEED := 400
  const TURNING_MID_SPEED := 150
  const ARRIVING_SPEED := 50
  const SPEED_CHANGE_TIMES := 7

  datatype Way = Left | Right

  datatype Rotation = Rotation(
    initParaFlag: bool, isChangeSpeedInit: bool, lastCarAngle: real, rotateCarAngle: real,
    current: int, target: int, deltaSpeed: int, lastAngle: real, runningMode: RunMode)

  function Sense(way: Way): real
  {
    if way == Left then 1.0 else -1.0
  }

  /** The change of heading between two samples as the car takes it: a jump of more than 270
      degrees is a crossing of north. */
  function DecAngle(way: Way, last: real, heading: real): real
  {
    var d := Sense(way) * (heading - last);
    if -360.0 < d < -270.0 then d + 360.0
    else if 270.0 < d < 360.0 then d - 360.0
    else d
  }

  /** The rotation after which the car is stopped; it coasts the rest. */
  function NeedRotateAngle(angle: real, delay: real): real
  {
    if angle <= delay then angle / 3.0 else angle - delay
  }

  /** The speed a rotation starts with. */
  function TurningSpeed(angle: real): (v: int)
    ensures angle > 0.0 ==> TURNING_MID_SPEED <= v <= TURNING_SPEED
  {
    var v := Truncated(angle / 180.0 * TURNING_SPEED as real * 1.75);
    if v > TURNING_SPEED then TURNING_SPEED
    else if v < TURNING_MID_SPEED then TURNING_MID_SPEED
    else v
  }

  /** Whether the rotation is nearly done. */
  predicate Slowing(way: Way, angle: real, rotated: real)
  {
    angle - rotated <= 24.0 && rotated > (if way == Left then 0.55 else 0.58) * angle
  }

  /** Integer division of C. */
  function Quotient(a: int, b: int): int
    requires b > 0
  {
    if a < 0 then -((-a) / b) else a / b
  }

  /** ChangeRotateSpeedByAngle. */
  function Slowed(s: Rotation, angle: real): Rotation
  {
    if !s.isChangeSpeedInit then
      s.(deltaSpeed := Quotient(s.current - ARRIVING_SPEED, SPEED_CHANGE_TIMES), lastAngle := angle,
         isChangeSpeedInit := true)
    else if AbsReal(angle - s.lastAngle) > 1.0 then
      var v := Max(s.current - s.deltaSpeed, ARRIVING_SPEED);
      s.(current := v, target := v, lastAngle := angle)
    else s
  }

  /** The sample is taken: the first one starts the rotation, if the drive accepts it. */
  function Sampled(way: Way, s: Rotation, angle: real, heading: real, started: bool): Rotation
  {
    if !s.initParaFlag then
      s.(lastCarAngle := heading, rotateCarAngle := 0.0, target := TurningSpeed(angle),
         current := TurningSpeed(angle), initParaFlag := started)
    else
      s.(rotateCarAngle := s.rotateCarAngle + DecAngle(way, s.lastCarAngle, heading), lastCarAngle := heading)
  }

  /** One call of RotateLeft or RotateRight. */
  function RotateTick(way: Way, s: Rotation, angle: real, delay: real, heading: real, started: bool): (Rotation, int)
  {
    if angle <= 0.0 then (s, -1)
    else
      var t := Sampled(way, s, angle, heading, started);
      if t.rotateCarAngle >= NeedRotateAngle(angle, delay) then
        (t.(initParaFlag := false, isChangeSpeedInit := false, lastCarAngle := 0.0, rotateCarAngle := 0.0,
            runningMode := StopMode), 1)
      else if Slowing(way, angle, t.rotateCarAngle) then (Slowed(t, angle - t.rotateCarAngle), 0)
      else (t, 0)
  }

  // Unwrapping ----------------------------------------------------------------------------------

  predicate Headings(hs: seq<real>)
  {
    forall k :: 0 <= k < |hs| ==> 0.0 <= hs[k] < 360.0
  }

  /** The rotation summed from sample first, at which it starts, up to sample n. */
  function Rotated(way: Way, hs: seq<real>, first: nat, n: nat): real
    requires first <= n < |hs|
  {
    if n == first then 0.0 else Rotated(way, hs, first, n - 1) + DecAngle(way, hs[n - 1], hs[n])
  }

  /** One sample is unwrapped to the true change if and only if that change is below 90 degrees,
      or north was not crossed and it is at most 270. turns is how often the true heading went
      round between the samples. */
  lemma UnwrapSample(way: Way, last: real, heading: real, turns: int)
    requires 0.0 <= last < 360.0 && 0.0 <= heading < 360.0
    ensures var change := heading - last + 360.0 * turns as real;
            DecAngle(way, last, heading) == Sense(way) * change <==>
              AbsReal(change) < 90.0 || (turns == 0 && AbsReal(change) <= 270.0)
  {
  }

  /** How often the unwrapping has added a full turn, signed, up to sample n. */
  function Crossings(way: Way, hs: seq<real>, first: nat, n: nat): int
    requires first <= n < |hs|
  {
    if n == first then 0
    else
      var d := Sense(way) * (hs[n] - hs[n - 1]);
      Crossings(way, hs, first, n - 1) + if -360.0 < d < -270.0 then 1 else if 270.0 < d < 360.0 then -1 else 0
  }

  /** Whatever the samples, the sum stays congruent to the heading modulo a full turn. */
  lemma {:induction false} RotatedCongruent(way: Way, hs: seq<real>, first: nat, n: nat)
    requires first <= n < |hs|
    ensures Rotated(way, hs, first, n) ==
              Sense(way) * (hs[n] - hs[first]) + 360.0 * Crossings(way, hs, first, n) as real
  {
    if n > first {
      RotatedCongruent(way, hs, first, n - 1);
    }
  }

  /** hs samples a true heading that goes round any number of times; turns says how often. */
  ghost predicate Samples(hs: seq<real>, truth: seq<real>, turns: seq<int>)
  {
    && Headings(hs) && |hs| == |truth| == |turns|
    && (forall k :: 0 <= k < |hs| ==> truth[k] == hs[k] + 360.0 * turns[k] as real)
    && (forall k :: 0 < k < |hs| ==> AbsReal(truth[k] - truth[k - 1]) < 90.0)
  }

  /** Below 90 degrees per sample the sum is the true rotation, across any number of crossings. */
  lemma {:induction false} UnwrapsExactly(way: Way, hs: seq<real>, truth: seq<real>, turns: seq<int>,
                                          first: nat, n: nat)
    requires Samples(hs, truth, turns) && first <= n < |hs|
    ensures Rotated(way, hs, first, n) == Sense(way) * (truth[n] - truth[first])
  {
    if n > first {
      UnwrapsExactly(way, hs, truth, turns, first, n - 1);
      UnwrapSample(way, hs[n - 1], hs[n], turns[n] - turns[n - 1]);
      assert truth[n] - truth[n - 1] == hs[n] - hs[n - 1] + 360.0 * (turns[n] - turns[n - 1]) as real;
    }
  }

  // Runs ----------------------------------------------------------------------------------------

  /** The state and return code after samples 0 to n; started says of each call whether the drive
      would accept a start in it. */
  function RotateTo(way: Way, s: Rotation, angle: real, delay: real, hs: seq<real>, started: seq<bool>, n: nat)
      : (Rotation, int)
    requires n < |hs| == |started|
  {
    RotateTick(way, if n == 0 then s else RotateTo(way, s, angle, delay, hs, started, n - 1).0,
               angle, delay, hs[n], started[n])
  }

  lemma NeedPositive(angle: real, delay: real)
    requires angle > 0.0
    ensures NeedRotateAngle(angle, delay) > 0.0
    ensures delay >= 0.0 ==> NeedRotateAngle(angle, delay) <= angle
  {
  }

  /** Nothing has been started. */
  predicate Fresh(s: Rotation)
  {
    !s.initParaFlag && !s.isChangeSpeedInit
  }

  /** While the drive rejects the start nothing completes and nothing is summed: the next call
      starts afresh. */
  lemma {:induction false} RejectedStarts(way: Way, s: Rotation, angle: real, delay: real, hs: seq<real>,
                                          started: seq<bool>, n: nat)
    requires n < |hs| == |started| && angle > 0.0 && Fresh(s)
    requires forall k :: 0 <= k <= n ==> !started[k]
    ensures var (r, code) := RotateTo(way, s, angle, delay, hs, started, n);
            Fresh(r) && code == 0 && r.rotateCarAngle == 0.0 && r.runningMode == s.runningMode
  {
    if n > 0 {
      RejectedStarts(way, s, angle, delay, hs, started, n - 1);
    }
    NeedPositive(angle, delay);
  }

  /** What a rotation started with sample first that is not done looks like. */
  ghost predicate Rotating(way: Way, r: Rotation, angle: real, hs: seq<real>, first: nat, n: nat)
    requires first <= n < |hs|
  {
    && r.initParaFlag && r.rotateCarAngle == Rotated(way, hs, first, n) && r.lastCarAngle == hs[n]
    && r.target == r.current && ARRIVING_SPEED <= r.current <= TurningSpeed(angle)
    && (if r.isChangeSpeedInit then r.deltaSpeed >= 14 else r.current == TurningSpeed(angle))
  }

  lemma TickRotates(way: Way, s: Rotation, angle: real, delay: real, hs: seq<real>, started: bool,
                    first: nat, n: nat)
    requires first <= n < |hs| && angle > 0.0
    requires if n == first then Fresh(s) && started else Rotating(way, s, angle, hs, first, n - 1)
    ensures var (r, code) := RotateTick(way, s, angle, delay, hs[n], started);
            if Rotated(way, hs, first, n) >= NeedRotateAngle(angle, delay)
            then code == 1 && Fresh(r) && r.runningMode == StopMode
            else code == 0 && Rotating(way, r, angle, hs, first, n) && (n > first ==> r.current <= s.current)
  {
  }

  /** A rotation reports completion at the first sample that reaches the needed angle after the
      first start the drive accepts, and not before; until then its speed never rises and stays
      between 50 and 400 mm/s. */
  lemma {:induction false} CompletesAtFirst(way: Way, s: Rotation, angle: real, delay: real, hs: seq<real>,
                                            started: seq<bool>, first: nat, n: nat)
    requires first <= n < |hs| == |started| && angle > 0.0 && Fresh(s)
    requires started[first] && forall k :: 0 <= k < first ==> !started[k]
    requires forall k :: first <= k < n ==> Rotated(way, hs, first, k) < NeedRotateAngle(angle, delay)
    ensures var (r, code) := RotateTo(way, s, angle, delay, hs, started, n);
            if Rotated(way, hs, first, n) >= NeedRotateAngle(angle, delay)
            then code == 1 && Fresh(r) && r.runningMode == StopMode
            else
              && code == 0 && Rotating(way, r, angle, hs, first, n)
              && (n > first ==> r.current <= RotateTo(way, s, angle, delay, hs, started, n - 1).0.current)
  {
    if n > first {
      CompletesAtFirst(way, s, angle, delay, hs, started, first, n - 1);
    } else if n > 0 {
      RejectedStarts(way, s, angle, delay, hs, started, n - 1);
    }
    var before := if n == 0 then s else RotateTo(way, s, angle, delay, hs, started, n - 1).0;
    TickRotates(way, before, angle, delay, hs, started[n], first, n);
  }

  /** The true rotation from sample first to sample n. */
  function Turned(way: Way, truth: seq<real>, first: nat, n: nat): real
    requires first <= n < |truth|
  {
    Sense(way) * (truth[n] - truth[first])
  }

  /** With a true change below 90 degrees per sample the car stops at the first sample at which it
      has truly turned the needed angle, and has then turned less than 90 degrees too far. */
  lemma StopsAtNeed(way: Way, s: Rotation, angle: real, delay: real, hs: seq<real>, started: seq<bool>,
                    truth: seq<real>, turns: seq<int>, first: nat, n: nat)
    requires first <= n < |hs| == |started| && angle > 0.0 && Fresh(s)
    requires started[first] && forall k :: 0 <= k < first ==> !started[k]
    requires Samples(hs, truth, turns)
    requires forall k :: first <= k < n ==> Turned(way, truth, first, k) < NeedRotateAngle(angle, delay)
    ensures var turned := Turned(way, truth, first, n);
            && RotateTo(way, s, angle, delay, hs, started, n).1 ==
                 (if turned >= NeedRotateAngle(angle, delay) then 1 else 0)
            && turned < NeedRotateAngle(angle, delay) + 90.0
  {
    forall k | first <= k <= n
      ensures Rotated(way, hs, first, k) == Turned(way, truth, first, k)
    {
      UnwrapsExactly(way, hs, truth, turns, first, k);
    }
    CompletesAtFirst(way, s, angle, delay, hs, started, first, n);
    NeedPositive(angle, delay);
    TurnedStep(way, hs, truth, turns, first, n);
  }

  lemma TurnedStep(way: Way, hs: seq<real>, truth: seq<real>, turns: seq<int>, first: nat, n: nat)
    requires Samples(hs, truth, turns) && first <= n < |hs|
    ensures if n == first then Turned(way, truth, first, n) == 0.0
            else Turned(way, truth, first, n) < Turned(way, truth, first, n - 1) + 90.0
  {
    if n > first {
      assert AbsReal(truth[n] - truth[n - 1]) < 90.0;
    }
  }

  /** The car coasts: asked to turn by more than it coasts, it stops at the first sample from which
      coasting takes it to the angle or beyond, and coasting then takes it less than 90 degrees too
      far. */
  lemma TurnsAsAsked(way: Way, s: Rotation, angle: real, delay: real, hs: seq<real>, started: seq<bool>,
                     truth: seq<real>, turns: seq<int>, first: nat, n: nat)
    requires first <= n < |hs| == |started| && angle > delay && angle > 0.0 && Fresh(s)
    requires started[first] && forall k :: 0 <= k < first ==> !started[k]
    requires Samples(hs, truth, turns)
    requires forall k :: first <= k < n ==> Turned(way, truth, first, k) + delay < angle
    ensures var turned := Turned(way, truth, first, n);
            && RotateTo(way, s, angle, delay, hs, started, n).1 == (if turned + delay >= angle then 1 else 0)
            && turned + delay < angle + 90.0
  {
    StopsAtNeed(way, s, angle, delay, hs, started, truth, turns, first, n);
  }

  /** Asked to turn by no more than it coasts, it stops at the first sample at which it has turned a
      third of the angle. */
  lemma TurnsAThird(way: Way, s: Rotation, angle: real, delay: real, hs: seq<real>, started: seq<bool>,
                    truth: seq<real>, turns: seq<int>, first: nat, n: nat)
    requires first <= n < |hs| == |started| && 0.0 < angle <= delay && Fresh(s)
    requires started[first] && forall k :: 0 <= k < first ==> !started[k]
    requires Samples(hs, truth, turns)
    requires forall k :: first <= k < n ==> 3.0 * Turned(way, truth, first, k) < angle
    ensures var turned := Turned(way, truth, first, n);
            && RotateTo(way, s, angle, delay, hs, started, n).1 == (if 3.0 * turned >= angle then 1 else 0)
            && 3.0 * turned < angle + 270.0
  {
    StopsAtNeed(way, s, angle, delay, hs, started, truth, turns, first, n);
  }
}
