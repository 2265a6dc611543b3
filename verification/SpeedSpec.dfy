/** The wheel speed ramp and the arc runs of controler/AgvMoveHelperForklift.cpp on values. */
module SpeedSpec {
  import opened Motion

  const BASE_LINEAR_SPEED := 100
  const RUNARC_SPEED := 500
  const LOW_SPEED_ALLOWED := 300
  const MIN_CHANGE := 15
  const RAMP_PERIODS := 60

  /** A float: a number, or what a division by zero leaves. */
  datatype Float = Finite(value: real) | NotFinite

  /** Linear speed, its target, the changes per control period, angular speed, barrier status. */
  datatype Speeds = Speeds(current: int, target: int, aspeed: int, dspeed: int, base: Float, barrier: int)

  function Max(a: int, b: int): int { if a < b then b else a }

  function Min(a: int, b: int): int { if a < b then a else b }

  /** The cast of a float to int: truncation toward zero. */
  function Truncated(r: real): int
  {
    if r < 0.0 then -((-r).Floor) else r.Floor
  }

  /** calAspeed and calDspeed: the change per control period that closes the gap. */
  function ChangeFor(current: int, target: int): int
  {
    Max(MIN_CHANGE, Abs(target - current) / RAMP_PERIODS)
  }

  predicate BarrierOn(status: int)
  {
    status == 1 || status == 2
  }

  /** The linear speed after one ManageWheelSpeed. */
  function NextSpeed(s: Speeds): int
  {
    if s.target >= 0 && s.current >= 0 then
      if BarrierOn(s.barrier) then Min(s.current, LOW_SPEED_ALLOWED)
      else if s.current > s.target then Max(s.current - s.dspeed, s.target)
      else if s.current < s.target then Min(s.current + s.aspeed, s.target)
      else s.current
    else if s.target <= 0 && s.current <= 0 then
      if s.current < s.target then Min(s.current + s.dspeed, s.target)
      else if s.current > s.target then Max(s.current - s.aspeed, s.target)
      else s.current
    else s.current
  }

  /** base times a / b. */
  function Rescaled(base: Float, a: int, b: int): Float
  {
    if base == NotFinite || b == 0 then NotFinite else Finite(base.value * (a as real / b as real))
  }

  /** Both speeds in the same direction, as far as they have one. */
  predicate SameDirection(s: Speeds)
  {
    (s.target >= 0 && s.current >= 0) || (s.target <= 0 && s.current <= 0)
  }

  /** ManageWheelSpeed: the angular speed is scaled with the linear one. */
  function Managed(s: Speeds): Speeds
  {
    if SameDirection(s) then s.(current := NextSpeed(s), base := Rescaled(s.base, NextSpeed(s), s.current)) else s
  }

  // Curvature -----------------------------------------------------------------------------------

  lemma RatioKept(base: real, radius: real, turn: real, cur: real, next: real)
    requires base * radius == turn * cur && cur != 0.0
    ensures base * (next / cur) * radius == turn * next
  {
    var q := next / cur;
    assert q * cur == next;
    assert base * q * radius == (base * radius) * q;
    assert (turn * cur) * q == turn * (q * cur);
  }

  /** Scaling keeps the ratio of the two speeds, whatever the target and the barrier. */
  lemma ManagedKeepsCurvature(s: Speeds, radius: int, clockwise: bool)
    requires s.current != 0 && Curved(s.base, radius, clockwise, s.current)
    ensures Curved(Managed(s).base, radius, clockwise, Managed(s).current)
  {
    RatioKept(s.base.value, radius as real, Turn(clockwise), s.current as real, NextSpeed(s) as real);
  }

  /** A call loses the angular speed for good if and only if the car stands when it is made. */
  lemma StandingLosesAngle(s: Speeds)
    ensures Managed(s).base.Finite? <==> s.base.Finite? && s.current != 0
  {
  }

  // The ramp ------------------------------------------------------------------------------------

  function Gap(s: Speeds): nat
  {
    Abs(s.target - s.current)
  }

  /** The change per call that is active: dspeed while too fast, aspeed while too slow. */
  function ActiveStep(s: Speeds): int
  {
    if Abs(s.current) > Abs(s.target) then s.dspeed else s.aspeed
  }

  /** Nothing is in the way. */
  predicate Ramping(s: Speeds)
  {
    s.barrier != 1 && s.barrier != 2 && SameDirection(s) && ActiveStep(s) > 0
  }

  /** n calls of ManageWheelSpeed. */
  function Manages(s: Speeds, n: nat): Speeds
  {
    if n == 0 then s else Managed(Manages(s, n - 1))
  }

  /** One call without a barrier closes the gap by the active step and never crosses the target. */
  lemma NextGap(s: Speeds)
    requires Ramping(s)
    ensures var t := Managed(s);
            && t == s.(current := t.current, base := t.base) && SameDirection(t)
            && Gap(t) == Max(0, Gap(s) - ActiveStep(s))
            && (Gap(t) > 0 ==> ActiveStep(t) == ActiveStep(s))
            && (s.current <= s.target ==> s.current <= t.current <= s.target)
            && (s.current >= s.target ==> s.target <= t.current <= s.current)
  {
  }

  lemma GapSteps(gap: nat, n: nat, step: int)
    requires n > 0 && step > 0
    ensures n * step == (n - 1) * step + step
    ensures Max(0, gap - n * step) == Max(0, Max(0, gap - (n - 1) * step) - step)
  {
  }

  /** At the target a call changes nothing but loses the angular speed of a standing car. */
  lemma AtTarget(s: Speeds)
    requires !BarrierOn(s.barrier) && Gap(s) == 0
    ensures Managed(s).current == s.current && Managed(s) == s.(base := Managed(s).base)
  {
  }

  /** n calls close the gap by n steps. */
  lemma {:induction false} RampGap(s: Speeds, n: nat)
    requires Ramping(s)
    ensures var t := Manages(s, n);
            && t == s.(current := t.current, base := t.base) && SameDirection(t)
            && Gap(t) == Max(0, Gap(s) - n * ActiveStep(s))
            && (Gap(t) > 0 ==> ActiveStep(t) == ActiveStep(s))
            && (s.current <= s.target ==> s.current <= t.current <= s.target)
            && (s.current >= s.target ==> s.target <= t.current <= s.current)
  {
    if n > 0 {
      RampGap(s, n - 1);
      var u := Manages(s, n - 1);
      GapSteps(Gap(s), n, ActiveStep(s));
      if Gap(u) > 0 {
        NextGap(u);
      } else {
        AtTarget(u);
      }
    }
  }

  /** Without a barrier the speed moves monotonically to the target, 0 included, does not overshoot,
      and is there after n calls if and only if n steps cover the gap. */
  lemma RampReachesTarget(s: Speeds, n: nat)
    requires Ramping(s)
    ensures Manages(s, n).current == s.target <==> n * ActiveStep(s) >= Gap(s)
    ensures s.current <= s.target ==>
              s.current <= Manages(s, n).current <= Manages(s, n + 1).current <= s.target
    ensures s.current >= s.target ==>
              s.target <= Manages(s, n + 1).current <= Manages(s, n).current <= s.current
  {
    RampGap(s, n);
    var t := Manages(s, n);
    if Gap(t) > 0 {
      NextGap(t);
    } else {
      AtTarget(t);
    }
  }

  /** The angular speed survives n calls if and only if the car was moving before the last of them:
      a ramp down to standstill loses it with the call after the one that reaches 0. */
  lemma {:induction false} RampKeepsAngle(s: Speeds, n: nat)
    requires Ramping(s)
    ensures Manages(s, n).base.Finite? <==>
              s.base.Finite? &&
              (n == 0 || (s.current != 0 && (s.target != 0 || (n - 1) * ActiveStep(s) < Gap(s))))
  {
    if n > 0 {
      RampKeepsAngle(s, n - 1);
      RampGap(s, n - 1);
      StandingLosesAngle(Manages(s, n - 1));
      if n > 1 {
        GapSteps(Gap(s), n - 1, ActiveStep(s));
      }
    }
  }

  function Reversed(s: Speeds): Speeds
  {
    s.(current := -s.current, target := -s.target, base := Opposed(s.base))
  }

  /** Backwards the ramp is the forward ramp without a barrier, reflected, whatever the barrier
      is: a backward car does not slow down for one. */
  lemma BackwardReflectsForward(s: Speeds)
    requires s.current > 0 && s.target >= 0
    ensures Managed(Reversed(s)) == Reversed(Managed(s.(barrier := 0))).(barrier := s.barrier)
  {
    assert NextSpeed(Reversed(s)) == -NextSpeed(s.(barrier := 0));
    RescaledReverses(s.base, NextSpeed(s.(barrier := 0)), s.current);
  }

  function Opposed(base: Float): Float
  {
    if base.Finite? then Finite(-base.value) else NotFinite
  }

  lemma RescaledReverses(base: Float, a: int, b: int)
    requires b != 0
    ensures Rescaled(Opposed(base), -a, -b) == Opposed(Rescaled(base, a, b))
  {
    QuotientOfNegatives(a as real, b as real);
    assert (-a) as real == -(a as real) && (-b) as real == -(b as real);
    if base.Finite? {
      var q := a as real / b as real;
      assert (-base.value) * q == -(base.value * q);
    }
  }

  lemma QuotientOfNegatives(a: real, b: real)
    requires b != 0.0
    ensures (-a) / (-b) == a / b
  {
    var q := a / b;
    assert q * b == a;
    assert q * (-b) == -a;
  }

  /** A barrier caps the forward speed at 300. The backward speed is then within the cap if and only
      if the ramp keeps it there: one step down or up, or the speed the car has, is at most 300. */
  lemma BarrierCapsForward(s: Speeds)
    requires s.current > 0 && s.target >= 0 && (s.barrier == 1 || s.barrier == 2)
    ensures Managed(s).current == if s.current < 300 then s.current else 300
    ensures -Managed(Reversed(s)).current <= 300 <==>
              if s.current > s.target then s.current - s.dspeed <= 300 && s.target <= 300
              else if s.current < s.target then s.current + s.aspeed <= 300 || s.target <= 300
              else s.current <= 300
  {
  }

  /** A backward car at arc speed drives on through a barrier at 500, and one starting an arc
      accelerates to it. */
  lemma BackwardIgnoresBarrier(base: Float, aspeed: int, dspeed: int, status: int, n: nat)
    requires BarrierOn(status) && aspeed > 0
    ensures Managed(Speeds(-RUNARC_SPEED, -RUNARC_SPEED, aspeed, dspeed, base, status)).current == -RUNARC_SPEED
    ensures n * aspeed >= 350 ==>
              Manages(Speeds(-150, -RUNARC_SPEED, aspeed, dspeed, base, status), n).current == -RUNARC_SPEED
  {
    BackwardFree(Speeds(-150, -RUNARC_SPEED, aspeed, dspeed, base, status), n);
    RampGap(Speeds(-150, -RUNARC_SPEED, aspeed, dspeed, base, 0), n);
  }

  lemma {:induction false} BackwardFree(s: Speeds, n: nat)
    requires s.current < 0 && s.target < 0 && s.aspeed > 0 && s.current >= s.target
    ensures Manages(s, n) == Manages(s.(barrier := 0), n).(barrier := s.barrier)
    ensures s.target <= Manages(s, n).current <= s.current
    ensures Manages(s, n) == s.(current := Manages(s, n).current, base := Manages(s, n).base)
  {
    if n > 0 {
      BackwardFree(s, n - 1);
    }
  }

  // Arc runs ------------------------------------------------------------------------------------

  /** The fields and static locals of ForwardToArc and BackwardToArc. */
  datatype ArcRun = ArcRun(speeds: Speeds, initParaFlag: bool, arriving: bool, clockwise: bool, radius: int,
                           runningMode: RunMode)

  /** What one call sees: whether the start is on the wrong side of the target, the way round and
      radius of the circle, whether the drive accepted the start, whether the car is near its
      target, whether the current action is charging or lifting, whether a control period has
      passed, whether the car has arrived. */
  datatype ArcInput = ArcInput(wrongSide: bool, clockwise: bool, radius: int, started: bool, near: bool,
                               handling: bool, period: bool, arrived: bool, barrier: int)

  /** The sign of the linear speed. */
  function Sign(dir: Direction): int
  {
    if dir == Forward then 1 else -1
  }

  function Turn(clockwise: bool): real
  {
    if clockwise then -1.0 else 1.0
  }

  function ArcStart(dir: Direction, a: ArcRun, i: ArcInput): ArcRun
    requires i.radius > 0
  {
    var current, target := Sign(dir) * (INIT_SPEED + 50), Sign(dir) * RUNARC_SPEED;
    var aspeed := ChangeFor(current, target) * if dir == Forward then 2 else 1;
    var base := Finite((current as real / i.radius as real) * Turn(i.clockwise));
    a.(speeds := a.speeds.(current := current, target := target, aspeed := aspeed, base := base),
       initParaFlag := i.started, arriving := a.arriving && !i.started, clockwise := i.clockwise, radius := i.radius)
  }

  /** How hard the car brakes when it gets near its target. */
  function Braking(dir: Direction, handling: bool, change: int): int
  {
    if dir == Forward then Truncated(change as real * 1.4)
    else if handling then change
    else Truncated(change as real * 0.5)
  }

  function ArcNear(dir: Direction, a: ArcRun, handling: bool): ArcRun
  {
    var target := Sign(dir) * (BASE_LINEAR_SPEED + 50);
    a.(arriving := true,
       speeds := a.speeds.(target := target,
                           dspeed := Braking(dir, handling, ChangeFor(a.speeds.current, target))))
  }

  /** The running part of a call. */
  function ArcDrive(dir: Direction, a: ArcRun, i: ArcInput): ArcRun
  {
    var b := if !a.arriving && i.near then ArcNear(dir, a, i.handling) else a;
    if i.period then b.(speeds := Managed(b.speeds)) else b
  }

  /** One call of ForwardToArc or BackwardToArc under the given barrier. */
  function ArcTick(dir: Direction, before: ArcRun, i: ArcInput): (ArcRun, int)
    requires i.radius > 0
  {
    var a := before.(speeds := before.speeds.(barrier := i.barrier));
    if !a.initParaFlag then
      if i.wrongSide then (a, -1) else (ArcStart(dir, a, i), 0)
    else
      var b := ArcDrive(dir, a, i);
      if i.arrived then (b.(arriving := false, initParaFlag := false, runningMode := StopMode), 1) else (b, 0)
  }

  /** The angular speed times the radius is the linear speed, signed by the way round. */
  ghost predicate Curved(base: Float, radius: int, clockwise: bool, current: int)
  {
    base.Finite? && base.value * radius as real == Turn(clockwise) * current as real
  }

  /** The car runs its circle: the angular speed times the radius is the linear speed, signed by
      the way round, and the speed lies between the arrival speed and the arc speed. */
  ghost predicate OnCircle(dir: Direction, a: ArcRun)
  {
    var v := Sign(dir) * a.speeds.current;
    && a.radius > 0
    && Curved(a.speeds.base, a.radius, a.clockwise, a.speeds.current)
    && INIT_SPEED + 50 <= v <= RUNARC_SPEED
    && a.speeds.aspeed > 0
    && (if a.arriving then a.speeds.dspeed > 0 && a.speeds.target == Sign(dir) * (BASE_LINEAR_SPEED + 50)
        else a.speeds.target == Sign(dir) * RUNARC_SPEED)
  }

  lemma StartOnCircle(dir: Direction, a: ArcRun, i: ArcInput)
    requires i.radius > 0 && i.started
    ensures OnCircle(dir, ArcStart(dir, a, i))
  {
  }

  lemma NearOnCircle(dir: Direction, a: ArcRun, handling: bool)
    requires OnCircle(dir, a)
    ensures OnCircle(dir, ArcNear(dir, a, handling))
  {
  }

  lemma DriveOnCircle(dir: Direction, a: ArcRun, i: ArcInput)
    requires OnCircle(dir, a)
    ensures OnCircle(dir, ArcDrive(dir, a, i))
  {
    if !a.arriving && i.near {
      NearOnCircle(dir, a, i.handling);
    }
    var b := if !a.arriving && i.near then ArcNear(dir, a, i.handling) else a;
    ManagedKeepsCurvature(b.speeds, b.radius, b.clockwise);
  }

  /** One call under any barrier keeps an initialised run on its circle. */
  lemma TickOnCircle(dir: Direction, a: ArcRun, i: ArcInput)
    requires i.radius > 0 && (a.initParaFlag ==> OnCircle(dir, a))
    ensures var (b, ret) := ArcTick(dir, a, i);
            && (b.initParaFlag ==> OnCircle(dir, b))
            && (a.initParaFlag ==> Sign(dir) * b.speeds.current >= INIT_SPEED + 50)
            && (ret == 1 ==> a.initParaFlag && !b.initParaFlag)
  {
    var a' := a.(speeds := a.speeds.(barrier := i.barrier));
    if a.initParaFlag {
      DriveOnCircle(dir, a', i);
    } else if !i.wrongSide && i.started {
      StartOnCircle(dir, a', i);
    }
  }

  predicate RealCircles(inputs: seq<ArcInput>)
  {
    forall k :: 0 <= k < |inputs| ==> inputs[k].radius > 0
  }

  function ArcFrom(dir: Direction, a: ArcRun, inputs: seq<ArcInput>): ArcRun
    requires RealCircles(inputs)
  {
    if inputs == [] then a
    else ArcTick(dir, ArcFrom(dir, a, inputs[..|inputs| - 1]), inputs[|inputs| - 1]).0
  }

  /** Curvature conservation over whole runs: from any uninitialised state, through starts that
      fail, arrivals and new starts, and under any sequence of barriers, a car that is running an
      arc turns with the radius of its circle and never slower than the arrival speed. */
  lemma {:induction false} ArcKeepsCircle(dir: Direction, a: ArcRun, inputs: seq<ArcInput>)
    requires RealCircles(inputs) && !a.initParaFlag
    ensures var b := ArcFrom(dir, a, inputs);
            b.initParaFlag ==> OnCircle(dir, b)
  {
    if inputs != [] {
      var most := inputs[..|inputs| - 1];
      ArcKeepsCircle(dir, a, most);
      TickOnCircle(dir, ArcFrom(dir, a, most), inputs[|inputs| - 1]);
    }
  }

  /** A control period with nothing else happening. */
  predicate Cruising(i: ArcInput)
  {
    i.radius > 0 && i.period && !i.near && !i.arrived && i.barrier != 1 && i.barrier != 2
  }

  /** From its start an undisturbed arc run gains 30 mm/s per control period forwards and 15
      backwards until it has reached the arc speed. */
  lemma {:induction false} ArcSpeedsUp(dir: Direction, a: ArcRun, first: ArcInput, rest: seq<ArcInput>)
    requires !a.initParaFlag && first.radius > 0 && first.started && !first.wrongSide
    requires forall k :: 0 <= k < |rest| ==> Cruising(rest[k])
    ensures RealCircles(rest)
    ensures var b := ArcFrom(dir, ArcTick(dir, a, first).0, rest);
            && b.initParaFlag && !b.arriving && b.speeds.target == Sign(dir) * RUNARC_SPEED
            && b.speeds.aspeed == (if dir == Forward then 30 else 15)
            && Sign(dir) * b.speeds.current == Min(150 + |rest| * (if dir == Forward then 30 else 15), 500)
  {
    if rest != [] {
      var most := rest[..|rest| - 1];
      ArcSpeedsUp(dir, a, first, most);
      var step := if dir == Forward then 30 else 15;
      GapSteps(350, |rest|, step);
    }
  }
}
