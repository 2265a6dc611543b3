/** How long a ramp with the computed changes takes, and how an arc slows down to its end. */
module SpeedBounds {
  import opened Motion
  import opened SpeedSpec

  /** The computed change is a sixtieth of the gap or 15, so that 64 control periods close any gap, and
      fewer do not. */
  lemma ChangeCloses(n: nat)
    ensures (forall current, target :: n * ChangeFor(current, target) >= Abs(target - current)) <==> n >= 64
  {
    if n >= 64 {
      forall current, target
        ensures n * ChangeFor(current, target) >= Abs(target - current)
      {
        ProductGrows(64, n, ChangeFor(current, target));
      }
    } else {
      assert ChangeFor(0, 959) == 15 && n * 15 <= 63 * 15;
      assert n * ChangeFor(0, 959) < Abs(959 - 0);
    }
  }

  lemma ProductGrows(a: nat, b: nat, c: nat)
    requires a <= b
    ensures a * c <= b * c
  {
  }

  /** A small gap is closed in steps of 15, a large one in 60 periods or more. */
  lemma PeriodsFor(current: int, target: int, n: nat)
    ensures var gap := Abs(target - current);
            && (gap < 960 ==> ChangeFor(current, target) == 15)
            && (gap >= 900 && n * ChangeFor(current, target) >= gap ==> n >= 60)
  {
    var gap, change := Abs(target - current), ChangeFor(current, target);
    if n < 60 {
      ProductGrows(n, 59, change);
    }
  }

  /** A free ramp whose active change is the computed one is at its target after 64 control periods. */
  lemma RampTakesAtMost64(s: Speeds, n: nat)
    requires Ramping(s) && ActiveStep(s) == ChangeFor(s.current, s.target) && n >= 64
    ensures Manages(s, n).current == s.target
  {
    ChangeCloses(n);
    RampReachesTarget(s, n);
  }

  // The end of an arc -----------------------------------------------------------------------------

  /** The braking per control period near the target. */
  function PerPeriod(dir: Direction, handling: bool): int
  {
    if dir == Forward then 21 else if handling then 15 else 7
  }

  /** A control period in which the car does not arrive and nothing is in its way. */
  predicate Coasting(i: ArcInput)
  {
    i.radius > 0 && i.period && !i.arrived && i.barrier != 1 && i.barrier != 2
  }

  /** Arriving, with a speed of v. */
  ghost predicate Slowing(dir: Direction, a: ArcRun, change: int, v: int)
  {
    && a.initParaFlag && a.arriving && a.speeds.dspeed == change
    && a.speeds.target == Sign(dir) * 150 && a.speeds.current == Sign(dir) * v
  }

  lemma NearSlows(dir: Direction, a: ArcRun, v: int, i: ArcInput)
    requires a.initParaFlag && !a.arriving && a.speeds.current == Sign(dir) * v && 150 <= v <= 500
    requires i.near && Coasting(i)
    ensures var change := PerPeriod(dir, i.handling);
            Slowing(dir, ArcTick(dir, a, i).0, change, Max(v - change, 150))
  {
    var b := ArcNear(dir, a.(speeds := a.speeds.(barrier := i.barrier)), i.handling);
  }

  /** From the call in which an undisturbed arc run on its circle gets near its target it loses 21 mm/s
      per control period forwards, and backwards 15 when the action is charging or lifting and 7
      otherwise, until it has slowed down to 150. */
  lemma {:induction false} ArcSlowsDown(dir: Direction, a: ArcRun, first: ArcInput, rest: seq<ArcInput>)
    requires a.initParaFlag && !a.arriving && OnCircle(dir, a) && first.near && Coasting(first)
    requires forall k :: 0 <= k < |rest| ==> Coasting(rest[k])
    ensures RealCircles(rest)
    ensures var v, change := Sign(dir) * a.speeds.current, PerPeriod(dir, first.handling);
            Slowing(dir, ArcFrom(dir, ArcTick(dir, a, first).0, rest), change, Max(v - (|rest| + 1) * change, 150))
  {
    var v, change := Sign(dir) * a.speeds.current, PerPeriod(dir, first.handling);
    if rest == [] {
      NearSlows(dir, a, v, first);
    } else {
      var most := rest[..|rest| - 1];
      ArcSlowsDown(dir, a, first, most);
      assert (|rest| + 1) * change == |rest| * change + change;
    }
  }

  /** In every state of a run a car on an arc turns its way: forwards to the right on a clockwise circle
      and to the left on the other, backwards the other way round, with its speed over the radius. */
  lemma ArcTurnsItsWay(dir: Direction, a: ArcRun, inputs: seq<ArcInput>)
    requires RealCircles(inputs) && !a.initParaFlag && ArcFrom(dir, a, inputs).initParaFlag
    ensures var b := ArcFrom(dir, a, inputs);
            && b.speeds.base.Finite? && b.radius > 0
            && b.speeds.base.value * b.radius as real ==
                 (if b.clockwise then 0.0 - b.speeds.current as real else b.speeds.current as real)
  {
    ArcKeepsCircle(dir, a, inputs);
  }

  /** A call fails if and only if it would start on the wrong side of the target, and reports arrival
      if and only if the car was running its arc and is there. */
  lemma ArcCodes(dir: Direction, a: ArcRun, i: ArcInput)
    requires i.radius > 0
    ensures var (b, ret) := ArcTick(dir, a, i);
            && (ret == -1 <==> !a.initParaFlag && i.wrongSide)
            && (ret == 1 <==> a.initParaFlag && i.arrived)
            && ret in {-1, 0, 1}
            && (ret == -1 ==> b == a.(speeds := a.speeds.(barrier := i.barrier)))
  {
  }
}
