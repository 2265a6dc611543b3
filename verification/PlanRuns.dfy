/** From an accepted pose to the announcement: the planner and the executor together. */
module PlanRuns {
  import opened Motion
  import opened PlanSpec
  import opened PlanSimplify
  import opened ExecSpec
  import opened ExecDrives
  import opened PathExecutor

  /** The run of some steps: they start in order, each once and uninitialised, what is driven to its
      end is the front of the plan, and the station is announced exactly when that is all of it. */
  ghost predicate RunsOnce(steps: seq<SubPath>, s: Exec, heading: real, point: RunContext, inputs: seq<Input>)
    requires steps != []
  {
    var start := Targeted(s, steps, steps[0], false, heading, point);
    var now, c := RunFrom(start, inputs), Completions(start, inputs);
    && c <= |steps| && s.events <= now.events
    && var since := now.events[|s.events|..];
    && Starts(since) == InOrder(if c < |steps| then c + 1 else |steps|)
    && Announced(since) == (if c == |steps| then 1 else 0)
    && Driven(start, inputs) == LegsOf(steps)[..c]
  }

  lemma StepsRun(steps: seq<SubPath>, s: Exec, heading: real, point: RunContext, inputs: seq<Input>)
    requires steps != []
    ensures RunsOnce(steps, s, heading, point, inputs)
  {
    TargetedOnCourse(s, steps, steps[0], false, heading, point);
    RunOnCourse(Targeted(s, steps, steps[0], false, heading, point), s.events, |steps|, inputs);
    DrivenIsPlan(s, steps, heading, point, inputs);
  }

  lemma OutcomeRuns(o: Outcome, s: Exec, heading: real, point: RunContext, inputs: seq<Input>)
    requires o.Planned? ==> o.steps != []
    ensures o.Planned? ==> RunsOnce(o.steps, s, heading, point, inputs)
  {
    if o.Planned? {
      StepsRun(o.steps, s, heading, point, inputs);
    }
  }

  /** Once SetTarget has accepted a pose, whatever the segments reply, the run drives the one to five
      steps of that plan in order and announces the station exactly when all have completed. */
  lemma AcceptedPlanRuns(t: Trig, dir: Direction, circleRadius: int, saved: int, p: Pose, needStop: bool,
                         maxSpeed: int, s: Exec, heading: real, point: RunContext, inputs: seq<Input>)
    requires TrigLaws(t)
    ensures var o := Plan(t, dir, circleRadius, saved, p, needStop, maxSpeed);
            o.Planned? ==> 1 <= |o.steps| <= 5 && RunsOnce(o.steps, s, heading, point, inputs)
  {
    PlanNeverEmpty(t, dir, circleRadius, saved, p, needStop, maxSpeed);
    OutcomeRuns(Plan(t, dir, circleRadius, saved, p, needStop, maxSpeed), s, heading, point, inputs);
  }

  /** A line target needs to stop if and only if the car is stopped at its end: by the last call of
      LoopRunning, or, when it lifts behind a backward line, by BackwardToLine. */
  lemma NeedsStopIfStopped(s: Exec, reply: Reply, heading: real)
    requires Completes(s, reply) && s.pathIndex + 1 >= |s.plan| && IsLineMode(s.point.mode)
    ensures var more := Tick(s, reply, heading).events[|s.events|..];
            Executor.NeedsStop(s.point.mode, s.point.action) <==>
              || (exists e :: e in more && StopsCar(e))
              || (s.point.action == LiftUpDown && s.point.mode == GoBackwardMode)
  {
    var t := Tick(s, reply, heading);
    LastSegmentStops(s, reply, heading);
    if s.point.action == Charge {
      assert t.events[|s.events|..][0] == StopCar(true);
      assert StopsCar(StopCar(true)) && StopCar(true) in t.events[|s.events|..];
    } else if s.point.action == Stop {
      assert t.events[|s.events|..][0] == StopCar(false);
      assert StopsCar(StopCar(false)) && StopCar(false) in t.events[|s.events|..];
    } else {
      assert t.events[|s.events|..] == [NextPathPoint(s.point.station)];
    }
  }
}
