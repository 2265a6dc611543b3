/** What the executor drives: the slots of the plan, one after the other, and how it stops. */
module ExecDrives {
  import opened Motion
  import opened ExecSpec

  /** Slot k of the plan is loaded, with the car at this heading. Under absolute rotation the angle of
      a rotation slot is a heading to turn to: the car turns by what is left to it. */
  predicate SlotLoaded(t: Exec, plan: seq<SubPath>, k: nat, absolute: bool, heading: real)
    requires k < |plan|
  {
    && t.runningMode == plan[k].runmode && t.targetSpeed == plan[k].speed
    && t.targetPose.x == plan[k].target.x && t.targetPose.y == plan[k].target.y
    && t.targetPose.angle == if absolute && IsRotation(plan[k]) then Normalise(heading - plan[k].target.angle)
                             else plan[k].target.angle
  }

  /** The heading with which the running slot was loaded: that of the last call that completed a
      segment, or of SetTarget. */
  function LoadHeading(s: Exec, heading: real, inputs: seq<Input>): real
  {
    if inputs == [] then heading
    else
      var most, last := inputs[..|inputs| - 1], inputs[|inputs| - 1];
      if Completes(RunFrom(s, most), last.reply) then last.heading else LoadHeading(s, heading, most)
  }

  /** After c completions slot c is loaded and running, or the plan is done. */
  ghost predicate Driving(t: Exec, plan: seq<SubPath>, absolute: bool, point: RunContext, c: nat, heading: real)
  {
    && c <= |plan| && t.isRunning && t.absolute == absolute && t.point == point
    && if c < |plan| then t.plan == plan && t.pathIndex == c && SlotLoaded(t, plan, c, absolute, heading)
       else t.plan == [] && t.pathIndex == 0 && t.runningMode == StopMode
  }

  lemma TargetDrives(s: Exec, plan: seq<SubPath>, absolute: bool, heading: real, point: RunContext)
    requires plan != []
    ensures Driving(Targeted(s, plan, plan[0], absolute, heading, point), plan, absolute, point, 0, heading)
  {
  }

  lemma TickDrives(t: Exec, plan: seq<SubPath>, absolute: bool, point: RunContext, c: nat, loaded: real,
                   reply: Reply, heading: real)
    requires Driving(t, plan, absolute, point, c, loaded)
    ensures Completes(t, reply) ==> c < |plan|
    ensures Driving(Tick(t, reply, heading), plan, absolute, point, if Completes(t, reply) then c + 1 else c,
                    if Completes(t, reply) then heading else loaded)
  {
    SegmentKeeps(t, reply);
  }

  /** Whatever the segments reply: after c completions the executor runs slot c of the plan, with its
      mode, speed and pose, until the last one is done. */
  lemma {:induction false} DrivesPlan(s: Exec, plan: seq<SubPath>, absolute: bool, heading: real, point: RunContext,
                                      inputs: seq<Input>)
    requires plan != []
    ensures var start := Targeted(s, plan, plan[0], absolute, heading, point);
            Driving(RunFrom(start, inputs), plan, absolute, point, Completions(start, inputs),
                    LoadHeading(start, heading, inputs))
  {
    if inputs == [] {
      TargetDrives(s, plan, absolute, heading, point);
    } else {
      var most, last := inputs[..|inputs| - 1], inputs[|inputs| - 1];
      DrivesPlan(s, plan, absolute, heading, point, most);
      var start := Targeted(s, plan, plan[0], absolute, heading, point);
      TickDrives(RunFrom(start, most), plan, absolute, point, Completions(start, most),
                 LoadHeading(start, heading, most), last.reply, last.heading);
    }
  }

  /** A segment driven to its end. */
  datatype Leg = Leg(runmode: RunMode, target: Pose, speed: int)

  /** The segments a run has completed. */
  function Driven(s: Exec, inputs: seq<Input>): seq<Leg>
  {
    if inputs == [] then []
    else
      var most := inputs[..|inputs| - 1];
      var t := RunFrom(s, most);
      Driven(s, most) +
      if Completes(t, inputs[|inputs| - 1].reply) then [Leg(t.runningMode, t.targetPose, t.targetSpeed)] else []
  }

  function LegsOf(plan: seq<SubPath>): (r: seq<Leg>)
    ensures |r| == |plan|
  {
    seq(|plan|, i requires 0 <= i < |plan| => Leg(plan[i].runmode, plan[i].target, plan[i].speed))
  }

  /** What has been driven to its end is always the front of the plan: all of it when the station is
      announced. */
  lemma {:induction false} DrivenIsPlan(s: Exec, plan: seq<SubPath>, heading: real, point: RunContext,
                                        inputs: seq<Input>)
    requires plan != []
    ensures var start := Targeted(s, plan, plan[0], false, heading, point);
            && Completions(start, inputs) <= |plan|
            && Driven(start, inputs) == LegsOf(plan)[..Completions(start, inputs)]
  {
    DrivesPlan(s, plan, false, heading, point, inputs);
    if inputs != [] {
      var most, last := inputs[..|inputs| - 1], inputs[|inputs| - 1];
      DrivenIsPlan(s, plan, heading, point, most);
      DrivesPlan(s, plan, false, heading, point, most);
      var start := Targeted(s, plan, plan[0], false, heading, point);
      if Completes(RunFrom(start, most), last.reply) {
        LegDriven(RunFrom(start, most), plan, point, Completions(start, most), LoadHeading(start, heading, most),
                  last.reply);
      }
    }
  }

  lemma LegDriven(t: Exec, plan: seq<SubPath>, point: RunContext, c: nat, loaded: real, reply: Reply)
    requires Driving(t, plan, false, point, c, loaded) && Completes(t, reply)
    ensures c < |plan|
    ensures LegsOf(plan)[..c + 1] == LegsOf(plan)[..c] + [Leg(t.runningMode, t.targetPose, t.targetSpeed)]
  {
    TickDrives(t, plan, false, point, c, loaded, reply, 0.0);
    assert LegsOf(plan)[c] == Leg(t.runningMode, t.targetPose, t.targetSpeed);
  }

  // Stopping ------------------------------------------------------------------------------------

  predicate StopsCar(e: Event)
  {
    e.StopCar? || e.SetBreak?
  }

  /** When the last segment completes the car is stopped for charging, and for a stop unless the
      target was a rotation; for every other action, lifting included, it is left rolling. */
  lemma LastSegmentStops(s: Exec, reply: Reply, heading: real)
    requires Completes(s, reply) && s.pathIndex + 1 >= |s.plan|
    ensures var t := Tick(s, reply, heading);
            match s.point.action
            case Charge => t.events == s.events + [StopCar(true), NextPathPoint(s.point.station)]
            case Stop =>
              t.events == s.events +
                if s.point.mode == RotateLeftMode || s.point.mode == RotateRightMode
                then [NextPathPoint(s.point.station)]
                else [StopCar(false), SetBreak, NextPathPoint(s.point.station)]
            case _ => t.events == s.events + [NextPathPoint(s.point.station)]
  {
    SegmentKeeps(s, reply);
    ArrivedIsStopped(s, reply);
  }

  /** No other call of LoopRunning stops the car. */
  lemma OthersRoll(s: Exec, reply: Reply, heading: real)
    requires !(Completes(s, reply) && s.pathIndex + 1 >= |s.plan|)
    ensures var t := Tick(s, reply, heading);
            s.events <= t.events && forall e :: e in t.events[|s.events|..] ==> !StopsCar(e)
  {
    SegmentKeeps(s, reply);
  }

  // Calls -----------------------------------------------------------------------------------------

  /** A call completes a segment if and only if the executor runs and its routine arrives after its
      initialising call, or is asked to rotate by nothing. */
  lemma CompletesExactly(s: Exec, reply: Reply)
    ensures Completes(s, reply) <==>
      && s.isRunning
      && if s.runningMode == RotateLeftMode || s.runningMode == RotateRightMode
         then s.targetPose.angle == 0.0 || (s.initParaFlag && reply.Arrived?)
         else s.runningMode in {GoForwardMode, GoBackwardMode, ForwardToArcMode, BackwardToArcMode}
              && s.initParaFlag && reply.Arrived?
  {
  }

  /** A segment that cannot start is reported with its code, nothing changes, and the next call tries
      again. */
  lemma FailureReported(s: Exec, code: int, heading: real)
    requires s.isRunning && !s.initParaFlag && code < 0
    requires s.runningMode in {GoForwardMode, GoBackwardMode, ForwardToArcMode, BackwardToArcMode}
    ensures Tick(s, Failed(code), heading) == s.(events := s.events + [PathMagError(code)])
  {
  }

  // Flags -----------------------------------------------------------------------------------------

  /** The flag for changing speed is set in a rotation that has started only. */
  predicate Steady(s: Exec)
  {
    && (s.isChangeSpeedInit ==> IsRotateMode(s.runningMode) && s.initParaFlag)
    && (IsRotateMode(s.runningMode) && s.targetPose.angle == 0.0 ==> !s.initParaFlag)
  }

  /** A routine does not set it elsewhere. */
  predicate Orderly(s: Exec, reply: Reply)
  {
    reply.Busy? && reply.isChangeSpeedInit ==> IsRotateMode(s.runningMode) && reply.initParaFlag
  }

  lemma TickSteady(s: Exec, reply: Reply, heading: real)
    requires Steady(s) && Orderly(s, reply)
    ensures var t := Tick(s, reply, heading);
            Steady(t) && (Completes(s, reply) ==> !t.initParaFlag && !t.isChangeSpeedInit)
  {
  }

  ghost predicate AllOrderly(s: Exec, inputs: seq<Input>)
  {
    forall k :: 0 <= k < |inputs| ==> Orderly(RunFrom(s, inputs[..k]), inputs[k].reply)
  }

  /** Every segment of a run starts with both flags false, as the rotation routines need it, although
      an arc leaves the second one as it is. */
  lemma {:induction false} StartsFresh(s: Exec, inputs: seq<Input>)
    requires Steady(s) && AllOrderly(s, inputs)
    ensures Steady(RunFrom(s, inputs))
    ensures inputs != [] && Completes(RunFrom(s, inputs[..|inputs| - 1]), inputs[|inputs| - 1].reply) ==>
              !RunFrom(s, inputs).initParaFlag && !RunFrom(s, inputs).isChangeSpeedInit
  {
    if inputs != [] {
      var n := |inputs| - 1;
      var most, last := inputs[..n], inputs[n];
      assert forall k :: 0 <= k < n ==> most[..k] == inputs[..k];
      StartsFresh(s, most);
      TickSteady(RunFrom(s, most), last.reply, last.heading);
    }
  }

  lemma TargetIsSteady(s: Exec, plan: seq<SubPath>, slot: SubPath, absolute: bool, heading: real, point: RunContext)
    ensures Steady(Targeted(s, plan, slot, absolute, heading, point))
    ensures var t := Targeted(s, plan, slot, absolute, heading, point); !t.initParaFlag && !t.isChangeSpeedInit
  {
  }
}
