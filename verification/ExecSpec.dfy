/** SetTarget, LoopRunning and ClearTarget of controler/AgvMoveHelperForklift.cpp as a state
    machine on values, and what holds of all its runs. */
module ExecSpec {
  import opened Motion
  import opened Sequences

  datatype Action = Run | Stop | SpeedDown | ResumeSpeed | LiftUpDown | Charge

  /** What the executor sends and commands, in order. */
  datatype Event =
    | SegmentStarted(index: nat, initParaFlag: bool)
    | NextPathPoint(station: int)
    | PathMagError(code: int)
    | StopCar(brake: bool)
    | SetBreak

  datatype Exec = Exec(
    isRunning: bool, runningMode: RunMode, carRunningMode: RunMode,
    pathIndex: nat, plan: seq<SubPath>, absolute: bool,
    targetPose: Pose, targetSpeed: int,
    initParaFlag: bool, isChangeSpeedInit: bool,
    point: RunContext, events: seq<Event>)

  /** targetPoint: what the current target is for. */
  datatype RunContext = RunContext(station: int, mode: RunMode, action: Action)

  /** What the routine of the running segment does in one call: go on, arrive, or fail. */
  datatype Reply = Busy(initParaFlag: bool, isChangeSpeedInit: bool) | Arrived | Failed(code: int)

  predicate IsRotateMode(m: RunMode)
  {
    m == RotateLeftMode || m == RotateRightMode
  }

  predicate IsLineMode(m: RunMode)
  {
    m == GoForwardMode || m == GoBackwardMode
  }

  predicate IsArcMode(m: RunMode)
  {
    m == ForwardToArcMode || m == BackwardToArcMode
  }

  /** One call of the segment routine: new state and return code. The routines arrive only after
      their initialising call and fail only in it; a rotation by nothing arrives at once. */
  function Segment(s: Exec, reply: Reply): (Exec, int)
  {
    if IsRotateMode(s.runningMode) && s.targetPose.angle == 0.0 then (s, 1)
    else if !IsRotateMode(s.runningMode) && !IsLineMode(s.runningMode) && !IsArcMode(s.runningMode) then (s, 0)
    else
      match reply
      case Busy(init, change) => (s.(initParaFlag := init, isChangeSpeedInit := change), 0)
      case Arrived =>
        if !s.initParaFlag then (s, 0)
        else
          (s.(runningMode := StopMode, initParaFlag := false,
              isChangeSpeedInit := IsArcMode(s.runningMode) && s.isChangeSpeedInit), 1)
      case Failed(code) =>
        if s.initParaFlag || IsRotateMode(s.runningMode) || code >= 0 then (s, 0) else (s, code)
  }

  /** Under absolute rotation the target angle becomes the rotation from the current heading. */
  function Loaded(step: SubPath, absolute: bool, heading: real): Pose
  {
    if absolute && IsRotation(step)
    then step.target.(angle := Normalise(heading - step.target.angle))
    else step.target
  }

  function NextSegment(s: Exec, heading: real): Exec
    requires s.pathIndex + 1 < |s.plan|
  {
    var i := s.pathIndex + 1;
    s.(pathIndex := i, targetPose := Loaded(s.plan[i], s.absolute, heading), runningMode := s.plan[i].runmode,
       targetSpeed := s.plan[i].speed, events := s.events + [SegmentStarted(i, s.initParaFlag)])
  }

  /** What is done to the wheels once the last segment has arrived. */
  function Halt(s: Exec): seq<Event>
  {
    if (s.point.action == LiftUpDown && s.runningMode == GoBackwardMode) || s.point.action == Charge
    then [StopCar(true)]
    else if s.point.action == Stop && !IsRotateMode(s.point.mode) then [StopCar(false), SetBreak]
    else []
  }

  function Finished(s: Exec): Exec
  {
    s.(runningMode := StopMode, pathIndex := 0, plan := [],
       events := s.events + Halt(s) + [NextPathPoint(s.point.station)])
  }

  /** What follows on the return code of the segment routine. */
  function Proceed(t: Exec, ret: int, heading: real): Exec
  {
    if ret == 1 then if t.pathIndex + 1 < |t.plan| then NextSegment(t, heading) else Finished(t)
    else if ret < 0 then t.(events := t.events + [PathMagError(ret)])
    else t
  }

  /** One call of LoopRunning. */
  function Tick(s: Exec, reply: Reply, heading: real): Exec
  {
    if !s.isRunning then s
    else
      var (t, ret) := Segment(s, reply);
      Proceed(t, ret, heading)
  }

  /** Whether a call of LoopRunning completes a segment. */
  predicate Completes(s: Exec, reply: Reply)
  {
    s.isRunning && Segment(s, reply).1 == 1
  }

  /** The state SetTarget leaves when it succeeds: the plan's first slot is loaded. A mode without
      a plan has an empty one and runs that slot alone. */
  function Targeted(s: Exec, plan: seq<SubPath>, slot: SubPath, absolute: bool, heading: real,
                    point: RunContext): Exec
  {
    s.(isRunning := true, runningMode := slot.runmode, carRunningMode := point.mode, pathIndex := 0, plan := plan,
       absolute := absolute, targetPose := Loaded(slot, absolute, heading), targetSpeed := slot.speed,
       initParaFlag := false, isChangeSpeedInit := false, point := point,
       events := s.events + [SegmentStarted(0, false)])
  }

  function Cleared(s: Exec): Exec
  {
    s.(isRunning := false, runningMode := StopMode, initParaFlag := false, isChangeSpeedInit := false,
       carRunningMode := StopMode)
  }

  /** The state SetTarget leaves when it refuses a line target: the plan is gone, and whatever was
      running runs on. */
  function Refused(s: Exec, mode: RunMode): Exec
  {
    s.(carRunningMode := mode, plan := [], events := s.events + [PathMagError(-1)])
  }

  datatype Input = Input(reply: Reply, heading: real)

  function RunFrom(s: Exec, inputs: seq<Input>): Exec
  {
    if inputs == [] then s
    else
      var t := RunFrom(s, inputs[..|inputs| - 1]);
      Tick(t, inputs[|inputs| - 1].reply, inputs[|inputs| - 1].heading)
  }

  /** How many segments have completed in the course of a run. */
  function Completions(s: Exec, inputs: seq<Input>): nat
  {
    if inputs == [] then 0
    else
      var before := inputs[..|inputs| - 1];
      Completions(s, before) + if Completes(RunFrom(s, before), inputs[|inputs| - 1].reply) then 1 else 0
  }

  function Starts(events: seq<Event>): seq<Event>
  {
    if events == [] then []
    else
      var rest := Starts(events[..|events| - 1]);
      var e := events[|events| - 1];
      if e.SegmentStarted? then rest + [e] else rest
  }

  function Announced(events: seq<Event>): nat
  {
    if events == [] then 0
    else Announced(events[..|events| - 1]) + if events[|events| - 1].NextPathPoint? then 1 else 0
  }

  /** The first n segments started in index order, once each, uninitialised. */
  function InOrder(n: nat): seq<Event>
  {
    seq(n, i requires 0 <= i < n => SegmentStarted(i, false))
  }

  lemma {:induction false} EventsConcat(a: seq<Event>, b: seq<Event>)
    ensures Starts(a + b) == Starts(a) + Starts(b)
    ensures Announced(a + b) == Announced(a) + Announced(b)
  {
    if b == [] {
      assert a + b == a && Starts(a) + [] == Starts(a);
    } else {
      var most, e := b[..|b| - 1], b[|b| - 1];
      EventsConcat(a, most);
      Associates(a, most, [e]);
      EventsSnoc(a + most, e, a + (most + [e]));
      EventsSnoc(most, e, b);
      assert b == most + [e];
      Associates(Starts(a), Starts(most), if e.SegmentStarted? then [e] else []);
    }
  }

  lemma EventsSnoc(most: seq<Event>, e: Event, all: seq<Event>)
    requires all == most + [e]
    ensures Starts(all) == Starts(most) + if e.SegmentStarted? then [e] else []
    ensures Announced(all) == Announced(most) + if e.NextPathPoint? then 1 else 0
  {
    assert all[..|all| - 1] == most;
  }

  lemma HaltEvents(s: Exec)
    ensures Starts(Halt(s)) == [] && Announced(Halt(s)) == 0
  {
    assert [StopCar(false), SetBreak][..1] == [StopCar(false)];
  }

  /** The number of segments a target has: the steps of its plan, or the one slot without a plan. */
  function Segments(plan: seq<SubPath>): nat
  {
    if plan == [] then 1 else |plan|
  }

  /** How far a target has got: the segments completed, how many there will be, and whether it has
      been cleared. */
  datatype Course = Course(done: nat, total: nat, cleared: bool)

  /** What the executor looks like on that course, given the events that were there before the
      target was set. */
  ghost predicate OnCourse(s: Exec, before: seq<Event>, k: Course)
  {
    && s.isRunning == !k.cleared
    && before <= s.events
    && (IsRotateMode(s.runningMode) && s.targetPose.angle == 0.0 ==> !s.initParaFlag)
    && k.done <= k.total
    && var since := s.events[|before|..];
       if k.done < k.total then
         && s.pathIndex == k.done
         && (if k.done + 1 < k.total then |s.plan| == k.total else |s.plan| <= k.total)
         && Starts(since) == InOrder(k.done + 1) && Announced(since) == 0
       else
         s.plan == [] && s.runningMode == StopMode && !s.initParaFlag
         && Starts(since) == InOrder(k.total) && Announced(since) == 1
  }

  lemma SinceAppend(s: Exec, t: Exec, before: seq<Event>, more: seq<Event>)
    requires before <= s.events && t.events == s.events + more
    ensures before <= t.events && t.events[|before|..] == s.events[|before|..] + more
    ensures Starts(t.events[|before|..]) == Starts(s.events[|before|..]) + Starts(more)
    ensures Announced(t.events[|before|..]) == Announced(s.events[|before|..]) + Announced(more)
  {
    assert t.events[|before|..] == s.events[|before|..] + more;
    EventsConcat(s.events[|before|..], more);
  }

  lemma InOrderGrows(n: nat)
    ensures InOrder(n + 1) == InOrder(n) + [SegmentStarted(n, false)]
  {
  }

  lemma SingleEvent(e: Event)
    ensures Starts([e]) == (if e.SegmentStarted? then [e] else [])
    ensures Announced([e]) == (if e.NextPathPoint? then 1 else 0)
  {
  }

  lemma NextOnCourse(s: Exec, t: Exec, before: seq<Event>, k: Course, heading: real)
    requires OnCourse(s, before, k) && k.done + 1 < k.total
    requires t.isRunning == s.isRunning && t.plan == s.plan && t.pathIndex == k.done && t.events == s.events
    requires !t.initParaFlag
    ensures OnCourse(NextSegment(t, heading), before, k.(done := k.done + 1))
  {
    InOrderGrows(k.done + 1);
    SingleEvent(SegmentStarted(k.done + 1, t.initParaFlag));
    SinceAppend(s, NextSegment(t, heading), before, [SegmentStarted(k.done + 1, t.initParaFlag)]);
  }

  /** What finishing sends: no segment, one announcement. */
  lemma ClosingEvents(before: seq<Event>, s: Exec, t: Exec)
    requires before <= t.events && s == Finished(t)
    ensures before <= s.events
    ensures Starts(s.events[|before|..]) == Starts(t.events[|before|..])
    ensures Announced(s.events[|before|..]) == Announced(t.events[|before|..]) + 1
  {
    var halt, last := Halt(t), [NextPathPoint(t.point.station)];
    HaltEvents(t);
    SingleEvent(NextPathPoint(t.point.station));
    EventsConcat(halt, last);
    Associates(t.events, halt, last);
    SinceAppend(t, s, before, halt + last);
  }

  lemma FailedOnCourse(s: Exec, t: Exec, before: seq<Event>, k: Course, code: int)
    requires OnCourse(s, before, k)
    requires t == s.(events := s.events + [PathMagError(code)])
    ensures OnCourse(t, before, k)
  {
    SingleEvent(PathMagError(code));
    SinceAppend(s, t, before, [PathMagError(code)]);
  }

  lemma SegmentKeeps(s: Exec, reply: Reply)
    ensures var (t, ret) := Segment(s, reply);
            && t.plan == s.plan && t.pathIndex == s.pathIndex && t.events == s.events && t.isRunning == s.isRunning
            && (ret == 1 ==> s.runningMode != StopMode)
            && (ret == 1 && !(IsRotateMode(s.runningMode) && s.targetPose.angle == 0.0) ==> !t.initParaFlag)
            && (ret == 1 && IsRotateMode(s.runningMode) && s.targetPose.angle == 0.0 ==> t == s)
            && (ret < 0 ==> t == s)
            && (ret == 0 ==> t.runningMode == s.runningMode && t.targetPose == s.targetPose)
            && (s.runningMode == StopMode ==> t == s)
            && (ret == 0 && IsRotateMode(s.runningMode) && s.targetPose.angle == 0.0 ==> false)
  {
  }

  /** One call of LoopRunning keeps the course and counts its completions. */
  lemma TickOnCourse(s: Exec, before: seq<Event>, k: Course, reply: Reply, heading: real)
    requires OnCourse(s, before, k)
    ensures Completes(s, reply) ==> k.done < k.total
    ensures OnCourse(Tick(s, reply, heading), before, if Completes(s, reply) then k.(done := k.done + 1) else k)
  {
    if s.isRunning {
      var (t, ret) := Segment(s, reply);
      SegmentKeeps(s, reply);
      if ret == 1 {
        if k.done + 1 < k.total {
          NextOnCourse(s, t, before, k, heading);
        } else {
          ClosingEvents(before, Finished(t), t);
        }
      } else if ret < 0 {
        FailedOnCourse(s, t.(events := t.events + [PathMagError(ret)]), before, k, ret);
      }
    }
  }

  /** A freshly set target is at the start of its course. */
  lemma TargetedOnCourse(s: Exec, plan: seq<SubPath>, slot: SubPath, absolute: bool, heading: real,
                         point: RunContext)
    ensures OnCourse(Targeted(s, plan, slot, absolute, heading, point), s.events, Course(0, Segments(plan), false))
  {
    var t := Targeted(s, plan, slot, absolute, heading, point);
    assert t.events[|s.events|..] == [SegmentStarted(0, false)];
    SingleEvent(SegmentStarted(0, false));
    assert InOrder(1) == [SegmentStarted(0, false)];
  }

  /** A refused line target makes the running segment the last one. */
  function CutShort(k: Course): Course
  {
    if k.done < k.total then k.(total := k.done + 1) else k
  }

  lemma RefusedOnCourse(s: Exec, before: seq<Event>, k: Course, mode: RunMode)
    requires OnCourse(s, before, k)
    ensures OnCourse(Refused(s, mode), before, CutShort(k))
  {
    SingleEvent(PathMagError(-1));
    SinceAppend(s, Refused(s, mode), before, [PathMagError(-1)]);
  }

  /** Safety over whole runs: after a target is set, whatever the segments reply, segments start in
      index order, each once and uninitialised, never more than there are; the next-path-point
      event is sent exactly when all of them have completed, and then once. */
  lemma {:induction false} RunOnCourse(s: Exec, before: seq<Event>, total: nat, inputs: seq<Input>)
    requires OnCourse(s, before, Course(0, total, false))
    ensures Completions(s, inputs) <= total
    ensures OnCourse(RunFrom(s, inputs), before, Course(Completions(s, inputs), total, false))
  {
    if inputs != [] {
      var most := inputs[..|inputs| - 1];
      var last := inputs[|inputs| - 1];
      RunOnCourse(s, before, total, most);
      TickOnCourse(RunFrom(s, most), before, Course(Completions(s, most), total, false), last.reply, last.heading);
    }
  }

  /** The announcement comes if and only if every segment has completed. */
  lemma AnnouncedExactly(s: Exec, before: seq<Event>, total: nat, inputs: seq<Input>)
    requires OnCourse(s, before, Course(0, total, false))
    ensures var t, c := RunFrom(s, inputs), Completions(s, inputs);
            && before <= t.events
            && c <= total
            && Announced(t.events[|before|..]) == (if c == total then 1 else 0)
            && (c < total ==> total - t.pathIndex == total - c > 0)
  {
    RunOnCourse(s, before, total, inputs);
  }

  // All calls -------------------------------------------------------------------------------------

  /** What is called on the executor: LoopRunning, a SetTarget that succeeds or is refused, or
      ClearTarget. */
  datatype Call =
    | Loop(reply: Reply, heading: real)
    | Set(plan: seq<SubPath>, slot: SubPath, absolute: bool, at: real, point: RunContext)
    | SetRefused(mode: RunMode)
    | Clear

  /** The executor, the events before its last successful SetTarget, and the course since. */
  datatype Watch = Watch(s: Exec, before: seq<Event>, course: Course)

  function Observe(w: Watch, call: Call): Watch
  {
    match call
    case Loop(reply, heading) =>
      w.(s := Tick(w.s, reply, heading),
         course := if Completes(w.s, reply) then w.course.(done := w.course.done + 1) else w.course)
    case Set(plan, slot, absolute, heading, point) =>
      Watch(Targeted(w.s, plan, slot, absolute, heading, point), w.s.events, Course(0, Segments(plan), false))
    case SetRefused(mode) => w.(s := Refused(w.s, mode), course := CutShort(w.course))
    case Clear => w.(s := Cleared(w.s), course := w.course.(cleared := true))
  }

  function ObserveAll(w: Watch, calls: seq<Call>): Watch
  {
    if calls == [] then w else Observe(ObserveAll(w, calls[..|calls| - 1]), calls[|calls| - 1])
  }

  /** Over runs of all calls: since the last target that was set, segments have started in order,
      each once and uninitialised, and the station has been announced exactly when the course has
      been run, to its end or to where a refused target cut it short; after ClearTarget nothing
      more happens until a target is set. */
  lemma {:induction false} CallsOnCourse(w: Watch, calls: seq<Call>)
    requires OnCourse(w.s, w.before, w.course)
    ensures var v := ObserveAll(w, calls); OnCourse(v.s, v.before, v.course)
  {
    if calls != [] {
      var v, call := ObserveAll(w, calls[..|calls| - 1]), calls[|calls| - 1];
      CallsOnCourse(w, calls[..|calls| - 1]);
      match call
      case Loop(reply, heading) => TickOnCourse(v.s, v.before, v.course, reply, heading);
      case Set(plan, slot, absolute, heading, point) => TargetedOnCourse(v.s, plan, slot, absolute, heading, point);
      case SetRefused(mode) => RefusedOnCourse(v.s, v.before, v.course, mode);
      case Clear =>
    }
  }

  /** A line target refused in the middle of a plan skips the rest of it: the running segment
      completes, no other starts, and the station of the old target is announced all the same. */
  lemma RefusalSkips(s: Exec, before: seq<Event>, k: Course, mode: RunMode, reply: Reply, heading: real)
    requires OnCourse(s, before, k) && k.done + 1 < k.total && Completes(Refused(s, mode), reply)
    ensures var t := Tick(Refused(s, mode), reply, heading);
            && before <= t.events
            && Starts(t.events[|before|..]) == InOrder(k.done + 1)
            && Announced(t.events[|before|..]) == 1
            && t.events[|t.events| - 1] == NextPathPoint(s.point.station)
  {
    RefusedOnCourse(s, before, k, mode);
    TickOnCourse(Refused(s, mode), before, CutShort(k), reply, heading);
    SegmentKeeps(Refused(s, mode), reply);
  }

  /** After ClearTarget no reply does anything. */
  lemma {:induction false} ClearedStays(s: Exec, inputs: seq<Input>)
    ensures RunFrom(Cleared(s), inputs) == Cleared(s)
  {
    if inputs != [] {
      ClearedStays(s, inputs[..|inputs| - 1]);
    }
  }

  /** A target without a plan and without a mode stalls for good: no reply ever completes it. */
  lemma {:induction false} EmptyTargetStalls(s: Exec, inputs: seq<Input>)
    requires s.runningMode == StopMode
    ensures RunFrom(s, inputs) == s && Completions(s, inputs) == 0
  {
    if inputs != [] {
      EmptyTargetStalls(s, inputs[..|inputs| - 1]);
    }
  }

  /** The lift branch of the final stop is never taken for a backward line: by the time the last
      segment has arrived the running mode is StopMode. */
  lemma ArrivedIsStopped(s: Exec, reply: Reply)
    requires Completes(s, reply)
    ensures var t := Segment(s, reply).0;
            t.runningMode != GoBackwardMode && (t.runningMode == StopMode || IsRotateMode(t.runningMode))
    ensures s.point.action == LiftUpDown ==> Halt(Segment(s, reply).0) == []
  {
  }
}
