/** The priority event lists of event/AgvEventHelper.cpp, and the interleaving of any number of
    producers with the one consumer that looks at the lists without the lock. */
module EventSpec {
  import opened Options

  const PRIORITY_MAX := 3
  const URGENT := 2

  datatype Event = Event(event: int, name: string, param: int, priority: int)

  /** eventList: one list per priority. */
  type Lists = l: seq<seq<Event>> | |l| == PRIORITY_MAX witness [[], [], []]

  const NO_EVENTS: Lists := [[], [], []]

  /** PushEvent: what is above the highest priority counts as urgent. */
  function Filed(e: Event): Event
  {
    if e.priority >= PRIORITY_MAX then e.(priority := URGENT) else e
  }

  function Appended(l: Lists, e: Event): Lists
    requires 0 <= e.priority < PRIORITY_MAX
  {
    l[e.priority := l[e.priority] + [e]]
  }

  function WithoutHead(l: Lists, i: nat): Lists
    requires i < PRIORITY_MAX && l[i] != []
  {
    l[i := l[i][1..]]
  }

  /** PopEvent without interference: the head of the highest list below n that is not empty. */
  function PopBelow(l: Lists, n: nat): (r: (Option<Event>, Lists))
    requires n <= PRIORITY_MAX
  {
    if n == 0 then (None, l)
    else if l[n - 1] != [] then (Some(l[n - 1][0]), WithoutHead(l, n - 1))
    else PopBelow(l, n - 1)
  }

  function Kept(events: seq<Event>, id: int): seq<Event>
  {
    if events == [] then []
    else
      var rest := Kept(events[..|events| - 1], id);
      var e := events[|events| - 1];
      if e.event == id then rest else rest + [e]
  }

  /** DeleteEvent. */
  function Deleted(l: Lists, id: int): Lists
  {
    [Kept(l[0], id), Kept(l[1], id), Kept(l[2], id)]
  }

  // The interleaving ----------------------------------------------------------------------------

  /** Where the consumer is: outside PopEvent, about to test list i for emptiness without the
      lock, about to take the head of list i under it, or past taking from an empty list. */
  datatype Pc = Idle | Scanning(at: int) | Popping(i: nat) | Broken

  datatype State = State(
    lists: Lists, pc: Pc, returned: Option<Event>,
    snapshot: Lists,                // the lists when the scan began
    pushed: Lists, popped: Lists)   // everything ever filed and taken, per priority

  datatype Step = Produce(event: Event) | Consume | Delete(id: int)

  const START := State(NO_EVENTS, Idle, None, NO_EVENTS, NO_EVENTS, NO_EVENTS)

  predicate Known(step: Step)
  {
    step.Produce? ==> step.event.priority >= 0
  }

  /** One atomic step of a producer, of the consumer, or of a thread that deletes events. */
  function Apply(s: State, step: Step): State
    requires Known(step)
  {
    match step
    case Produce(e) =>
      s.(lists := Appended(s.lists, Filed(e)), pushed := Appended(s.pushed, Filed(e)))
    case Delete(id) => s.(lists := Deleted(s.lists, id))
    case Consume =>
      match s.pc
      case Idle => s.(pc := Scanning(PRIORITY_MAX - 1), snapshot := s.lists)
      case Scanning(i) =>
        if i < 0 || i >= PRIORITY_MAX then s.(pc := Idle, returned := None)
        else if s.lists[i] != [] then s.(pc := Popping(i))
        else s.(pc := Scanning(i - 1))
      case Popping(i) =>
        if i >= PRIORITY_MAX || s.lists[i] == [] then s.(pc := Broken)
        else
          s.(pc := Idle, returned := Some(s.lists[i][0]), lists := WithoutHead(s.lists, i),
             popped := s.popped[i := s.popped[i] + [s.lists[i][0]]])
      case Broken => s
  }

  function Run(steps: seq<Step>): State
    requires forall k :: 0 <= k < |steps| ==> Known(steps[k])
  {
    if steps == [] then START else Apply(Run(steps[..|steps| - 1]), steps[|steps| - 1])
  }

  predicate InLevel(events: seq<Event>, p: int)
  {
    forall k :: 0 <= k < |events| ==> events[k].priority == p
  }

  /** What every step without deletion keeps: each event is filed under its priority; per priority
      what was pushed is what was popped followed by what is pending; during a scan everything
      that was pending when it began still is, and the lists already passed were empty then. */
  ghost predicate Invariant(s: State)
  {
    && (forall p :: 0 <= p < PRIORITY_MAX ==> InLevel(s.lists[p], p))
    && (forall p :: 0 <= p < PRIORITY_MAX ==> s.pushed[p] == s.popped[p] + s.lists[p])
    && match s.pc
       case Idle => true
       case Scanning(i) =>
         && -1 <= i < PRIORITY_MAX
         && (forall p :: 0 <= p < PRIORITY_MAX ==> s.snapshot[p] <= s.lists[p])
         && (forall p :: i < p < PRIORITY_MAX ==> s.snapshot[p] == [])
       case Popping(i) =>
         && i < PRIORITY_MAX && s.lists[i] != []
         && (forall p :: 0 <= p < PRIORITY_MAX ==> s.snapshot[p] <= s.lists[p])
         && (forall p :: i < p < PRIORITY_MAX ==> s.snapshot[p] == [])
       case Broken => false
  }

  lemma ProduceKeeps(s: State, e: Event)
    requires Invariant(s) && e.priority >= 0
    ensures Invariant(Apply(s, Produce(e)))
  {
  }

  lemma ConsumeKeeps(s: State)
    requires Invariant(s)
    ensures Invariant(Apply(s, Consume))
  {
    if s.pc.Popping? {
      var i := s.pc.i;
      assert s.popped[i] + s.lists[i] == (s.popped[i] + [s.lists[i][0]]) + s.lists[i][1..];
    }
  }

  /** In every run of any producers and the one consumer the locked pop never meets an empty list,
      although emptiness is tested without the lock, and nothing is lost, duplicated or reordered
      within a priority. */
  lemma {:induction false} RunKeeps(steps: seq<Step>)
    requires forall k :: 0 <= k < |steps| ==> Known(steps[k]) && !steps[k].Delete?
    ensures Invariant(Run(steps)) && Run(steps).pc != Broken
  {
    if steps != [] {
      var most, last := steps[..|steps| - 1], steps[|steps| - 1];
      RunKeeps(most);
      if last.Produce? {
        ProduceKeeps(Run(most), last.event);
      } else {
        ConsumeKeeps(Run(most));
      }
    }
  }

  /** What a pop returns: an event of at least the priority of every event that was pending when
      the scan began, and the oldest of them if there was one of its own priority. */
  lemma PopIsHighest(s: State)
    requires Invariant(s) && s.pc.Popping?
    ensures var t := Apply(s, Consume);
            && t.pc == Idle && t.returned.Some?
            && (forall p, k :: 0 <= p < PRIORITY_MAX && 0 <= k < |s.snapshot[p]| ==>
                  s.snapshot[p][k].priority <= t.returned.value.priority)
            && var q := t.returned.value.priority;
               0 <= q < PRIORITY_MAX && (s.snapshot[q] != [] ==> t.returned.value == s.snapshot[q][0])
               && t.popped[q] == s.popped[q] + [t.returned.value]
  {
  }

  /** No event is returned only if none was pending when the scan began. */
  lemma NoneMeansEmpty(s: State)
    requires Invariant(s) && s.pc.Scanning? && Apply(s, Consume).pc == Idle
    ensures Apply(s, Consume).returned == None && s.snapshot == NO_EVENTS
  {
  }

  /** How many consumer steps a call of PopEvent has left. */
  function Remaining(pc: Pc): nat
  {
    match pc
    case Idle => 0
    case Scanning(i) => if i < 0 then 1 else i + 2
    case Popping(_) => 1
    case Broken => 0
  }

  /** A call ends after five consumer steps at most, however many events are pushed meanwhile. */
  lemma ScanEnds(s: State, e: Event)
    requires Invariant(s) && e.priority >= 0
    ensures s.pc != Idle ==> Remaining(Apply(s, Consume).pc) < Remaining(s.pc)
    ensures s.pc == Idle ==> Remaining(Apply(s, Consume).pc) == 4
    ensures Remaining(Apply(s, Produce(e)).pc) == Remaining(s.pc)
  {
  }

  // Alone ---------------------------------------------------------------------------------------

  /** The consumer runs to the end of its call with nothing in between. */
  function Alone(s: State): State
    requires Invariant(s)
    decreases Remaining(s.pc)
  {
    if s.pc == Idle then s
    else
      ConsumeKeeps(s);
      ScanEnds(s, Event(0, "", 0, 0));
      Alone(Apply(s, Consume))
  }

  lemma {:induction false} AloneScans(s: State)
    requires Invariant(s) && s.pc.Scanning?
    ensures var t := Alone(s); (t.returned, t.lists) == PopBelow(s.lists, s.pc.at + 1)
    decreases Remaining(s.pc)
  {
    var t := Apply(s, Consume);
    ConsumeKeeps(s);
    ScanEnds(s, Event(0, "", 0, 0));
    if t.pc.Scanning? {
      AloneScans(t);
    } else if t.pc.Popping? {
      ConsumeKeeps(t);
      assert Alone(t) == Apply(t, Consume);
    }
  }

  /** Without interference a call is the plain PopEvent. */
  lemma AloneIsPop(s: State)
    requires Invariant(s) && s.pc == Idle
    ensures Invariant(Apply(s, Consume))
    ensures var t := Alone(Apply(s, Consume)); (t.returned, t.lists) == PopBelow(s.lists, PRIORITY_MAX)
  {
    ConsumeKeeps(s);
    AloneScans(Apply(s, Consume));
  }

  // Deletion ------------------------------------------------------------------------------------

  lemma {:induction false} KeptEmpty(events: seq<Event>, id: int)
    ensures Kept(events, id) == [] <==> forall k :: 0 <= k < |events| ==> events[k].event == id
  {
    if events != [] {
      var most := events[..|events| - 1];
      KeptEmpty(most, id);
      assert forall k :: 0 <= k < |most| ==> most[k] == events[k];
    }
  }

  /** A deletion between the test and the pop breaks the pop if and only if every event of the
      list that was tested is deleted. */
  lemma DeleteBreaksPop(s: State, id: int)
    requires Invariant(s) && s.pc.Popping?
    ensures Apply(Apply(s, Delete(id)), Consume).pc == Broken <==>
              forall k :: 0 <= k < |s.lists[s.pc.i]| ==> s.lists[s.pc.i][k].event == id
  {
    KeptEmpty(s.lists[s.pc.i], id);
  }

  /** A run with a deletion that breaks: push, begin, test, delete, pop. */
  lemma DeletionCanBreak()
    ensures var e := Event(7, "", 0, URGENT);
            Run([Produce(e), Consume, Consume, Delete(7), Consume]).pc == Broken
  {
    var e := Event(7, "", 0, URGENT);
    assert [Produce(e)][..0] == [];
    var s1 := Apply(START, Produce(e));
    assert Run([Produce(e)]) == s1;
    var two, three := [Produce(e), Consume], [Produce(e), Consume, Consume];
    var four, five := three + [Delete(7)], three + [Delete(7), Consume];
    RunStep([Produce(e)], Consume);
    RunStep(two, Consume);
    RunStep(three, Delete(7));
    RunStep(four, Consume);
    assert [Produce(e)] + [Consume] == two && two + [Consume] == three && four + [Consume] == five;
    assert five == [Produce(e), Consume, Consume, Delete(7), Consume];
    var s3 := Apply(Apply(s1, Consume), Consume);
    assert s3.lists[URGENT] == [e] && s3.pc == Popping(URGENT);
    KeptEmpty([e], 7);
  }

  lemma RunStep(steps: seq<Step>, step: Step)
    requires Known(step) && forall k :: 0 <= k < |steps| ==> Known(steps[k])
    ensures Run(steps + [step]) == Apply(Run(steps), step)
  {
  }

  predicate AllKnown(steps: seq<Step>)
  {
    forall k :: 0 <= k < |steps| ==> Known(steps[k])
  }

  /** Step j deletes every event of the tested list i before it is popped, and up to step n nothing
      is filed in that list and the consumer takes no step. */
  ghost predicate EmptiedAt(steps: seq<Step>, i: nat, j: int, n: int)
    requires AllKnown(steps)
  {
    && 0 <= j < n <= |steps| && i < PRIORITY_MAX
    && steps[j].Delete? && Run(steps[..j]).pc == Popping(i)
    && (forall k :: 0 <= k < |Run(steps[..j]).lists[i]| ==> Run(steps[..j]).lists[i][k].event == steps[j].id)
    && forall m :: j < m < n ==> Leaves(steps[m], i)
  }

  predicate Leaves(step: Step, i: nat)
  {
    step.Delete? || (step.Produce? && Filed(step.event).priority != i)
  }

  ghost predicate EmptiedBefore(steps: seq<Step>, i: nat, n: int)
    requires AllKnown(steps)
  {
    exists j :: EmptiedAt(steps, i, j, n)
  }

  lemma EmptiedStep(steps: seq<Step>, i: nat, n: int, next: int)
    requires AllKnown(steps) && 0 <= n < |steps| && next == n + 1
    ensures EmptiedBefore(steps, i, next) <==>
              EmptiedAt(steps, i, n, next) || (EmptiedBefore(steps, i, n) && Leaves(steps[n], i))
  {
    if EmptiedBefore(steps, i, n) && Leaves(steps[n], i) {
      var j :| EmptiedAt(steps, i, j, n);
      assert EmptiedAt(steps, i, j, next);
    }
    if EmptiedBefore(steps, i, next) {
      var j :| EmptiedAt(steps, i, j, next);
      if j < n {
        assert EmptiedAt(steps, i, j, n);
      }
    }
  }

  /** The consumer is about to pop an empty list exactly when it has been emptied like that. */
  lemma {:induction false} EmptyWindow(steps: seq<Step>, i: nat, n: nat)
    requires AllKnown(steps) && i < PRIORITY_MAX && n <= |steps|
    ensures Run(steps[..n]).pc == Popping(i) && Run(steps[..n]).lists[i] == [] <==> EmptiedBefore(steps, i, n)
  {
    if n > 0 {
      assert steps[..n][..n - 1] == steps[..n - 1];
      EmptyWindow(steps, i, n - 1);
      EmptiedStep(steps, i, n - 1, n);
      WindowStep(Run(steps[..n - 1]), steps[n - 1], i);
    }
  }

  lemma WindowStep(s: State, step: Step, i: nat)
    requires Known(step) && i < PRIORITY_MAX
    ensures Apply(s, step).pc == Popping(i) && Apply(s, step).lists[i] == [] <==>
              s.pc == Popping(i) &&
              ((s.lists[i] == [] && Leaves(step, i))
               || (step.Delete? && forall k :: 0 <= k < |s.lists[i]| ==> s.lists[i][k].event == step.id))
  {
    if step.Delete? {
      KeptEmpty(s.lists[i], step.id);
    }
  }

  /** Step k pops the list i that a deletion has emptied behind the test. */
  ghost predicate BreaksAt(steps: seq<Step>, i: nat, k: int)
    requires AllKnown(steps)
  {
    0 <= k < |steps| && steps[k] == Consume && EmptiedBefore(steps, i, k)
  }

  lemma {:induction false} PcInRange(steps: seq<Step>)
    requires AllKnown(steps)
    ensures match Run(steps).pc
            case Scanning(i) => -1 <= i < PRIORITY_MAX
            case Popping(i) => i < PRIORITY_MAX
            case Idle => true
            case Broken => true
  {
    if steps != [] {
      PcInRange(steps[..|steps| - 1]);
    }
  }

  /** A run breaks if and only if some deletion between test and pop empties the tested list and
      nothing is filed there again before the pop. */
  lemma BreaksExactly(steps: seq<Step>)
    requires AllKnown(steps)
    ensures Run(steps).pc == Broken <==> exists i, k :: BreaksAt(steps, i, k)
  {
    BreaksBy(steps, |steps|);
    assert steps[..|steps|] == steps;
  }

  ghost predicate BrokenBefore(steps: seq<Step>, n: int)
    requires AllKnown(steps)
  {
    exists i, k :: k < n && BreaksAt(steps, i, k)
  }

  lemma {:induction false} BreaksBy(steps: seq<Step>, n: nat)
    requires AllKnown(steps) && n <= |steps|
    ensures Run(steps[..n]).pc == Broken <==> BrokenBefore(steps, n)
  {
    if n > 0 {
      assert steps[..n][..n - 1] == steps[..n - 1];
      BreaksBy(steps, n - 1);
      BreakStep(steps, n - 1, n);
      var s := Run(steps[..n - 1]);
      PcInRange(steps[..n - 1]);
      forall i: nat | i < PRIORITY_MAX
        ensures s.pc == Popping(i) && s.lists[i] == [] <==> EmptiedBefore(steps, i, n - 1)
      {
        EmptyWindow(steps, i, n - 1);
      }
    }
  }

  lemma BreakStep(steps: seq<Step>, n: int, next: int)
    requires AllKnown(steps) && 0 <= n < |steps| && next == n + 1
    ensures BrokenBefore(steps, next) <==>
              BrokenBefore(steps, n) || (steps[n] == Consume && exists i: nat :: EmptiedBefore(steps, i, n))
  {
    if BrokenBefore(steps, n) {
      var i, k :| k < n && BreaksAt(steps, i, k);
      assert k < next;
    } else if steps[n] == Consume && exists i: nat :: EmptiedBefore(steps, i, n) {
      var i: nat :| EmptiedBefore(steps, i, n);
      assert BreaksAt(steps, i, n);
    }
    if BrokenBefore(steps, next) {
      var i, k :| k < next && BreaksAt(steps, i, k);
      if k < n {
        assert BrokenBefore(steps, n);
      }
    }
  }
}
