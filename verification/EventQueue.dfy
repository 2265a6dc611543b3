/** The priority event queue as one thread sees it: the lists are pushed, popped and filtered in
    place. */
module EventQueue {
  import opened Options
  import opened EventSpec

  class EventHelper {
    var eventList: Lists

    ghost predicate Valid()
      reads this
    {
      forall p :: 0 <= p < PRIORITY_MAX ==> InLevel(eventList[p], p)
    }

    constructor ()
      ensures Valid() && eventList == NO_EVENTS
    {
      eventList := NO_EVENTS;
    }

    /** None is the null pointer. */
    method PushEvent(event: Option<Event>) returns (r: int)
      requires Valid() && (event.Some? ==> event.value.priority >= 0)
      modifies this
      ensures Valid()
      ensures r == if event == None then -1 else 0
      ensures eventList == if event == None then old(eventList) else Appended(old(eventList), Filed(event.value))
    {
      if event == None {
        return -1;
      }
      var e := event.value;
      if e.priority >= PRIORITY_MAX {
        e := e.(priority := URGENT);
      }
      eventList := eventList[e.priority := eventList[e.priority] + [e]];
      return 0;
    }

    method PopEvent() returns (r: Option<Event>)
      requires Valid()
      modifies this
      ensures Valid()
      ensures (r, eventList) == PopBelow(old(eventList), PRIORITY_MAX)
    {
      r := None;
      var i := PRIORITY_MAX - 1;
      while i >= 0
        invariant -1 <= i < PRIORITY_MAX
        invariant eventList == old(eventList) && r == None
        invariant PopBelow(eventList, PRIORITY_MAX) == PopBelow(eventList, i + 1)
      {
        if eventList[i] != [] {
          r := Some(eventList[i][0]);
          eventList := eventList[i := eventList[i][1..]];
          break;
        }
        i := i - 1;
      }
    }

    method DeleteEvent(id: int)
      requires Valid()
      modifies this
      ensures Valid()
      ensures eventList == Deleted(old(eventList), id)
    {
      var i := 0;
      while i < PRIORITY_MAX
        invariant 0 <= i <= PRIORITY_MAX
        invariant forall p :: 0 <= p < i ==> eventList[p] == Kept(old(eventList[p]), id)
        invariant forall p :: i <= p < PRIORITY_MAX ==> eventList[p] == old(eventList[p])
      {
        var all, kept, k := eventList[i], [], 0;
        while k < |all|
          invariant 0 <= k <= |all| && kept == Kept(all[..k], id)
        {
          assert all[..k + 1][..k] == all[..k];
          if all[k].event != id {
            kept := kept + [all[k]];
          }
          k := k + 1;
        }
        assert all[..k] == all;
        eventList := eventList[i := kept];
        i := i + 1;
      }
      forall p | 0 <= p < PRIORITY_MAX
        ensures InLevel(eventList[p], p)
      {
        KeptInLevel(old(eventList[p]), id, p);
      }
    }

    method ClearAll()
      modifies this
      ensures Valid() && eventList == NO_EVENTS
    {
      eventList := [[], [], []];
    }
  }

  lemma {:induction false} KeptInLevel(events: seq<Event>, id: int, p: int)
    requires InLevel(events, p)
    ensures InLevel(Kept(events, id), p)
    ensures forall k :: 0 <= k < |Kept(events, id)| ==> Kept(events, id)[k].event != id
  {
    if events != [] {
      KeptInLevel(events[..|events| - 1], id, p);
    }
  }

  lemma PopCases(l: Lists)
    ensures PopBelow(l, PRIORITY_MAX) ==
              if l[2] != [] then (Some(l[2][0]), WithoutHead(l, 2))
              else if l[1] != [] then (Some(l[1][0]), WithoutHead(l, 1))
              else if l[0] != [] then (Some(l[0][0]), WithoutHead(l, 0))
              else (None, l)
  {
    assert PopBelow(l, 1) == if l[0] != [] then (Some(l[0][0]), WithoutHead(l, 0)) else PopBelow(l, 0);
    assert PopBelow(l, 2) == if l[1] != [] then (Some(l[1][0]), WithoutHead(l, 1)) else PopBelow(l, 1);
  }

  /** What a run of pops takes from lists nobody pushes to: every event, by falling priority and in
      order of arrival within one. */
  function Drained(l: Lists): seq<Event>
    decreases |l[0]| + |l[1]| + |l[2]|
  {
    PopCases(l);
    var (r, rest) := PopBelow(l, PRIORITY_MAX);
    if r == None then [] else [r.value] + Drained(rest)
  }

  lemma {:induction false} DrainsByPriority(l: Lists)
    ensures Drained(l) == l[2] + l[1] + l[0]
    decreases |l[0]| + |l[1]| + |l[2]|
  {
    PopCases(l);
    var (r, rest) := PopBelow(l, PRIORITY_MAX);
    if r != None {
      DrainsByPriority(rest);
      if l[2] != [] {
        assert l[2] == [l[2][0]] + rest[2];
      } else if l[1] != [] {
        assert l[1] == [l[1][0]] + rest[1];
      } else {
        assert l[0] == [l[0][0]] + rest[0];
      }
    }
  }
}
