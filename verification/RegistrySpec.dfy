/** The caller registry of comm/AgvSocketServer.cpp as a state machine: which connection serves
    which caller id. */
module RegistrySpec {
  import opened Options
  import opened Bytes

  datatype Conn = Conn(fd: int, id: int)

  /** allConnInfo, the open client connections (active_fd_set), and whether the server loop runs. */
  datatype Registry = Registry(conns: seq<Conn>, active: set<int>, running: bool)

  /** A pass of the server loop meets a new connection, or a readable one: with the bytes read, or
      nothing when the peer has gone. */
  datatype Event = Accept(fd: int) | Readable(fd: int, bytes: seq<byte>)

  const START := Registry([], {}, true)

  function Without(conns: seq<Conn>, k: nat): seq<Conn>
    requires k < |conns|
  {
    conns[..k] + conns[k + 1..]
  }

  /** The first entry of a connection; |conns| if there is none. */
  function IndexOfFd(conns: seq<Conn>, fd: int): (k: nat)
    ensures k <= |conns| && (k < |conns| ==> conns[k].fd == fd)
    ensures forall j :: 0 <= j < k ==> conns[j].fd != fd
  {
    if conns == [] || conns[0].fd == fd then 0 else 1 + IndexOfFd(conns[1..], fd)
  }

  /** The first entry of a caller; |conns| if there is none. */
  function IndexOfId(conns: seq<Conn>, id: int): (k: nat)
    ensures k <= |conns| && (k < |conns| ==> conns[k].id == id)
    ensures forall j :: 0 <= j < k ==> conns[j].id != id
  {
    if conns == [] || conns[0].id == id then 0 else 1 + IndexOfId(conns[1..], id)
  }

  /** GetCallerIdBasedOnFd. */
  function CallerOf(conns: seq<Conn>, fd: int): Option<int>
  {
    var k := IndexOfFd(conns, fd);
    if k < |conns| then Some(conns[k].id) else None
  }

  /** The lookup of ServerWriteToOneConnection. */
  function ConnectionOf(conns: seq<Conn>, id: int): Option<int>
  {
    var k := IndexOfId(conns, id);
    if k < |conns| then Some(conns[k].fd) else None
  }

  /** The scan of a keep-alive from entry k on: an entry of the same caller on another connection
      ends it; known says whether the very entry has been seen before that. */
  function Takeover(conns: seq<Conn>, fd: int, id: int, k: nat, known: bool): (r: (nat, bool))
    requires k <= |conns|
    ensures k <= r.0 <= |conns|
    ensures r.0 < |conns| ==> conns[r.0].id == id && conns[r.0].fd != fd
    decreases |conns| - k
  {
    if k == |conns| then (k, known)
    else if conns[k].id != id then Takeover(conns, fd, id, k + 1, known)
    else if conns[k].fd != fd then (k, known)
    else Takeover(conns, fd, id, k + 1, true)
  }

  /** processClentsKeepAliveData. */
  function Announce(s: Registry, fd: int, id: int): Registry
  {
    var (k, known) := Takeover(s.conns, fd, id, 0, false);
    var t := if k == |s.conns| then s
             else s.(conns := Without(s.conns, k), active := s.active - {s.conns[k].fd});
    if known then t else t.(conns := t.conns + [Conn(fd, id)])
  }

  /** The disconnect branch: closing a connection that is not open ends the server loop. */
  function Disconnect(s: Registry, fd: int): Registry
  {
    if fd !in s.active then s.(running := false)
    else
      var k := IndexOfFd(s.conns, fd);
      s.(active := s.active - {fd}, conns := if k < |s.conns| then Without(s.conns, k) else s.conns)
  }

  function Id(bytes: seq<byte>): int
    requires |bytes| == 2
  {
    bytes[0] as int * 256 + bytes[1]
  }

  function Handle(s: Registry, e: Event): Registry
  {
    if !s.running then s
    else
      match e
      case Accept(fd) => s.(active := s.active + {fd})
      case Readable(fd, bytes) =>
        if fd !in s.active || bytes == [] then Disconnect(s, fd)
        else if |bytes| == 2 then Announce(s, fd, Id(bytes))
        else s
  }

  function Run(events: seq<Event>): Registry
  {
    if events == [] then START else Handle(Run(events[..|events| - 1]), events[|events| - 1])
  }

  // Caller ids ----------------------------------------------------------------------------------

  predicate UniqueIds(conns: seq<Conn>)
  {
    forall i, j :: 0 <= i < j < |conns| ==> conns[i].id != conns[j].id
  }

  predicate UniqueFds(conns: seq<Conn>)
  {
    forall i, j :: 0 <= i < j < |conns| ==> conns[i].fd != conns[j].fd
  }

  /** With unique ids the scan stops at the caller's entry, if that is on another connection. */
  lemma {:induction false} TakeoverSpec(conns: seq<Conn>, fd: int, id: int, k: nat)
    requires UniqueIds(conns) && k <= |conns|
    requires forall j :: 0 <= j < k ==> conns[j].id != id
    ensures var i := IndexOfId(conns, id);
            Takeover(conns, fd, id, k, false) ==
              if i < |conns| && conns[i].fd != fd then (i, false) else (|conns|, i < |conns|)
    decreases |conns| - k
  {
    if k < |conns| {
      if conns[k].id != id {
        TakeoverSpec(conns, fd, id, k + 1);
      } else if conns[k].fd == fd {
        NoTakeover(conns, fd, id, k + 1);
      }
    }
  }

  lemma {:induction false} NoTakeover(conns: seq<Conn>, fd: int, id: int, k: nat)
    requires k <= |conns| && forall j :: k <= j < |conns| ==> conns[j].id != id
    ensures Takeover(conns, fd, id, k, true) == (|conns|, true)
    decreases |conns| - k
  {
    if k < |conns| {
      NoTakeover(conns, fd, id, k + 1);
    }
  }

  lemma WithoutKeeps(conns: seq<Conn>, k: nat)
    requires k < |conns|
    ensures forall j :: 0 <= j < |Without(conns, k)| ==>
              Without(conns, k)[j] == if j < k then conns[j] else conns[j + 1]
    ensures UniqueIds(conns) ==> UniqueIds(Without(conns, k))
    ensures UniqueFds(conns) ==> UniqueFds(Without(conns, k))
  {
    var w := Without(conns, k);
    assert |w| == |conns| - 1;
    forall j | 0 <= j < |w|
      ensures w[j] == if j < k then conns[j] else conns[j + 1]
    {
      assert j >= k ==> w[j] == conns[k + 1..][j - k];
    }
  }

  /** The connections after a keep-alive: the caller's entry, if it was on another connection, is
      gone, and the new one is behind the others. */
  lemma AnnounceSpec(s: Registry, fd: int, id: int)
    requires UniqueIds(s.conns)
    ensures var t, i := Announce(s, fd, id), IndexOfId(s.conns, id);
            if i == |s.conns| then t == s.(conns := s.conns + [Conn(fd, id)])
            else if s.conns[i].fd == fd then t == s
            else t == s.(conns := Without(s.conns, i) + [Conn(fd, id)], active := s.active - {s.conns[i].fd})
  {
    TakeoverSpec(s.conns, fd, id, 0);
  }

  lemma AnnounceUnique(s: Registry, fd: int, id: int)
    requires UniqueIds(s.conns)
    ensures UniqueIds(Announce(s, fd, id).conns)
  {
    AnnounceSpec(s, fd, id);
    var i := IndexOfId(s.conns, id);
    if i < |s.conns| {
      WithoutKeeps(s.conns, i);
    }
  }

  /** In every reachable state each caller id occurs at most once, whatever the clients send. */
  lemma {:induction false} IdsStayUnique(events: seq<Event>)
    ensures UniqueIds(Run(events).conns)
  {
    if events != [] {
      var most, e := events[..|events| - 1], events[|events| - 1];
      IdsStayUnique(most);
      var s := Run(most);
      if e.Readable? && s.running {
        if e.fd !in s.active || e.bytes == [] {
          var k := IndexOfFd(s.conns, e.fd);
          if k < |s.conns| {
            WithoutKeeps(s.conns, k);
          }
        } else if |e.bytes| == 2 {
          AnnounceUnique(s, e.fd, Id(e.bytes));
        }
      }
    }
  }

  /** An id is looked up at the index where it is. */
  lemma LookupAt(conns: seq<Conn>, k: nat)
    requires UniqueIds(conns) && k < |conns|
    ensures IndexOfId(conns, conns[k].id) == k && ConnectionOf(conns, conns[k].id) == Some(conns[k].fd)
  {
  }

  /** Lookups of other callers do not see an entry added or removed. */
  lemma LookupElsewhere(conns: seq<Conn>, more: seq<Conn>, id: int)
    requires UniqueIds(conns) && UniqueIds(more)
    requires forall c: Conn :: c.id == id ==> (c in conns <==> c in more)
    ensures ConnectionOf(conns, id) == ConnectionOf(more, id)
  {
  }

  lemma WithoutMembers(conns: seq<Conn>, k: nat, c: Conn)
    requires UniqueIds(conns) && k < |conns| && c.id != conns[k].id
    ensures c in conns <==> c in Without(conns, k)
  {
  }

  /** A keep-alive binds its id to the newest connection and leaves every other id where it was. */
  lemma KeepAliveBinds(s: Registry, fd: int, id: int, other: int)
    requires UniqueIds(s.conns)
    ensures ConnectionOf(Announce(s, fd, id).conns, id) == Some(fd)
    ensures other != id ==> ConnectionOf(Announce(s, fd, id).conns, other) == ConnectionOf(s.conns, other)
  {
    var t, i := Announce(s, fd, id), IndexOfId(s.conns, id);
    AnnounceSpec(s, fd, id);
    AnnounceUnique(s, fd, id);
    if !(i < |s.conns| && s.conns[i].fd == fd) {
      LookupAt(t.conns, |t.conns| - 1);
    } else {
      LookupAt(t.conns, i);
    }
    if other != id {
      forall c: Conn | c.id == other
        ensures c in s.conns <==> c in t.conns
      {
        if i < |s.conns| {
          WithoutMembers(s.conns, i, c);
        }
      }
      LookupElsewhere(s.conns, t.conns, other);
    }
  }

  // One id per connection -----------------------------------------------------------------------

  /** Every entry is an open connection of its own. */
  ghost predicate Faithful(s: Registry)
  {
    UniqueIds(s.conns) && UniqueFds(s.conns) && forall k :: 0 <= k < |s.conns| ==> s.conns[k].fd in s.active
  }

  /** An entry of a connection that has none yet goes behind the others. */
  lemma EntryAdded(conns: seq<Conn>, active: set<int>, c: Conn)
    requires UniqueFds(conns) && c.fd in active
    requires forall k :: 0 <= k < |conns| ==> conns[k].fd in active && conns[k].fd != c.fd
    ensures UniqueFds(conns + [c])
    ensures forall k :: 0 <= k < |conns + [c]| ==> (conns + [c])[k].fd in active
  {
  }

  /** The other entries stay open when the connection of one of them is closed. */
  lemma EntryRemoved(conns: seq<Conn>, active: set<int>, i: nat)
    requires UniqueFds(conns) && i < |conns|
    requires forall k :: 0 <= k < |conns| ==> conns[k].fd in active
    ensures var w := Without(conns, i);
            UniqueFds(w) && forall k :: 0 <= k < |w| ==>
              w[k].fd in active - {conns[i].fd} && exists j :: 0 <= j < |conns| && j != i && w[k] == conns[j]
  {
    WithoutKeeps(conns, i);
    var w := Without(conns, i);
    forall k | 0 <= k < |w|
      ensures w[k].fd in active - {conns[i].fd} && exists j :: 0 <= j < |conns| && j != i && w[k] == conns[j]
    {
      var j := if k < i then k else k + 1;
      assert w[k] == conns[j];
    }
  }

  lemma StaysFaithful(s: Registry, fd: int, id: int)
    requires Faithful(s) && fd in s.active
    requires forall k :: 0 <= k < |s.conns| && s.conns[k].fd == fd ==> s.conns[k].id == id
    ensures Faithful(Announce(s, fd, id))
  {
    AnnounceSpec(s, fd, id);
    AnnounceUnique(s, fd, id);
    var i := IndexOfId(s.conns, id);
    if i == |s.conns| {
      EntryAdded(s.conns, s.active, Conn(fd, id));
    } else if s.conns[i].fd != fd {
      EntryRemoved(s.conns, s.active, i);
      EntryAdded(Without(s.conns, i), s.active - {s.conns[i].fd}, Conn(fd, id));
    }
  }

  /** A keep-alive keeps the registry faithful if and only if the connection has no other id yet. */
  lemma AnnounceFaithful(s: Registry, fd: int, id: int)
    requires Faithful(s) && fd in s.active
    ensures Faithful(Announce(s, fd, id)) <==> CallerOf(s.conns, fd) in {None, Some(id)}
  {
    var k := IndexOfFd(s.conns, fd);
    if k < |s.conns| && s.conns[k].id != id {
      SecondEntry(s, Announce(s, fd, id), fd, id, k, IndexOfId(s.conns, id));
    } else {
      StaysFaithful(s, fd, id);
    }
  }

  lemma SecondEntry(s: Registry, t: Registry, fd: int, id: int, k: nat, i: nat)
    requires Faithful(s) && k < |s.conns| && s.conns[k] == Conn(fd, s.conns[k].id) && s.conns[k].id != id
    requires t == Announce(s, fd, id) && i == IndexOfId(s.conns, id)
    ensures !UniqueFds(t.conns)
  {
    AnnounceSpec(s, fd, id);
    var last := |t.conns| - 1;
    if i == |s.conns| {
      assert t.conns[k].fd == t.conns[last].fd;
    } else {
      assert k != i;
      WithoutKeeps(s.conns, i);
      var j := if k < i then k else k - 1;
      assert Without(s.conns, i)[j] == s.conns[k];
      assert t.conns[j].fd == t.conns[last].fd;
    }
  }

  lemma DisconnectFaithful(s: Registry, fd: int)
    requires Faithful(s)
    ensures Faithful(Disconnect(s, fd))
  {
    var k := IndexOfFd(s.conns, fd);
    if k < |s.conns| {
      WithoutKeeps(s.conns, k);
    }
  }

  /** In a faithful registry the two lookups are inverse to each other. */
  lemma LookupsInverse(s: Registry, fd: int, id: int)
    requires Faithful(s)
    ensures ConnectionOf(s.conns, id) == Some(fd) <==> CallerOf(s.conns, fd) == Some(id)
    ensures ConnectionOf(s.conns, id) == Some(fd) ==> fd in s.active
  {
  }

  lemma RunSnoc(events: seq<Event>, e: Event)
    ensures Run(events + [e]) == Handle(Run(events), e)
  {
    assert (events + [e])[..|events|] == events;
  }

  /** What the two keep-alives and the disconnect of one connection do. */
  lemma IdOne(fd: int)
    ensures Handle(Registry([], {fd}, true), Readable(fd, [0, 1])) == Registry([Conn(fd, 1)], {fd}, true)
  {
    AnnounceSpec(Registry([], {fd}, true), fd, 1);
  }

  lemma IdTwo(fd: int)
    ensures Handle(Registry([Conn(fd, 1)], {fd}, true), Readable(fd, [0, 2]))
         == Registry([Conn(fd, 1), Conn(fd, 2)], {fd}, true)
  {
    AnnounceSpec(Registry([Conn(fd, 1)], {fd}, true), fd, 2);
  }

  lemma IdOneGoes(fd: int)
    ensures Handle(Registry([Conn(fd, 1), Conn(fd, 2)], {fd}, true), Readable(fd, []))
         == Registry([Conn(fd, 2)], {}, true)
  {
    assert Without([Conn(fd, 1), Conn(fd, 2)], 0) == [Conn(fd, 2)];
  }

  lemma TwoIdsRun(fd: int)
    ensures Run([Accept(fd), Readable(fd, [0, 1]), Readable(fd, [0, 2]), Readable(fd, [])])
         == Registry([Conn(fd, 2)], {}, true)
  {
    IdOne(fd);
    IdTwo(fd);
    IdOneGoes(fd);
    var one := [Accept(fd)];
    var two := one + [Readable(fd, [0, 1])];
    var three := two + [Readable(fd, [0, 2])];
    RunSnoc([], Accept(fd));
    assert [] + one == one;
    RunSnoc(one, Readable(fd, [0, 1]));
    RunSnoc(two, Readable(fd, [0, 2]));
    RunSnoc(three, Readable(fd, []));
    assert three + [Readable(fd, [])]
        == [Accept(fd), Readable(fd, [0, 1]), Readable(fd, [0, 2]), Readable(fd, [])];
  }

  /** A connection that announces two ids and goes leaves the second one behind, and it then
      belongs to whoever is given the descriptor next. */
  lemma TwoIdsGoStale(fd: int)
    ensures var gone := Run([Accept(fd), Readable(fd, [0, 1]), Readable(fd, [0, 2]), Readable(fd, [])]);
            && ConnectionOf(gone.conns, 2) == Some(fd) && fd !in gone.active
            && ConnectionOf(Handle(gone, Accept(fd)).conns, 2) == Some(fd)
            && fd in Handle(gone, Accept(fd)).active
  {
    TwoIdsRun(fd);
  }
}
