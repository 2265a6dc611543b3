/** Runs of the caller registry: when its entries stay distinct open connections, and when a pass
    over the ready connections ends the server loop. */
module RegistryRuns {
  import opened Options
  import opened RegistrySpec

  /** What can happen next: the loop runs, the system hands out descriptors that are not open, and
      data arrives on open connections only. */
  predicate CanHappen(s: Registry, e: Event)
  {
    && s.running
    && match e
       case Accept(fd) => fd !in s.active
       case Readable(fd, bytes) => bytes != [] ==> fd in s.active
  }

  predicate Possible(events: seq<Event>)
  {
    events == []
    || (Possible(events[..|events| - 1]) && CanHappen(Run(events[..|events| - 1]), events[|events| - 1]))
  }

  predicate IsKeepAlive(e: Event)
  {
    e.Readable? && |e.bytes| == 2
  }

  /** The id a descriptor announced last since it was last handed out. */
  function LastId(events: seq<Event>, fd: int): Option<int>
  {
    if events == [] then None
    else
      var e := events[|events| - 1];
      if e == Accept(fd) then None
      else if IsKeepAlive(e) && e.fd == fd then Some(Id(e.bytes))
      else LastId(events[..|events| - 1], fd)
  }

  /** Each connection announces a single id for as long as it lives. */
  predicate SingleIds(events: seq<Event>)
  {
    events == []
    || (var most, e := events[..|events| - 1], events[|events| - 1];
        SingleIds(most) && (IsKeepAlive(e) ==> LastId(most, e.fd) in {None, Some(Id(e.bytes))}))
  }

  /** In every state of the run the entries are open connections, one each. */
  ghost predicate AlwaysFaithful(events: seq<Event>)
  {
    Faithful(Run(events)) && (events == [] || AlwaysFaithful(events[..|events| - 1]))
  }

  // The id of a connection ------------------------------------------------------------------------

  lemma CallerMember(conns: seq<Conn>, fd: int, id: int)
    requires UniqueFds(conns)
    ensures CallerOf(conns, fd) == Some(id) <==> Conn(fd, id) in conns
  {
  }

  lemma SameCaller(conns: seq<Conn>, more: seq<Conn>, fd: int)
    requires UniqueFds(conns) && UniqueFds(more)
    requires forall c: Conn :: c.fd == fd ==> (c in conns <==> c in more)
    ensures CallerOf(conns, fd) == CallerOf(more, fd)
  {
    if CallerOf(conns, fd).Some? {
      CallerMember(conns, fd, CallerOf(conns, fd).value);
      CallerMember(more, fd, CallerOf(conns, fd).value);
    } else if CallerOf(more, fd).Some? {
      CallerMember(more, fd, CallerOf(more, fd).value);
      CallerMember(conns, fd, CallerOf(more, fd).value);
    }
  }

  lemma WithoutFd(conns: seq<Conn>, k: nat, c: Conn)
    requires k < |conns| && c.fd != conns[k].fd
    ensures c in conns <==> c in Without(conns, k)
  {
    WithoutKeeps(conns, k);
    if c in conns {
      var j :| 0 <= j < |conns| && conns[j] == c;
      assert Without(conns, k)[if j < k then j else j - 1] == c;
    }
  }

  lemma CallerAfterAnnounce(s: Registry, source: int, id: int, fd: int)
    requires Faithful(s) && source in s.active && CallerOf(s.conns, source) in {None, Some(id)}
    requires fd in Announce(s, source, id).active
    ensures CallerOf(Announce(s, source, id).conns, fd) == if fd == source then Some(id) else CallerOf(s.conns, fd)
  {
    var t, i := Announce(s, source, id), IndexOfId(s.conns, id);
    AnnounceSpec(s, source, id);
    AnnounceFaithful(s, source, id);
    if fd == source {
      CallerMember(t.conns, source, id);
      if i < |s.conns| && s.conns[i].fd == source {
        assert s.conns[i] == Conn(source, id);
      }
    } else {
      forall c: Conn | c.fd == fd
        ensures c in s.conns <==> c in t.conns
      {
        if i < |s.conns| && s.conns[i].fd != source {
          WithoutFd(s.conns, i, c);
        }
      }
      SameCaller(s.conns, t.conns, fd);
    }
  }

  lemma CallerAfterDisconnect(s: Registry, source: int, fd: int)
    requires Faithful(s) && fd in Disconnect(s, source).active
    ensures CallerOf(Disconnect(s, source).conns, fd) == CallerOf(s.conns, fd)
  {
    var k := IndexOfFd(s.conns, source);
    DisconnectFaithful(s, source);
    if source in s.active && k < |s.conns| {
      forall c: Conn | c.fd == fd
        ensures c in s.conns <==> c in Without(s.conns, k)
      {
        WithoutFd(s.conns, k, c);
      }
      SameCaller(s.conns, Without(s.conns, k), fd);
    }
  }

  /** While every connection keeps to one id, the registry knows the id of every open connection. */
  lemma {:induction false} KnowsCallers(events: seq<Event>, fd: int)
    requires Possible(events) && SingleIds(events) && AlwaysFaithful(events) && fd in Run(events).active
    ensures CallerOf(Run(events).conns, fd) == LastId(events, fd)
  {
    if events != [] {
      var most, e := events[..|events| - 1], events[|events| - 1];
      var s := Run(most);
      if e == Accept(fd) {
        assert CallerOf(s.conns, fd) == None;
      } else {
        KnowsCallers(most, fd);
        if IsKeepAlive(e) {
          KnowsCallers(most, e.fd);
          CallerAfterAnnounce(s, e.fd, Id(e.bytes), fd);
        } else if e.Readable? && e.bytes == [] {
          CallerAfterDisconnect(s, e.fd, fd);
        }
      }
    }
  }

  /** The registry is faithful in every state of a run if and only if each connection announces a
      single id for as long as it lives. */
  lemma {:induction false} FaithfulIffSingleIds(events: seq<Event>)
    requires Possible(events)
    ensures AlwaysFaithful(events) <==> SingleIds(events)
  {
    if events != [] {
      var most, e := events[..|events| - 1], events[|events| - 1];
      FaithfulIffSingleIds(most);
      if SingleIds(most) {
        FaithfulStep(most, e);
      }
    }
  }

  lemma FaithfulStep(most: seq<Event>, e: Event)
    requires Possible(most) && SingleIds(most) && AlwaysFaithful(most) && CanHappen(Run(most), e)
    ensures Faithful(Handle(Run(most), e)) <==>
              (IsKeepAlive(e) ==> LastId(most, e.fd) in {None, Some(Id(e.bytes))})
  {
    var s := Run(most);
    if IsKeepAlive(e) {
      KnowsCallers(most, e.fd);
      AnnounceFaithful(s, e.fd, Id(e.bytes));
    } else if e.Readable? {
      DisconnectFaithful(s, e.fd);
    }
  }

  // A pass ----------------------------------------------------------------------------------------

  function From(s: Registry, events: seq<Event>): Registry
  {
    if events == [] then s else Handle(From(s, events[..|events| - 1]), events[|events| - 1])
  }

  /** A pass of the server loop: select has found the descriptors ready, so they are open when it
      begins, and they are served in ascending order; new connections may be accepted between. */
  predicate IsPass(s: Registry, pass: seq<Event>)
  {
    && s.running && UniqueIds(s.conns)
    && (forall k :: 0 <= k < |pass| && pass[k].Readable? ==> pass[k].fd in s.active)
    && (forall i, j :: 0 <= i < j < |pass| && pass[i].Readable? && pass[j].Readable? ==> pass[i].fd < pass[j].fd)
  }

  /** The connection a keep-alive closes: the one its caller was on before. */
  function Evicts(s: Registry, e: Event): Option<int>
  {
    if s.running && IsKeepAlive(e) && e.fd in s.active && ConnectionOf(s.conns, Id(e.bytes)) != Some(e.fd)
    then ConnectionOf(s.conns, Id(e.bytes))
    else None
  }

  lemma {:induction false} FromUnique(s: Registry, events: seq<Event>)
    requires UniqueIds(s.conns)
    ensures UniqueIds(From(s, events).conns)
  {
    if events != [] {
      FromUnique(s, events[..|events| - 1]);
      HandleUnique(From(s, events[..|events| - 1]), events[|events| - 1]);
    }
  }

  lemma HandleUnique(s: Registry, e: Event)
    requires UniqueIds(s.conns)
    ensures UniqueIds(Handle(s, e).conns)
  {
    if e.Readable? {
      var k := IndexOfFd(s.conns, e.fd);
      if k < |s.conns| {
        WithoutKeeps(s.conns, k);
      }
      if |e.bytes| == 2 {
        AnnounceUnique(s, e.fd, Id(e.bytes));
      }
    }
  }

  /** What one event does to the openness of another descriptor. */
  lemma OpenAfter(s: Registry, e: Event, fd: int)
    requires UniqueIds(s.conns) && s.running && Handle(s, e).running && (e.Readable? ==> e.fd != fd)
    ensures fd in Handle(s, e).active <==> e == Accept(fd) || (fd in s.active && Evicts(s, e) != Some(fd))
  {
    if IsKeepAlive(e) {
      AnnounceSpec(s, e.fd, Id(e.bytes));
    }
  }

  /** Event i of the pass closes the connection fd, which nobody is given before event n. */
  ghost predicate Closed(s: Registry, pass: seq<Event>, i: int, n: int, fd: int)
  {
    && 0 <= i < n <= |pass|
    && Evicts(From(s, pass[..i]), pass[i]) == Some(fd)
    && forall m :: i < m < n ==> pass[m] != Accept(fd)
  }

  ghost predicate ClosedBefore(s: Registry, pass: seq<Event>, n: int, fd: int)
  {
    exists i :: Closed(s, pass, i, n, fd)
  }

  lemma ClosedStep(s: Registry, pass: seq<Event>, n: int, next: int, fd: int)
    requires 0 <= n < |pass| && next == n + 1
    ensures ClosedBefore(s, pass, next, fd) <==>
              Evicts(From(s, pass[..n]), pass[n]) == Some(fd)
              || (ClosedBefore(s, pass, n, fd) && pass[n] != Accept(fd))
  {
    if Evicts(From(s, pass[..n]), pass[n]) == Some(fd) {
      assert Closed(s, pass, n, next, fd);
    } else if ClosedBefore(s, pass, n, fd) && pass[n] != Accept(fd) {
      var i :| Closed(s, pass, i, n, fd);
      assert Closed(s, pass, i, next, fd);
    }
    if ClosedBefore(s, pass, next, fd) {
      var i :| Closed(s, pass, i, next, fd);
      if i < n {
        assert Closed(s, pass, i, n, fd);
      }
    }
  }

  /** A descriptor that was ready and has not been served yet is open unless it was closed. */
  lemma {:induction false} OpenUnlessClosed(s: Registry, pass: seq<Event>, n: nat, fd: int)
    requires IsPass(s, pass) && n <= |pass| && fd in s.active && From(s, pass[..n]).running
    requires forall k :: 0 <= k < n && pass[k].Readable? ==> pass[k].fd != fd
    ensures fd !in From(s, pass[..n]).active <==> ClosedBefore(s, pass, n, fd)
  {
    if n > 0 {
      assert pass[..n][..n - 1] == pass[..n - 1];
      OpenUnlessClosed(s, pass, n - 1, fd);
      FromUnique(s, pass[..n - 1]);
      OpenAfter(From(s, pass[..n - 1]), pass[n - 1], fd);
      ClosedStep(s, pass, n - 1, n, fd);
    }
  }

  /** A keep-alive, event i, closes the connection that event j of the pass is about. */
  ghost predicate ClosesReady(s: Registry, pass: seq<Event>, i: int, j: int)
  {
    0 <= j < |pass| && pass[j].Readable? && Closed(s, pass, i, j, pass[j].fd)
  }

  /** A pass ends the server loop if and only if a keep-alive in it closes the connection of a later
      ready descriptor, which nobody is given in between: a caller has come back on a lower
      descriptor while its old connection was ready too. */
  lemma PassEndsLoop(s: Registry, pass: seq<Event>)
    requires IsPass(s, pass)
    ensures !From(s, pass).running <==> exists i, j :: ClosesReady(s, pass, i, j)
    ensures forall i, j :: ClosesReady(s, pass, i, j) ==> pass[i].Readable? && pass[i].fd < pass[j].fd
  {
    PassPrefix(s, pass, |pass|);
    assert pass[..|pass|] == pass;
  }

  ghost predicate EndsBefore(s: Registry, pass: seq<Event>, n: int)
  {
    exists i, j :: j < n && ClosesReady(s, pass, i, j)
  }

  lemma EndsStep(s: Registry, pass: seq<Event>, n: int, next: int)
    requires 0 <= n < |pass| && next == n + 1
    ensures EndsBefore(s, pass, next) <==>
              EndsBefore(s, pass, n) || (pass[n].Readable? && ClosedBefore(s, pass, n, pass[n].fd))
  {
    if EndsBefore(s, pass, n) {
      var i, j :| j < n && ClosesReady(s, pass, i, j);
      assert j < next;
    } else if pass[n].Readable? && ClosedBefore(s, pass, n, pass[n].fd) {
      var i :| Closed(s, pass, i, n, pass[n].fd);
      assert ClosesReady(s, pass, i, n);
    }
    if EndsBefore(s, pass, next) {
      var i, j :| j < next && ClosesReady(s, pass, i, j);
      if j < n {
        assert EndsBefore(s, pass, n);
      }
    }
  }

  lemma {:induction false} PassPrefix(s: Registry, pass: seq<Event>, n: nat)
    requires IsPass(s, pass) && n <= |pass|
    ensures !From(s, pass[..n]).running <==> EndsBefore(s, pass, n)
  {
    if n > 0 {
      assert pass[..n][..n - 1] == pass[..n - 1];
      PassPrefix(s, pass, n - 1);
      EndsStep(s, pass, n - 1, n);
      if From(s, pass[..n - 1]).running && pass[n - 1].Readable? {
        OpenUnlessClosed(s, pass, n - 1, pass[n - 1].fd);
      }
    }
  }

  /** A pass that ends the loop can come about: caller 1 is on descriptor 6, comes back on 5, and its
      old connection is found ready in the same pass. */
  lemma PassCanEndLoop()
    ensures var s := Run([Accept(6), Readable(6, [0, 1]), Accept(5)]);
            var pass := [Readable(5, [0, 1]), Readable(6, [])];
            IsPass(s, pass) && !From(s, pass).running
  {
    ReadyRun();
    ReadyPass(Registry([Conn(6, 1)], {5, 6}, true));
  }

  lemma ReadyRun()
    ensures Run([Accept(6), Readable(6, [0, 1]), Accept(5)]) == Registry([Conn(6, 1)], {5, 6}, true)
  {
    var first, second, third := Accept(6), Readable(6, [0, 1]), Accept(5);
    RunSnoc([], first);
    RunSnoc([first], second);
    RunSnoc([first, second], third);
    assert [] + [first] == [first] && [first] + [second] == [first, second];
    assert [first, second] + [third] == [first, second, third];
    IdOne(6);
  }

  lemma FromTwo(s: Registry, a: Event, b: Event)
    ensures From(s, [a, b]) == Handle(Handle(s, a), b)
  {
    assert [a, b][..1] == [a] && [a][..0] == [];
    assert From(s, [a]) == Handle(s, a);
  }

  lemma ReadyPass(s: Registry)
    requires s == Registry([Conn(6, 1)], {5, 6}, true)
    ensures var pass := [Readable(5, [0, 1]), Readable(6, [])]; IsPass(s, pass) && !From(s, pass).running
  {
    FromTwo(s, Readable(5, [0, 1]), Readable(6, []));
    AnnounceSpec(s, 5, 1);
    assert 6 !in Announce(s, 5, 1).active;
  }
}
