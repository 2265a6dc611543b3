/** Caller ids on the wire: the two bytes of a keep-alive are the id, most significant first. */
module CallerIds {
  import opened Options
  import opened Bytes
  import opened RegistrySpec

  /** What a client announces is what the server reads, for all 65536 ids. */
  lemma AnnouncedIdIsRead(id: nat)
    requires id < 65536
    ensures Id(BigEndian(id, 2)) == id
  {
    assert BigEndian(id / 256, 1) == BigEndian(id / 256 / 256, 0) + [id / 256 % 256];
  }

  /** In any reachable state a client that announces its id on an open connection is found under that
      id, and every other caller stays where it was. */
  lemma AnnouncedIsFound(events: seq<Event>, fd: int, id: nat, other: int)
    requires id < 65536
    requires Run(events).running && fd in Run(events).active
    ensures var s, t := Run(events), Handle(Run(events), Readable(fd, BigEndian(id, 2)));
            && t.running && ConnectionOf(t.conns, id) == Some(fd)
            && (other != id ==> ConnectionOf(t.conns, other) == ConnectionOf(s.conns, other))
  {
    IdsStayUnique(events);
    AnnouncedIdIsRead(id);
    KeepAliveBinds(Run(events), fd, id, other);
  }
}
