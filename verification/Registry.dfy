/** The connection list of CAgvSocketServer, searched and changed in place. */
module Registry {
  import opened Options
  import opened Bytes
  import opened RegistrySpec

  class SocketServer {
    var allConnInfo: seq<Conn>
    var active: set<int>
    var enableFlag: bool

    ghost function View(): RegistrySpec.Registry
      reads this
    {
      RegistrySpec.Registry(allConnInfo, active, enableFlag)
    }

    constructor ()
      ensures View() == START
    {
      allConnInfo, active, enableFlag := [], {}, true;
    }

    /** What a pass of ServerRunning does with one event. */
    method OnEvent(e: Event)
      modifies this
      ensures View() == Handle(old(View()), e)
    {
      if !enableFlag {
        return;
      }
      match e
      case Accept(fd) =>
        active := active + {fd};
      case Readable(fd, bytes) =>
        if fd in active && |bytes| > 0 {
          if |bytes| == 2 {
            ProcessKeepAliveData(fd, bytes);
          }
        } else {
          OnOffline(fd);
        }
    }

    method OnOffline(fd: int)
      modifies this
      ensures View() == Disconnect(old(View()), fd)
    {
      if fd !in active {
        enableFlag := false;
        return;
      }
      active := active - {fd};
      var k := 0;
      while k < |allConnInfo|
        invariant 0 <= k <= |allConnInfo|
        invariant allConnInfo == old(allConnInfo) && active == old(active) - {fd} && enableFlag == old(enableFlag)
        invariant forall j :: 0 <= j < k ==> allConnInfo[j].fd != fd
      {
        if allConnInfo[k].fd == fd {
          allConnInfo := allConnInfo[..k] + allConnInfo[k + 1..];
          return;
        }
        k := k + 1;
      }
      assert IndexOfFd(allConnInfo, fd) == |allConnInfo|;
    }

    method ProcessKeepAliveData(fd: int, data: seq<byte>)
      requires |data| == 2
      modifies this`allConnInfo, this`active
      ensures View() == Announce(old(View()), fd, Id(data))
    {
      var isIn := false;
      var id: int := data[0] as int * 256;
      id := id + data[1];
      var k := 0;
      while k < |allConnInfo|
        invariant 0 <= k <= |allConnInfo|
        invariant allConnInfo == old(allConnInfo) && active == old(active)
        invariant Takeover(allConnInfo, fd, id, 0, false) == Takeover(allConnInfo, fd, id, k, isIn)
      {
        if allConnInfo[k].id == id {
          if allConnInfo[k].fd != fd {
            active := active - {allConnInfo[k].fd};
            allConnInfo := allConnInfo[..k] + allConnInfo[k + 1..];
            break;
          } else {
            isIn := true;
          }
        }
        k := k + 1;
      }
      if !isIn {
        allConnInfo := allConnInfo + [Conn(fd, id)];
      }
    }

    method GetCallerIdBasedOnFd(fd: int) returns (r: int, callerId: int)
      ensures callerId == match CallerOf(allConnInfo, fd) case Some(id) => id case None => -1
      ensures r == if callerId == -1 then -1 else 0
    {
      callerId := -1;
      var k := 0;
      while k < |allConnInfo|
        invariant 0 <= k <= |allConnInfo| && callerId == -1
        invariant forall j :: 0 <= j < k ==> allConnInfo[j].fd != fd
      {
        if allConnInfo[k].fd == fd {
          callerId := allConnInfo[k].id;
          break;
        }
        k := k + 1;
      }
      if callerId == -1 {
        return -1, callerId;
      }
      return 0, callerId;
    }

    /** The connection ServerWriteToOneConnection writes to; -1 if the caller is unknown. */
    method FindConnection(callerId: int) returns (fd: int)
      ensures fd == match ConnectionOf(allConnInfo, callerId) case Some(c) => c case None => -1
    {
      fd := -1;
      var k := 0;
      while k < |allConnInfo|
        invariant 0 <= k <= |allConnInfo| && fd == -1
        invariant forall j :: 0 <= j < k ==> allConnInfo[j].id != callerId
      {
        if allConnInfo[k].id == callerId {
          fd := allConnInfo[k].fd;
          return;
        }
        k := k + 1;
      }
    }
  }

}
