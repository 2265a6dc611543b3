/** The data phase of CAgvDownLoadBin::SendFileViaCanBus in devices/canbus/AgvDownloadBin.cpp
    against an arbitrary bus. */
module Firmware {
  import opened Bytes
  import opened Sequences
  import opened FirmwareTrace

  /** A CAN socket. Whether a write is accepted and what a read returns may depend on everything
      that has happened on the bus before, so the two functions stand for any bus. */
  class Bus {
    const accepts: (seq<BusEvent>, int, seq<byte>) -> bool
    const replies: seq<BusEvent> -> Reply

    var log: seq<BusEvent>

    constructor (accepts: (seq<BusEvent>, int, seq<byte>) -> bool, replies: seq<BusEvent> -> Reply)
      ensures this.accepts == accepts && this.replies == replies && log == []
    {
      this.accepts, this.replies := accepts, replies;
      log := [];
    }

    method Write(id: int, data: seq<byte>) returns (r: int)
      modifies this
      ensures |data| > CHUNK ==> r == -1 && log == old(log)
      ensures |data| <= CHUNK ==>
                && r == (if accepts(old(log), id, data) then 0 else -1)
                && log == old(log) + [Put(id, data, r == 0)]
    {
      if |data| > CHUNK {
        return -1;
      }
      r := if accepts(log, id, data) then 0 else -1;
      log := log + [Put(id, data, r == 0)];
    }

    method Read() returns (reply: Reply)
      modifies this
      ensures reply == replies(old(log)) && log == old(log) + [Poll(reply)]
    {
      reply := replies(log);
      log := log + [Poll(reply)];
    }
  }

  lemma PollStep(chunk: Payload, t: seq<BusEvent>, reply: Reply)
    ensures var u := t + [Poll(reply)];
            && u[..|u| - 1] == t && u[|u| - 1] == Poll(reply)
            && Polls(u) == Polls(t) + 1 && Puts(u) == Puts(t)
            && (Waiting(chunk, t) && reply == Silent ==> Waiting(chunk, u))
  {
  }

  lemma PutStep(chunk: Payload, t: seq<BusEvent>, sent: bool)
    ensures var u := t + [Put(DATA_ID, chunk, sent)];
            && Polls(u) == Polls(t) && Puts(u) == Puts(t) + 1
            && (Waiting(chunk, t) ==> Waiting(chunk, u))
  {
  }


  /** A reply after j silent polls, i of them since the last copy. */
  lemma Answered(chunk: Payload, t: seq<BusEvent>, reply: Reply, i: nat, j: nat)
    requires Waiting(chunk, t) && Polls(t) == j < POLLS
    requires j == POLLS_PER_COPY * Puts(t) + i && i < POLLS_PER_COPY
    ensures WaitsFor(chunk, t + [Poll(reply)], reply)
  {
  }

  /** readDataToAckCheck; t is what it does on the bus. */
  method ReadDataToAckCheck(bus: Bus, chunk: Payload) returns (r: int, ghost t: seq<BusEvent>)
    modifies bus
    ensures bus.log == old(bus.log) + t
    ensures r == 0 ==> Acknowledged(chunk, t)
    ensures r != 0 ==> Refused(chunk, t, r)
  {
    t := [];
    var i, j := 0, 0;
    while j < POLLS
      invariant 0 <= j < POLLS && 0 <= i < POLLS_PER_COPY
      invariant bus.log == old(bus.log) + t
      invariant Waiting(chunk, t) && Polls(t) == j == POLLS_PER_COPY * Puts(t) + i
    {
      ghost var silent := t;
      var reply := bus.Read();
      t := t + [Poll(reply)];
      Associates(old(bus.log), silent, [Poll(reply)]);
      match reply
      case Failed =>
        Answered(chunk, silent, reply, i, j);
        return -1, t;
      case Received(data) =>
        Answered(chunk, silent, reply, i, j);
        return if Padded(chunk)[..|data|] == data then 0 else -2, t;
      case Silent =>
        PollStep(chunk, silent, reply);
        i := i + 1;
        ghost var polled := t;
        i, t := RepeatCopy(bus, chunk, i, polled);
        Associates(old(bus.log), polled, t[|polled|..]);
      if POLLS - 1 == j {
        return -3, t;
      }
      j := j + 1;
    }
    assert false;
  }

  /** The chunk is written again after a hundred silent polls. */
  method RepeatCopy(bus: Bus, chunk: Payload, i: nat, ghost t: seq<BusEvent>)
      returns (i': nat, ghost t': seq<BusEvent>)
    requires Waiting(chunk, t) && i <= POLLS_PER_COPY
    modifies bus
    ensures Waiting(chunk, t') && t <= t' && bus.log == old(bus.log) + t'[|t|..]
    ensures i' < POLLS_PER_COPY && Polls(t') == Polls(t)
    ensures POLLS_PER_COPY * Puts(t') + i' == POLLS_PER_COPY * Puts(t) + i
  {
    i', t' := i, t;
    if i >= POLLS_PER_COPY {
      i' := 0;
      var w := bus.Write(DATA_ID, chunk);
      PutStep(chunk, t, w == 0);
      t' := t + [Put(DATA_ID, chunk, w == 0)];
    }
  }

  /** One chunk: the first write, then the wait for its acknowledgement. */
  method SendChunk(bus: Bus, chunk: Payload) returns (ok: bool, ghost t: seq<BusEvent>)
    modifies bus
    ensures bus.log == old(bus.log) + t
    ensures if ok then Delivered(chunk, t) else Abandoned(chunk, t)
  {
    var w := bus.Write(DATA_ID, chunk);
    if w != 0 {
      return false, [Put(DATA_ID, chunk, false)];
    }
    ghost var rest;
    var r;
    r, rest := ReadDataToAckCheck(bus, chunk);
    t := [Put(DATA_ID, chunk, true)] + rest;
    assert t[1..] == rest;
    ok := r == 0;
  }

  function EndMarker(board: byte): seq<byte>
  {
    [0xEE, 0xEE, board, 0, 0, 1]
  }

  /** How the transfer of a file ended after the chunks before i: where in the data phase. */
  ghost predicate FailedAt(file: seq<byte>, board: byte, i: nat, tail: seq<BusEvent>)
  {
    var chunks := Chunks(file);
    if i == |chunks| then tail == [Put(COMMAND_ID, EndMarker(board), false)]
    else i < |chunks| && (tail == [] || Abandoned(chunks[i], tail))
  }

  /** The i-th read from the file. */
  method ReadChunk(file: seq<byte>, i: nat, totalFrames: nat) returns (chunk: Payload)
    requires i < totalFrames == |Chunks(file)|
    ensures chunk == Chunks(file)[i]
  {
    ChunkAt(file, i);
    return if i == totalFrames - 1 then file[i * CHUNK..] else file[i * CHUNK..i * CHUNK + CHUNK];
  }

  lemma DeliveredAppend(chunks: seq<Payload>, parts: seq<seq<BusEvent>>, t: seq<BusEvent>)
    requires DeliveredSoFar(chunks, parts) && |parts| < |chunks| && Delivered(chunks[|parts|], t)
    ensures DeliveredSoFar(chunks, parts + [t])
  {
  }

  /** The chunks one after the other, until one is abandoned or cannot be read. */
  method SendChunks(bus: Bus, file: seq<byte>, readable: nat -> bool)
      returns (ok: bool, ghost parts: seq<seq<BusEvent>>, ghost tail: seq<BusEvent>)
    modifies bus
    ensures bus.log == old(bus.log) + (Concat(parts) + tail)
    ensures DeliveredSoFar(Chunks(file), parts)
    ensures ok ==> tail == [] && |parts| == |Chunks(file)|
    ensures !ok ==> |parts| < |Chunks(file)| && (tail == [] || Abandoned(Chunks(file)[|parts|], tail))
  {
    ghost var chunks := Chunks(file);
    parts, tail := [], [];
    var totalFrames := |file| / CHUNK + if |file| % CHUNK > 0 then 1 else 0;
    var i := 0;
    while i < totalFrames
      invariant 0 <= i <= totalFrames == |chunks|
      invariant |parts| == i && DeliveredSoFar(chunks, parts)
      invariant bus.log == old(bus.log) + Concat(parts)
    {
      if !readable(i) {
        assert Concat(parts) + [] == Concat(parts);
        return false, parts, [];
      }
      var chunk := ReadChunk(file, i, totalFrames);
      ghost var t;
      ok, t := SendChunk(bus, chunk);
      Associates(old(bus.log), Concat(parts), t);
      if !ok {
        return false, parts, t;
      }
      DeliveredAppend(chunks, parts, t);
      parts := parts + [t];
      i := i + 1;
    }
    return true, parts, tail;
  }

  /** The data phase. readable says of each chunk whether the file can be read there. On success
      the log is one delivery per chunk and then the end marker; on failure it is deliveries of
      the first chunks and at most one attempt at the next, or at the end marker. */
  method SendFile(bus: Bus, file: seq<byte>, board: byte, readable: nat -> bool)
      returns (r: int, ghost parts: seq<seq<BusEvent>>, ghost tail: seq<BusEvent>)
    modifies bus
    ensures bus.log == old(bus.log) + (Concat(parts) + tail)
    ensures |file| < 80 ==> r == -1 && parts == [] && tail == []
    ensures |file| >= 80 && r == 0 ==>
              && AllDelivered(Chunks(file), parts)
              && tail == [Put(0x10, [0xEE, 0xEE, board, 0, 0, 1], true)]
    ensures |file| >= 80 && r != 0 ==>
              && r == -1
              && DeliveredSoFar(Chunks(file), parts)
              && FailedAt(file, board, |parts|, tail)
  {
    parts, tail := [], [];
    if |file| < 80 {
      return -1, parts, tail;
    }
    var ok;
    ok, parts, tail := SendChunks(bus, file, readable);
    if !ok {
      return -1, parts, tail;
    }
    var w := bus.Write(COMMAND_ID, EndMarker(board));
    return if w == 0 then 0 else -1, parts, [Put(COMMAND_ID, EndMarker(board), w == 0)];
  }

  function IdOf(e: BusEvent): int
  {
    if e.Put? then e.id else -1
  }

  lemma {:induction false} PartsDataOnly(chunks: seq<Payload>, parts: seq<seq<BusEvent>>)
    requires AllDelivered(chunks, parts)
    ensures forall k :: 0 <= k < |Concat(parts)| ==> IdOf(Concat(parts)[k]) != COMMAND_ID
  {
    if parts != [] {
      var n := |parts| - 1;
      PartsDataOnly(chunks[..n], parts[..n]);
    }
  }

  /** What the board has been sent when the data phase succeeds: the chunks of the file in order,
      each one to fifty times, whether refused writes are counted or not, and the end marker once,
      behind everything else. One copy of each chunk makes up the file. */
  lemma TransferComplete(file: seq<byte>, board: byte, parts: seq<seq<BusEvent>>, log: seq<BusEvent>,
                         scope: Scope)
    requires AllDelivered(Chunks(file), parts)
    requires log == Concat(parts) + [Put(COMMAND_ID, EndMarker(board), true)]
    ensures Copies(log, scope) == Repeated(Chunks(file), Times(parts, scope))
    ensures forall i :: 0 <= i < |parts| ==> 1 <= Times(parts, scope)[i] <= 50
    ensures Joined(Chunks(file)) == file
    ensures forall k :: 0 <= k < |log| ==> (IdOf(log[k]) == COMMAND_ID <==> k == |log| - 1)
  {
    CopiesInOrder(Chunks(file), parts, scope);
    PartsDataOnly(Chunks(file), parts);
    ChunksJoin(file);
  }

}
