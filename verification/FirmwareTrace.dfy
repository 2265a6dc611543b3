/** The traces of the data phase of a firmware download over CAN: devices/canbus/AgvDownloadBin.cpp
    and the reads and writes of devices/canbus/AgvSocketCan.cpp. */
module FirmwareTrace {
  import opened Bytes

  const CHUNK := 8
  const DATA_ID := 0x11
  const COMMAND_ID := 0x10
  const POLLS := 5000
  const POLLS_PER_COPY := 100
  const MAX_COPIES := 50

  /** The payload of a CAN frame. */
  type Payload = s: seq<byte> | |s| <= CHUNK

  /** What one Read returns: a frame (an empty one also stands for a read that times out, which the
      code cannot tell from it), nothing yet (-3), or an error. */
  datatype Reply = Received(data: Payload) | Silent | Failed

  /** What happens on the bus: a Write, with its outcome, or a Read. */
  datatype BusEvent = Put(id: int, data: seq<byte>, sent: bool) | Poll(reply: Reply)

  /** The send buffer is eight bytes, zero behind a short chunk. */
  function Padded(chunk: Payload): seq<byte>
  {
    chunk + seq(CHUNK - |chunk|, i => 0)
  }

  /** A reply acknowledges a chunk when it agrees with the send buffer as far as it reaches. */
  predicate Agrees(chunk: Payload, reply: Payload)
  {
    Padded(chunk)[..|reply|] == reply
  }

  predicate IsWaiting(chunk: Payload, e: BusEvent)
  {
    match e
    case Put(id, data, _) => id == DATA_ID && data == chunk
    case Poll(reply) => reply == Silent
  }

  /** Nothing but silent polls and repeated writes of the one chunk. */
  predicate Waiting(chunk: Payload, t: seq<BusEvent>)
  {
    forall k :: 0 <= k < |t| ==> IsWaiting(chunk, t[k])
  }

  function Puts(t: seq<BusEvent>): nat
  {
    if t == [] then 0 else Puts(t[..|t| - 1]) + if t[|t| - 1].Put? then 1 else 0
  }

  function Polls(t: seq<BusEvent>): nat
  {
    if t == [] then 0 else Polls(t[..|t| - 1]) + if t[|t| - 1].Poll? then 1 else 0
  }

  /** t waits and then reads the reply, within the 5000 polls allowed; the chunk is repeated once
      for every hundred silent polls. */
  predicate WaitsFor(chunk: Payload, t: seq<BusEvent>, reply: Reply)
  {
    && t != [] && t[|t| - 1] == Poll(reply)
    && var silent := t[..|t| - 1];
       && Waiting(chunk, silent)
       && Polls(silent) < POLLS
       && Puts(silent) == Polls(silent) / POLLS_PER_COPY
  }

  /** The poll loop succeeds on a reply that agrees. */
  predicate Acknowledged(chunk: Payload, t: seq<BusEvent>)
  {
    && t != [] && t[|t| - 1].Poll? && t[|t| - 1].reply.Received?
    && Agrees(chunk, t[|t| - 1].reply.data)
    && WaitsFor(chunk, t, t[|t| - 1].reply)
  }

  /** It fails on an error, on a reply that disagrees, and after 5000 silent polls. */
  predicate Refused(chunk: Payload, t: seq<BusEvent>, code: int)
  {
    match code
    case -1 => WaitsFor(chunk, t, Failed)
    case -2 =>
      && t != [] && t[|t| - 1].Poll? && t[|t| - 1].reply.Received?
      && !Agrees(chunk, t[|t| - 1].reply.data)
      && WaitsFor(chunk, t, t[|t| - 1].reply)
    case -3 => Waiting(chunk, t) && Polls(t) == POLLS && Puts(t) == MAX_COPIES
    case _ => false
  }

  /** A chunk delivered: written and acknowledged. */
  predicate Delivered(chunk: Payload, t: seq<BusEvent>)
  {
    t != [] && t[0] == Put(DATA_ID, chunk, true) && Acknowledged(chunk, t[1..])
  }

  /** A chunk given up on: the first write or the poll loop failed. */
  predicate Abandoned(chunk: Payload, t: seq<BusEvent>)
  {
    || t == [Put(DATA_ID, chunk, false)]
    || (t != [] && t[0] == Put(DATA_ID, chunk, true)
        && (Refused(chunk, t[1..], -1) || Refused(chunk, t[1..], -2) || Refused(chunk, t[1..], -3)))
  }

  function Concat(parts: seq<seq<BusEvent>>): seq<BusEvent>
  {
    if parts == [] then [] else Concat(parts[..|parts| - 1]) + parts[|parts| - 1]
  }

  // Chunks of a file ----------------------------------------------------------------------------

  function Chunks(file: seq<byte>): (r: seq<Payload>)
    ensures |r| == ChunkCount(|file|)
  {
    if |file| == 0 then []
    else if |file| <= CHUNK then [file]
    else [file[..CHUNK]] + Chunks(file[CHUNK..])
  }

  function Joined(chunks: seq<seq<byte>>): seq<byte>
  {
    if chunks == [] then [] else chunks[0] + Joined(chunks[1..])
  }

  lemma {:induction false} ChunksJoin(file: seq<byte>)
    ensures Joined(Chunks(file)) == file
  {
    if |file| > CHUNK {
      ChunksJoin(file[CHUNK..]);
      assert file == file[..CHUNK] + file[CHUNK..];
    }
  }

  /** Chunk i is what the i-th read from the file yields: eight bytes, or what is left at the end. */
  lemma ChunkAt(file: seq<byte>, i: nat)
    requires i < |Chunks(file)|
    ensures var from := i * CHUNK;
            var to := if i == |Chunks(file)| - 1 then |file| else from + CHUNK;
            from < to <= |file| && Chunks(file)[i] == file[from..to]
  {
    ChunkSlice(file, i, i * CHUNK, ChunkEnd(|file|, i * CHUNK));
  }

  function ChunkCount(n: nat): nat
  {
    n / CHUNK + if n % CHUNK > 0 then 1 else 0
  }

  /** Where the chunk ends that starts at from. */
  function ChunkEnd(n: nat, from: nat): nat
  {
    if n <= from + CHUNK then n else from + CHUNK
  }

  lemma {:induction false} ChunkSlice(file: seq<byte>, i: nat, from: nat, to: nat)
    requires i < |Chunks(file)| && from == i * CHUNK < |file| && to == ChunkEnd(|file|, from)
    ensures Chunks(file)[i] == file[from..to]
  {
    if i == 0 {
      FirstChunk(file);
    } else {
      LaterChunk(file, i);
      ChunkSlice(file[CHUNK..], i - 1, from - CHUNK, to - CHUNK);
      SliceBehind(file, CHUNK, from, to);
    }
  }

  lemma FirstChunk(file: seq<byte>)
    requires file != []
    ensures Chunks(file)[0] == file[..ChunkEnd(|file|, 0)]
  {
  }

  lemma LaterChunk(file: seq<byte>, i: nat)
    requires 0 < i < |Chunks(file)|
    ensures |file| > CHUNK && |Chunks(file[CHUNK..])| == |Chunks(file)| - 1
    ensures Chunks(file)[i] == Chunks(file[CHUNK..])[i - 1]
  {
  }

  lemma SliceBehind(s: seq<byte>, n: nat, from: nat, to: nat)
    requires n <= from <= to <= |s|
    ensures s[n..][from - n..to - n] == s[from..to]
  {
  }

  // What the board sees -------------------------------------------------------------------------

  /** Which writes are looked at: all that were attempted, or those the bus took. */
  datatype Scope = Attempted | Taken

  predicate Counts(e: BusEvent, scope: Scope)
  {
    e.Put? && e.id == DATA_ID && (scope == Taken ==> e.sent)
  }

  /** The payloads written with the data id, in order. */
  function Copies(t: seq<BusEvent>, scope: Scope): seq<seq<byte>>
  {
    if t == [] then []
    else
      var e := t[|t| - 1];
      Copies(t[..|t| - 1], scope) + if Counts(e, scope) then [e.data] else []
  }

  function Repeat(x: seq<byte>, n: nat): seq<seq<byte>>
  {
    seq(n, i => x)
  }

  /** Each chunk as often as its count says. */
  function Repeated(chunks: seq<seq<byte>>, counts: seq<nat>): seq<seq<byte>>
    requires |counts| == |chunks|
  {
    if chunks == [] then []
    else
      var n := |chunks| - 1;
      Repeated(chunks[..n], counts[..n]) + Repeat(chunks[n], counts[n])
  }

  lemma {:induction false} CopiesConcat(a: seq<BusEvent>, b: seq<BusEvent>, scope: Scope)
    ensures Copies(a + b, scope) == Copies(a, scope) + Copies(b, scope)
  {
    if b == [] {
      assert a + b == a;
    } else {
      CopiesConcat(a, b[..|b| - 1], scope);
      assert (a + b)[..|a + b| - 1] == a + b[..|b| - 1];
    }
  }

  lemma {:induction false} CopiesOfWaiting(chunk: Payload, t: seq<BusEvent>, scope: Scope)
    requires Waiting(chunk, t)
    ensures |Copies(t, scope)| <= Puts(t) && (scope == Attempted ==> |Copies(t, scope)| == Puts(t))
    ensures Copies(t, scope) == Repeat(chunk, |Copies(t, scope)|)
  {
    if t != [] {
      CopiesOfWaiting(chunk, t[..|t| - 1], scope);
      assert IsWaiting(chunk, t[|t| - 1]);
    }
  }

  /** A delivered chunk was written, and taken by the bus, at least once and at most fifty times. */
  lemma CopiesOfDelivered(chunk: Payload, t: seq<BusEvent>, scope: Scope)
    requires Delivered(chunk, t)
    ensures var n := |Copies(t, scope)|;
            1 <= n <= 50 && Copies(t, scope) == Repeat(chunk, n)
    ensures |Copies(t, Attempted)| == 1 + Puts(t[1..])
  {
    var rest := t[1..];
    CopiesOfWaiting(chunk, rest[..|rest| - 1], scope);
    CopiesOfWaiting(chunk, rest[..|rest| - 1], Attempted);
    FirstCopy(chunk, t, |Copies(rest, scope)|, scope);
    FirstCopy(chunk, t, |Copies(rest, Attempted)|, Attempted);
  }

  lemma FirstCopy(chunk: Payload, t: seq<BusEvent>, n: nat, scope: Scope)
    requires t != [] && t[0] == Put(DATA_ID, chunk, true) && Copies(t[1..], scope) == Repeat(chunk, n)
    ensures Copies(t, scope) == Repeat(chunk, 1 + n)
  {
    var first := [t[0]];
    assert t == first + t[1..];
    CopiesConcat(first, t[1..], scope);
    assert first[..0] == [] && Copies(first, scope) == Copies(first[..0], scope) + [chunk];
  }

  /** A chunk given up on was written at most fifty-one times. */
  lemma CopiesOfAbandoned(chunk: Payload, t: seq<BusEvent>)
    requires Abandoned(chunk, t)
    ensures var n := |Copies(t, Attempted)|;
            1 <= n <= 51 && Copies(t, Attempted) == Repeat(chunk, n)
  {
    var rest := t[1..];
    if t == [Put(DATA_ID, chunk, false)] {
      assert t[..0] == [] && Copies(t, Attempted) == Copies(t[..0], Attempted) + [chunk];
    } else if Refused(chunk, rest, -3) {
      CopiesOfWaiting(chunk, rest, Attempted);
      FirstCopy(chunk, t, MAX_COPIES, Attempted);
    } else {
      CopiesOfWaiting(chunk, rest[..|rest| - 1], Attempted);
      FirstCopy(chunk, t, Puts(rest), Attempted);
    }
  }

  /** The parts deliver the first chunks, one each. */
  predicate DeliveredSoFar(chunks: seq<Payload>, parts: seq<seq<BusEvent>>)
  {
    |parts| <= |chunks| && forall i :: 0 <= i < |parts| ==> Delivered(chunks[i], parts[i])
  }

  predicate AllDelivered(chunks: seq<Payload>, parts: seq<seq<BusEvent>>)
  {
    |parts| == |chunks| && DeliveredSoFar(chunks, parts)
  }

  /** How often each chunk was written. */
  function Times(parts: seq<seq<BusEvent>>, scope: Scope): (r: seq<nat>)
    ensures |r| == |parts|
  {
    seq(|parts|, i requires 0 <= i < |parts| => |Copies(parts[i], scope)|)
  }

  /** The data frames of a run of delivered chunks are the chunks in order, each one to fifty
      times: those attempted and those the bus took. */
  lemma {:induction false} CopiesInOrder(chunks: seq<Payload>, parts: seq<seq<BusEvent>>, scope: Scope)
    requires AllDelivered(chunks, parts)
    ensures Copies(Concat(parts), scope) == Repeated(chunks, Times(parts, scope))
    ensures forall i :: 0 <= i < |parts| ==> 1 <= Times(parts, scope)[i] <= 50
  {
    forall i | 0 <= i < |parts|
      ensures 1 <= Times(parts, scope)[i] <= 50
    {
      CopiesOfDelivered(chunks[i], parts[i], scope);
    }
    if parts != [] {
      var n := |parts| - 1;
      CopiesInOrder(chunks[..n], parts[..n], scope);
      CopiesOfDelivered(chunks[n], parts[n], scope);
      CopiesConcat(Concat(parts[..n]), parts[n], scope);
      assert Times(parts, scope)[..n] == Times(parts[..n], scope);
    }
  }

  /** A chunk is first written only after the one before it was acknowledged: in any log that
      begins with delivered chunks, the event that completes chunk i is a poll whose reply agrees
      with it, and up to there only chunks 0 to i have been written, each in its turn. */
  lemma AcknowledgedBeforeNext(chunks: seq<Payload>, parts: seq<seq<BusEvent>>, log: seq<BusEvent>, i: nat)
    requires AllDelivered(chunks, parts) && Concat(parts) <= log && i < |parts|
    ensures var n := |Concat(parts[..i + 1])|;
            && 0 < n <= |log|
            && log[n - 1].Poll? && log[n - 1].reply.Received? && Agrees(chunks[i], log[n - 1].reply.data)
            && Copies(log[..n], Attempted) == Repeated(chunks[..i + 1], Times(parts[..i + 1], Attempted))
  {
    ConcatPrefix(parts, i + 1);
    CopiesInOrder(chunks[..i + 1], parts[..i + 1], Attempted);
    var done := Concat(parts[..i + 1]);
    assert parts[..i + 1][..i] == parts[..i];
    assert done == Concat(parts[..i]) + parts[i];
    assert Delivered(chunks[i], parts[i]);
    assert log[..|done|] == done;
    var p := parts[i];
    assert log[|done| - 1] == done[|done| - 1] == p[|p| - 1] == p[1..][|p[1..]| - 1];
  }

  lemma {:induction false} ConcatPrefix(parts: seq<seq<BusEvent>>, n: nat)
    requires n <= |parts|
    ensures Concat(parts[..n]) <= Concat(parts)
  {
    if n < |parts| {
      var k := |parts| - 1;
      ConcatPrefix(parts[..k], n);
      assert parts[..k][..n] == parts[..n];
    } else {
      assert parts[..n] == parts;
    }
  }

  // Telling copies from chunks ------------------------------------------------------------------

  /** What a board keeps that ignores a frame equal to the one before it. */
  function Collapsed(s: seq<seq<byte>>): seq<seq<byte>>
  {
    if |s| <= 1 then s
    else
      var most := s[..|s| - 1];
      if s[|s| - 1] == most[|most| - 1] then Collapsed(most) else Collapsed(most) + [s[|s| - 1]]
  }

  predicate NoTwins(s: seq<seq<byte>>)
  {
    forall i :: 0 < i < |s| ==> s[i] != s[i - 1]
  }

  lemma {:induction false} CollapsedAppend(s: seq<seq<byte>>, x: seq<byte>, n: nat)
    requires n > 0
    ensures Collapsed(s + Repeat(x, n)) == if s != [] && s[|s| - 1] == x then Collapsed(s) else Collapsed(s) + [x]
  {
    AppendOne(s, x, n, s + Repeat(x, n - 1));
    CollapsedSnoc(s + Repeat(x, n - 1), x);
    if n == 1 {
      assert s + Repeat(x, 0) == s;
    } else {
      CollapsedAppend(s, x, n - 1);
    }
  }

  lemma AppendOne(s: seq<seq<byte>>, x: seq<byte>, n: nat, most: seq<seq<byte>>)
    requires n > 0 && most == s + Repeat(x, n - 1)
    ensures s + Repeat(x, n) == most + [x] && (n > 1 ==> most != [] && most[|most| - 1] == x)
  {
  }

  lemma CollapsedSnoc(s: seq<seq<byte>>, x: seq<byte>)
    ensures Collapsed(s + [x]) == if s != [] && s[|s| - 1] == x then Collapsed(s) else Collapsed(s) + [x]
  {
    assert (s + [x])[..|s|] == s;
  }

  lemma {:induction false} RepeatedEnds(chunks: seq<seq<byte>>, counts: seq<nat>)
    requires |counts| == |chunks| && chunks != [] && counts[|chunks| - 1] > 0
    ensures var r := Repeated(chunks, counts); r != [] && r[|r| - 1] == chunks[|chunks| - 1]
  {
  }

  /** Such a board keeps the same whatever was repeated. */
  lemma {:induction false} CollapsedRepeated(chunks: seq<seq<byte>>, counts: seq<nat>)
    requires |counts| == |chunks| && forall i :: 0 <= i < |counts| ==> counts[i] > 0
    ensures Collapsed(Repeated(chunks, counts)) == Collapsed(chunks)
  {
    if chunks != [] {
      var n := |chunks| - 1;
      CollapsedRepeated(chunks[..n], counts[..n]);
      CollapsedAppend(Repeated(chunks[..n], counts[..n]), chunks[n], counts[n]);
      if n > 0 {
        RepeatedEnds(chunks[..n], counts[..n]);
      }
    }
  }

  lemma {:induction false} CollapsedLength(s: seq<seq<byte>>)
    ensures |Collapsed(s)| <= |s|
    ensures |Collapsed(s)| == |s| <==> NoTwins(s)
    ensures NoTwins(s) ==> Collapsed(s) == s
  {
    if |s| > 1 {
      var most, x := s[..|s| - 1], s[|s| - 1];
      CollapsedLength(most);
      CollapsedSnoc(most, x);
      NoTwinsSnoc(most, x);
      assert s == most + [x];
    }
  }

  lemma NoTwinsSnoc(most: seq<seq<byte>>, x: seq<byte>)
    requires most != []
    ensures NoTwins(most + [x]) <==> NoTwins(most) && x != most[|most| - 1]
  {
    var s := most + [x];
    if !NoTwins(most) {
      var i :| 0 < i < |most| && most[i] == most[i - 1];
      assert s[i] == s[i - 1];
    } else if x == most[|most| - 1] {
      assert s[|most|] == s[|most| - 1];
    } else {
      forall i | 0 < i < |s|
        ensures s[i] != s[i - 1]
      {
        assert i < |most| ==> s[i] == most[i];
      }
    }
  }

  /** Frames carry no sequence number: a board that drops repetitions among the frames the bus took
      ends up with the chunks if and only if no two neighbouring chunks are equal. */
  lemma BoardRecovers(chunks: seq<Payload>, parts: seq<seq<BusEvent>>)
    requires AllDelivered(chunks, parts)
    ensures Collapsed(Copies(Concat(parts), Taken)) == chunks <==> NoTwins(chunks)
  {
    CopiesInOrder(chunks, parts, Taken);
    CollapsedRepeated(chunks, Times(parts, Taken));
    CollapsedLength(chunks);
  }

  // What an acknowledgement says ----------------------------------------------------------------

  /** An empty reply acknowledges every chunk. */
  lemma EmptyReplyAcknowledges(chunk: Payload)
    ensures Acknowledged(chunk, [Poll(Received([]))])
  {
    assert [Poll(Received([]))][..0] == [];
  }

  /** A reply tells the chunk it acknowledges from all others of its length if and only if it is at
      least that long. */
  lemma ReplyDecides(chunk: Payload, reply: Payload)
    requires Agrees(chunk, reply)
    ensures (forall c: Payload :: |c| == |chunk| && Agrees(c, reply) ==> c == chunk) <==> |reply| >= |chunk|
  {
    if |reply| < |chunk| {
      ShortReplyFits(chunk, reply);
      assert Changed(chunk, |reply|) != chunk;
    } else {
      forall c: Payload | |c| == |chunk| && Agrees(c, reply)
        ensures c == chunk
      {
        LongReplySpells(c, reply);
        LongReplySpells(chunk, reply);
      }
    }
  }

  lemma LongReplySpells(chunk: Payload, reply: Payload)
    requires Agrees(chunk, reply) && |reply| >= |chunk|
    ensures reply[..|chunk|] == chunk
  {
    assert reply[..|chunk|] == Padded(chunk)[..|reply|][..|chunk|] == Padded(chunk)[..|chunk|];
  }

  /** The byte at position k is another one. */
  function Changed(s: seq<byte>, k: nat): (r: seq<byte>)
    requires k < |s|
    ensures |r| == |s| && r[k] != s[k]
  {
    s[k := if s[k] == 0 then 1 else 0]
  }

  lemma ShortReplyFits(chunk: Payload, reply: Payload)
    requires Agrees(chunk, reply) && |reply| < |chunk|
    ensures Agrees(Changed(chunk, |reply|), reply)
  {
    assert forall k :: 0 <= k < |reply| ==> Padded(Changed(chunk, |reply|))[k] == Padded(chunk)[k];
    assert Padded(Changed(chunk, |reply|))[..|reply|] == Padded(chunk)[..|reply|];
  }

  /** The replies acknowledge the chunks of the file, one each. */
  predicate Echoes(file: seq<byte>, replies: seq<Payload>)
  {
    |replies| == |Chunks(file)| && forall i :: 0 <= i < |replies| ==> Agrees(Chunks(file)[i], replies[i])
  }

  /** The replies that ended the deliveries. */
  function LastReplies(parts: seq<seq<BusEvent>>): (r: seq<Payload>)
    requires forall i :: 0 <= i < |parts| ==>
               parts[i] != [] && parts[i][|parts[i]| - 1].Poll? && parts[i][|parts[i]| - 1].reply.Received?
  {
    seq(|parts|, i requires 0 <= i < |parts| => parts[i][|parts[i]| - 1].reply.data)
  }

  lemma DeliveredEchoes(file: seq<byte>, parts: seq<seq<BusEvent>>)
    requires AllDelivered(Chunks(file), parts)
    ensures forall i :: 0 <= i < |parts| ==>
              parts[i] != [] && parts[i][|parts[i]| - 1].Poll? && parts[i][|parts[i]| - 1].reply.Received?
    ensures Echoes(file, LastReplies(parts))
  {
    forall i | 0 <= i < |parts|
      ensures parts[i] != [] && parts[i][|parts[i]| - 1].Poll? && parts[i][|parts[i]| - 1].reply.Received?
      ensures Agrees(Chunks(file)[i], parts[i][|parts[i]| - 1].reply.data)
    {
      var t := parts[i];
      assert Delivered(Chunks(file)[i], t) && t[|t| - 1] == t[1..][|t[1..]| - 1];
    }
  }

  /** Changing one byte of a file changes one byte of one chunk. */
  lemma {:induction false} ChunksChanged(file: seq<byte>, i: nat, k: nat)
    requires i < |Chunks(file)| && k < |Chunks(file)[i]|
    ensures i * CHUNK + k < |file|
    ensures Chunks(Changed(file, i * CHUNK + k)) == Chunks(file)[i := Changed(Chunks(file)[i], k)]
  {
    ChunkAt(file, i);
    if |file| > CHUNK {
      if i > 0 {
        LaterChunk(file, i);
        ChunksChanged(file[CHUNK..], i - 1, k);
      }
      ChangedAt(file, Changed(file, i * CHUNK + k), i, k);
    }
  }


  lemma ChangedAt(file: seq<byte>, other: seq<byte>, i: nat, k: nat)
    requires |other| == |file| > CHUNK && i < |Chunks(file)| && k < |Chunks(file)[i]|
    requires if i == 0
             then k < CHUNK && other[..CHUNK] == Changed(file[..CHUNK], k) && other[CHUNK..] == file[CHUNK..]
             else
               var rest := Chunks(file[CHUNK..]);
               && other[..CHUNK] == file[..CHUNK]
               && k < |rest[i - 1]|
               && Chunks(other[CHUNK..]) == rest[i - 1 := Changed(rest[i - 1], k)]
    ensures Chunks(other) == Chunks(file)[i := Changed(Chunks(file)[i], k)]
  {
    if i > 0 {
      var rest := Chunks(file[CHUNK..]);
    }
  }

  /** What success proves about the board: the replies fit no other file of that length if and only
      if each was at least as long as its chunk; then they spell the file. */
  lemma EchoesDecideFile(file: seq<byte>, replies: seq<Payload>)
    requires Echoes(file, replies)
    ensures (forall other :: |other| == |file| && Echoes(other, replies) ==> other == file) <==>
              forall i :: 0 <= i < |replies| ==> |replies[i]| >= |Chunks(file)[i]|
  {
    if i :| 0 <= i < |replies| && |replies[i]| < |Chunks(file)[i]| {
      OtherFileFits(file, replies, i);
    } else {
      forall other | |other| == |file| && Echoes(other, replies)
        ensures other == file
      {
        SameEchoes(file, other, replies);
      }
    }
  }

  lemma OtherFileFits(file: seq<byte>, replies: seq<Payload>, i: nat)
    requires Echoes(file, replies) && i < |replies| && |replies[i]| < |Chunks(file)[i]|
    ensures exists other :: |other| == |file| && Echoes(other, replies) && other != file
  {
    ChunksChanged(file, i, |replies[i]|);
    ShortReplyFits(Chunks(file)[i], replies[i]);
    var other := Changed(file, i * CHUNK + |replies[i]|);
    assert Echoes(other, replies) && other != file;
  }

  lemma SameEchoes(file: seq<byte>, other: seq<byte>, replies: seq<Payload>)
    requires |other| == |file| && Echoes(file, replies) && Echoes(other, replies)
    requires forall i :: 0 <= i < |replies| ==> |replies[i]| >= |Chunks(file)[i]|
    ensures other == file
  {
    forall i | 0 <= i < |replies|
      ensures Chunks(other)[i] == Chunks(file)[i]
    {
      ChunkAt(file, i);
      ChunkAt(other, i);
      LongReplySpells(Chunks(file)[i], replies[i]);
      LongReplySpells(Chunks(other)[i], replies[i]);
    }
    assert Chunks(other) == Chunks(file);
    ChunksJoin(file);
    ChunksJoin(other);
  }

  /** The part of each reply that answers its chunk. */
  function Answers(file: seq<byte>, replies: seq<Payload>): (r: seq<seq<byte>>)
    requires |replies| == |Chunks(file)|
    requires forall i :: 0 <= i < |replies| ==> |replies[i]| >= |Chunks(file)[i]|
  {
    seq(|replies|, i requires 0 <= i < |replies| => replies[i][..|Chunks(file)[i]|])
  }

  /** When every reply is at least as long as its chunk, a successful transfer proves that the board
      has answered with the file, byte for byte. */
  lemma RepliesSpellFile(file: seq<byte>, parts: seq<seq<BusEvent>>)
    requires AllDelivered(Chunks(file), parts)
    ensures forall i :: 0 <= i < |parts| ==>
              parts[i] != [] && parts[i][|parts[i]| - 1].Poll? && parts[i][|parts[i]| - 1].reply.Received?
    ensures var replies := LastReplies(parts);
            (forall i :: 0 <= i < |replies| ==> |replies[i]| >= |Chunks(file)[i]|) ==>
              Joined(Answers(file, replies)) == file
  {
    DeliveredEchoes(file, parts);
    var replies := LastReplies(parts);
    if forall i :: 0 <= i < |replies| ==> |replies[i]| >= |Chunks(file)[i]| {
      AnswersAreChunks(file, replies);
      ChunksJoin(file);
    }
  }

  lemma AnswersAreChunks(file: seq<byte>, replies: seq<Payload>)
    requires Echoes(file, replies) && forall i :: 0 <= i < |replies| ==> |replies[i]| >= |Chunks(file)[i]|
    ensures Answers(file, replies) == Chunks(file)
  {
    forall i | 0 <= i < |replies|
      ensures replies[i][..|Chunks(file)[i]|] == Chunks(file)[i]
    {
      LongReplySpells(Chunks(file)[i], replies[i]);
    }
  }
}
