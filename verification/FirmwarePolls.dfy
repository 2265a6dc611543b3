/** The numbers of the acknowledgement loop: how long it polls, how often it repeats a chunk, and
    which replies it takes. */
module FirmwarePolls {
  import opened Bytes
  import opened FirmwareTrace

  /** A reply is taken if and only if every byte of it is that of the chunk, or 0 behind its end. */
  lemma AgreesByByte(chunk: Payload, reply: Payload)
    ensures Agrees(chunk, reply) <==>
              forall k :: 0 <= k < |reply| ==> reply[k] == if k < |chunk| then chunk[k] else 0
  {
    var p := Padded(chunk);
    assert forall k :: 0 <= k < |reply| ==> p[..|reply|][k] == if k < |chunk| then chunk[k] else 0;
    if forall k :: 0 <= k < |reply| ==> reply[k] == if k < |chunk| then chunk[k] else 0 {
      assert p[..|reply|] == reply;
    }
  }

  /** A chunk is delivered within 5000 polls, and has been written once and again after every hundred
      silent ones. */
  lemma PollsOfDelivered(chunk: Payload, t: seq<BusEvent>)
    requires Delivered(chunk, t)
    ensures var silent := Polls(t[1..]) - 1;
            0 <= silent < 5000 && |Copies(t, Attempted)| == 1 + silent / 100
  {
    CopiesOfDelivered(chunk, t, Attempted);
    var rest := t[1..];
    assert Polls(rest) == Polls(rest[..|rest| - 1]) + 1 && Puts(rest) == Puts(rest[..|rest| - 1]);
  }

  /** A chunk is given up after 5000 silent polls and 51 writes, or earlier because the first write or a
      read failed or a reply disagreed. */
  lemma PollsOfAbandoned(chunk: Payload, t: seq<BusEvent>)
    requires Abandoned(chunk, t)
    ensures t != [] && t[0].Put?
    ensures || (|t| == 1 && !t[0].sent)
            || (Polls(t[1..]) == 5000 && |Copies(t, Attempted)| == 51)
            || (var last := t[|t| - 1];
                last.Poll? && (last.reply == Failed || (last.reply.Received? && !Agrees(chunk, last.reply.data))))
  {
    if |t| > 1 {
      var rest := t[1..];
      if Refused(chunk, rest, -3) {
        CopiesOfWaiting(chunk, rest, Attempted);
        FirstCopy(chunk, t, 50, Attempted);
      } else {
        assert rest[|rest| - 1] == t[|t| - 1];
      }
    }
  }
}
