/** Streams of frames: round trip, loss behind garbage, and the receive loop that reads them. */
module Stream {
  import opened Options
  import opened Bytes
  import opened CheckSum
  import opened EscapeCodec
  import opened FrameScanner
  import opened SchProtocol
  import opened Resync

  ghost predicate AllSendable(ms: seq<Message>)
  {
    forall m :: m in ms ==> Sendable(m)
  }

  /** The wire image of a list of messages, each packed by PackData. */
  ghost function Frames(table: Table, ms: seq<Message>): seq<byte>
    requires AllSendable(ms)
  {
    if ms == [] then [] else Frame(table, ms[0]) + Frames(table, ms[1..])
  }

  /** The escaped interior of a message's frame. */
  ghost function Interior(table: Table, m: Message): seq<byte>
    requires Sendable(m)
  {
    Escape(RawBody(table, |m.payload| + 6, m))
  }

  ghost function Interiors(table: Table, ms: seq<Message>): seq<seq<byte>>
    requires AllSendable(ms)
  {
    if ms == [] then [] else [Interior(table, ms[0])] + Interiors(table, ms[1..])
  }

  lemma InteriorIsClean(table: Table, m: Message)
    requires Sendable(m)
    ensures HEAD !in Interior(table, m) && |Interior(table, m)| >= 8
    ensures Unescape(Interior(table, m)) == Decoded(RawBody(table, |m.payload| + 6, m), true)
  {
    var raw := RawBody(table, |m.payload| + 6, m);
    EscapeHidesHead(raw);
    UnescapeEscape(raw);
    HeaderOfRawBody(table, |m.payload| + 6, m, []);
  }

  lemma {:induction false} FramesAreWire(table: Table, ms: seq<Message>)
    requires AllSendable(ms)
    ensures Frames(table, ms) == Wire(Interiors(table, ms))
    ensures AllClean(Interiors(table, ms)) && |Interiors(table, ms)| == |ms|
    ensures ms != [] ==> Interiors(table, ms)[1..] == Interiors(table, ms[1..])
  {
    if ms != [] {
      FramesAreWire(table, ms[1..]);
      InteriorIsClean(table, ms[0]);
    }
  }

  // What the receive loop does with any buffer ----------------------------------------------------

  /** What can happen to a body: it may be accepted, it may be refused, and what it then delivers. */
  datatype Verdict = Verdict(accept: bool, refuse: bool, delivery: Delivery)

  function VerdictOf(table: Table, body: seq<byte>): Verdict
  {
    var d := Unescape(body);
    Verdict(MayAccept(table, d), MayRefuse(table, d), Delivered(Filled(d.bytes)))
  }

  type Judge = seq<byte> -> Verdict

  function JudgeOf(table: Table): Judge
  {
    body => VerdictOf(table, body)
  }

  function Verdicts(judge: Judge, bodies: seq<seq<byte>>): (vs: seq<Verdict>)
    ensures |vs| == |bodies|
  {
    seq(|bodies|, i requires 0 <= i < |bodies| => judge(bodies[i]))
  }

  /** Exactly one of the two can happen to a body that decodes: it is accepted if and only if its
      checksum matches. To a body that does not decode both can. */
  lemma VerdictSpec(table: Table, body: seq<byte>)
    ensures var v := VerdictOf(table, body);
            && (Unescape(body).ok <==> v.accept != v.refuse)
            && (Unescape(body).ok ==> (v.accept <==> CheckSumMatches(table, Unescape(body).bytes)))
            && (v.accept || v.refuse)
  {
  }

  /** The result cnt and the deliveries got of the receive loop over bodies with these verdicts,
      something being left over behind the last or not: it reads the bodies up to the first one
      that is refused, and succeeds only if it gets through them all, there is at least one, and
      nothing is left over. */
  predicate ReadAs(vs: seq<Verdict>, leftover: bool, cnt: int, got: seq<Delivery>)
  {
    && |got| <= |vs|
    && (forall i :: 0 <= i < |got| ==> vs[i].accept && vs[i].delivery == got[i])
    && if cnt == -1 then if |got| < |vs| then vs[|got|].refuse else vs == [] || leftover
       else cnt == |got| == |vs| && vs != [] && !leftover
  }

  predicate ParsedBy(judge: Judge, s: seq<byte>, cnt: int, got: seq<Delivery>)
  {
    ReadAs(Verdicts(judge, ScanAll(s)), Tail(s) != [], cnt, got)
  }

  /** The receive loop over the interiors that scanning the buffer s finds. */
  predicate Parsed(table: Table, s: seq<byte>, cnt: int, got: seq<Delivery>)
  {
    ParsedBy(JudgeOf(table), s, cnt, got)
  }

  predicate Sure(v: Verdict)
  {
    v.accept != v.refuse
  }

  predicate AllSure(vs: seq<Verdict>)
  {
    forall i :: 0 <= i < |vs| ==> Sure(vs[i])
  }

  predicate Accepted(v: Verdict)
  {
    v.accept && !v.refuse
  }

  predicate AllAccepted(vs: seq<Verdict>)
  {
    forall i :: 0 <= i < |vs| ==> Accepted(vs[i])
  }

  lemma ReadExactly(vs: seq<Verdict>, leftover: bool, cnt: int, got: seq<Delivery>)
    requires ReadAs(vs, leftover, cnt, got) && AllSure(vs)
    ensures AllAccepted(vs[..|got|]) && (|got| < |vs| ==> cnt == -1)
    ensures cnt == |got| <==> AllAccepted(vs) && vs != [] && !leftover
    ensures |got| < |vs| && (cnt == -1 ==> vs[|got|].refuse) ==> !Accepted(vs[|got|])
    ensures cnt != |got| ==> cnt == -1
  {
    if cnt == |got| {
      assert forall i :: 0 <= i < |vs| ==> Sure(vs[i]) && vs[i].accept;
    }
  }

  predicate AllDecode(bodies: seq<seq<byte>>)
  {
    forall i :: 0 <= i < |bodies| ==> Unescape(bodies[i]).ok
  }

  /** When every interior decodes, what is delivered is the longest prefix that is accepted, and the
      loop succeeds if and only if that is all of them, at least one, and nothing is left over. */
  lemma ParsedExactly(table: Table, s: seq<byte>, cnt: int, got: seq<Delivery>)
    requires Parsed(table, s, cnt, got) && AllDecode(ScanAll(s))
    ensures var vs := Verdicts(JudgeOf(table), ScanAll(s));
            && |got| <= |vs| && AllAccepted(vs[..|got|]) && (|got| < |vs| ==> !Accepted(vs[|got|]))
            && (forall i :: 0 <= i < |got| ==> got[i] == vs[i].delivery)
            && (cnt == |got| <==> AllAccepted(vs) && vs != [] && Tail(s) == [])
            && (cnt != |got| ==> cnt == -1)
  {
    forall i | 0 <= i < |ScanAll(s)|
      ensures Sure(Verdicts(JudgeOf(table), ScanAll(s))[i])
    {
      VerdictSpec(table, ScanAll(s)[i]);
    }
    ReadExactly(Verdicts(JudgeOf(table), ScanAll(s)), Tail(s) != [], cnt, got);
  }

  /** The verdicts on messages packed by PackData. */
  function SentVerdicts(ms: seq<Message>): (vs: seq<Verdict>)
    ensures |vs| == |ms|
  {
    seq(|ms|, i requires 0 <= i < |ms| => Verdict(true, false, AsSent(ms[i])))
  }

  function AllAsSent(ms: seq<Message>): seq<Delivery>
  {
    seq(|ms|, i requires 0 <= i < |ms| => AsSent(ms[i]))
  }

  lemma InteriorVerdict(table: Table, m: Message)
    requires Sendable(m)
    ensures VerdictOf(table, Interior(table, m)) == Verdict(true, false, AsSent(m))
  {
    InteriorIsClean(table, m);
    LengthUnchecked(table, |m.payload| + 6, m);
  }

  lemma InteriorsVerdicts(table: Table, ms: seq<Message>)
    requires AllSendable(ms)
    ensures Verdicts(JudgeOf(table), Interiors(table, ms)) == SentVerdicts(ms)
  {
    FramesAreWire(table, ms);
    forall i | 0 <= i < |ms|
      ensures JudgeOf(table)(Interiors(table, ms)[i]) == SentVerdicts(ms)[i]
    {
      InteriorAt(table, ms, i);
      InteriorVerdict(table, ms[i]);
    }
  }

  lemma {:induction false} InteriorAt(table: Table, ms: seq<Message>, i: nat)
    requires AllSendable(ms) && i < |ms|
    ensures |Interiors(table, ms)| == |ms| && Interiors(table, ms)[i] == Interior(table, ms[i])
  {
    InteriorsLength(table, ms);
    if i > 0 {
      InteriorAt(table, ms[1..], i - 1);
    }
  }

  lemma {:induction false} InteriorsLength(table: Table, ms: seq<Message>)
    requires AllSendable(ms)
    ensures |Interiors(table, ms)| == |ms|
  {
    if ms != [] {
      InteriorsLength(table, ms[1..]);
    }
  }

  lemma VerdictsConcat(judge: Judge, a: seq<seq<byte>>, b: seq<seq<byte>>)
    ensures Verdicts(judge, a + b) == Verdicts(judge, a) + Verdicts(judge, b)
  {
  }

  /** A buffer in which scanning finds the frames of some messages and nothing more is read as
      those messages. */
  lemma ParsesAs(table: Table, s: seq<byte>, ms: seq<Message>, cnt: int, got: seq<Delivery>)
    requires AllSendable(ms) && ms != [] && ScanAll(s) == Interiors(table, ms) && Tail(s) == []
    requires Parsed(table, s, cnt, got)
    ensures cnt == |ms| && got == AllAsSent(ms)
  {
    InteriorsVerdicts(table, ms);
  }

  /** Round trip: the concatenated frames of any messages are read as exactly those messages. */
  lemma StreamRoundTrip(table: Table, ms: seq<Message>, cnt: int, got: seq<Delivery>)
    requires AllSendable(ms) && ms != [] && Parsed(table, Frames(table, ms), cnt, got)
    ensures cnt == |ms| && got == AllAsSent(ms)
  {
    FramesAreWire(table, ms);
    WireScans(Interiors(table, ms));
    ParsesAs(table, Frames(table, ms), ms, cnt, got);
  }

  /** Noise without delimiters, or with one as its last byte, costs no message. */
  lemma NoiseIsSkipped(table: Table, noise: seq<byte>, ms: seq<Message>, cnt: int, got: seq<Delivery>)
    requires AllSendable(ms) && ms != []
    requires forall k :: 0 <= k < |noise| - 1 ==> noise[k] != HEAD
    requires Parsed(table, noise + Frames(table, ms), cnt, got)
    ensures cnt == |ms| && got == AllAsSent(ms)
  {
    FramesAreWire(table, ms);
    ScanAllFrom(noise, Interiors(table, ms));
    ParsesAs(table, noise + Frames(table, ms), ms, cnt, got);
  }

  /** Joining anywhere inside a frame behind its head delivers every following message. */
  lemma JoinDeliversRest(table: Table, m: Message, ms: seq<Message>, k: nat, cnt: int, got: seq<Delivery>)
    requires Sendable(m) && AllSendable(ms) && ms != []
    requires 1 <= k <= |Frame(table, m)|
    requires Parsed(table, (Frame(table, m) + Frames(table, ms))[k..], cnt, got)
    ensures cnt == |ms| && got == AllAsSent(ms)
  {
    var body, bodies := Interior(table, m), Interiors(table, ms);
    FramesAreWire(table, ms);
    InteriorIsClean(table, m);
    WireOfTwo(body, bodies);
    JoinMidFrame(body, bodies, k);
    ParsesAs(table, (Frame(table, m) + Frames(table, ms))[k..], ms, cnt, got);
  }

  lemma WireOfTwo(body: seq<byte>, bodies: seq<seq<byte>>)
    ensures Wire([body] + bodies) == [HEAD] + body + [HEAD] + Wire(bodies)
  {
    assert ([body] + bodies)[1..] == bodies;
  }

  /** Behind any garbage scanning finds every frame but possibly the first, and the loop delivers
      those messages if and only if it accepts everything the garbage delimits before them. */
  lemma GarbageDecides(table: Table, garbage: seq<byte>, ms: seq<Message>, cnt: int, got: seq<Delivery>)
      returns (before: seq<seq<byte>>)
    requires AllSendable(ms) && |ms| > 1
    requires Parsed(table, garbage + Frames(table, ms), cnt, got)
    ensures ScanAll(garbage + Frames(table, ms)) == before + Interiors(table, ms[1..])
    ensures var vs := Verdicts(JudgeOf(table), before);
            && (AllAccepted(vs) ==> cnt != -1)
            && (AllDecode(before) && !AllAccepted(vs) ==> cnt == -1 && |got| < |before|)
    ensures cnt != -1 ==> |got| == |before| + |ms| - 1 && got[|before|..] == AllAsSent(ms[1..])
  {
    FramesAreWire(table, ms);
    before := Resynchronise(garbage, Interiors(table, ms));
    VerdictsConcat(JudgeOf(table), before, Interiors(table, ms[1..]));
    InteriorsVerdicts(table, ms[1..]);
    SentBehind(Verdicts(JudgeOf(table), before), ms[1..], cnt, got);
    if AllDecode(before) {
      forall i | 0 <= i < |before|
        ensures Sure(Verdicts(JudgeOf(table), before)[i])
      {
        VerdictSpec(table, before[i]);
      }
    }
  }

  /** With only sent messages behind them, the bodies in front decide. */
  lemma SentBehind(vs: seq<Verdict>, ms: seq<Message>, cnt: int, got: seq<Delivery>)
    requires ms != [] && ReadAs(vs + SentVerdicts(ms), false, cnt, got)
    ensures AllAccepted(vs) ==> cnt != -1
    ensures AllSure(vs) && !AllAccepted(vs) ==> cnt == -1 && |got| < |vs|
    ensures cnt != -1 ==> |got| == |vs| + |ms| && got[|vs|..] == AllAsSent(ms)
  {
    var all := vs + SentVerdicts(ms);
    assert forall i :: 0 <= i < |vs| ==> all[i] == vs[i];
    assert forall i :: 0 <= i < |ms| ==> all[|vs| + i] == SentVerdicts(ms)[i];
  }

  /** One refused body at the front loses every message behind it. */
  lemma RefusedHidesAll(table: Table, noise: seq<byte>, ms: seq<Message>, cnt: int, got: seq<Delivery>)
    requires AllSendable(ms) && ms != []
    requires HEAD !in noise && |noise| >= 8 && !VerdictOf(table, noise).accept
    requires Parsed(table, [HEAD] + noise + Frames(table, ms), cnt, got)
    ensures cnt == -1 && got == []
  {
    FramesAreWire(table, ms);
    LostBehind(JudgeOf(table), noise, Frames(table, ms), cnt, got);
  }

  /** Such noise exists, whatever the table: of two bodies that differ in their checksum field only
      one at most is accepted. */
  lemma SomeNoiseIsRefused(table: Table) returns (noise: seq<byte>)
    ensures HEAD !in noise && |noise| >= 8 && Unescape(noise).ok && !VerdictOf(table, noise).accept
  {
    var a: seq<byte>, b: seq<byte> := [0, 0, 0, 0, 0, 0, 0, 0], [0, 0, 0, 1, 0, 0, 0, 0];
    assert a[2..4][1] == 0 && b[2..4][1] == 1;
    assert a[4..] == b[4..];
    noise := OneIsRefused(table, a, b);
  }

  lemma OneIsRefused(table: Table, a: seq<byte>, b: seq<byte>) returns (noise: seq<byte>)
    requires |a| == |b| == 8 && a[4..] == b[4..] && a[2..4] != b[2..4]
    requires forall k :: 0 <= k < 8 ==> a[k] < ESC5 && b[k] < ESC5
    ensures |noise| == 8 && (forall k :: 0 <= k < 8 ==> noise[k] < ESC5)
    ensures Unescape(noise).ok && !VerdictOf(table, noise).accept
  {
    PlainBody(a);
    PlainBody(b);
    OneMatches(table, a, b);
    noise := if CheckSumMatches(table, a) then b else a;
  }

  lemma {:induction false} PlainBody(s: seq<byte>)
    requires forall k :: 0 <= k < |s| ==> s[k] < ESC5
    ensures Unescape(s) == Decoded(s, true)
  {
    if s != [] {
      PlainBody(s[1..]);
      assert [s[0]] + s[1..] == s;
    }
  }

  lemma OneMatches(table: Table, a: seq<byte>, b: seq<byte>)
    requires |a| == |b| == 8 && a[4..] == b[4..] && a[2..4] != b[2..4]
    ensures !(CheckSumMatches(table, a) && CheckSumMatches(table, b))
  {
    Padded(a, Zeros(BUFFER_SIZE - |a|));
    Padded(b, Zeros(BUFFER_SIZE - |b|));
    assert a[2] == a[2..4][0] && a[3] == a[2..4][1] && b[2] == b[2..4][0] && b[3] == b[2..4][1];
    assert HeaderOf(a).checkSum != HeaderOf(b).checkSum;
  }

  lemma LostBehind(judge: Judge, noise: seq<byte>, frames: seq<byte>, cnt: int, got: seq<Delivery>)
    requires HEAD !in noise && |noise| >= 8 && !judge(noise).accept && frames != [] && frames[0] == HEAD
    requires ParsedBy(judge, [HEAD] + noise + frames, cnt, got)
    ensures cnt == -1 && got == []
  {
    var s := [HEAD] + noise + frames;
    assert s == [] + ([HEAD] + noise + [HEAD] + frames[1..]);
    FrameInside(s, [], noise, frames[1..]);
    FrontRefused(judge, s, noise, cnt, got);
  }

  lemma FrontRefused(judge: Judge, s: seq<byte>, noise: seq<byte>, cnt: int, got: seq<Delivery>)
    requires IsFrame(s, 0, |noise| + 1) && s[1..|noise| + 1] == noise && !judge(noise).accept
    requires ParsedBy(judge, s, cnt, got)
    ensures cnt == -1 && got == []
  {
    FrontBody(s, noise);
    assert Verdicts(judge, ScanAll(s))[0] == judge(noise);
  }

  lemma FrontBody(s: seq<byte>, noise: seq<byte>)
    requires IsFrame(s, 0, |noise| + 1) && s[1..|noise| + 1] == noise
    ensures ScanAll(s) != [] && ScanAll(s)[0] == noise
  {
    FirstScan(s, [], |noise| + 1);
    CutStep(s, noise, s[|noise| + 2..]);
  }

  // The loop --------------------------------------------------------------------------------------

  /** What one read of the rest of a buffer does. */
  predicate Round(judge: Judge, rest: seq<byte>, r: int, left: int, got: Delivery)
  {
    match CutFront(rest)
    case Nothing => r < 0 && left == |rest|
    case Front(body, behind) =>
      left == |behind| && if r < 0 then judge(body).refuse else judge(body).accept && judge(body).delivery == got
  }

  /** One read of the bytes rest, which are those of data from position at on. */
  method ReceiveOne(p: Protocol, data: array<byte>, at: nat, len: nat, ghost rest: seq<byte>)
      returns (r: int, left: int, got: Delivery)
    requires p.Valid() && p.buffer != data
    requires at + len <= data.Length && len <= BUFFER_SIZE && data[at..at + len] == rest
    modifies p, p.buffer
    ensures p.Valid() && Round(JudgeOf(p.table), rest, r, left, got)
  {
    ghost var was := p.Fields();
    FitsBuffer(rest);
    r, left := p.UnPackData(data, at, len, len);
    got := p.Shown();
    ReadRound(p, rest, r, left, was);
  }

  /** What UnPackData promises, as a round. */
  lemma ReadRound(p: Protocol, s: seq<byte>, r: int, left: int, was: (u16, u16, array?<byte>, nat, u16))
    requires p.Valid() && |s| <= BUFFER_SIZE
    requires match Scan(s)
             case None => r == -1 && left == |s|
             case Some(f) => left == |s| - f.end - 1 && p.HasRead(Unescape(s[f.start + 1..f.end]), r, was)
    ensures Round(JudgeOf(p.table), s, r, left, p.Shown())
  {
    FitsBuffer(s);
    if Scan(s).Some? {
      ReadVerdict(p, CutFront(s).body, r, was);
    }
  }

  lemma FitsBuffer(s: seq<byte>)
    requires |s| <= BUFFER_SIZE
    ensures match Scan(s)
            case None => true
            case Some(f) => |Unescape(s[f.start + 1..f.end]).bytes| <= BUFFER_SIZE
  {
    if Scan(s).Some? {
      UnescapeLength(s[Scan(s).value.start + 1..Scan(s).value.end]);
    }
  }

  lemma ReadVerdict(p: Protocol, body: seq<byte>, r: int, was: (u16, u16, array?<byte>, nat, u16))
    requires p.Valid() && |Unescape(body).bytes| <= BUFFER_SIZE && p.HasRead(Unescape(body), r, was)
    ensures var v := VerdictOf(p.table, body);
            if r < 0 then v.refuse else v.accept && v.delivery == p.Shown()
  {
    if r >= 0 {
      ShowsDelivered(p, Filled(Unescape(body).bytes), r, was);
    }
  }

  lemma ShowsDelivered(p: Protocol, buf: seq<byte>, r: int, was: (u16, u16, array?<byte>, nat, u16))
    requires p.Valid() && |buf| == BUFFER_SIZE && p.buffer[..] == buf && p.HasFields(HeaderOf(buf), r, was) && r >= 0
    ensures p.Shown() == Delivered(buf)
  {
    var n := p.dataLength;
    assert buf[8..8] == [];
    if 8 + n <= BUFFER_SIZE {
      assert p.buffer[8..8 + n] == buf[8..8 + n];
    }
  }

  /** The verdicts done are in front of those ahead, and got is what they delivered. */
  predicate Progress(all: seq<Verdict>, ahead: seq<Verdict>, done: seq<Verdict>, got: seq<Delivery>)
  {
    && all == done + ahead && |done| == |got|
    && forall i :: 0 <= i < |got| ==> done[i].accept && done[i].delivery == got[i]
  }

  lemma Progresses(all: seq<Verdict>, ahead: seq<Verdict>, v: Verdict, more: seq<Verdict>, done: seq<Verdict>,
                   got: seq<Delivery>)
    requires Progress(all, ahead, done, got) && ahead == [v] + more && v.accept
    ensures Progress(all, more, done + [v], got + [v.delivery])
  {
  }

  lemma NextVerdict(judge: Judge, rest: seq<byte>, body: seq<byte>, behind: seq<byte>)
    requires CutFront(rest) == Front(body, behind)
    ensures Verdicts(judge, ScanAll(rest)) == [judge(body)] + Verdicts(judge, ScanAll(behind))
    ensures Tail(rest) == Tail(behind)
  {
    CutStep(rest, body, behind);
    VerdictsCons(judge, ScanAll(rest), body, ScanAll(behind));
  }

  lemma VerdictsCons(judge: Judge, all: seq<seq<byte>>, body: seq<byte>, more: seq<seq<byte>>)
    requires all == [body] + more
    ensures Verdicts(judge, all) == [judge(body)] + Verdicts(judge, more)
  {
  }

  lemma Accepts(judge: Judge, rest: seq<byte>, body: seq<byte>, behind: seq<byte>, all: seq<Verdict>,
                done: seq<Verdict>, got: seq<Delivery>)
    requires Progress(all, Verdicts(judge, ScanAll(rest)), done, got)
    requires CutFront(rest) == Front(body, behind) && judge(body).accept
    ensures Progress(all, Verdicts(judge, ScanAll(behind)), done + [judge(body)], got + [judge(body).delivery])
    ensures Tail(behind) == Tail(rest)
  {
    NextVerdict(judge, rest, body, behind);
    Progresses(all, Verdicts(judge, ScanAll(rest)), judge(body), Verdicts(judge, ScanAll(behind)), done, got);
  }

  lemma Continues(judge: Judge, rest: seq<byte>, r: int, left: int, g: Delivery, all: seq<Verdict>,
                  done: seq<Verdict>, got: seq<Delivery>) returns (done': seq<Verdict>, behind: seq<byte>)
    requires Progress(all, Verdicts(judge, ScanAll(rest)), done, got)
    requires Round(judge, rest, r, left, g) && r >= 0
    ensures Progress(all, Verdicts(judge, ScanAll(behind)), done', got + [g]) && Tail(behind) == Tail(rest)
    ensures left < |rest| && behind == rest[|rest| - left..]
  {
    var body;
    body, behind := RoundFront(judge, rest, r, left, g);
    done' := done + [judge(body)];
    Accepts(judge, rest, body, behind, all, done, got);
  }

  lemma RoundFront(judge: Judge, rest: seq<byte>, r: int, left: int, g: Delivery)
      returns (body: seq<byte>, behind: seq<byte>)
    requires Round(judge, rest, r, left, g) && r >= 0
    ensures CutFront(rest) == Front(body, behind) && judge(body).accept && judge(body).delivery == g
    ensures left < |rest| && behind == rest[|rest| - left..]
  {
    body, behind := CutFront(rest).body, CutFront(rest).behind;
  }

  lemma Refuses(judge: Judge, rest: seq<byte>, r: int, left: int, g: Delivery, all: seq<Verdict>,
                done: seq<Verdict>, got: seq<Delivery>)
    requires Progress(all, Verdicts(judge, ScanAll(rest)), done, got) && (got == [] || rest != [])
    requires Round(judge, rest, r, left, g) && r < 0
    ensures ReadAs(all, Tail(rest) != [], -1, got)
  {
    match CutFront(rest)
    case Front(body, behind) =>
      NextVerdict(judge, rest, body, behind);
      RefusesAhead(all, Verdicts(judge, ScanAll(rest)), judge(body), Verdicts(judge, ScanAll(behind)),
                   Tail(rest) != [], done, got);
    case Nothing =>
      EndsEarly(all, Verdicts(judge, ScanAll(rest)), Tail(rest) != [], done, got);
  }

  lemma EndsEarly(all: seq<Verdict>, ahead: seq<Verdict>, leftover: bool, done: seq<Verdict>, got: seq<Delivery>)
    requires Progress(all, ahead, done, got) && ahead == [] && (got == [] || leftover)
    ensures ReadAs(all, leftover, -1, got)
  {
    assert all == done;
  }

  lemma RefusesAhead(all: seq<Verdict>, ahead: seq<Verdict>, v: Verdict, more: seq<Verdict>, leftover: bool,
                     done: seq<Verdict>, got: seq<Delivery>)
    requires Progress(all, ahead, done, got) && ahead == [v] + more && v.refuse
    ensures ReadAs(all, leftover, -1, got)
  {
    assert all[|got|] == v;
  }

  lemma Finishes(judge: Judge, bytes: seq<byte>, len: nat, rest: seq<byte>, all: seq<Verdict>, tail: seq<byte>,
                 done: seq<Verdict>, got: seq<Delivery>)
    requires AtRest(judge, bytes, len, 0, rest, all, tail, done, got) && got != []
    ensures ReadAs(all, tail != [], |got|, got)
  {
    assert all == done;
  }

  /** The receive loop of ParseReceiveData in controler/AgvScheduler.cpp, collecting what it
      dispatches. */
  method ParseReceiveData(p: Protocol, data: array<byte>, len: nat)
      returns (cnt: int, got: seq<Delivery>)
    requires p.Valid() && p.buffer != data
    requires len <= data.Length && len <= BUFFER_SIZE
    modifies p, p.buffer
    ensures Parsed(p.table, old(data[..])[..len], cnt, got)
  {
    ghost var bytes, judge := data[..], JudgeOf(p.table);
    ghost var rest := bytes[..len];
    AtStart(judge, bytes, len);
    cnt, got := ReceiveAll(p, data, len, bytes, rest, Verdicts(judge, ScanAll(rest)), Tail(rest));
  }

  lemma AtStart(judge: Judge, bytes: seq<byte>, len: nat)
    requires len <= |bytes|
    ensures var s := bytes[..len];
            AtRest(judge, bytes, len, len, s, Verdicts(judge, ScanAll(s)), Tail(s), [], [])
  {
    var vs := Verdicts(judge, ScanAll(bytes[..len]));
    assert [] + vs == vs;
  }

  /** The loop. */
  method ReceiveAll(p: Protocol, data: array<byte>, len: nat, ghost bytes: seq<byte>, ghost start: seq<byte>,
                    ghost all: seq<Verdict>, ghost tail: seq<byte>)
      returns (cnt: int, got: seq<Delivery>)
    requires p.Valid() && p.buffer != data && len <= data.Length == |bytes| && len <= BUFFER_SIZE
    requires forall k :: 0 <= k < len ==> data[k] == bytes[k]
    requires AtRest(JudgeOf(p.table), bytes, len, len, start, all, tail, [], [])
    modifies p, p.buffer
    ensures ReadAs(all, tail != [], cnt, got)
  {
    ghost var rest, done := start, [];
    var left: nat := len;
    cnt, got := 0, [];
    while true
      invariant p.Valid() && left <= len && (got == [] || left > 0) && cnt == |got|
      invariant forall k :: 0 <= k < len ==> data[k] == bytes[k]
      invariant AtRest(JudgeOf(p.table), bytes, len, left, rest, all, tail, done, got)
      decreases left
    {
      var r, left', g;
      r, left', g, rest, done := ReceiveNext(p, data, len, left, bytes, rest, all, tail, done, got);
      if r < 0 {
        return -1, got;
      }
      left := left';
      cnt := cnt + 1;
      got := got + [g];
      if !(left > 0) {
        break;
      }
    }
    Finishes(JudgeOf(p.table), bytes, len, rest, all, tail, done, got);
  }

  /** One round of the loop: it is over, or one delivery further. */
  method ReceiveNext(p: Protocol, data: array<byte>, len: nat, left: nat, ghost bytes: seq<byte>,
                     ghost rest: seq<byte>, ghost all: seq<Verdict>, ghost tail: seq<byte>,
                     ghost done: seq<Verdict>, ghost got: seq<Delivery>)
      returns (r: int, left': int, g: Delivery, ghost rest': seq<byte>, ghost done': seq<Verdict>)
    requires p.Valid() && p.buffer != data && len <= data.Length == |bytes| && len <= BUFFER_SIZE
    requires forall k :: 0 <= k < len ==> data[k] == bytes[k]
    requires AtRest(JudgeOf(p.table), bytes, len, left, rest, all, tail, done, got) && (got == [] || left > 0)
    modifies p, p.buffer
    ensures p.Valid()
    ensures r < 0 ==> ReadAs(all, tail != [], -1, got)
    ensures r >= 0 ==>
              0 <= left' < left
              && AtRest(JudgeOf(p.table), bytes, len, left', rest', all, tail, done', got + [g])
  {
    rest', done' := rest, done;
    r, left', g := ReceiveOne(p, data, len - left, left, rest);
    if r < 0 {
      Refuses(JudgeOf(p.table), rest, r, left', g, all, done, got);
    } else {
      rest', done' := Advance(JudgeOf(p.table), bytes, len, left, rest, all, tail, done, got, r, left', g);
    }
  }

  /** The state of the loop when left bytes, rest, are still to be read. */
  ghost predicate AtRest(judge: Judge, bytes: seq<byte>, len: nat, left: nat, rest: seq<byte>, all: seq<Verdict>,
                         tail: seq<byte>, done: seq<Verdict>, got: seq<Delivery>)
  {
    && left <= len <= |bytes| && rest == bytes[len - left..len]
    && Progress(all, Verdicts(judge, ScanAll(rest)), done, got) && Tail(rest) == tail
  }

  lemma Advance(judge: Judge, bytes: seq<byte>, len: nat, left: nat, rest: seq<byte>, all: seq<Verdict>,
                tail: seq<byte>, done: seq<Verdict>, got: seq<Delivery>, r: int, left': int, g: Delivery)
      returns (rest': seq<byte>, done': seq<Verdict>)
    requires AtRest(judge, bytes, len, left, rest, all, tail, done, got)
    requires Round(judge, rest, r, left', g) && r >= 0
    ensures 0 <= left' < left && AtRest(judge, bytes, len, left', rest', all, tail, done', got + [g])
  {
    done', rest' := Continues(judge, rest, r, left', g, all, done, got);
    SliceBehind(bytes, len - left, len, left - left');
  }

  lemma SliceBehind(bytes: seq<byte>, from: nat, to: nat, k: nat)
    requires from <= to <= |bytes| && k <= to - from
    ensures bytes[from..to][k..] == bytes[from + k..to]
  {
  }
}
