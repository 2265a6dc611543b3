/** Self-synchronisation of the delimiter scan on streams of frames and garbage. */
module Resync {
  import opened Options
  import opened Bytes
  import opened EscapeCodec
  import opened FrameScanner

  /** An escaped frame interior: free of delimiters, at least the eight header bytes long. */
  ghost predicate Clean(body: seq<byte>)
  {
    HEAD !in body && |body| >= 8
  }

  ghost predicate AllClean(bodies: seq<seq<byte>>)
  {
    forall b :: b in bodies ==> Clean(b)
  }

  function Wire(bodies: seq<seq<byte>>): seq<byte>
  {
    if bodies == [] then [] else [HEAD] + bodies[0] + [HEAD] + Wire(bodies[1..])
  }

  /** The first frame of a buffer: its interior and what is behind it. */
  datatype Cut = Nothing | Front(body: seq<byte>, behind: seq<byte>)

  function CutFront(s: seq<byte>): (c: Cut)
    ensures c.Front? ==> |c.behind| < |s|
  {
    match Scan(s)
    case None => Nothing
    case Some(f) => Front(s[f.start + 1..f.end], s[f.end + 1..])
  }

  /** Interiors found by scanning again and again, each time behind the last frame. */
  function ScanAll(s: seq<byte>): seq<seq<byte>>
    decreases |s|
  {
    match CutFront(s)
    case Nothing => []
    case Front(body, behind) => [body] + ScanAll(behind)
  }

  /** What is left over when no further frame is found. */
  function Tail(s: seq<byte>): seq<byte>
    decreases |s|
  {
    match CutFront(s)
    case Nothing => s
    case Front(_, behind) => Tail(behind)
  }

  lemma CutStep(s: seq<byte>, body: seq<byte>, behind: seq<byte>)
    requires CutFront(s) == Front(body, behind)
    ensures ScanAll(s) == [body] + ScanAll(behind) && Tail(s) == Tail(behind)
  {
  }

  lemma ScanAllStep(s: seq<byte>, f: Span, rest: seq<byte>)
    requires Scan(s) == Some(f) && s[f.end + 1..] == rest
    ensures ScanAll(s) == [s[f.start + 1..f.end]] + ScanAll(rest) && Tail(s) == Tail(rest)
  {
    CutStep(s, s[f.start + 1..f.end], rest);
  }

  lemma FirstFrame(s: seq<byte>, noise: seq<byte>, bodies: seq<seq<byte>>)
    requires bodies != [] && AllClean(bodies) && s == noise + Wire(bodies)
    ensures var h, t := |noise|, |noise| + |bodies[0]| + 1;
            && IsFrame(s, h, t)
            && s[..h] == noise
            && s[h + 1..t] == bodies[0]
            && s[t + 1..] == Wire(bodies[1..])
            && s[h + 1..] == bodies[0] + [HEAD] + Wire(bodies[1..])
  {
    assert Clean(bodies[0]);
    FrameInside(s, noise, bodies[0], Wire(bodies[1..]));
  }

  lemma FrameInside(s: seq<byte>, noise: seq<byte>, body: seq<byte>, rest: seq<byte>)
    requires HEAD !in body && |body| >= 8 && s == noise + ([HEAD] + body + [HEAD] + rest)
    ensures var h, t := |noise|, |noise| + |body| + 1;
            && IsFrame(s, h, t)
            && s[..h] == noise && s[h + 1..t] == body && s[t + 1..] == rest
            && s[h + 1..] == body + [HEAD] + rest
  {
    var h, t := |noise|, |noise| + |body| + 1;
    forall k | h < k < t
      ensures s[k] != HEAD
    {
      assert s[k] == s[h + 1..t][k - h - 1];
    }
  }

  lemma {:induction false} WireScans(bodies: seq<seq<byte>>)
    requires AllClean(bodies)
    ensures ScanAll(Wire(bodies)) == bodies && Tail(Wire(bodies)) == []
  {
    if bodies == [] {
      NoFrame([]);
    } else {
      var rest := bodies[1..];
      WireScans(rest);
      WireAhead(bodies);
      ScanAllStep(Wire(bodies), Span(0, |bodies[0]| + 1), Wire(rest));
    }
  }

  /** Scanning ahead of whole frames: noise without delimiters, or up to one final delimiter such
      as the tail of a frame joined midway, costs none of them. */
  lemma ScanAllFrom(noise: seq<byte>, bodies: seq<seq<byte>>)
    requires AllClean(bodies)
    requires forall k :: 0 <= k < |noise| - 1 ==> noise[k] != HEAD
    ensures ScanAll(noise + Wire(bodies)) == bodies
    ensures Tail(noise + Wire(bodies)) == if bodies == [] then noise else []
  {
    if bodies == [] {
      assert noise + Wire(bodies) == noise;
      NoFrame(noise);
    } else {
      FrameAhead(noise, bodies);
      WireScans(bodies[1..]);
    }
  }

  lemma NoFrame(noise: seq<byte>)
    requires forall k :: 0 <= k < |noise| - 1 ==> noise[k] != HEAD
    ensures ScanAll(noise) == [] && Tail(noise) == noise
  {
    ScanSpec(noise);
  }

  lemma FrameAhead(noise: seq<byte>, bodies: seq<seq<byte>>)
    requires bodies != [] && AllClean(bodies)
    requires forall k :: 0 <= k < |noise| - 1 ==> noise[k] != HEAD
    ensures var s, rest := noise + Wire(bodies), Wire(bodies[1..]);
            ScanAll(s) == [bodies[0]] + ScanAll(rest) && Tail(s) == Tail(rest)
  {
    var body, rest := bodies[0], Wire(bodies[1..]);
    assert Clean(body);
    assert Wire(bodies) == [HEAD] + body + [HEAD] + rest;
    OneAhead(noise + Wire(bodies), noise, body, rest);
  }

  lemma OneAhead(s: seq<byte>, noise: seq<byte>, body: seq<byte>, rest: seq<byte>)
    requires HEAD !in body && |body| >= 8 && s == noise + ([HEAD] + body + [HEAD] + rest)
    requires forall k :: 0 <= k < |noise| - 1 ==> noise[k] != HEAD
    ensures ScanAll(s) == [body] + ScanAll(rest) && Tail(s) == Tail(rest)
  {
    FrameInside(s, noise, body, rest);
    FirstScan(s, noise, |noise| + |body| + 1);
    CutStep(s, body, rest);
  }

  lemma FirstScan(s: seq<byte>, noise: seq<byte>, t: nat)
    requires IsFrame(s, |noise|, t) && s[..|noise|] == noise
    requires forall k :: 0 <= k < |noise| - 1 ==> noise[k] != HEAD
    ensures Scan(s) == Some(Span(|noise|, t))
  {
    forall k | 0 <= k < |noise| - 1
      ensures s[k] != HEAD
    {
      assert s[..|noise|][k] == noise[k];
    }
    ScanFinds(s, |noise|, t);
  }

  /** Joining anywhere inside a frame behind its head loses that frame only. */
  lemma JoinMidFrame(body: seq<byte>, bodies: seq<seq<byte>>, k: nat)
    requires Clean(body) && AllClean(bodies)
    requires 1 <= k <= |body| + 2
    ensures ScanAll(Wire([body] + bodies)[k..]) == bodies
    ensures bodies != [] ==> Tail(Wire([body] + bodies)[k..]) == []
  {
    var part := ([HEAD] + body + [HEAD])[k..];
    assert ([body] + bodies)[1..] == bodies;
    assert Wire([body] + bodies)[k..] == part + Wire(bodies);
    assert forall i :: 0 <= i < |part| - 1 ==> part[i] == body[i + k - 1];
    ScanAllFrom(part, bodies);
  }

  lemma WireAhead(bodies: seq<seq<byte>>)
    requires bodies != [] && AllClean(bodies)
    ensures var s, n := Wire(bodies), |bodies[0]| + 1;
            && Scan(s) == Some(Span(0, n))
            && s[1..n] == bodies[0]
            && s[n + 1..] == Wire(bodies[1..])
  {
    var s, body, n := Wire(bodies), bodies[0], |bodies[0]| + 1;
    assert Clean(body);
    assert s == [HEAD] + body + [HEAD] + Wire(bodies[1..]);
    assert forall k :: 0 < k < n ==> s[k] == body[k - 1];
    assert IsFrame(s, 0, n);
    ScanFinds(s, 0, n);
  }

  /** Where one scan over garbage ends: inside it, at the first head, or at the first tail. */
  lemma GarbageEnd(garbage: seq<byte>, bodies: seq<seq<byte>>)
    requires bodies != [] && AllClean(bodies)
    ensures var s, h, t := garbage + Wire(bodies), |garbage|, |garbage| + |bodies[0]| + 1;
            Scan(s).Some? && (Scan(s).value.end <= h || Scan(s).value.end == t)
  {
    var s := garbage + Wire(bodies);
    var h, t := |garbage|, |garbage| + |bodies[0]| + 1;
    FirstFrame(s, garbage, bodies);
    ScanSpec(s);
    var f := Scan(s).value;
    FramesDoNotNest(s, f.start, f.end, h, t);
    assert s[f.end] == HEAD;
  }

  /** What such a scan cuts off: garbage only, up to the first head, or up to the first tail. */
  lemma GarbageStep(garbage: seq<byte>, bodies: seq<seq<byte>>) returns (body: seq<byte>, e: nat)
    requires bodies != [] && AllClean(bodies)
    ensures e <= |garbage| || e == |garbage| + |bodies[0]| + 1
    ensures CutFront(garbage + Wire(bodies)) ==
              Front(body, if e < |garbage| then garbage[e + 1..] + Wire(bodies)
                          else if e == |garbage| then bodies[0] + [HEAD] + Wire(bodies[1..])
                          else Wire(bodies[1..]))
  {
    var s := garbage + Wire(bodies);
    GarbageEnd(garbage, bodies);
    FirstFrame(s, garbage, bodies);
    var f := Scan(s).value;
    body, e := s[f.start + 1..f.end], f.end;
  }

  /** Self-synchronisation: after any garbage at most the first frame is lost; what repeated
      scanning returns ends with every later frame, behind whatever the garbage itself delimits. */
  lemma {:induction false} Resynchronise(garbage: seq<byte>, bodies: seq<seq<byte>>)
      returns (before: seq<seq<byte>>)
    requires bodies != [] && AllClean(bodies)
    ensures ScanAll(garbage + Wire(bodies)) == before + bodies[1..]
    ensures |bodies| > 1 ==> Tail(garbage + Wire(bodies)) == []
    decreases |garbage|
  {
    var body, e := GarbageStep(garbage, bodies);
    var more := [];
    if e < |garbage| {
      more := Resynchronise(garbage[e + 1..], bodies);
    } else {
      AfterGarbage(bodies, e == |garbage|);
    }
    before := Behind(garbage + Wire(bodies), body, CutFront(garbage + Wire(bodies)).behind, more, bodies[1..]);
  }

  lemma Behind(s: seq<byte>, body: seq<byte>, behind: seq<byte>, more: seq<seq<byte>>, last: seq<seq<byte>>)
      returns (before: seq<seq<byte>>)
    requires CutFront(s) == Front(body, behind) && ScanAll(behind) == more + last
    ensures ScanAll(s) == before + last && Tail(s) == Tail(behind)
  {
    CutStep(s, body, behind);
    before := [body] + more;
    assert before + last == [body] + (more + last);
  }

  /** Behind the garbage the scan is either inside the first frame or right behind it. */
  lemma AfterGarbage(bodies: seq<seq<byte>>, inside: bool)
    requires bodies != [] && AllClean(bodies)
    ensures var s := if inside then bodies[0] + [HEAD] + Wire(bodies[1..]) else Wire(bodies[1..]);
            ScanAll(s) == [] + bodies[1..] && (|bodies| > 1 ==> Tail(s) == [])
  {
    if inside {
      InsideFirst(bodies[0], bodies[1..]);
    } else {
      WireScans(bodies[1..]);
    }
  }

  lemma InsideFirst(body: seq<byte>, bodies: seq<seq<byte>>)
    requires Clean(body) && AllClean(bodies)
    ensures var s := body + [HEAD] + Wire(bodies);
            ScanAll(s) == bodies && (bodies != [] ==> Tail(s) == [])
  {
    ScanAllFrom(body + [HEAD], bodies);
  }

  /** Losing the first frame does happen: garbage with a lone delimiter swallows its head. */
  lemma FirstFrameCanBeLost(noise: seq<byte>, body: seq<byte>)
    requires HEAD !in noise && |noise| >= 8 && Clean(body)
    ensures ScanAll([HEAD] + noise + Wire([body])) == [noise]
  {
    var rest := body + [HEAD];
    assert Wire([body]) == [HEAD] + body + [HEAD] + Wire([body][1..]) == [HEAD] + rest;
    assert [HEAD] + noise + Wire([body]) == [HEAD] + noise + [HEAD] + rest;
    assert Clean(body);
    OnlyNoise(noise, rest);
  }

  lemma OnlyNoise(noise: seq<byte>, rest: seq<byte>)
    requires HEAD !in noise && |noise| >= 8
    requires forall k :: 0 <= k < |rest| - 1 ==> rest[k] != HEAD
    ensures ScanAll([HEAD] + noise + [HEAD] + rest) == [noise]
  {
    var s := [HEAD] + noise + [HEAD] + rest;
    FrontFrame(s, noise, rest);
    OneFrame(s, noise, rest);
  }

  lemma FrontFrame(s: seq<byte>, noise: seq<byte>, rest: seq<byte>)
    requires HEAD !in noise && |noise| >= 8 && s == [HEAD] + noise + [HEAD] + rest
    ensures IsFrame(s, 0, |noise| + 1) && s[1..|noise| + 1] == noise && s[|noise| + 2..] == rest
  {
    var n := |noise| + 1;
    assert s[0] == HEAD && s[n] == HEAD;
    forall k | 0 < k < n
      ensures s[k] != HEAD
    {
      assert s[k] == noise[k - 1];
    }
  }

  lemma OneFrame(s: seq<byte>, noise: seq<byte>, rest: seq<byte>)
    requires IsFrame(s, 0, |noise| + 1) && s[1..|noise| + 1] == noise && s[|noise| + 2..] == rest
    requires forall k :: 0 <= k < |rest| - 1 ==> rest[k] != HEAD
    ensures ScanAll(s) == [noise]
  {
    ScanFinds(s, 0, |noise| + 1);
    ScanAllFrom(rest, []);
    assert rest + Wire([]) == rest;
    ScanAllStep(s, Span(0, |noise| + 1), rest);
  }
}
