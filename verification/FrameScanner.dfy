/** Frame delimiting: CheckProtocol of comm/AgvSchProtocol.cpp. */
module FrameScanner {
  import opened Options
  import opened Bytes
  import opened EscapeCodec

  /** Delimiters at h and t with nothing but non-delimiters between them, more than 8 apart. */
  ghost predicate IsFrame(s: seq<byte>, h: int, t: int)
  {
    && 0 <= h && h + 8 < t < |s|
    && s[h] == HEAD && s[t] == HEAD
    && forall k :: h < k < t ==> s[k] != HEAD
  }

  datatype Span = Span(start: nat, end: nat)

  /** The scan from position i on, the last delimiter seen being at hi (or none when negative). */
  function ScanFrom(s: seq<byte>, i: nat, hi: int): (r: Option<Span>)
    requires i <= |s| && hi < i
    ensures r.Some? ==> r.value.start + 8 < r.value.end < |s|
    decreases |s| - i
  {
    if i == |s| then None
    else if s[i] != HEAD then ScanFrom(s, i + 1, hi)
    else if hi >= 0 && i - hi > 8 then Some(Span(hi, i))
    else ScanFrom(s, i + 1, i)
  }

  function Scan(s: seq<byte>): (r: Option<Span>)
    ensures r.Some? ==> r.value.start + 8 < r.value.end < |s|
  {
    if |s| < 10 then None else ScanFrom(s, 0, -1)
  }

  lemma {:induction false} ScanFromSpec(s: seq<byte>, i: nat, hi: int)
    requires i <= |s| && -1 <= hi < i
    requires hi >= 0 ==> s[hi] == HEAD
    requires forall k :: hi < k < i ==> s[k] != HEAD
    ensures match ScanFrom(s, i, hi)
            case None => forall h, t :: IsFrame(s, h, t) ==> t < i
            case Some(f) => IsFrame(s, f.start, f.end) && f.end >= i
                            && forall h, t :: IsFrame(s, h, t) && t >= i ==> f.end <= t
    decreases |s| - i
  {
    if i < |s| {
      if s[i] != HEAD {
        ScanFromSpec(s, i + 1, hi);
      } else if !(hi >= 0 && i - hi > 8) {
        ScanFromSpec(s, i + 1, i);
        assert hi >= 0 ==> s[hi] == HEAD;
      }
    }
  }

  /** The scan finds a frame exactly when the buffer holds one, and then the leftmost one. */
  lemma ScanSpec(s: seq<byte>)
    ensures Scan(s).Some? <==> exists h, t :: IsFrame(s, h, t)
    ensures match Scan(s)
            case None => true
            case Some(f) =>
              IsFrame(s, f.start, f.end)
              && forall h, t :: IsFrame(s, h, t) ==> f.start <= h && f.end <= t
  {
    if |s| >= 10 {
      ScanFromSpec(s, 0, -1);
      match Scan(s)
      case None =>
      case Some(f) =>
        forall h, t | IsFrame(s, h, t)
          ensures f.start <= h
        {
          FramesDoNotNest(s, f.start, f.end, h, t);
        }
    }
  }

  /** Text without a delimiter, put between two, is found if and only if it has at least the 8 bytes of
      a header. */
  lemma BodyIsFound(body: seq<byte>)
    requires HEAD !in body
    ensures Scan([HEAD] + body + [HEAD]).Some? <==> |body| >= 8
  {
    var s := [HEAD] + body + [HEAD];
    ScanSpec(s);
    assert forall k :: 0 < k <= |body| ==> s[k] == body[k - 1];
    if |body| >= 8 {
      assert IsFrame(s, 0, |body| + 1);
    }
  }

  lemma FramesDoNotNest(s: seq<byte>, h: int, t: int, h': int, t': int)
    requires IsFrame(s, h, t) && IsFrame(s, h', t') && t <= t'
    ensures h <= h' && (t == t' ==> h == h')
  {
  }

  /** A frame is what the scan finds when at most one delimiter, the one right at its head,
      comes before it. */
  lemma ScanFinds(s: seq<byte>, h: nat, t: nat)
    requires IsFrame(s, h, t)
    requires forall k :: 0 <= k < h - 1 ==> s[k] != HEAD
    ensures Scan(s) == Some(Span(h, t))
  {
    ScanSpec(s);
    var f := Scan(s).value;
    FramesDoNotNest(s, f.start, f.end, h, t);
    assert s[f.start] == HEAD && s[f.end] == HEAD;
  }

  method CheckProtocol(buf: array?<byte>, at: nat, len: nat) returns (ok: bool, start: int, end: int)
    requires buf != null ==> at + len <= buf.Length
    ensures buf == null ==> !ok
    ensures buf != null ==>
              match Scan(buf[at..at + len])
              case None => !ok
              case Some(f) => ok && start == f.start && end == f.end
  {
    start, end := -1, -1;
    if buf == null || len < 10 {
      return false, start, end;
    }
    ghost var s := buf[at..at + len];
    var hi, ti := -1, -1;
    var i := 0;
    while i < len
      invariant 0 <= i <= len && -1 <= hi < i
      invariant ti == -1
      invariant ScanFrom(s, 0, -1) == ScanFrom(s, i, hi)
    {
      assert s[i] == buf[at + i];
      ghost var was := hi;
      if hi < 0 && buf[at + i] == HEAD {
        hi := i;
      }
      if hi >= 0 && ti < 0 && buf[at + i] == HEAD {
        if i - hi > 8 {
          ti := i;
          break;
        } else {
          hi := i;
        }
      }
      i := i + 1;
    }
    if ti - hi > 8 {
      return true, hi, ti;
    }
    return false, start, end;
  }
}
