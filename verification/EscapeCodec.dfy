/** Byte stuffing: encode and decode of comm/AgvSchProtocol.cpp. */
module EscapeCodec {
  import opened Bytes

  const HEAD: byte := 0xFF
  const ESC5: byte := 0x85
  const ESC6: byte := 0x86

  function EscapeByte(b: byte): seq<byte>
  {
    if b == HEAD then [ESC5, ESC6]
    else if b == ESC5 then [ESC5, ESC5]
    else if b == ESC6 then [ESC6, ESC6]
    else [b]
  }

  function Escape(s: seq<byte>): seq<byte>
  {
    if s == [] then [] else EscapeByte(s[0]) + Escape(s[1..])
  }

  /** What decode has written, and whether it reached the end of its input. */
  datatype Decoded = Decoded(bytes: seq<byte>, ok: bool)

  function Prepend(s: seq<byte>, d: Decoded): Decoded
  {
    Decoded(s + d.bytes, d.ok)
  }

  function Unescape(t: seq<byte>): Decoded
  {
    if t == [] then Decoded([], true)
    else if t[0] == ESC5 then
      if |t| == 1 then Decoded([], false)
      else if t[1] == ESC5 then Prepend([ESC5], Unescape(t[2..]))
      else if t[1] == ESC6 then Prepend([HEAD], Unescape(t[2..]))
      else Decoded([], false)
    else if t[0] == ESC6 then
      if |t| > 1 && t[1] == ESC6 then Prepend([ESC6], Unescape(t[2..])) else Decoded([], false)
    else Prepend([t[0]], Unescape(t[1..]))
  }

  /** Encoding hides every frame delimiter and at most doubles the length. */
  lemma {:induction false} EscapeHidesHead(s: seq<byte>)
    ensures HEAD !in Escape(s)
    ensures |s| <= |Escape(s)| <= 2 * |s|
  {
    if s != [] {
      EscapeHidesHead(s[1..]);
    }
  }

  /** decode is a left inverse of encode, on every byte string. */
  lemma {:induction false} UnescapeEscape(s: seq<byte>)
    ensures Unescape(Escape(s)) == Decoded(s, true)
  {
    if s != [] {
      UnescapeEscape(s[1..]);
      var e, t := EscapeByte(s[0]), Escape(s[1..]);
      assert (e + t)[|e|..] == t;
      assert [s[0]] + s[1..] == s;
    }
  }

  /** On accepted input encode undoes decode exactly when the input holds no raw delimiter. */
  lemma {:induction false} EscapeUnescape(t: seq<byte>)
    requires Unescape(t).ok
    ensures Escape(Unescape(t).bytes) == t <==> HEAD !in t
  {
    EscapeHidesHead(Unescape(t).bytes);
    if HEAD !in t {
      EscapeUnescapeClean(t);
    }
  }

  lemma {:induction false} EscapeUnescapeClean(t: seq<byte>)
    requires Unescape(t).ok && HEAD !in t
    ensures Escape(Unescape(t).bytes) == t
  {
    if t != [] {
      var k := if t[0] == ESC5 || t[0] == ESC6 then 2 else 1;
      EscapeUnescapeClean(t[k..]);
      var d := Unescape(t).bytes;
      assert d[1..] == Unescape(t[k..]).bytes;
      assert EscapeByte(d[0]) == t[..k];
      assert t == t[..k] + t[k..];
    }
  }

  /** Decoding at most halves a string, and never lengthens it. */
  lemma {:induction false} UnescapeLength(t: seq<byte>)
    ensures |Unescape(t).bytes| <= |t|
    ensures Unescape(t).ok ==> |t| <= 2 * |Unescape(t).bytes|
  {
    if t != [] {
      var k := if t[0] == ESC5 || t[0] == ESC6 then 2 else 1;
      if k <= |t| {
        UnescapeLength(t[k..]);
      }
    }
  }

  /** s, from position i on, encodes to what is behind position j of e. */
  ghost predicate EncodesTo(s: seq<byte>, i: nat, e: seq<byte>, j: nat)
    requires i <= |s|
  {
    j <= |e| && e[j..] == Escape(s[i..])
  }

  lemma EncodesStart(s: seq<byte>, e: seq<byte>)
    requires e == Escape(s)
    ensures EncodesTo(s, 0, e, 0)
  {
    assert e[0..] == e && s[0..] == s;
  }

  lemma EncodesEnd(s: seq<byte>, e: seq<byte>, j: nat)
    requires EncodesTo(s, |s|, e, j)
    ensures j == |e|
  {
    assert s[|s|..] == [];
  }

  lemma EncodesStep(s: seq<byte>, i: nat, e: seq<byte>, j: nat)
    requires i < |s| && EncodesTo(s, i, e, j)
    ensures var c := EscapeByte(s[i]);
            && j + |c| <= |e|
            && (forall k :: j <= k < j + |c| ==> e[k] == c[k - j])
            && EncodesTo(s, i + 1, e, j + |c|)
  {
    var c, rest := EscapeByte(s[i]), Escape(s[i + 1..]);
    assert s[i..][1..] == s[i + 1..];
    FrontOf(e, j, c, rest);
  }

  lemma FrontOf(e: seq<byte>, j: nat, c: seq<byte>, rest: seq<byte>)
    requires j <= |e| && e[j..] == c + rest
    ensures j + |c| <= |e| && e[j + |c|..] == rest
    ensures forall k :: j <= k < j + |c| ==> e[k] == c[k - j]
  {
    assert |e[j..]| == |c| + |rest|;
    forall k | j <= k < j + |c|
      ensures e[k] == c[k - j]
    {
      assert e[k] == e[j..][k - j];
    }
    assert e[j + |c|..] == e[j..][|c|..];
  }

  /** The four branches of encode: one source byte becomes one or two written bytes. */
  method PutEscaped(b: byte, des: array<byte>, at: nat) returns (n: nat)
    requires at + |EscapeByte(b)| <= des.Length
    modifies des
    ensures n == |EscapeByte(b)|
    ensures forall k :: at <= k < at + n ==> des[k] == EscapeByte(b)[k - at]
    ensures forall k :: 0 <= k < at || at + n <= k < des.Length ==> des[k] == old(des[k])
  {
    n := 0;
    if b == HEAD {
      des[at + n] := ESC5;
      n := n + 1;
      des[at + n] := ESC6;
      n := n + 1;
    } else if b == ESC5 {
      des[at + n] := ESC5;
      n := n + 1;
      des[at + n] := ESC5;
      n := n + 1;
    } else if b == ESC6 {
      des[at + n] := ESC6;
      n := n + 1;
      des[at + n] := ESC6;
      n := n + 1;
    } else {
      des[at + n] := b;
      n := n + 1;
    }
  }

  method Encode(src: array?<byte>, len: nat, des: array?<byte>, at: nat) returns (r: int)
    requires src != des || src == null
    requires src != null ==> len <= src.Length
    requires src != null && des != null ==> at + |Escape(src[..len])| <= des.Length
    modifies des
    ensures src == null || des == null ==> r == -1 && (des != null ==> des[..] == old(des[..]))
    ensures src != null && des != null ==>
              && r == |Escape(src[..len])|
              && des[..at] == old(des[..at])
              && des[at..at + r] == Escape(src[..len])
              && des[at + r..] == old(des[at + r..])
  {
    if src == null || des == null {
      return -1;
    }
    ghost var s := src[..len];
    r := EncodeLoop(src, s, des, at, Escape(s), len);
    assert des[at..at + r] == Escape(s);
  }

  /** The loop of encode over the bytes s of src, which encode to e. */
  method EncodeLoop(src: array<byte>, ghost s: seq<byte>, des: array<byte>, at: nat, ghost e: seq<byte>, len: nat)
      returns (j: nat)
    requires src != des && |s| == len <= src.Length && e == Escape(s)
    requires forall k :: 0 <= k < len ==> src[k] == s[k]
    requires at + |e| <= des.Length
    modifies des
    ensures j == |e|
    ensures forall k :: at <= k < at + j ==> des[k] == e[k - at]
    ensures forall k :: 0 <= k < at || at + j <= k < des.Length ==> des[k] == old(des[k])
  {
    var i := 0;
    j := 0;
    EncodesStart(s, e);
    while i < len
      invariant 0 <= i <= len && EncodesTo(s, i, e, j)
      invariant forall k :: at <= k < at + j ==> des[k] == e[k - at]
      invariant forall k :: 0 <= k < at || at + |e| <= k < des.Length ==> des[k] == old(des[k])
    {
      j := EncodeRound(src[i], s, i, des, at, e, j);
      i := i + 1;
    }
    EncodesEnd(s, e, j);
  }

  /** One round of the loop. */
  method EncodeRound(b: byte, ghost s: seq<byte>, ghost i: nat, des: array<byte>, at: nat, ghost e: seq<byte>, j: nat)
      returns (j': nat)
    requires i < |s| && b == s[i] && EncodesTo(s, i, e, j) && at + |e| <= des.Length
    requires forall k :: at <= k < at + j ==> des[k] == e[k - at]
    modifies des
    ensures EncodesTo(s, i + 1, e, j')
    ensures forall k :: at <= k < at + j' ==> des[k] == e[k - at]
    ensures forall k :: 0 <= k < at || at + |e| <= k < des.Length ==> des[k] == old(des[k])
  {
    EncodesStep(s, i, e, j);
    var n := PutEscaped(b, des, at + j);
    j' := j + n;
  }

  /** The byte the front of t stands for and how many bytes of t it takes; none when it is a
      broken escape. */
  function UnescapeByte(t: seq<byte>): (r: (nat, byte))
    requires t != []
    ensures r.0 <= 2 && r.0 <= |t|
    ensures Unescape(t) == if r.0 == 0 then Decoded([], false) else Prepend([r.1], Unescape(t[r.0..]))
  {
    if t[0] == ESC5 then
      if |t| == 1 then (0, 0) else if t[1] == ESC5 then (2, ESC5) else if t[1] == ESC6 then (2, HEAD) else (0, 0)
    else if t[0] == ESC6 then
      if |t| > 1 && t[1] == ESC6 then (2, ESC6) else (0, 0)
    else (1, t[0])
  }

  /** The branches of decode. */
  method TakeByte(src: array<byte>, start: nat, i: nat, len: nat, ghost t: seq<byte>) returns (k: nat, b: byte)
    requires i < len == |t| && start + len <= src.Length
    requires forall k :: 0 <= k < len ==> src[start + k] == t[k]
    ensures (k, b) == UnescapeByte(t[i..])
  {
    var at := start + i;
    if src[at] == ESC5 {
      if i == len - 1 {
        return 0, 0;
      }
      assert src[at + 1] == t[i + 1];
      if src[at + 1] == ESC5 {
        return 2, ESC5;
      } else if src[at + 1] == ESC6 {
        return 2, HEAD;
      } else {
        return 0, 0;
      }
    } else if src[at] == ESC6 {
      if i == len - 1 {
        return 0, 0;
      }
      assert src[at + 1] == t[i + 1];
      if src[at + 1] == ESC6 {
        return 2, ESC6;
      } else {
        return 0, 0;
      }
    }
    return 1, src[at];
  }

  method Decode(src: array?<byte>, start: nat, len: nat, des: array?<byte>) returns (r: int)
    requires src != des || src == null
    requires src != null ==> start + len <= src.Length
    requires src != null && des != null ==> |Unescape(src[start..start + len]).bytes| <= des.Length
    modifies des
    ensures src == null || des == null ==> r == -1 && (des != null ==> des[..] == old(des[..]))
    ensures src != null && des != null ==>
              var d := Unescape(src[start..start + len]);
              && r == (if d.ok then |d.bytes| else -1)
              && des[..|d.bytes|] == d.bytes
              && des[|d.bytes|..] == old(des[|d.bytes|..])
  {
    if src == null || des == null {
      return -1;
    }
    ghost var t := src[start..start + len];
    r := DecodeLoop(src, start, t, des, Unescape(t), len);
    assert des[..|Unescape(t).bytes|] == Unescape(t).bytes;
  }

  /** t, from position i on, decodes to what is behind position j of d. */
  ghost predicate DecodesTo(t: seq<byte>, i: nat, d: Decoded, j: nat)
    requires i <= |t|
  {
    j <= |d.bytes| && Unescape(t[i..]) == Decoded(d.bytes[j..], d.ok)
  }

  lemma DecodesStart(t: seq<byte>, d: Decoded)
    requires d == Unescape(t)
    ensures DecodesTo(t, 0, d, 0)
  {
    assert t[0..] == t && d.bytes[0..] == d.bytes;
  }

  lemma DecodesEnd(t: seq<byte>, d: Decoded, j: nat)
    requires DecodesTo(t, |t|, d, j)
    ensures d.ok && j == |d.bytes|
  {
    assert t[|t|..] == [];
  }

  lemma DecodesStep(t: seq<byte>, i: nat, d: Decoded, j: nat, k: nat, b: byte)
    requires i < |t| && DecodesTo(t, i, d, j) && (k, b) == UnescapeByte(t[i..])
    ensures k == 0 ==> !d.ok && j == |d.bytes|
    ensures k > 0 ==> i + k <= |t| && j < |d.bytes| && d.bytes[j] == b && DecodesTo(t, i + k, d, j + 1)
  {
    if k > 0 {
      assert t[i..][k..] == t[i + k..];
      DecodedStep(d, j, b, Unescape(t[i + k..]));
    }
  }

  /** The loop of decode over the bytes t of src. */
  method DecodeLoop(src: array<byte>, start: nat, ghost t: seq<byte>, des: array<byte>, ghost d: Decoded, len: nat)
      returns (r: int)
    requires src != des && start + len <= src.Length && |t| == len && d == Unescape(t)
    requires forall k :: 0 <= k < len ==> src[start + k] == t[k]
    requires |d.bytes| <= des.Length
    modifies des
    ensures r == if d.ok then |d.bytes| else -1
    ensures forall k :: 0 <= k < |d.bytes| ==> des[k] == d.bytes[k]
    ensures forall k :: |d.bytes| <= k < des.Length ==> des[k] == old(des[k])
  {
    var i, j := 0, 0;
    DecodesStart(t, d);
    while i < len
      invariant 0 <= i <= len && DecodesTo(t, i, d, j)
      invariant forall k :: 0 <= k < j ==> des[k] == d.bytes[k]
      invariant forall k :: j <= k < des.Length ==> des[k] == old(des[k])
    {
      var k, b := TakeByte(src, start, i, len, t);
      DecodesStep(t, i, d, j, k, b);
      if k == 0 {
        return -1;
      }
      des[j] := b;
      i, j := i + k, j + 1;
    }
    DecodesEnd(t, d, j);
    return j;
  }

  lemma DecodedStep(d: Decoded, j: nat, b: byte, rest: Decoded)
    requires j <= |d.bytes| && Decoded(d.bytes[j..], d.ok) == Prepend([b], rest)
    ensures j < |d.bytes| && d.bytes[j] == b && rest == Decoded(d.bytes[j + 1..], d.ok)
  {
    assert d.bytes[j..] == [b] + rest.bytes;
    assert d.bytes[j + 1..] == d.bytes[j..][1..];
  }
}
