/** Bytes, 16-bit words and the big-endian section codec of the scheduler protocol. */
module Bytes {

  type byte = b: int | 0 <= b < 256

  type u16 = w: int | 0 <= w < 65536

  function Pow256(n: nat): (p: nat)
    ensures p > 0
  {
    if n == 0 then 1 else 256 * Pow256(n - 1)
  }

  /** The n low-order bytes of v, most significant first. */
  function BigEndian(v: nat, n: nat): (s: seq<byte>)
    ensures |s| == n
  {
    if n == 0 then [] else BigEndian(v / 256, n - 1) + [v % 256]
  }

  function Value(s: seq<byte>): nat
  {
    if s == [] then 0 else 256 * Value(s[..|s| - 1]) + s[|s| - 1]
  }

  lemma DivPow(v: nat, n: nat)
    ensures v / 256 / Pow256(n) == v / Pow256(n + 1)
  {
    var p := Pow256(n);
    var q, r := v / 256, v % 256;
    var a, b := q / p, q % p;
    assert v == 256 * (a * p + b) + r == a * (256 * p) + (256 * b + r) by {
      assert q == a * p + b;
      assert 256 * (a * p) == a * (256 * p);
    }
    DivUnique(v, 256 * p, a, 256 * b + r);
  }

  lemma DivUnique(v: int, d: int, q: int, r: int)
    requires d > 0 && v == q * d + r && 0 <= r < d
    ensures v / d == q && v % d == r
  {
    var e := v / d - q;
    assert v == (v / d) * d + v % d;
    assert e * d == r - v % d by { assert (v / d) * d == e * d + q * d; }
    assert e >= 1 ==> e * d >= d;
    assert e <= -1 ==> e * d <= -d;
  }

  lemma ModSplit(v: nat, p: nat)
    requires p > 0
    ensures v % (256 * p) == 256 * (v / 256 % p) + v % 256
  {
    var q, r := v / 256 / p, v / 256 % p;
    assert v / 256 == q * p + r;
    assert 256 * (q * p) == q * (256 * p);
    DivUnique(v, 256 * p, q, 256 * r + v % 256);
  }

  /** Byte k of the big-endian form is the source's (data >> 8 * (bytes - k - 1)) & 0xFF. */
  lemma {:induction false} BigEndianAt(v: nat, n: nat, k: nat)
    requires k < n
    ensures BigEndian(v, n)[k] == v / Pow256(n - k - 1) % 256
  {
    if k < n - 1 {
      BigEndianAt(v / 256, n - 1, k);
      DivPow(v, n - k - 2);
    } else {
      assert Pow256(0) == 1;
    }
  }

  /** Reading back what was written gives the value truncated to the section's width. */
  lemma {:induction false} ValueOfBigEndian(v: nat, n: nat)
    ensures Value(BigEndian(v, n)) == v % Pow256(n)
  {
    if n > 0 {
      ValueOfBigEndian(v / 256, n - 1);
      var s := BigEndian(v, n);
      assert s[..n - 1] == BigEndian(v / 256, n - 1);
      ModSplit(v, Pow256(n - 1));
    }
  }

  /** Writing back what was read gives the same bytes, and the value fits the width. */
  lemma {:induction false} BigEndianOfValue(s: seq<byte>)
    ensures BigEndian(Value(s), |s|) == s && Value(s) < Pow256(|s|)
  {
    if s != [] {
      BigEndianOfValue(s[..|s| - 1]);
      assert s == s[..|s| - 1] + [s[|s| - 1]];
    }
  }

  lemma {:induction false} ValueHead(s: seq<byte>)
    requires s != []
    ensures Value(s) == s[0] * Pow256(|s| - 1) + Value(s[1..])
  {
    var n := |s|;
    if n == 1 {
      assert Value(s[..0]) == 0 && Value(s[1..]) == 0 && Pow256(0) == 1;
    } else {
      var t, u := s[..n - 1], s[1..];
      ValueHead(t);
      ValueSnoc(s);
      ValueSnoc(u);
      Overlap(s);
      Shifted(s[0], Pow256(n - 2), Value(t[1..]), s[n - 1]);
    }
  }

  lemma ValueSnoc(s: seq<byte>)
    requires s != []
    ensures Value(s) == 256 * Value(s[..|s| - 1]) + s[|s| - 1]
  {
  }

  lemma Overlap(s: seq<byte>)
    requires |s| > 1
    ensures s[1..][..|s| - 2] == s[..|s| - 1][1..] && s[1..][|s| - 2] == s[|s| - 1] && s[..|s| - 1][0] == s[0]
  {
  }

  lemma Shifted(h: int, p: int, v: int, l: int)
    ensures 256 * (h * p + v) + l == h * (256 * p) + (256 * v + l)
  {
    assert 256 * (h * p) == h * (256 * p);
  }

  /** Bin2Buffer: NULL and zero-width targets are refused with -1. */
  method Bin2Buffer(data: nat, bytes: nat, buf: array?<byte>, at: nat) returns (r: int)
    requires data < 0x1_0000_0000 && bytes <= 4
    requires buf != null ==> at + bytes <= buf.Length
    modifies buf
    ensures buf == null || bytes == 0 ==> r == -1
    ensures buf != null && bytes > 0 ==>
              && r == bytes
              && (forall k :: 0 <= k < bytes ==> buf[at + k] == BigEndian(data, bytes)[k])
    ensures buf != null ==>
              forall k :: 0 <= k < at || at + bytes <= k < buf.Length ==> buf[k] == old(buf[k])
  {
    if buf == null || bytes == 0 {
      return -1;
    }
    var i := 0;
    while i < bytes
      invariant 0 <= i <= bytes
      invariant forall k :: 0 <= k < at || at + bytes <= k < buf.Length ==> buf[k] == old(buf[k])
      invariant forall k :: 0 <= k < i ==> buf[at + k] == BigEndian(data, bytes)[k]
    {
      BigEndianAt(data, bytes, i);
      buf[at + i] := data / Pow256(bytes - i - 1) % 256;
      i := i + 1;
    }
    return bytes;
  }

  /** Buffer2Bin: the lanes OR-ed together by the source are disjoint, so OR is addition. */
  method Buffer2Bin(data: array?<byte>, at: nat, bytes: nat) returns (r: nat)
    requires bytes <= 4
    requires data != null ==> at + bytes <= data.Length
    ensures r == if data == null || bytes == 0 then 0xFFFF_FFFF else Value(data[at..at + bytes])
  {
    if data == null || bytes == 0 {
      return 0xFFFF_FFFF;
    }
    ghost var s := data[at..at + bytes];
    ghost var ahead := Value(s);
    r := 0;
    var i := 0;
    assert s[0..] == s;
    while i < bytes
      invariant 0 <= i <= bytes
      invariant ahead == Value(s[i..]) && r + ahead == Value(s)
    {
      LaneAdds(s, i);
      var lane := data[at + i] * Pow256(bytes - i - 1);
      ahead := Value(s[i + 1..]);
      r := r + lane;
      i := i + 1;
    }
  }

  lemma LaneAdds(s: seq<byte>, i: nat)
    requires i < |s|
    ensures Value(s[i..]) == s[i] * Pow256(|s| - i - 1) + Value(s[i + 1..])
  {
    var t := s[i..];
    ValueHead(t);
    assert t[1..] == s[i + 1..] && t[0] == s[i];
  }

  /** A slice of a slice of an array. */
  lemma ArraySlice(a: array<byte>, at: nat, len: nat, i: nat, j: nat)
    requires at + len <= a.Length && i <= j <= len
    ensures a[at..at + len][i..j] == a[at + i..at + j]
  {
    var s := a[at..at + len];
    assert forall k :: 0 <= k < len ==> s[k] == a[at + k];
    assert forall k :: 0 <= k < j - i ==> s[i..j][k] == s[i + k] == a[at + (i + k)] == a[at + i..at + j][k];
  }
}
