/** What determines the byte stuffing completely: it is done byte by byte, with these codes. */
module EscapeCodes {
  import opened Bytes
  import opened Sequences
  import opened EscapeCodec

  /** Encoding a concatenation concatenates the encodings. */
  lemma {:induction false} EscapeConcat(a: seq<byte>, b: seq<byte>)
    ensures Escape(a + b) == Escape(a) + Escape(b)
  {
    if a == [] {
      assert a + b == b;
    } else {
      EscapeConcat(a[1..], b);
      assert (a + b)[1..] == a[1..] + b;
      Associates(EscapeByte(a[0]), Escape(a[1..]), Escape(b));
    }
  }

  /** The codes of 0xFF, 0x85 and 0x86; every other byte stands for itself. */
  lemma Codes(b: byte)
    ensures Escape([0xFF]) == [0x85, 0x86] && Escape([0x85]) == [0x85, 0x85] && Escape([0x86]) == [0x86, 0x86]
    ensures b !in {0xFF, 0x85, 0x86} ==> Escape([b]) == [b]
  {
    OneByte(0xFF);
    OneByte(0x85);
    OneByte(0x86);
    OneByte(b);
  }

  lemma OneByte(b: byte)
    ensures Escape([b]) == EscapeByte(b)
  {
    assert [b][1..] == [];
  }
}
