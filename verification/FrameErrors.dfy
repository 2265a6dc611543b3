/** What the checksum notices of a frame: wrong bytes that are refused, and one that is accepted. */
module FrameErrors {
  import opened Bytes
  import opened CheckSum
  import opened CheckSumErrors
  import opened EscapeCodec
  import opened SchProtocol
  import opened Stream

  lemma ChangedSections(s: seq<byte>, k: nat, v: byte)
    requires |s| >= 4 && k < |s| && v != s[k]
    ensures At(s[k := v], 2) == At(s, 2) <==> k < 2 || k >= 4
    ensures s[k := v][4..] == if k < 4 then s[4..] else s[4..][k - 4 := v]
  {
  }

  lemma MatchesByField(table: Table, bytes: seq<byte>)
    requires |bytes| >= 8
    ensures CheckSumMatches(table, bytes) <==> At(bytes, 2) == Crc16(table, bytes[4..])
  {
    var n := |Filled(bytes)| - |bytes|;
    assert Filled(bytes)[..|bytes|] == bytes;
    assert Filled(bytes)[2] == bytes[2] && Filled(bytes)[3] == bytes[3];
  }

  /** A frame body in which one byte is wrong is refused if and only if the byte is behind the length
      field, with a table whose entries have pairwise different high bytes. */
  lemma OneWrongByte(table: Table, length: u16, m: Message, k: nat, v: byte)
    requires HighDistinct(table)
    requires k < |RawBody(table, length, m)| && v != RawBody(table, length, m)[k]
    ensures var bad := RawBody(table, length, m)[k := v];
            && VerdictOf(table, Escape(bad)).refuse == (k >= 2)
            && VerdictOf(table, Escape(bad)).accept == (k < 2)
  {
    var raw := RawBody(table, length, m);
    HeaderOfRawBody(table, length, m, []);
    assert raw + [] == raw;
    WrongByteMatches(table, raw, k, v);
    UnescapeEscape(raw[k := v]);
    VerdictSpec(table, Escape(raw[k := v]));
  }

  lemma WrongByteMatches(table: Table, raw: seq<byte>, k: nat, v: byte)
    requires HighDistinct(table) && |raw| >= 8 && At(raw, 2) == Crc16(table, raw[4..])
    requires k < |raw| && v != raw[k]
    ensures CheckSumMatches(table, raw[k := v]) <==> k < 2
  {
    MatchesByField(table, raw[k := v]);
    ChangedSections(raw, k, v);
    if k >= 4 {
      OneByteNoticed(table, raw[4..], k - 4, v);
      DifferentWords(Register(table, raw[4..]), Register(table, raw[4..][k - 4 := v]));
    }
  }

  /** So two messages that differ in a payload byte have frames that differ in that byte only, and
      one is accepted for the other. */
  lemma WrongByteAccepted(table: Table)
    requires SourceEntries(table)
    ensures var raw, other := RawBody(table, 8, Message(1, 25, [164, 19])), Message(1, 25, [198, 19]);
            && raw[8 := 198] == RawBody(table, 8, other)
            && VerdictOf(table, Escape(raw[8 := 198])).accept && !VerdictOf(table, Escape(raw[8 := 198])).refuse
  {
    WrongByteUnnoticed(table);
    var m, other := Message(1, 25, [164, 19]), Message(1, 25, [198, 19]);
    assert Word(1) + Word(25) + m.payload == [0, 1, 0, 25, 164, 19];
    assert Word(1) + Word(25) + other.payload == [0, 1, 0, 25, 198, 19];
    assert RawBody(table, 8, m) == Word(8) + Word(0x22A0) + [0, 1, 0, 25, 164, 19];
    assert RawBody(table, 8, other) == Word(8) + Word(0x22A0) + [0, 1, 0, 25, 198, 19];
    LengthUnchecked(table, 8, other);
    UnescapeEscape(RawBody(table, 8, other));
    VerdictSpec(table, Escape(RawBody(table, 8, other)));
  }
}
