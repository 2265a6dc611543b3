/** The table-driven CRC-16 of utils/AgvCheckSum.cpp, for any 256-entry table. */
module CheckSum {
  import opened Bytes

  type Table = t: seq<bv16> | |t| == 256 witness seq(256, i => 0)

  function Step(table: Table, crc: bv16, b: byte): bv16
  {
    (crc >> 8) ^ table[((crc ^ (b as bv8 as bv16)) & 0xFF) as bv8 as int]
  }

  /** The checksum register after the bytes s have gone through it, from zero. */
  function Register(table: Table, s: seq<byte>): bv16
  {
    if s == [] then 0 else Step(table, Register(table, s[..|s| - 1]), s[|s| - 1])
  }

  function Crc16(table: Table, s: seq<byte>): u16
  {
    Register(table, s) as int
  }

  lemma RegisterStep(table: Table, s: seq<byte>, i: nat)
    requires i < |s|
    ensures Register(table, s[..i + 1]) == Step(table, Register(table, s[..i]), s[i])
  {
    assert s[..i + 1][..i] == s[..i];
  }

  /** GetCrc16. */
  method GetCrc16(table: Table, data: array<byte>, at: nat, len: u16, pwd: bv16) returns (r: u16)
    requires at + len <= data.Length
    ensures r == (Register(table, data[at..at + len]) ^ pwd) as int
  {
    ghost var s := data[at..at + len];
    var crc: bv16 := 0;
    var i := 0;
    while i < len
      invariant 0 <= i <= len
      invariant crc == Register(table, s[..i])
    {
      RegisterStep(table, s, i);
      crc := Step(table, crc, data[at + i]);
      i := i + 1;
    }
    assert s[..len] == s;
    r := (crc ^ pwd) as int;
  }
}
