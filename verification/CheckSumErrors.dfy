/** What the checksum notices: which tables keep different registers and byte strings apart, and two
    strings that differ in one byte and share their checksum under the table of
    utils/AgvCheckSum.cpp. */
module CheckSumErrors {
  import opened Bytes
  import opened CheckSum

  /** All entries of the table are different. */
  predicate Distinct(table: Table)
  {
    forall i, j :: 0 <= i < j < 256 ==> table[i] != table[j]
  }

  function High(w: bv16): bv16
  {
    w >> 8
  }

  /** Even their high bytes are. */
  predicate HighDistinct(table: Table)
  {
    forall i, j :: 0 <= i < j < 256 ==> High(table[i]) != High(table[j])
  }

  // What is noticed ------------------------------------------------------------------------------

  /** No byte brings two different registers together if and only if the high bytes of the entries
      are pairwise different. */
  lemma StepSeparates(table: Table)
    ensures (forall a: bv16, b: bv16, c: byte :: a != b ==> Step(table, a, c) != Step(table, b, c))
      <==> HighDistinct(table)
  {
    if HighDistinct(table) {
      forall a: bv16, b: bv16, c: byte | a != b
        ensures Step(table, a, c) != Step(table, b, c)
      {
        StepInjective(table, a, b, c);
      }
    } else {
      var i, j :| 0 <= i < j < 256 && High(table[i]) == High(table[j]);
      var a, b := SharedHighByte(table, i, j);
    }
  }

  /** A wrong last byte is always noticed if and only if the entries are pairwise different. */
  lemma LastByteNoticed(table: Table)
    ensures (forall s: seq<byte>, b: byte, c: byte :: b != c ==> Register(table, s + [b]) != Register(table, s + [c]))
      <==> Distinct(table)
  {
    if Distinct(table) {
      forall s: seq<byte>, b: byte, c: byte | b != c
        ensures Register(table, s + [b]) != Register(table, s + [c])
      {
        RegisterSnoc(table, s, b);
        RegisterSnoc(table, s, c);
        StepTells(table, Register(table, s), b, c);
      }
    } else {
      var i, j :| 0 <= i < j < 256 && table[i] == table[j];
      FirstRegister(table, i);
      FirstRegister(table, j);
      var empty: seq<byte> := [];
      assert empty + [i] == [i] && empty + [j] == [j];
    }
  }

  /** A single wrong byte, wherever it is, changes the checksum if the high bytes of the entries are
      pairwise different. */
  lemma {:induction false} OneByteNoticed(table: Table, s: seq<byte>, k: nat, v: byte)
    requires HighDistinct(table) && k < |s| && v != s[k]
    ensures Register(table, s[k := v]) != Register(table, s)
  {
    var n := |s| - 1;
    var t := s[k := v];
    if k == n {
      HighIsDistinct(table);
      assert t[..n] == s[..n];
      StepTells(table, Register(table, s[..n]), v, s[n]);
    } else {
      assert t[..n] == s[..n][k := v];
      OneByteNoticed(table, s[..n], k, v);
      StepInjective(table, Register(table, t[..n]), Register(table, s[..n]), s[n]);
    }
  }

  /** Five entries of the table of utils/AgvCheckSum.cpp; the second and the last share a high byte. */
  predicate SourceEntries(table: Table)
  {
    table[0] == 0x3B78 && table[27] == 0xB7A0 && table[44] == 0xCA17 && table[121] == 0x2217 && table[206] == 0x2282
  }

  /** The repository's table is not one of those: a byte of the payload is replaced, and the checksum
      stays 0x22A0. */
  lemma WrongByteUnnoticed(table: Table)
    requires SourceEntries(table)
    ensures !HighDistinct(table)
    ensures Register(table, [0, 1, 0, 25, 164, 19]) == 0x22A0
    ensures Register(table, [0, 1, 0, 25, 198, 19]) == 0x22A0
  {
    assert High(table[121]) == High(table[206]);
    SourceSteps(table);
    SourcePrefix(table);
    RegisterTail(table, 164, 19);
    RegisterTail(table, 198, 19);
  }

  // Bits ----------------------------------------------------------------------------------------

  function Index(crc: bv16, c: bv8): bv8
  {
    ((crc ^ (c as bv16)) & 0xFF) as bv8
  }

  lemma BitsOfByte(b: byte)
    ensures (b as bv8) as int == b
  {
    assert b % 256 == b;
  }

  lemma DifferentInts(i: bv8, j: bv8)
    requires i != j
    ensures i as int != j as int
  {
  }

  lemma DifferentBits(b: byte, c: byte)
    requires b != c
    ensures b as bv8 != c as bv8
  {
    BitsOfByte(b);
    BitsOfByte(c);
  }

  lemma SameIndex(a: bv16, b: bv16, c: bv8)
    requires a != b && Index(a, c) == Index(b, c)
    ensures High(a) != High(b)
  {
  }

  lemma HighEntries(table: Table, i: bv8, j: bv8)
    requires HighDistinct(table) && i != j
    ensures High(table[i as int]) != High(table[j as int])
  {
    DifferentInts(i, j);
    var k, l := i as int, j as int;
    assert k < l ==> High(table[k]) != High(table[l]);
  }

  lemma Entries(table: Table, i: bv8, j: bv8)
    requires Distinct(table) && i != j
    ensures table[i as int] != table[j as int]
  {
    DifferentInts(i, j);
    var k, l := i as int, j as int;
    assert k < l ==> table[k] != table[l];
  }

  // One step ------------------------------------------------------------------------------------

  /** The step on the bits of the byte. */
  lemma StepOn(table: Table, r: bv16, b: byte, i: bv8)
    requires i == Index(r, b as bv8)
    ensures Step(table, r, b) == High(r) ^ table[i as int]
  {
  }

  lemma StepInjective(table: Table, a: bv16, b: bv16, c: byte)
    requires HighDistinct(table) && a != b
    ensures Step(table, a, c) != Step(table, b, c)
  {
    var i, j := Index(a, c as bv8), Index(b, c as bv8);
    StepOn(table, a, c, i);
    StepOn(table, b, c, j);
    SeparatedAt(table, a, b, c as bv8, i, j);
  }

  lemma SeparatedAt(table: Table, a: bv16, b: bv16, c: bv8, i: bv8, j: bv8)
    requires HighDistinct(table) && a != b && i == Index(a, c) && j == Index(b, c)
    ensures High(a) ^ table[i as int] != High(b) ^ table[j as int]
  {
    if i == j {
      SameIndex(a, b, c);
    } else {
      HighEntries(table, i, j);
    }
  }

  lemma StepTells(table: Table, r: bv16, b: byte, c: byte)
    requires Distinct(table) && b != c
    ensures Step(table, r, b) != Step(table, r, c)
  {
    DifferentBits(b, c);
    var i, j := Index(r, b as bv8), Index(r, c as bv8);
    StepOn(table, r, b, i);
    StepOn(table, r, c, j);
    Entries(table, i, j);
  }

  /** A register that the byte 0 brings together with x, when the entries x and y share their high
      byte. */
  lemma Together(x: bv8, y: bv8, tx: bv16, ty: bv16) returns (b: bv16)
    requires x != y && High(tx) == High(ty)
    ensures b != x as bv16 && Index(x as bv16, 0) == x && Index(b, 0) == y
    ensures High(x as bv16) ^ tx == High(b) ^ ty
  {
    b := ((tx ^ ty) << 8) | (y as bv16);
  }

  lemma SharedHighByte(table: Table, i: byte, j: byte) returns (a: bv16, b: bv16)
    requires i != j && High(table[i]) == High(table[j])
    ensures a != b && Step(table, a, 0) == Step(table, b, 0)
  {
    var x, y := i as bv8, j as bv8;
    BitsOfByte(i);
    BitsOfByte(j);
    a := x as bv16;
    b := Together(x, y, table[x as int], table[y as int]);
    StepOn(table, a, 0, x);
    StepOn(table, b, 0, y);
  }

  // Byte strings --------------------------------------------------------------------------------

  lemma RegisterSnoc(table: Table, s: seq<byte>, b: byte)
    ensures Register(table, s + [b]) == Step(table, Register(table, s), b)
  {
    assert (s + [b])[..|s|] == s;
  }

  lemma FirstRegister(table: Table, b: byte)
    ensures Register(table, [b]) == table[b]
  {
    RegisterSnoc(table, [], b);
    assert [] + [b] == [b];
    BitsOfByte(b);
    StepOn(table, 0, b, b as bv8);
    XorZero(table[b]);
  }

  lemma XorZero(t: bv16)
    ensures High(0) ^ t == t
  {
  }

  /** The steps of the register over 0, 1, 0, 25 and either pair of bytes. */
  lemma SourceSteps(table: Table)
    requires SourceEntries(table)
    ensures Step(table, 0, 0) == 0x3B78 && Step(table, 0x3B78, 1) == 0x222C
    ensures Step(table, 0x222C, 0) == 0xCA35 && Step(table, 0xCA35, 25) == 0xCADD
    ensures Step(table, 0xCADD, 164) == 0x22DD && Step(table, 0x22DD, 19) == 0x22A0
    ensures Step(table, 0xCADD, 198) == 0xB76A && Step(table, 0xB76A, 19) == 0x22A0
  {
    StepOn(table, 0, 0, 0);
    StepOn(table, 0x3B78, 1, 121);
    StepOn(table, 0x222C, 0, 44);
    StepOn(table, 0xCA35, 25, 44);
    StepOn(table, 0xCADD, 164, 121);
    StepOn(table, 0x22DD, 19, 206);
    StepOn(table, 0xCADD, 198, 27);
    StepOn(table, 0xB76A, 19, 121);
  }

  lemma SourcePrefix(table: Table)
    requires SourceEntries(table)
    ensures Register(table, [0, 1, 0, 25]) == 0xCADD
  {
    SourceSteps(table);
    RegisterSnoc(table, [], 0);
    RegisterSnoc(table, [0], 1);
    RegisterSnoc(table, [0, 1], 0);
    RegisterSnoc(table, [0, 1, 0], 25);
    assert [] + [0] == [0] && [0] + [1] == [0, 1] && [0, 1] + [0] == [0, 1, 0] && [0, 1, 0] + [25] == [0, 1, 0, 25];
  }

  lemma RegisterTail(table: Table, x: byte, z: byte)
    ensures Register(table, [0, 1, 0, 25, x, z]) == Step(table, Step(table, Register(table, [0, 1, 0, 25]), x), z)
  {
    RegisterSnoc(table, [0, 1, 0, 25], x);
    RegisterSnoc(table, [0, 1, 0, 25, x], z);
    assert [0, 1, 0, 25] + [x] == [0, 1, 0, 25, x] && [0, 1, 0, 25, x] + [z] == [0, 1, 0, 25, x, z];
  }

  lemma HighIsDistinct(table: Table)
    requires HighDistinct(table)
    ensures Distinct(table)
  {
  }

  lemma WordBack(a: bv16)
    ensures (a as int) as bv16 == a
  {
  }

  lemma DifferentWords(a: bv16, b: bv16)
    requires a != b
    ensures a as int != b as int
  {
    WordBack(a);
    WordBack(b);
  }
}
