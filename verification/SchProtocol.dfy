/** Frames of the scheduler protocol: CAgvSchProtocol of comm/AgvSchProtocol.cpp and its header. */
module SchProtocol {
  import opened Options
  import opened Bytes
  import opened CheckSum
  import opened EscapeCodec
  import opened FrameScanner

  const BUFFER_SIZE := 2048

  datatype Message = Message(typ: u16, cmd: u16, payload: seq<byte>)

  /** Messages the internal buffer has room for. */
  predicate Sendable(m: Message)
  {
    |m.payload| <= BUFFER_SIZE - 8
  }

  /** A two-byte section. */
  function Word(w: u16): seq<byte>
  {
    [w / 256, w % 256]
  }

  lemma WordIsBigEndian(w: u16)
    ensures BigEndian(w, 2) == Word(w)
  {
    assert BigEndian(w / 256, 1) == BigEndian(w / 256 / 256, 0) + [w / 256 % 256];
  }

  /** The unescaped frame: length, checksum, then the checksummed type, command and payload. */
  function RawBody(table: Table, length: u16, m: Message): seq<byte>
  {
    var checked := Word(m.typ) + Word(m.cmd) + m.payload;
    Word(length) + Word(Crc16(table, checked)) + checked
  }

  function Delimited(raw: seq<byte>): seq<byte>
  {
    [HEAD] + Escape(raw) + [HEAD]
  }

  function Frame(table: Table, m: Message): seq<byte>
    requires Sendable(m)
  {
    Delimited(RawBody(table, |m.payload| + 6, m))
  }

  function Zeros(n: nat): seq<byte>
  {
    seq(n, i => 0)
  }

  /** The two-byte section at i. */
  function At(s: seq<byte>, i: nat): u16
    requires i + 2 <= |s|
  {
    s[i] as int * 256 + s[i + 1]
  }

  lemma AtIsValue(s: seq<byte>)
    requires |s| == 2
    ensures Value(s) == At(s, 0)
  {
    assert s[..1][..0] == [] && Value(s[..1]) == s[0];
  }

  /** What UnPackData reads from the decoded bytes of a frame. */
  datatype Header = Header(length: u16, checkSum: u16, typ: u16, cmd: u16)

  function HeaderOf(buf: seq<byte>): Header
    requires |buf| >= 8
  {
    Header(At(buf, 0), At(buf, 2), At(buf, 4), At(buf, 6))
  }

  /** The body of a message, byte by byte. */
  lemma RawBodyAt(table: Table, length: u16, m: Message)
    ensures var raw, checked := RawBody(table, length, m), Word(m.typ) + Word(m.cmd) + m.payload;
            && |raw| == 8 + |m.payload| && raw[4..] == checked && raw[8..] == m.payload
            && raw[..2] == Word(length) && raw[2..4] == Word(Crc16(table, checked))
            && raw[4..6] == Word(m.typ) && raw[6..8] == Word(m.cmd)
  {
    SectionsOf(Word(length), Word(Crc16(table, Word(m.typ) + Word(m.cmd) + m.payload)), Word(m.typ), Word(m.cmd),
               m.payload);
  }

  lemma SectionsOf(a: seq<byte>, b: seq<byte>, c: seq<byte>, d: seq<byte>, rest: seq<byte>)
    requires |a| == |b| == |c| == |d| == 2
    ensures var raw := a + b + (c + d + rest);
            && |raw| == 8 + |rest| && raw[4..] == c + d + rest && raw[8..] == rest
            && raw[..2] == a && raw[2..4] == b && raw[4..6] == c && raw[6..8] == d
  {
  }

  lemma WordOf(s: seq<byte>, i: nat, w: u16)
    requires i + 2 <= |s| && s[i..i + 2] == Word(w)
    ensures At(s, i) == w
  {
    assert s[i] == s[i..i + 2][0] && s[i + 1] == s[i..i + 2][1];
  }

  lemma HeaderOfRawBody(table: Table, length: u16, m: Message, pad: seq<byte>)
    ensures var raw := RawBody(table, length, m);
            && |raw| == 8 + |m.payload|
            && raw[8..] == m.payload
            && HeaderOf(raw + pad) == Header(length, Crc16(table, raw[4..]), m.typ, m.cmd)
  {
    var raw := RawBody(table, length, m);
    RawBodyAt(table, length, m);
    WordOf(raw, 0, length);
    WordOf(raw, 2, Crc16(table, raw[4..]));
    WordOf(raw, 4, m.typ);
    WordOf(raw, 6, m.cmd);
    Padded(raw, pad);
  }

  lemma Padded(raw: seq<byte>, pad: seq<byte>)
    requires |raw| >= 8
    ensures HeaderOf(raw + pad) == HeaderOf(raw)
  {
  }

  /** The cleared buffer after bytes have been decoded into it. */
  function Filled(bytes: seq<byte>): (buf: seq<byte>)
    ensures |buf| >= BUFFER_SIZE && bytes <= buf
  {
    bytes + Zeros(if |bytes| < BUFFER_SIZE then BUFFER_SIZE - |bytes| else 0)
  }

  /** What the checksum covers: everything behind it. */
  function Checked(bytes: seq<byte>): seq<byte>
  {
    if |bytes| >= 4 then bytes[4..] else []
  }

  predicate CheckSumMatches(table: Table, bytes: seq<byte>)
  {
    HeaderOf(Filled(bytes)).checkSum == Crc16(table, Checked(bytes))
  }

  /** A body that decodes is accepted exactly when its checksum matches. One that does not is not
      tested for: its checksum runs over memory behind the buffer and may be any word. */
  predicate MayAccept(table: Table, d: Decoded)
  {
    d.ok ==> CheckSumMatches(table, d.bytes)
  }

  predicate MayRefuse(table: Table, d: Decoded)
  {
    d.ok ==> !CheckSumMatches(table, d.bytes)
  }

  /** What a reader of the protocol object sees; no payload when the length field reaches behind
      the buffer, where the contents are unknown. */
  datatype Delivery = Delivery(typ: u16, cmd: u16, payload: Option<seq<byte>>)

  function AsSent(m: Message): Delivery
  {
    Delivery(m.typ, m.cmd, Some(m.payload))
  }

  function PayloadLength(length: u16): u16
  {
    (length + 65530) % 65536
  }

  function Delivered(buf: seq<byte>): Delivery
    requires |buf| >= BUFFER_SIZE
  {
    var h := HeaderOf(buf);
    var n := PayloadLength(h.length);
    Delivery(h.typ, h.cmd, if 8 + n <= BUFFER_SIZE then Some(buf[8..8 + n]) else None)
  }

  /** The length field is never compared with what was decoded: an accepted body delivers the
      payload it carries if and only if the field counts it. */
  lemma LengthDecides(bytes: seq<byte>)
    requires 8 <= |bytes| <= BUFFER_SIZE
    ensures Delivered(Filled(bytes)).payload == Some(bytes[8..]) <==> HeaderOf(Filled(bytes)).length == |bytes| - 2
  {
    PayloadDecides(Filled(bytes), bytes, HeaderOf(Filled(bytes)).length);
  }

  lemma PayloadDecides(buf: seq<byte>, bytes: seq<byte>, length: u16)
    requires 8 <= |bytes| <= BUFFER_SIZE == |buf| && bytes <= buf
    ensures var n := PayloadLength(length);
            (if 8 + n <= BUFFER_SIZE then Some(buf[8..8 + n]) else None) == Some(bytes[8..]) <==> length == |bytes| - 2
  {
    var n := PayloadLength(length);
    assert n == if length >= 6 then length - 6 else length + 65530;
    assert bytes == buf[..|bytes|];
    assert bytes[8..] == buf[8..|bytes|];
    assert 8 + n <= BUFFER_SIZE ==> |buf[8..8 + n]| == n;
  }

  /** And the checksum does not cover the field: packed with any length a message is accepted, and
      delivered if and only if the length is the right one. */
  lemma LengthUnchecked(table: Table, length: u16, m: Message)
    requires Sendable(m)
    ensures var raw := RawBody(table, length, m);
            && CheckSumMatches(table, raw)
            && (Delivered(Filled(raw)) == AsSent(m) <==> length == |m.payload| + 6)
  {
    var raw := RawBody(table, length, m);
    HeaderOfRawBody(table, length, m, Zeros(if |raw| < BUFFER_SIZE then BUFFER_SIZE - |raw| else 0));
    LengthDecides(raw);
  }

  /** The buffer before the checksum is stored: the other sections and the payload. */
  ghost predicate Holds(buf: seq<byte>, length: u16, typ: u16, cmd: u16, payload: seq<byte>)
  {
    && 8 + |payload| <= |buf|
    && buf[0] == length / 256 && buf[1] == length % 256
    && buf[4] == typ / 256 && buf[5] == typ % 256
    && buf[6] == cmd / 256 && buf[7] == cmd % 256
    && forall k :: 0 <= k < |payload| ==> buf[8 + k] == payload[k]
  }

  lemma HeldBehind(buf: seq<byte>, length: u16, typ: u16, cmd: u16, payload: seq<byte>)
    requires Holds(buf, length, typ, cmd, payload)
    ensures buf[4..8 + |payload|] == Word(typ) + Word(cmd) + payload
  {
    var t := Word(typ) + Word(cmd) + payload;
    assert forall k :: 4 <= k < |t| ==> t[k] == payload[k - 4] == buf[8 + (k - 4)];
  }

  /** Storing the checksum completes the body. */
  lemma HeldBody(was: seq<byte>, buf: seq<byte>, length: u16, checkSum: u16, typ: u16, cmd: u16, payload: seq<byte>)
    requires Holds(was, length, typ, cmd, payload) && |buf| == |was|
    requires buf[2] == checkSum / 256 && buf[3] == checkSum % 256
    requires forall k :: 0 <= k < 2 || 4 <= k < |buf| ==> buf[k] == was[k]
    ensures buf[..8 + |payload|] == Word(length) + Word(checkSum) + (Word(typ) + Word(cmd) + payload)
  {
    var n := 8 + |payload|;
    HeldBehind(buf, length, typ, cmd, payload);
    assert buf[..n] == buf[..2] + buf[2..4] + buf[4..n];
    assert buf[..2] == Word(length) && buf[2..4] == Word(checkSum);
  }

  class Protocol {
    const table: Table
    const buffer: array<byte>

    var length: u16
    var checkSum: u16
    var typ: u16
    var cmd: u16
    /** The payload pointer: an array and an offset into it. */
    var data: array?<byte>
    var dataAt: nat
    var dataLength: u16

    ghost predicate Valid()
      reads this
    {
      buffer.Length == BUFFER_SIZE && (data == buffer ==> dataAt == 8)
    }

    constructor (table: Table)
      ensures Valid() && fresh(buffer)
      ensures this.table == table && typ == 1 && length == 0 && cmd == 0
      ensures data == null && dataLength == 0
    {
      this.table := table;
      buffer := new byte[BUFFER_SIZE];
      checkSum, typ, length, cmd := 0, 1, 0, 0;
      data, dataAt, dataLength := null, 0, 0;
    }

    constructor Packet(table: Table, cmd: int, data: array?<byte>, len: nat)
      ensures Valid() && fresh(buffer)
      ensures this.table == table && typ == 1 && length == (len + 6) % 65536
      ensures this.cmd == cmd % 65536 && this.data == data && dataAt == 0 && dataLength == len % 65536
    {
      this.table := table;
      buffer := new byte[BUFFER_SIZE];
      checkSum, typ := 0, 1;
      length := (len + 6) % 65536;
      this.cmd := cmd % 65536;
      this.data, dataAt, dataLength := data, 0, len % 65536;
    }

    /** The payload length PackData derives from the length field, in 16-bit arithmetic. */
    function Announced(): u16
      reads this
    {
      PayloadLength(length)
    }

    ghost predicate CanPack()
      reads this
    {
      data != null ==> dataAt + Announced() <= data.Length && 8 + Announced() <= BUFFER_SIZE
    }

    /** The payload that ends up in the frame. PackData clears its buffer first, so a payload
        pointer left in that buffer by UnPackData yields zeros. */
    ghost function Outgoing(): seq<byte>
      reads this, data
      requires CanPack()
    {
      if data == null then []
      else if data == buffer then Zeros(Announced())
      else data[dataAt..dataAt + Announced()]
    }

    method PackData(pbuf: array?<byte>) returns (r: int)
      requires Valid() && CanPack()
      requires pbuf != buffer
      requires pbuf != null ==>
                 pbuf.Length >= |Delimited(RawBody(table, length, Message(typ, cmd, Outgoing())))|
      modifies this`checkSum, this`dataLength, buffer, pbuf
      ensures pbuf == null ==> r == -1
      ensures pbuf != null ==>
                var frame := Delimited(RawBody(table, length, old(Message(typ, cmd, Outgoing()))));
                && r == |frame|
                && pbuf[..r] == frame
                && pbuf[r..] == old(pbuf[r..])
                && dataLength == Announced()
    {
      if pbuf == null {
        return -1;
      }
      ghost var raw := RawBody(table, length, Message(typ, cmd, Outgoing()));
      var i := FillBody();
      r := Delimit(i, pbuf, raw);
    }

    /** The raw frame body in the buffer. */
    method FillBody() returns (i: nat)
      requires Valid() && CanPack()
      modifies this`checkSum, this`dataLength, buffer
      ensures i <= buffer.Length && dataLength == Announced()
      ensures buffer[..i] == RawBody(table, length, old(Message(typ, cmd, Outgoing())))
    {
      ghost var payload := Outgoing();
      checkSum := 0;
      i := FillBuffer();
      WriteCheckSum(i, payload);
    }

    /** Head, encoded buffer, tail. */
    method Delimit(i: nat, pbuf: array<byte>, ghost raw: seq<byte>) returns (r: nat)
      requires i <= buffer.Length && pbuf != buffer && buffer[..i] == raw
      requires |Delimited(raw)| <= pbuf.Length
      modifies pbuf
      ensures r == |Delimited(raw)|
      ensures pbuf[..r] == Delimited(raw)
      ensures pbuf[r..] == old(pbuf[r..])
    {
      pbuf[0] := HEAD;
      assert buffer[..i] == raw;
      var len := Encode(buffer, i, pbuf, 1);
      assert pbuf[0] == pbuf[..1][0];
      ghost var e, tail := pbuf[1..1 + len], pbuf[len + 1..];
      pbuf[len + 1] := HEAD;
      assert pbuf[len + 2..] == tail[1..];
      assert pbuf[1..1 + len] == e == Escape(raw);
      len := len + 2;
      return len;
    }

    /** The checksum over everything behind it, stored in its section. */
    method WriteCheckSum(i: nat, ghost payload: seq<byte>)
      requires Valid() && i == 8 + |payload| <= BUFFER_SIZE
      requires Holds(buffer[..], length, typ, cmd, payload)
      modifies this`checkSum, buffer
      ensures buffer[..i] == RawBody(table, length, Message(typ, cmd, payload))
    {
      HeldBehind(buffer[..], length, typ, cmd, payload);
      var crc := CheckSumOf(i, Word(typ) + Word(cmd) + payload);
      checkSum := crc;
      StoreCheckSum(i, payload);
    }

    method CheckSumOf(i: nat, ghost checked: seq<byte>) returns (crc: u16)
      requires 4 <= i <= buffer.Length && i < 65536 && buffer[4..i] == checked
      ensures crc == Crc16(table, checked)
    {
      crc := GetCrc16(table, buffer, 4, i - 4, 0);
    }

    method StoreCheckSum(i: nat, ghost payload: seq<byte>)
      requires i == 8 + |payload| <= buffer.Length
      requires Holds(buffer[..], length, typ, cmd, payload)
      modifies buffer
      ensures buffer[..i] == Word(length) + Word(checkSum) + (Word(typ) + Word(cmd) + payload)
    {
      ghost var was := buffer[..];
      PutWord(checkSum, 2);
      HeldBody(was, buffer[..], length, checkSum, typ, cmd, payload);
    }

    /** PackSectionData for a two-byte section. */
    method PutWord(w: u16, i: nat)
      requires i + 2 <= buffer.Length
      modifies buffer
      ensures buffer[i] == w / 256 && buffer[i + 1] == w % 256
      ensures forall k :: 0 <= k < i || i + 2 <= k < buffer.Length ==> buffer[k] == old(buffer[k])
    {
      WordIsBigEndian(w);
      var n := Bin2Buffer(w, 2, buffer, i);
      assert buffer[i + 0] == Word(w)[0] && buffer[i + 1] == Word(w)[1];
    }

    /** memset and the four header sections. */
    method FillHeader() returns (i: nat)
      requires Valid() && checkSum == 0
      modifies buffer
      ensures i == 8
      ensures buffer[0] == length / 256 && buffer[1] == length % 256
      ensures buffer[4] == typ / 256 && buffer[5] == typ % 256
      ensures buffer[6] == cmd / 256 && buffer[7] == cmd % 256
      ensures forall k :: 8 <= k < buffer.Length ==> buffer[k] == 0
    {
      forall k | 0 <= k < buffer.Length {
        buffer[k] := 0;
      }
      PutWord(length, 0);
      PutWord(checkSum, 2);
      PutWord(typ, 4);
      PutWord(cmd, 6);
      i := 8;
    }

    /** Everything PackData writes to its buffer before the checksum is known. */
    method FillBuffer() returns (i: nat)
      requires Valid() && CanPack() && checkSum == 0
      modifies this`dataLength, buffer
      ensures dataLength == Announced()
      ensures var payload := old(Outgoing());
              i == 8 + |payload| <= BUFFER_SIZE && Holds(buffer[..], length, typ, cmd, payload)
    {
      ghost var payload := Outgoing();
      assert data != null && data != buffer ==>
               forall k :: 0 <= k < Announced() ==> data[dataAt + k] == payload[k];
      i := FillHeader();
      dataLength := Announced();
      if dataLength > 0 && data != null {
        CopyPayload(payload);
        i := i + dataLength;
      }
    }

    /** The copy of the payload behind the header. */
    method CopyPayload(ghost payload: seq<byte>)
      requires Valid() && CanPack() && data != null && dataLength == Announced() == |payload|
      requires forall k :: 8 <= k < buffer.Length ==> buffer[k] == 0
      requires if data == buffer then payload == Zeros(dataLength)
               else forall k :: 0 <= k < dataLength ==> data[dataAt + k] == payload[k]
      modifies buffer
      ensures forall k :: 0 <= k < dataLength ==> buffer[8 + k] == payload[k]
      ensures forall k :: 0 <= k < 8 ==> buffer[k] == old(buffer[k])
    {
      forall k | 0 <= k < dataLength {
        buffer[8 + k] := data[dataAt + k];
      }
    }

    /** The decoded bytes UnPackData works on when pbuf holds a frame: they must fit the buffer. */
    ghost predicate CanUnPack(s: seq<byte>)
    {
      match Scan(s)
      case None => true
      case Some(f) => |Unescape(s[f.start + 1..f.end]).bytes| <= BUFFER_SIZE
    }

    /** The payload the data pointer and length describe, if it lies within its array. */
    function Payload(): Option<seq<byte>>
      reads this, data
    {
      if dataLength == 0 then Some([])
      else if data == null || dataAt + dataLength > data.Length then None
      else Some(data[dataAt..dataAt + dataLength])
    }

    function Shown(): Delivery
      reads this, data
    {
      Delivery(typ, cmd, Payload())
    }

    ghost function Fields(): (u16, u16, array?<byte>, nat, u16)
      reads this
    {
      (typ, cmd, data, dataAt, dataLength)
    }

    /** The fields after a body with header h has been read with result code r: when it was refused
        only length and checkSum have changed. */
    ghost predicate HasFields(h: Header, r: int, was: (u16, u16, array?<byte>, nat, u16))
      reads this
    {
      && length == h.length && checkSum == h.checkSum
      && if r == -2 then Fields() == was
         else
           && typ == h.typ && cmd == h.cmd
           && dataLength == PayloadLength(h.length)
           && if dataLength > 0 then data == buffer && dataAt == 8 else data == was.2 && dataAt == was.3
    }

    /** The state after a body decoding to d has been read, and the result code r. The buffer has
        been overwritten in any case. */
    ghost predicate HasRead(d: Decoded, r: int, was: (u16, u16, array?<byte>, nat, u16))
      reads this, buffer
    {
      && buffer[..] == Filled(d.bytes)
      && HasFields(HeaderOf(Filled(d.bytes)), r, was)
      && if r == -2 then MayRefuse(table, d)
         else MayAccept(table, d) && r == if d.ok then |d.bytes| + 2 else 1
    }

    /** The result code is -1 without a frame, -2 on a checksum mismatch, and otherwise the decoded
        length plus 2, which is 1 for a body that did not decode. */
    method UnPackData(pbuf: array?<byte>, at: nat, len: nat, left: int) returns (r: int, left': int)
      requires Valid() && pbuf != buffer
      requires pbuf != null ==> at + len <= pbuf.Length && CanUnPack(pbuf[at..at + len])
      modifies this`length, this`checkSum, this`typ, this`cmd, this`data, this`dataAt, this`dataLength, buffer
      ensures Valid()
      ensures pbuf == null ==> r == -1 && left' == left
      ensures pbuf != null ==>
                match Scan(old(pbuf[at..at + len]))
                case None => r == -1 && left' == left
                case Some(f) =>
                  && left' == len - f.end - 1
                  && HasRead(Unescape(old(pbuf[at..at + len])[f.start + 1..f.end]), r, old(Fields()))
    {
      left' := left;
      var ok, start, end := CheckProtocol(pbuf, at, len);
      if !ok {
        return -1, left';
      }
      left' := len - end - 1;
      ghost var body := pbuf[at..at + len][start + 1..end];
      ArraySlice(pbuf, at, len, start + 1, end);
      r := ReadBody(pbuf, at + start + 1, end - start - 1, body);
    }

    /** UnPackData after the frame has been delimited. */
    method ReadBody(pbuf: array<byte>, at: nat, len: nat, ghost body: seq<byte>) returns (r: int)
      requires Valid() && pbuf != buffer
      requires at + len <= pbuf.Length && len >= 8 && pbuf[at..at + len] == body
      requires |Unescape(body).bytes| <= BUFFER_SIZE
      modifies this`length, this`checkSum, this`typ, this`cmd, this`data, this`dataAt, this`dataLength, buffer
      ensures Valid()
      ensures HasRead(Unescape(body), r, old(Fields()))
    {
      UnescapeLength(body);
      var dlen := LoadBody(pbuf, at, len);
      r := ReadDecoded(dlen, Unescape(body));
    }

    /** The sections of a body decoded to d. */
    method ReadDecoded(dlen: int, ghost d: Decoded) returns (r: int)
      requires Valid() && buffer[..] == Filled(d.bytes) && |d.bytes| <= BUFFER_SIZE
      requires dlen == if d.ok then |d.bytes| else -1
      requires d.ok ==> dlen >= 4
      modifies this`length, this`checkSum, this`typ, this`cmd, this`data, this`dataAt, this`dataLength
      ensures Valid()
      ensures HasRead(d, r, old(Fields()))
    {
      length := ReadWord(0);
      checkSum := ReadWord(2);
      var crc := CrcOf(dlen, d);
      if checkSum != crc {
        return -2;
      }
      typ := ReadWord(4);
      cmd := ReadWord(6);
      dataLength := PayloadLength(length);
      if dataLength > 0 {
        data, dataAt := buffer, 8;
      }
      return dlen + 2;
    }

    /** The checksum over the decoded bytes; over a body that did not decode it is any word. */
    method CrcOf(dlen: int, ghost d: Decoded) returns (crc: u16)
      requires Valid() && buffer[..] == Filled(d.bytes) && |d.bytes| <= BUFFER_SIZE
      requires dlen == if d.ok then |d.bytes| else -1
      requires d.ok ==> dlen >= 4
      ensures d.ok ==> crc == Crc16(table, Checked(d.bytes))
    {
      if dlen == -1 {
        crc := *;
      } else {
        crc := GetCrc16(table, buffer, 4, dlen - 4, 0);
        assert buffer[4..dlen] == buffer[..][4..dlen] == d.bytes[4..];
      }
    }

    /** memset and decode. */
    method LoadBody(pbuf: array<byte>, at: nat, len: nat) returns (dlen: int)
      requires Valid() && pbuf != buffer
      requires at + len <= pbuf.Length
      requires |Unescape(pbuf[at..at + len]).bytes| <= BUFFER_SIZE
      modifies buffer
      ensures var d := Unescape(old(pbuf[at..at + len]));
              && dlen == (if d.ok then |d.bytes| else -1)
              && buffer[..] == Filled(d.bytes)
    {
      ghost var t := pbuf[at..at + len];
      forall k | 0 <= k < buffer.Length {
        buffer[k] := 0;
      }
      assert buffer[..] == Zeros(BUFFER_SIZE);
      assert pbuf[at..at + len] == t;
      dlen := Decode(pbuf, at, len, buffer);
      ghost var n := |Unescape(t).bytes|;
      assert buffer[..] == buffer[..n] + buffer[n..];
      assert Zeros(BUFFER_SIZE)[n..] == Zeros(BUFFER_SIZE - n);
    }

    /** UnPackSectionData for a two-byte section. */
    method ReadWord(i: nat) returns (w: u16)
      requires i + 2 <= buffer.Length
      ensures w == At(buffer[..], i)
    {
      var v := Buffer2Bin(buffer, i, 2);
      AtIsValue(buffer[i..i + 2]);
      w := v;
    }
  }

  /** Packing what was just read gives back the frame that was read if and only if its payload is
      all zeros: PackData clears the buffer the payload pointer is left in. The frame is one that
      was accepted, with the right length field. */
  lemma RepackedFrame(p: Protocol, t: seq<byte>, r: int, was: (u16, u16, array?<byte>, nat, u16))
    requires p.Valid() && HEAD !in t && p.HasRead(Unescape(t), r, was) && r >= 0
    requires Unescape(t).ok && 8 <= |Unescape(t).bytes| <= BUFFER_SIZE && p.length == |Unescape(t).bytes| - 2
    requires p.CanPack()
    ensures var raw := Unescape(t).bytes;
            Delimited(RawBody(p.table, p.length, Message(p.typ, p.cmd, p.Outgoing()))) == [HEAD] + t + [HEAD] <==>
              raw[8..] == Zeros(|raw| - 8)
  {
    var raw := Unescape(t).bytes;
    EscapeUnescapeClean(t);
    OutgoingAfterRead(p, raw, r, was);
    RawIsBody(p.table, raw);
    var m := Message(p.typ, p.cmd, Zeros(|raw| - 8));
    SameFrame(p.table, p.length, m, raw);
  }

  lemma OutgoingAfterRead(p: Protocol, raw: seq<byte>, r: int, was: (u16, u16, array?<byte>, nat, u16))
    requires p.Valid() && p.CanPack() && p.HasRead(Decoded(raw, true), r, was) && r >= 0
    requires 8 <= |raw| <= BUFFER_SIZE && p.length == |raw| - 2
    ensures p.Outgoing() == Zeros(|raw| - 8)
  {
    assert p.Announced() == |raw| - 8;
  }

  /** Decoded bytes whose checksum matches are the body of a message. */
  lemma RawIsBody(table: Table, raw: seq<byte>)
    requires 8 <= |raw| <= BUFFER_SIZE && CheckSumMatches(table, raw)
    ensures var h := HeaderOf(Filled(raw));
            raw == RawBody(table, h.length, Message(h.typ, h.cmd, raw[8..]))
  {
    Padded(raw, Zeros(BUFFER_SIZE - |raw|));
    Assembled(raw, HeaderOf(raw));
  }

  lemma Assembled(raw: seq<byte>, h: Header)
    requires 8 <= |raw| && h == HeaderOf(raw)
    ensures raw[4..] == Word(h.typ) + Word(h.cmd) + raw[8..]
    ensures raw == Word(h.length) + Word(h.checkSum) + (Word(h.typ) + Word(h.cmd) + raw[8..])
  {
    AtBytes(raw[0], raw[1]);
    AtBytes(raw[2], raw[3]);
    AtBytes(raw[4], raw[5]);
    AtBytes(raw[6], raw[7]);
  }

  lemma AtBytes(hi: byte, lo: byte)
    ensures Word(hi as int * 256 + lo) == [hi, lo]
  {
  }

  lemma SameFrame(table: Table, length: u16, m: Message, raw: seq<byte>)
    requires |raw| >= 8 && |m.payload| == |raw| - 8
    requires raw == RawBody(table, length, Message(m.typ, m.cmd, raw[8..]))
    ensures Delimited(RawBody(table, length, m)) == [HEAD] + Escape(raw) + [HEAD] <==> raw[8..] == m.payload
  {
    var other := RawBody(table, length, m);
    if Delimited(other) == [HEAD] + Escape(raw) + [HEAD] {
      var n := |Delimited(other)|;
      assert Delimited(other)[1..n - 1] == Escape(other);
      assert ([HEAD] + Escape(raw) + [HEAD])[1..n - 1] == Escape(raw);
      UnescapeEscape(other);
      UnescapeEscape(raw);
      HeaderOfRawBody(table, length, m, []);
    }
  }
}
