// The serialization buffer of src/types.c and the cursor routines of src/serialization.c.

module Sbuff {
  import opened Bits
  import opened Codec
  import opened Runs
  import opened Sequences
  import opened Wire
  import opened Wrappers

  const SBUFF_INIT_SIZE: nat := 64

  /** 64 doubled any number of times. */
  ghost predicate Doubled(size: nat) {
    exists k: nat :: size == SBUFF_INIT_SIZE * Pow2(k)
  }

  lemma DoubledOnce(size: nat)
    requires Doubled(size)
    ensures Doubled(2 * size) && size >= SBUFF_INIT_SIZE
  {
    var k: nat :| size == SBUFF_INIT_SIZE * Pow2(k);
    assert 2 * size == SBUFF_INIT_SIZE * Pow2(k + 1);
  }

  /** `l = ntohll(l)`, for the value whose memory image `s` was copied. */
  function NtohllOf(s: Bytes): (x: uint64)
    requires |s| == 8
    ensures BigEndian(x, 8) == s
  {
    NtohllReads(s);
    Htonll(FromLittle(s))
  }

  class Sbuff {
    var size: nat
    var next: nat
    var realSize: nat
    var data: array<byte>

    // ---- writing ----

    /** An append-only log: the cursor is at the end, and the capacity is as small as doubling allows. */
    ghost predicate Writable()
      reads this
    {
      && data.Length == size
      && next == realSize <= size
      && Doubled(size)
      && (size == SBUFF_INIT_SIZE || size < 2 * realSize)
    }

    ghost function Log(): Bytes
      requires realSize <= data.Length
      reads this, data
    {
      data[..realSize]
    }

    /** `new_sbuff` */
    constructor ()
      ensures Writable() && Log() == [] && fresh(data)
    {
      size, next, realSize := SBUFF_INIT_SIZE, 0, 0;
      data := new byte[SBUFF_INIT_SIZE];
      assert SBUFF_INIT_SIZE == SBUFF_INIT_SIZE * Pow2(0);
    }

    method ReserveSpace(bytes: nat)
      requires Writable()
      modifies this`data, this`size
      ensures data.Length == size && next + bytes <= size && Doubled(size)
      ensures size == old(size) || size < 2 * (next + bytes)
      ensures data[..realSize] == old(data[..realSize])
      ensures data == old(data) || fresh(data)
    {
      while next + bytes > size
        invariant data.Length == size && realSize <= size && Doubled(size)
        invariant size == old(size) || size < 2 * (next + bytes)
        invariant data[..realSize] == old(data[..realSize])
        invariant data == old(data) || fresh(data)
        decreases next + bytes - size
      {
        DoubledOnce(size);
        var grown := new byte[size * 2];
        forall i | 0 <= i < size {
          grown[i] := data[i];
        }
        data, size := grown, size * 2;
      }
    }

    /** Reserve, `memcpy` at the cursor, advance. */
    method Append(s: Bytes)
      requires Writable()
      modifies this, data
      ensures Writable() && (data == old(data) || fresh(data))
      ensures Log() == old(Log()) + s
    {
      ReserveSpace(|s|);
      forall i | 0 <= i < |s| {
        data[next + i] := s[i];
      }
      next, realSize := next + |s|, realSize + |s|;
      assert data[..realSize] == old(Log()) + s;
    }

    method SerialChar(c: byte)
      requires Writable()
      modifies this, data
      ensures Writable() && (data == old(data) || fresh(data))
      ensures Log() == old(Log()) + [c]
    {
      Append([c]);
    }

    method SerialShort(s: uint16)
      requires Writable()
      modifies this, data
      ensures Writable() && (data == old(data) || fresh(data))
      ensures Log() == old(Log()) + BigEndian(s, 2)
    {
      HtonsImage(s);
      Append(LittleEndian(Htons(s), 2));
    }

    method SerialInt(i: uint32)
      requires Writable()
      modifies this, data
      ensures Writable() && (data == old(data) || fresh(data))
      ensures Log() == old(Log()) + BigEndian(i, 4)
    {
      HtonlImage(i);
      Append(LittleEndian(Htonl(i), 4));
    }

    method SerialLong(l: uint64)
      requires Writable()
      modifies this, data
      ensures Writable() && (data == old(data) || fresh(data))
      ensures Log() == old(Log()) + BigEndian(l, 8)
    {
      HtonllImage(l);
      Append(LittleEndian(Htonll(l), 8));
    }

    method SerialTlv(t: Tlv)
      requires Writable()
      modifies this, data
      ensures Writable() && (data == old(data) || fresh(data))
      ensures Log() == old(Log()) + PrintTlv(t)
    {
      SerialChar(KindOf(t));
      SerialChar(t.length);
      assert Log() == old(Log()) + [KindOf(t), t.length];
      SerialBody(t);
      Associative(old(Log()), [KindOf(t), t.length], PrintBody(t));
    }

    method SerialBody(t: Tlv)
      requires Writable()
      modifies this, data
      ensures Writable() && (data == old(data) || fresh(data))
      ensures Log() == old(Log()) + PrintBody(t)
    {
      match t
      case Pad1(_) => return;
      case PadN(_, zeroes) => SerialZeroes(zeroes);
      case Hello(_, isLong, source, dest) => SerialHelloBody(isLong, source, dest);
      case Neighbour(_, ip, port) => SerialNeighbourBody(ip, port);
      case Data(_, body) => SerialDataBody(body);
      case Ack(_, sender, nonce) => SerialAckBody(sender, nonce);
      case GoAway(_, code, message) => SerialGoAwayBody(code, message);
      case Warning(_, message) => Append(message);
      case Unknown(_, _) => return;
    }

    method SerialHelloBody(isLong: bool, source: uint64, dest: uint64)
      requires Writable()
      modifies this, data
      ensures Writable() && (data == old(data) || fresh(data))
      ensures Log() == old(Log()) + (BigEndian(source, 8) + if isLong then BigEndian(dest, 8) else [])
    {
      SerialLong(source);
      if isLong {
        SerialLong(dest);
      }
    }

    method SerialNeighbourBody(ip: Ip, port: uint16)
      requires Writable()
      modifies this, data
      ensures Writable() && (data == old(data) || fresh(data))
      ensures Log() == old(Log()) + (ip + BigEndian(port, 2))
    {
      Append(ip);
      SerialShort(port);
    }

    method SerialDataBody(b: DataBody)
      requires Writable()
      modifies this, data
      ensures Writable() && (data == old(data) || fresh(data))
      ensures Log() == old(Log()) + (BigEndian(b.sender, 8) + BigEndian(b.nonce, 4) + [b.kind] + b.data)
    {
      SerialLong(b.sender);
      SerialInt(b.nonce);
      SerialChar(b.kind);
      Append(b.data);
    }

    method SerialAckBody(sender: uint64, nonce: uint32)
      requires Writable()
      modifies this, data
      ensures Writable() && (data == old(data) || fresh(data))
      ensures Log() == old(Log()) + (BigEndian(sender, 8) + BigEndian(nonce, 4))
    {
      SerialLong(sender);
      SerialInt(nonce);
    }

    method SerialGoAwayBody(code: byte, message: Bytes)
      requires Writable()
      modifies this, data
      ensures Writable() && (data == old(data) || fresh(data))
      ensures Log() == old(Log()) + ([code] + message)
    {
      SerialChar(code);
      if |message| > 0 {
        Append(message);
      }
    }

    method SerialZeroes(n: nat)
      requires Writable()
      modifies this, data
      ensures Writable() && (data == old(data) || fresh(data))
      ensures Log() == old(Log()) + Zeroes(n)
    {
      for i := 0 to n
        invariant Writable() && (data == old(data) || fresh(data))
        invariant Log() == old(Log()) + Zeroes(i)
      {
        assert Zeroes(i + 1) == Zeroes(i) + [0];
        SerialChar(0);
      }
    }

    method SerialMsg(m: Msg)
      requires Writable()
      modifies this, data
      ensures Writable() && (data == old(data) || fresh(data))
      ensures Log() == old(Log()) + PrintMsg(m)
    {
      SerialChar(m.magic);
      SerialChar(m.version);
      SerialShort(m.length);
      ghost var header := [m.magic, m.version] + BigEndian(m.length, 2);
      assert Log() == old(Log()) + header;
      SerialTlvs(m.body);
      Associative(old(Log()), header, PrintTlvs(m.body));
    }

    /** The loop of `serial_msg`. */
    method SerialTlvs(ts: seq<Tlv>)
      requires Writable()
      modifies this, data
      ensures Writable() && (data == old(data) || fresh(data))
      ensures Log() == old(Log()) + PrintTlvs(ts)
    {
      assert ts[..0] == [] && Log() + [] == Log();
      for i := 0 to |ts|
        invariant Writable() && (data == old(data) || fresh(data))
        invariant Log() == old(Log()) + PrintTlvs(ts[..i])
      {
        PrintTlvsStep(old(Log()), ts, i);
        SerialTlv(ts[i]);
      }
      assert ts[..|ts|] == ts;
    }

    // ---- reading ----

    /** `new_dsbuff`: the bytes of a datagram, with the cursor at their start. */
    constructor FromData(input: array<byte>)
      ensures Parsing() && next == 0 && realSize == input.Length && data == input
    {
      size, next, realSize, data := input.Length, 0, input.Length, input;
    }

    ghost predicate Parsing()
      reads this
    {
      next <= realSize <= data.Length
    }

    /** The bytes from the cursor to the end of the datagram. */
    ghost function Unread(): Bytes
      requires Parsing()
      reads this, data
    {
      data[next..realSize]
    }

    /** `memcpy` from the cursor, and advance; never past `realSize`. */
    method Take(n: nat) returns (s: Bytes)
      requires Parsing() && n <= |Unread()|
      modifies this`next
      ensures Parsing() && |s| == n && old(Unread()) == s + Unread()
    {
      s := data[next..next + n];
      next := next + n;
    }

    method DserialChar() returns (c: byte)
      requires Parsing() && |Unread()| >= 1
      modifies this`next
      ensures Parsing() && old(Unread()) == [c] + Unread()
    {
      var s := Take(1);
      c := s[0];
    }

    method DserialShort() returns (x: uint16)
      requires Parsing() && |Unread()| >= 2
      modifies this`next
      ensures Parsing() && old(Unread()) == BigEndian(x, 2) + Unread()
    {
      var s := Take(2);
      NtohReads(s);
      BigImage(s);
      x := Htons(FromLittle(s));
    }

    method DserialInt() returns (x: uint32)
      requires Parsing() && |Unread()| >= 4
      modifies this`next
      ensures Parsing() && old(Unread()) == BigEndian(x, 4) + Unread()
    {
      var s := Take(4);
      NtohReads(s);
      BigImage(s);
      x := Htonl(FromLittle(s));
    }

    method DserialLong() returns (x: uint64)
      requires Parsing() && |Unread()| >= 8
      modifies this`next
      ensures Parsing() && old(Unread()) == BigEndian(x, 8) + Unread()
    {
      var s := Take(8);
      x := NtohllOf(s);
    }

    /** One byte after the other, as `dserial_str` copies them. */
    method DserialStr(n: nat) returns (s: Bytes)
      requires Parsing() && n <= |Unread()|
      modifies this`next
      ensures Parsing() && |s| == n && old(Unread()) == s + Unread()
    {
      s := [];
      for i := 0 to n
        invariant Parsing() && |s| == i && old(Unread()) == s + Unread()
      {
        var c := DserialChar();
        s := s + [c];
      }
    }

    method DserialTlv() returns (t: Tlv)
      requires Parsing() && Readable(Unread())
      modifies this`next
      ensures Parsing() && next > old(next) && ParseTlv(old(Unread())) == Some((t, Unread()))
    {
      ghost var all := Unread();
      var kind := DserialChar();
      var length := DserialChar();
      ghost var n := ReadSize(kind, length);
      assert all == [kind, length] + Unread();
      ghost var b;
      t, b := DserialBody(kind, length);
      assert all[2..2 + n] == b && all[2 + n..] == Unread();
    }

    /** The switch of `dserial_tlv`: the reads of each body, in order. */
    method DserialBody(kind: byte, length: byte) returns (t: Tlv, ghost b: Bytes)
      requires Parsing() && |Unread()| >= ReadSize(kind, length) && (kind == 4 ==> length >= 13)
      modifies this`next
      ensures Parsing() && |b| == ReadSize(kind, length) && old(Unread()) == b + Unread()
      ensures t == ParseBody(kind, length, b)
    {
      match kind
      case 0 =>
        t, b := Pad1(length), [];
      case 1 =>
        b := DserialStr(length);
        t := PadN(length, length);
      case 2 =>
        t, b := DserialHelloBody(length);
      case 3 =>
        t, b := DserialNeighbourBody(length);
      case 4 =>
        t, b := DserialDataBody(length);
      case 5 =>
        t, b := DserialAckBody(length);
      case 6 =>
        t, b := DserialGoAwayBody(length);
      case 7 =>
        var s := DserialStr(length);
        t, b := Warning(length, s), s;
      case _ =>
        t, b := Unknown(kind, length), [];
    }

    method DserialHelloBody(length: byte) returns (t: Tlv, ghost b: Bytes)
      requires Parsing() && |Unread()| >= ReadSize(2, length)
      modifies this`next
      ensures Parsing() && |b| == ReadSize(2, length) && old(Unread()) == b + Unread()
      ensures t == ParseBody(2, length, b)
    {
      var isLong := length > 8;
      var source := DserialLong();
      b := BigEndian(source, 8);
      var dest: uint64 := 0;
      if isLong {
        dest := DserialLong();
        b := b + BigEndian(dest, 8);
      }
      t := Hello(length, isLong, source, dest);
      assert b == PrintBody(t);
      BodyIsRead(t);
    }

    method DserialNeighbourBody(length: byte) returns (t: Tlv, ghost b: Bytes)
      requires Parsing() && |Unread()| >= 18
      modifies this`next
      ensures Parsing() && |b| == 18 && old(Unread()) == b + Unread()
      ensures t == ParseBody(3, length, b)
    {
      var ip := DserialStr(16);
      var port := DserialShort();
      t, b := Neighbour(length, ip, port), ip + BigEndian(port, 2);
      BodyIsRead(t);
    }

    method DserialDataBody(length: byte) returns (t: Tlv, ghost b: Bytes)
      requires Parsing() && |Unread()| >= length >= 13
      modifies this`next
      ensures Parsing() && |b| == length && old(Unread()) == b + Unread()
      ensures t == ParseBody(4, length, b)
    {
      var sender := DserialLong();
      var nonce := DserialInt();
      var kind := DserialChar();
      var s := DserialStr(length - 8 - 4 - 1);
      var d := DataBody(sender, nonce, kind, s);
      t, b := Data(length, d), PrintBody(Data(length, d));
      DataBodyIsRead(length, d);
    }

    method DserialAckBody(length: byte) returns (t: Tlv, ghost b: Bytes)
      requires Parsing() && |Unread()| >= 12
      modifies this`next
      ensures Parsing() && |b| == 12 && old(Unread()) == b + Unread()
      ensures t == ParseBody(5, length, b)
    {
      var sender := DserialLong();
      var nonce := DserialInt();
      t, b := Ack(length, sender, nonce), BigEndian(sender, 8) + BigEndian(nonce, 4);
      BodyIsRead(t);
    }

    method DserialGoAwayBody(length: byte) returns (t: Tlv, ghost b: Bytes)
      requires Parsing() && |Unread()| >= ReadSize(6, length)
      modifies this`next
      ensures Parsing() && |b| == ReadSize(6, length) && old(Unread()) == b + Unread()
      ensures t == ParseBody(6, length, b)
    {
      var code := DserialChar();
      var message: Bytes := [];
      if length > 1 {
        message := DserialStr(length - 1);
      }
      t, b := GoAway(length, code, message), [code] + message;
    }

    /** `dserial_msg`: all reads stay within the datagram, and the cursor ends at its end. */
    method DserialMsg() returns (m: Msg)
      requires Parsing() && ParseMsg(Unread()).Some?
      modifies this`next
      ensures Parsing() && next == realSize && ParseMsg(old(Unread())) == Some(m)
    {
      ghost var all := Unread();
      var magic := DserialChar();
      var version := DserialChar();
      var length := DserialShort();
      assert all == [magic, version] + BigEndian(length, 2) + Unread();
      assert all[2..4] == BigEndian(length, 2) && all[4..] == Unread();
      Pow2Of32();
      BigRoundTrip(length, 2);
      var body := DserialTlvs(MSG_TLV_NB_DEF, ParseTlvs(all[4..], MSG_TLV_NB_DEF).value);
      m := Msg(magic, version, length, body);
    }

    /** The loop of `dserial_msg`, which fills a body that has room for so many entries. */
    method DserialTlvs(room: nat, ghost wanted: seq<Tlv>) returns (body: seq<Tlv>)
      requires Parsing() && Spells(Unread(), room, wanted)
      modifies this`next
      ensures Parsing() && next == realSize && body == wanted
    {
      ghost var left := wanted;
      body := [];
      while next < realSize
        invariant Parsing() && |body| <= room && Spells(Unread(), room - |body|, left) && wanted == body + left
        decreases realSize - next
      {
        var t;
        t, left := DserialNext(room - |body|, left);
        Associative(body, [t], left);
        body := body + [t];
      }
      SpellsNothing(Unread(), room - |body|, left);
    }

    method DserialNext(room: nat, ghost left: seq<Tlv>) returns (t: Tlv, ghost rest: seq<Tlv>)
      requires Parsing() && next < realSize && Spells(Unread(), room, left)
      modifies this`next
      ensures Parsing() && next > old(next)
      ensures room > 0 && left == [t] + rest && Spells(Unread(), room - 1, rest)
    {
      rest := FirstTlv(Unread(), room, left);
      t := DserialTlv();
    }
  }

  /** `s` parses to `ts`; stated so that only a proof that names `ParseTlvs` looks into it. */
  ghost predicate Spells(s: Bytes, room: nat, ts: seq<Tlv>) {
    forall b {:trigger ParseTlvs(b, room)} :: b == s ==> ParseTlvs(b, room) == Some(ts)
  }

  lemma FirstTlv(s: Bytes, room: nat, ts: seq<Tlv>) returns (rest: seq<Tlv>)
    requires s != [] && Spells(s, room, ts)
    ensures room > 0 && Readable(s) && ParseTlv(s).Some?
    ensures Spells(ParseTlv(s).value.1, room - 1, rest) && ts == [ParseTlv(s).value.0] + rest
  {
    assert ParseTlvs(s, room) == Some(ts);
    rest := FirstOfRun(ParseTlv, s, room);
  }

  lemma SpellsNothing(s: Bytes, room: nat, ts: seq<Tlv>)
    requires s == [] && Spells(s, room, ts)
    ensures ts == []
  {
    assert ParseTlvs(s, room) == Some(ts);
  }

  lemma PrintTlvsStep(log: Bytes, ts: seq<Tlv>, i: nat)
    requires i < |ts|
    ensures log + PrintTlvs(ts[..i + 1]) == (log + PrintTlvs(ts[..i])) + PrintTlv(ts[i])
  {
    assert ts[..i + 1] == ts[..i] + [ts[i]];
    PrintAllAppend(PrintTlv, ts[..i], ts[i]);
    Associative(log, PrintTlvs(ts[..i]), PrintTlv(ts[i]));
  }
}
