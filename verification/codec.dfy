// TLVs and messages: the constructors of src/types.c, and the printer and parser of src/serialization.c on values.

module Codec {
  import opened Bits
  import opened Runs
  import opened Wire
  import opened Wrappers

  const MSG_MAGIC: byte := 93
  const MSG_VERSION: byte := 2
  const MSG_TLV_NB_DEF: nat := 64

  type Ip = s: Bytes | |s| == 16 witness seq(16, _ => 0)
  type OtherKind = k: byte | k > 7 witness 8

  datatype DataBody = DataBody(sender: uint64, nonce: uint32, kind: byte, data: Bytes)

  /** A TLV with its length byte, which need not agree with its body. */
  datatype Tlv =
    | Pad1(length: byte)
    | PadN(length: byte, zeroes: uint32)
    | Hello(length: byte, isLong: bool, source: uint64, dest: uint64)
    | Neighbour(length: byte, ip: Ip, port: uint16)
    | Data(length: byte, body: DataBody)
    | Ack(length: byte, sender: uint64, nonce: uint32)
    | GoAway(length: byte, code: byte, message: Bytes)
    | Warning(length: byte, message: Bytes)
    | Unknown(kind: OtherKind, length: byte)

  datatype Msg = Msg(magic: byte, version: byte, length: uint16, body: seq<Tlv>)

  function KindOf(t: Tlv): byte {
    match t
    case Pad1(_) => 0
    case PadN(_, _) => 1
    case Hello(_, _, _, _) => 2
    case Neighbour(_, _, _) => 3
    case Data(_, _) => 4
    case Ack(_, _, _) => 5
    case GoAway(_, _, _) => 6
    case Warning(_, _) => 7
    case Unknown(k, _) => k
  }

  // ---- printing ----

  function Zeroes(n: nat): (r: Bytes)
    ensures |r| == n && forall i :: 0 <= i < n ==> r[i] == 0
  {
    seq(n, _ => 0)
  }

  function PrintBody(t: Tlv): Bytes {
    match t
    case Pad1(_) => []
    case PadN(_, n) => Zeroes(n)
    case Hello(_, isLong, source, dest) => BigEndian(source, 8) + if isLong then BigEndian(dest, 8) else []
    case Neighbour(_, ip, port) => ip + BigEndian(port, 2)
    case Data(_, b) => BigEndian(b.sender, 8) + BigEndian(b.nonce, 4) + [b.kind] + b.data
    case Ack(_, sender, nonce) => BigEndian(sender, 8) + BigEndian(nonce, 4)
    case GoAway(_, code, message) => [code] + message
    case Warning(_, message) => message
    case Unknown(_, _) => []
  }

  function PrintTlv(t: Tlv): Bytes {
    [KindOf(t), t.length] + PrintBody(t)
  }

  function PrintTlvs(ts: seq<Tlv>): Bytes {
    PrintAll(PrintTlv, ts)
  }

  function PrintMsg(m: Msg): Bytes {
    [m.magic, m.version] + BigEndian(m.length, 2) + PrintTlvs(m.body)
  }

  /** Where the fields of a TLV are: type and length byte, and then the body, numbers in network order. */
  lemma TlvLayout(t: Tlv)
    ensures |PrintTlv(t)| >= 2 && PrintTlv(t)[1] == t.length
    ensures match t
            case Pad1(_) => PrintTlv(t) == [0, t.length]
            case PadN(_, n) => PrintTlv(t) == [1, t.length] + Zeroes(n)
            case Hello(_, isLong, source, dest) => PrintTlv(t)[0] == 2 && HelloLayout(PrintTlv(t)[2..], isLong, source, dest)
            case Neighbour(_, ip, port) => PrintTlv(t)[0] == 3 && NeighbourLayout(PrintTlv(t)[2..], ip, port)
            case Data(_, b) => PrintTlv(t)[0] == 4 && DataLayout(PrintTlv(t)[2..], b)
            case Ack(_, sender, nonce) => PrintTlv(t)[0] == 5 && KeyLayout(PrintTlv(t)[2..], sender, nonce)
            case GoAway(_, code, message) => PrintTlv(t) == [6, t.length, code] + message
            case Warning(_, message) => PrintTlv(t) == [7, t.length] + message
            case Unknown(k, _) => PrintTlv(t) == [k, t.length]
  {
    assert PrintTlv(t)[2..] == PrintBody(t);
    match t
    case Hello(_, isLong, source, dest) => HelloIsLaid(isLong, source, dest);
    case Neighbour(_, ip, port) => NeighbourIsLaid(ip, port);
    case Data(_, b) => DataIsLaid(b);
    case Ack(_, sender, nonce) => KeyIsLaid(sender, nonce, []);
    case GoAway(_, code, message) => assert [6, t.length] + ([code] + message) == [6, t.length, code] + message;
    case _ =>
  }

  predicate HelloLayout(b: Bytes, isLong: bool, source: uint64, dest: uint64) {
    |b| == (if isLong then 16 else 8) && FromBig(b[..8]) == source && (isLong ==> FromBig(b[8..]) == dest)
  }

  predicate NeighbourLayout(b: Bytes, ip: Ip, port: uint16) {
    |b| == 18 && b[..16] == ip && FromBig(b[16..]) == port
  }

  predicate KeyLayout(b: Bytes, sender: uint64, nonce: uint32) {
    |b| == 12 && FromBig(b[..8]) == sender && FromBig(b[8..]) == nonce
  }

  predicate DataLayout(b: Bytes, d: DataBody) {
    |b| == 13 + |d.data| && KeyLayout(b[..12], d.sender, d.nonce) && b[12] == d.kind && b[13..] == d.data
  }

  lemma HelloIsLaid(isLong: bool, source: uint64, dest: uint64)
    ensures HelloLayout(BigEndian(source, 8) + if isLong then BigEndian(dest, 8) else [], isLong, source, dest)
  {
    EightBytes();
    BigRoundTrip(source, 8);
    BigRoundTrip(dest, 8);
    var b := BigEndian(source, 8) + if isLong then BigEndian(dest, 8) else [];
    assert b[..8] == BigEndian(source, 8) && (isLong ==> b[8..] == BigEndian(dest, 8));
  }

  lemma NeighbourIsLaid(ip: Ip, port: uint16)
    ensures NeighbourLayout(ip + BigEndian(port, 2), ip, port)
  {
    Pow2Of32();
    BigRoundTrip(port, 2);
    assert (ip + BigEndian(port, 2))[16..] == BigEndian(port, 2);
  }

  lemma KeyIsLaid(sender: uint64, nonce: uint32, rest: Bytes)
    ensures var b := BigEndian(sender, 8) + BigEndian(nonce, 4) + rest;
            KeyLayout(b[..12], sender, nonce) && b[12..] == rest
    ensures KeyLayout(BigEndian(sender, 8) + BigEndian(nonce, 4), sender, nonce)
  {
    EightBytes();
    Pow2Of32();
    BigRoundTrip(sender, 8);
    BigRoundTrip(nonce, 4);
    var k := BigEndian(sender, 8) + BigEndian(nonce, 4);
    assert k[..8] == BigEndian(sender, 8) && k[8..] == BigEndian(nonce, 4) && (k + rest)[..12] == k;
  }

  lemma DataIsLaid(d: DataBody)
    ensures DataLayout(PrintBody(Data(0, d)), d)
  {
    var k := BigEndian(d.sender, 8) + BigEndian(d.nonce, 4);
    KeyIsLaid(d.sender, d.nonce, [d.kind] + d.data);
    assert PrintBody(Data(0, d)) == k + ([d.kind] + d.data);
  }

  /** A message begins with the magic number, the version and its length in network order; its TLVs follow in order. */
  lemma MsgLayout(m: Msg)
    ensures var s := PrintMsg(m);
            |s| >= 4 && s[0] == m.magic && s[1] == m.version && FromBig(s[2..4]) == m.length && s[4..] == PrintTlvs(m.body)
    ensures forall i :: 0 <= i < |m.body| ==>
              PrintTlvs(m.body) == PrintTlvs(m.body[..i]) + PrintTlv(m.body[i]) + PrintTlvs(m.body[i + 1..])
  {
    forall i | 0 <= i < |m.body|
      ensures PrintTlvs(m.body) == PrintTlvs(m.body[..i]) + PrintTlv(m.body[i]) + PrintTlvs(m.body[i + 1..])
    {
      PrintAllAt(PrintTlv, m.body, i);
    }
    Pow2Of32();
    BigRoundTrip(m.length, 2);
    assert PrintMsg(m)[2..4] == BigEndian(m.length, 2);
  }

  // ---- parsing ----

  /** How many bytes of body the parser reads for a type and a length byte; it wants 13 of Data at least. */
  function ReadSize(kind: byte, length: byte): nat {
    match kind
    case 1 => length
    case 2 => if length > 8 then 16 else 8
    case 3 => 18
    case 4 => length
    case 5 => 12
    case 6 => if length > 1 then length else 1
    case 7 => length
    case _ => 0
  }

  predicate Readable(s: Bytes) {
    && |s| >= 2
    && |s| >= 2 + ReadSize(s[0], s[1])
    && (s[0] == 4 ==> s[1] >= 13)
  }

  function ToUint64(s: Bytes): uint64
    requires |s| == 8
  {
    BigImage(s);
    EightBytes();
    FromBig(s)
  }

  function ToUint32(s: Bytes): uint32
    requires |s| == 4
  {
    BigImage(s);
    Pow2Of32();
    FromBig(s)
  }

  function ToUint16(s: Bytes): uint16
    requires |s| == 2
  {
    BigImage(s);
    Pow2Of32();
    FromBig(s)
  }

  /** The TLV made of a type, a length byte and the body bytes that were read. */
  function ParseBody(kind: byte, length: byte, b: Bytes): Tlv
    requires |b| == ReadSize(kind, length) && (kind == 4 ==> length >= 13)
  {
    match kind
    case 0 => Pad1(length)
    case 1 => PadN(length, length)
    case 2 => Hello(length, length > 8, ToUint64(b[..8]), if length > 8 then ToUint64(b[8..]) else 0)
    case 3 => Neighbour(length, b[..16], ToUint16(b[16..]))
    case 4 => Data(length, DataBody(ToUint64(b[..8]), ToUint32(b[8..12]), b[12], b[13..]))
    case 5 => Ack(length, ToUint64(b[..8]), ToUint32(b[8..]))
    case 6 => GoAway(length, b[0], b[1..])
    case 7 => Warning(length, b)
    case _ => Unknown(kind, length)
  }

  /** The first TLV of `s` and the bytes after it; None when the parser would read past the end. */
  function ParseTlv(s: Bytes): (r: Option<(Tlv, Bytes)>)
    ensures r.Some? ==> |r.value.1| < |s|
  {
    if !Readable(s) then None
    else
      var n := 2 + ReadSize(s[0], s[1]);
      Some((ParseBody(s[0], s[1], s[2..n]), s[n..]))
  }

  /** All TLVs of `s`, while there is room for them in the array of the message. */
  function ParseTlvs(s: Bytes, room: nat): Option<seq<Tlv>> {
    ParseAll(ParseTlv, s, room)
  }

  function ParseMsg(s: Bytes): Option<Msg> {
    if |s| < 4 then None
    else match ParseTlvs(s[4..], MSG_TLV_NB_DEF)
      case None => None
      case Some(ts) => Some(Msg(s[0], s[1], ToUint16(s[2..4]), ts))
  }

  // ---- a TLV survives printing and parsing ----

  /** The length byte fits the body, as far as the parser looks at it. */
  predicate WellFormed(t: Tlv) {
    match t
    case Pad1(_) => true
    case PadN(length, n) => length == n
    case Hello(length, isLong, _, dest) => isLong == (length > 8) && (isLong || dest == 0)
    case Neighbour(_, _, _) => true
    case Data(length, b) => length == 13 + |b.data|
    case Ack(_, _, _) => true
    case GoAway(length, _, message) => length == 1 + |message| || (length == 0 && message == [])
    case Warning(length, message) => length == |message|
    case Unknown(_, _) => true
  }

  lemma BodySize(t: Tlv)
    requires WellFormed(t)
    ensures |PrintBody(t)| == ReadSize(KindOf(t), t.length) && (t.Data? ==> t.length >= 13)
  {
  }

  lemma BodyIsRead(t: Tlv)
    requires WellFormed(t)
    ensures |PrintBody(t)| == ReadSize(KindOf(t), t.length) && (t.Data? ==> t.length >= 13)
    ensures ParseBody(KindOf(t), t.length, PrintBody(t)) == t
  {
    BodySize(t);
    EightBytes();
    Pow2Of32();
    var b := PrintBody(t);
    match t
    case Hello(length, isLong, source, dest) =>
      assert b[..8] == BigEndian(source, 8) && (isLong ==> b[8..] == BigEndian(dest, 8));
      BigRoundTrip(source, 8);
      BigRoundTrip(dest, 8);
    case Neighbour(length, ip, port) =>
      assert b[..16] == ip && b[16..] == BigEndian(port, 2);
      BigRoundTrip(port, 2);
    case Data(length, d) =>
      DataBodyIsRead(length, d);
    case Ack(length, sender, nonce) =>
      assert b[..8] == BigEndian(sender, 8) && b[8..] == BigEndian(nonce, 4);
      BigRoundTrip(sender, 8);
      BigRoundTrip(nonce, 4);
    case GoAway(length, code, message) =>
      assert b[0] == code && b[1..] == message;
    case _ =>
  }

  lemma DataBodyIsRead(length: byte, d: DataBody)
    requires length == 13 + |d.data|
    ensures ParseBody(4, length, PrintBody(Data(length, d))) == Data(length, d)
  {
    EightBytes();
    Pow2Of32();
    var b := PrintBody(Data(length, d));
    assert b[..8] == BigEndian(d.sender, 8) && b[8..12] == BigEndian(d.nonce, 4) && b[12] == d.kind && b[13..] == d.data;
    BigRoundTrip(d.sender, 8);
    BigRoundTrip(d.nonce, 4);
  }

  lemma ParsedIsWellFormed(s: Bytes)
    ensures ParseTlv(s).Some? ==> WellFormed(ParseTlv(s).value.0)
  {
  }

  /** An encoding is self-delimiting under any suffix, exactly for well-formed TLVs. */
  lemma TlvRoundTrip(t: Tlv, rest: Bytes)
    ensures ParseTlv(PrintTlv(t) + rest) == Some((t, rest)) <==> WellFormed(t)
  {
    ParsedIsWellFormed(PrintTlv(t) + rest);
    if WellFormed(t) {
      BodyIsRead(t);
      var s, n := PrintTlv(t) + rest, 2 + |PrintBody(t)|;
      assert s[0] == KindOf(t) && s[1] == t.length && s[2..n] == PrintBody(t) && s[n..] == rest;
    }
  }

  // ---- a message survives printing and parsing ----

  predicate AllWellFormed(ts: seq<Tlv>) {
    forall i :: 0 <= i < |ts| ==> WellFormed(ts[i])
  }

  lemma TlvsRoundTrip(ts: seq<Tlv>, room: nat)
    requires AllWellFormed(ts)
    ensures ParseTlvs(PrintTlvs(ts), room) == if |ts| <= room then Some(ts) else None
  {
    forall i | 0 <= i < |ts| ensures ReadsBack(ParseTlv, PrintTlv, ts[i]) {
      forall rest ensures ParseTlv(PrintTlv(ts[i]) + rest) == Some((ts[i], rest)) {
        TlvRoundTrip(ts[i], rest);
      }
    }
    RunRoundTrip(ParseTlv, PrintTlv, ts, room);
  }

  lemma {:induction false} ParsedTlvs(s: Bytes, room: nat)
    ensures ParseTlvs(s, room).Some? ==> AllWellFormed(ParseTlvs(s, room).value) && |ParseTlvs(s, room).value| <= room
    decreases room
  {
    if s != [] && ParseTlvs(s, room).Some? {
      var ts := FirstOfRun(ParseTlv, s, room);
      ParsedIsWellFormed(s);
      ParsedTlvs(ParseTlv(s).value.1, room - 1);
    }
  }

  /** Parsing undoes printing exactly for messages of at most 64 TLVs whose length bytes fit their bodies. */
  lemma MsgRoundTrip(m: Msg)
    ensures ParseMsg(PrintMsg(m)) == Some(m) <==> AllWellFormed(m.body) && |m.body| <= MSG_TLV_NB_DEF
  {
    var s := PrintMsg(m);
    assert s[2..4] == BigEndian(m.length, 2) && s[4..] == PrintTlvs(m.body);
    Pow2Of32();
    BigRoundTrip(m.length, 2);
    ParsedTlvs(s[4..], MSG_TLV_NB_DEF);
    if AllWellFormed(m.body) {
      TlvsRoundTrip(m.body, MSG_TLV_NB_DEF);
    }
  }

  // ---- a datagram survives parsing and printing ----

  predicate AllZero(s: Bytes) {
    forall i :: 0 <= i < |s| ==> s[i] == 0
  }

  /** If the first TLV is a PadN, then it is filled with zeroes. */
  predicate ZeroPad(s: Bytes) {
    Readable(s) && s[0] == 1 ==> AllZero(s[2..2 + s[1]])
  }

  /** Every PadN of a run of TLVs is filled with zeroes. */
  ghost predicate ZeroPads(s: Bytes) {
    AllCanonical(ParseTlv, ZeroPad, s, MSG_TLV_NB_DEF)
  }

  lemma BodyIsReprinted(kind: byte, length: byte, b: Bytes)
    requires |b| == ReadSize(kind, length) && (kind == 4 ==> length >= 13)
    ensures PrintBody(ParseBody(kind, length, b)) == b <==> (kind == 1 ==> AllZero(b))
    ensures KindOf(ParseBody(kind, length, b)) == kind && ParseBody(kind, length, b).length == length
    ensures |PrintBody(ParseBody(kind, length, b))| == |b|
  {
    match kind
    case 2 =>
      BigImage(b[..8]);
      if length > 8 {
        BigImage(b[8..]);
        assert b == b[..8] + b[8..];
      } else {
        assert b == b[..8];
      }
    case 3 =>
      BigImage(b[16..]);
      assert b == b[..16] + b[16..];
    case 4 =>
      BigImage(b[..8]);
      BigImage(b[8..12]);
      assert b == b[..8] + b[8..12] + [b[12]] + b[13..];
    case 5 =>
      BigImage(b[..8]);
      BigImage(b[8..]);
      assert b == b[..8] + b[8..];
    case 6 =>
      assert b == [b[0]] + b[1..];
    case _ =>
  }

  lemma TlvReprinted(s: Bytes)
    ensures Reprints(ParseTlv, PrintTlv, ZeroPad, s)
  {
    if Readable(s) {
      var kind, length, n := s[0], s[1], 2 + ReadSize(s[0], s[1]);
      BodyIsReprinted(kind, length, s[2..n]);
      var body := PrintBody(ParseBody(kind, length, s[2..n]));
      SplitEqual([kind, length], body, s[..n], 2);
      assert s[..n][..2] == [kind, length] && s[..n][2..] == s[2..n];
    }
  }

  /** Printing undoes parsing exactly for datagrams whose PadN bodies are filled with zeroes. */
  lemma MsgReprinted(s: Bytes)
    requires ParseMsg(s).Some?
    ensures |PrintMsg(ParseMsg(s).value)| == |s|
    ensures PrintMsg(ParseMsg(s).value) == s <==> ZeroPads(s[4..])
  {
    forall s ensures Reprints(ParseTlv, PrintTlv, ZeroPad, s) {
      TlvReprinted(s);
    }
    RunReprinted(ParseTlv, PrintTlv, ZeroPad, s[4..], MSG_TLV_NB_DEF);
    BigImage(s[2..4]);
    var m := ParseMsg(s).value;
    var header := [m.magic, m.version] + BigEndian(m.length, 2);
    assert header == s[..4];
    SplitEqual(header, PrintTlvs(m.body), s, 4);
  }

  // ---- constructors ----

  function NewTlvPad1(): Tlv { Pad1(0) }

  function NewTlvPadN(n: uint32): Tlv { PadN(n % 0x100, n) }

  function NewTlvHello(isLong: bool, source: uint64, dest: uint64): Tlv {
    Hello(8 + if isLong then 8 else 0, isLong, source, if isLong then dest else 0)
  }

  /** As coded, the length byte is 10 although the body has 18 bytes. */
  function NewTlvNeighbour(ip: Ip, port: uint16): Tlv { Neighbour(8 + 2, ip, port) }

  function NewTlvData(body: DataBody): Tlv { Data((|body.data| + 13) % 0x100, body) }

  function NewTlvAck(sender: uint64, nonce: uint32): Tlv { Ack(12, sender, nonce) }

  /** As coded, the length byte leaves out the message. */
  function NewTlvGoAway(code: byte, message: Bytes): Tlv { GoAway(1, code, message) }

  function NewTlvWarning(message: Bytes): Tlv { Warning(|message| % 0x100, message) }

  function SumLengths(ts: seq<Tlv>): nat {
    if ts == [] then 0 else 2 + ts[0].length + SumLengths(ts[1..])
  }

  /** The 16-bit length that the loop of `new_msg` adds up. */
  method NewMsg(ts: seq<Tlv>) returns (m: Msg)
    ensures m == MsgOf(ts)
  {
    var length: uint16 := 0;
    assert ts[..0] == [];
    for i := 0 to |ts|
      invariant length == SumLengths(ts[..i]) % 0x1_0000
    {
      SumLengthsAppend(ts[..i], ts[i]);
      assert ts[..i + 1] == ts[..i] + [ts[i]];
      AddModulo(SumLengths(ts[..i]), 2 + ts[i].length);
      length := (length + (2 + ts[i].length)) % 0x1_0000;
    }
    assert ts[..|ts|] == ts;
    m := Msg(MSG_MAGIC, MSG_VERSION, length, ts);
  }

  lemma AddModulo(a: nat, b: nat)
    ensures (a % 0x1_0000 + b) % 0x1_0000 == (a + b) % 0x1_0000
  {
  }

  function MsgOf(ts: seq<Tlv>): Msg {
    Msg(MSG_MAGIC, MSG_VERSION, SumLengths(ts) % 0x1_0000, ts)
  }

  lemma {:induction false} SumLengthsAppend(ts: seq<Tlv>, t: Tlv)
    ensures SumLengths(ts + [t]) == SumLengths(ts) + 2 + t.length
  {
    if ts != [] {
      SumLengthsAppend(ts[1..], t);
      assert (ts + [t])[1..] == ts[1..] + [t];
    }
  }

  /** Which constructed TLVs survive a round trip: the length byte must not wrap, and a GoAway must carry no message. */
  lemma ConstructorsWellFormed(n: uint32, isLong: bool, source: uint64, dest: uint64, ip: Ip, port: uint16,
                               body: DataBody, code: byte, message: Bytes)
    ensures WellFormed(NewTlvPad1()) && WellFormed(NewTlvAck(source, body.nonce))
    ensures WellFormed(NewTlvHello(isLong, source, dest)) && WellFormed(NewTlvNeighbour(ip, port))
    ensures WellFormed(NewTlvPadN(n)) <==> n <= 255
    ensures WellFormed(NewTlvData(body)) <==> |body.data| <= 242
    ensures WellFormed(NewTlvGoAway(code, message)) <==> message == []
    ensures WellFormed(NewTlvWarning(message)) <==> |message| <= 255
  {
  }

  /** A TLV that a constructor made, with its length byte not wrapped. */
  predicate Built(t: Tlv) {
    match t
    case Pad1(length) => length == 0
    case PadN(length, n) => length == n
    case Hello(length, isLong, _, dest) => length == (if isLong then 16 else 8) && (isLong || dest == 0)
    case Neighbour(length, _, _) => length == 10
    case Data(length, b) => length == 13 + |b.data|
    case Ack(length, _, _) => length == 12
    case GoAway(length, _, _) => length == 1
    case Warning(length, message) => length == |message|
    case Unknown(_, _) => false
  }

  /** The body bytes that the constructors leave out of the length byte. */
  function Uncounted(ts: seq<Tlv>): nat {
    if ts == [] then 0
    else (match ts[0]
          case Neighbour(_, _, _) => 8
          case GoAway(_, _, message) => |message|
          case _ => 0) + Uncounted(ts[1..])
  }

  lemma {:induction false} PrintedSize(ts: seq<Tlv>)
    requires forall i :: 0 <= i < |ts| ==> Built(ts[i])
    ensures |PrintTlvs(ts)| == SumLengths(ts) + Uncounted(ts)
  {
    if ts != [] {
      assert Built(ts[0]);
      PrintedSize(ts[1..]);
    }
  }

  /** The header's length is the size of what follows exactly when no Neighbour and no GoAway message is in it. */
  lemma MsgSize(ts: seq<Tlv>)
    requires forall i :: 0 <= i < |ts| ==> Built(ts[i])
    ensures |PrintMsg(MsgOf(ts))| == 4 + SumLengths(ts) + Uncounted(ts)
    ensures |PrintMsg(MsgOf(ts))| == 4 + MsgOf(ts).length <==> Uncounted(ts) == 0 && SumLengths(ts) < 0x1_0000
  {
    PrintedSize(ts);
  }

  /** A GoAway that carries a message does not come back: the message is left to be read as further TLVs. */
  lemma GoAwayMessageIsLost()
    ensures ParseTlv(PrintTlv(NewTlvGoAway(2, [0, 0]))) == Some((GoAway(1, 2, []), [0, 0]))
  {
    var s := PrintTlv(NewTlvGoAway(2, [0, 0]));
    assert s == [6, 1, 2, 0, 0];
    assert s[2..3] == [2] && s[3..] == [0, 0];
    assert ParseBody(6, 1, [2]) == GoAway(1, 2, []);
  }
}
