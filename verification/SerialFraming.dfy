/** `SerialFraming`: the mesh message on the serial line, and the byte-by-byte framer. */
module SerialFraming {
  import opened Types
  import opened Varints
  import opened Protobuf
  import opened PbStreams
  import opened Message

  /** The part of `mesh_message` the serial line carries, as bytes. */
  datatype Packet = Packet(kind: Byte, dataType: I32, origin: Bytes6, target: Bytes6, lastHop: Bytes6,
                           data: seq<Byte>, hopCount: Byte, epoch: U32, seqNum: U16, proto: Byte,
                           key: seq<Byte>)

  /** The sizes of the C arrays. */
  predicate WholePacket(p: Packet) {
    |p.data| == DATA_CAP && |p.key| == KEY_CAP
  }

  predicate AllZero(s: seq<Byte>) {
    forall i :: 0 <= i < |s| ==> s[i] == 0
  }

  /** The public key travels in enrollment messages only, and only when it is not all zero. */
  predicate CarriesKey(p: Packet) {
    (p.kind == TYPE_ENROLLMENT || p.kind == TYPE_JOIN_ACK) && !AllZero(p.key)
  }

  function ToPb(p: Packet): (r: PbMsg)
    requires WholePacket(p)
    ensures Shaped(r)
  {
    Defaults().(messageType := p.kind, dataType := p.dataType, origin := p.origin, target := p.target,
                lastHop := p.lastHop, data := Blob(true, DATA_CAP, p.data), hopCount := p.hopCount,
                epochNum := p.epoch, seqNum := p.seqNum, protoVersion := p.proto,
                publicKey := if CarriesKey(p) then Blob(true, KEY_CAP, p.key) else NoBlob(KEY_CAP))
  }

  /** Messages the server addresses keep the addresses of the wire. */
  predicate FromServer(kind: Byte) {
    kind == TYPE_JOIN_ACK || kind == TYPE_SERIAL_CMD_BROADCAST
  }

  function Min(a: nat, b: nat): nat { if a < b then a else b }

  function FromPb(m: PbMsg, own: Bytes6): (r: Packet)
    requires Shaped(m)
    ensures WholePacket(r)
  {
    var kind: Byte := m.messageType % 0x100;
    var n := if m.data.has then Min(m.data.size, DATA_CAP) else 0;
    Packet(kind, m.dataType, if FromServer(kind) then m.origin else own, m.target,
           if FromServer(kind) then m.lastHop else own, m.data.buf[..n] + Zeros(DATA_CAP)[n..],
           m.hopCount % 0x100, m.epochNum, m.seqNum % 0x1_0000, m.protoVersion % 0x100,
           if m.publicKey.has then m.publicKey.buf else Zeros(KEY_CAP))
  }

  /** What the other end of the line makes of a packet. */
  function Delivered(p: Packet, own: Bytes6): Packet {
    p.(origin := if FromServer(p.kind) then p.origin else own,
       lastHop := if FromServer(p.kind) then p.lastHop else own,
       key := if CarriesKey(p) then p.key else Zeros(KEY_CAP))
  }

  lemma ToPbIsClean(p: Packet)
    requires WholePacket(p)
    ensures Clean(ToPb(p)) == ToPb(p)
  {
    assert p.data[..DATA_CAP] + Zeros(DATA_CAP)[DATA_CAP..] == p.data;
    assert p.key[..KEY_CAP] + Zeros(KEY_CAP)[KEY_CAP..] == p.key;
  }

  lemma ToPbDecodes(p: Packet)
    requires WholePacket(p)
    ensures Decoded(Encoded(ToPb(p))) == Some(ToPb(p))
  {
    MessageRoundTrip(ToPb(p));
    ToPbIsClean(p);
  }

  lemma FromToPb(p: Packet, own: Bytes6)
    requires WholePacket(p)
    ensures FromPb(ToPb(p), own) == Delivered(p, own)
  {
    assert p.data[..DATA_CAP] + Zeros(DATA_CAP)[DATA_CAP..] == p.data;
  }

  /** Every packet survives the line: all fields it carries come back as they were sent, with the
      device's own address in place of the origin and last hop of device-originated types. */
  lemma PacketRoundTrip(p: Packet, own: Bytes6)
    requires WholePacket(p)
    ensures Decoded(Encoded(ToPb(p))).Some?
    ensures Shaped(Decoded(Encoded(ToPb(p))).value)
    ensures FromPb(Decoded(Encoded(ToPb(p))).value, own) == Delivered(p, own)
  {
    ToPbDecodes(p);
    FromToPb(p, own);
  }

  // ---- Sizes ----

  function VarSize(v: nat): nat {
    if v == 0 then 0 else 1 + |Base128(v)|
  }

  /** The exact length of an encoding. */
  function PacketSize(p: Packet): nat {
    VarSize(p.kind) + VarSize(Zigzag(p.dataType)) + 3 * 8 + (2 + DATA_CAP) + VarSize(p.hopCount)
    + VarSize(p.epoch) + VarSize(p.seqNum) + VarSize(p.proto) + (if CarriesKey(p) then 2 + KEY_CAP else 0)
  }

  /** Total length of the pieces from `i` on. */
  function LengthFrom(fs: seq<seq<Byte>>, i: nat): nat
    decreases |fs| - i
  {
    if i >= |fs| then 0 else |fs[i]| + LengthFrom(fs, i + 1)
  }

  lemma {:induction false} LengthsAdd(fs: seq<seq<Byte>>, i: nat)
    ensures |Flat(fs, i)| == LengthFrom(fs, i)
    decreases |fs| - i
  {
    if i < |fs| {
      LengthsAdd(fs, i + 1);
    }
  }

  lemma HeadLengths(p: Packet)
    requires WholePacket(p)
    ensures var m := ToPb(p);
            && |FieldBytes(m, 0)| == VarSize(p.kind) && |FieldBytes(m, 1)| == VarSize(Zigzag(p.dataType))
            && |FieldBytes(m, 2)| == 8 && |FieldBytes(m, 3)| == 8 && |FieldBytes(m, 4)| == 8
            && |FieldBytes(m, 5)| == 2 + DATA_CAP && |FieldBytes(m, 6)| == VarSize(p.hopCount)
  {
    ZigzagBijective(p.dataType, 0);
  }

  lemma TailLengths(p: Packet)
    requires WholePacket(p)
    ensures var m := ToPb(p);
            && |FieldBytes(m, 7)| == VarSize(p.epoch) && |FieldBytes(m, 8)| == VarSize(p.seqNum)
            && |FieldBytes(m, 9)| == VarSize(p.proto)
            && |FieldBytes(m, 10)| == (if CarriesKey(p) then 2 + KEY_CAP else 0)
            && |FieldBytes(m, 11)| == 0 && |FieldBytes(m, 12)| == 0 && |FieldBytes(m, 13)| == 0
            && |FieldBytes(m, 14)| == 0
  {
  }

  lemma SizeIsExact(p: Packet)
    requires WholePacket(p)
    ensures |Encoded(ToPb(p))| == PacketSize(p)
  {
    var fs := AllFields(ToPb(p));
    LengthsAdd(fs, 0);
    HeadLengths(p);
    TailLengths(p);
    FifteenLengths(fs);
  }

  lemma FifteenLengths(fs: seq<seq<Byte>>)
    requires |fs| == 15
    ensures LengthFrom(fs, 0) == |fs[0]| + |fs[1]| + |fs[2]| + |fs[3]| + |fs[4]| + |fs[5]| + |fs[6]| + |fs[7]|
      + |fs[8]| + |fs[9]| + |fs[10]| + |fs[11]| + |fs[12]| + |fs[13]| + |fs[14]|
  {
    assert LengthFrom(fs, 12) == |fs[12]| + |fs[13]| + |fs[14]| by {
      assert LengthFrom(fs, 14) == |fs[14]| + LengthFrom(fs, 15);
    }
    assert LengthFrom(fs, 9) == |fs[9]| + |fs[10]| + |fs[11]| + LengthFrom(fs, 12) by {
      assert LengthFrom(fs, 11) == |fs[11]| + LengthFrom(fs, 12);
    }
    assert LengthFrom(fs, 6) == |fs[6]| + |fs[7]| + |fs[8]| + LengthFrom(fs, 9) by {
      assert LengthFrom(fs, 8) == |fs[8]| + LengthFrom(fs, 9);
    }
    assert LengthFrom(fs, 3) == |fs[3]| + |fs[4]| + |fs[5]| + LengthFrom(fs, 6) by {
      assert LengthFrom(fs, 5) == |fs[5]| + LengthFrom(fs, 6);
    }
    assert LengthFrom(fs, 2) == |fs[2]| + LengthFrom(fs, 3);
  }

  lemma VarSizeBound(v: nat, k: nat)
    requires 0 < k <= 5 && v < Pow128(k)
    ensures VarSize(v) <= 1 + k
  {
    Base128Length(v, k);
  }

  /** No packet takes more than 148 bytes. */
  lemma SizeAtMost148(p: Packet)
    requires WholePacket(p)
    ensures |Encoded(ToPb(p))| <= 148
  {
    SizeIsExact(p);
    SmallPowers();
    assert Pow128(5) == 0x80 * Pow128(4);
    ZigzagBijective(p.dataType, 0);
    VarSizeBound(p.kind, if p.kind < 0x80 then 1 else 2);
    VarSizeBound(Zigzag(p.dataType), 5);
    VarSizeBound(p.hopCount, 2);
    VarSizeBound(p.epoch, 5);
    VarSizeBound(p.seqNum, 3);
    VarSizeBound(p.proto, 2);
  }

  /** The bound is reached: a JOIN_ACK with a key and every counter large. */
  lemma SizeReaches148(p: Packet)
    requires WholePacket(p) && p.kind == TYPE_JOIN_ACK && CarriesKey(p)
    requires p.dataType == -0x8000_0000 && p.hopCount == 0xFF && p.epoch == 0xFFFF_FFFF
    requires p.seqNum == 0xFFFF && p.proto == 0xFF
    ensures |Encoded(ToPb(p))| == 148
  {
    SizeIsExact(p);
    SizeAtMost148(p);
    SmallPowers();
    ZigzagBijective(p.dataType, 0);
    Base128Length(p.hopCount, 1);
    Base128Length(p.proto, 1);
    Base128Length(p.seqNum, 2);
    Base128Length(p.epoch, 4);
    Base128Length(Zigzag(p.dataType), 4);
  }

  /** `relayEnrollmentToServer`'s message. */
  function EnrollmentRelay(mac: Bytes6, key: seq<Byte>): Packet
    requires |key| == KEY_CAP
  {
    Packet(TYPE_ENROLLMENT, 0, mac, Zeros(6), Zeros(6), Zeros(DATA_CAP), 0, 0, 0, PROTO_VERSION, key)
  }

  /** An enrollment relay fills its 128-byte buffer exactly when the key is not all zero, and
      needs 94 bytes otherwise: it always fits. */
  lemma EnrollmentRelaySize(mac: Bytes6, key: seq<Byte>)
    requires |key| == KEY_CAP
    ensures |Encoded(ToPb(EnrollmentRelay(mac, key)))| == if AllZero(key) then 94 else 128
  {
    SizeIsExact(EnrollmentRelay(mac, key));
  }

  // ---- The codec ----

  /** The scan for a non-zero key byte. */
  method IsNonZero(s: seq<Byte>) returns (r: bool)
    ensures r == !AllZero(s)
  {
    for i := 0 to |s|
      invariant forall j :: 0 <= j < i ==> s[j] == 0
    {
      if s[i] != 0 {
        return true;
      }
    }
    return false;
  }

  /** `encode`: nothing (length zero) exactly when the buffer is too small. */
  method Encode(p: Packet, maxLen: nat) returns (bytes: seq<Byte>)
    requires WholePacket(p)
    ensures bytes == if |Encoded(ToPb(p))| <= maxLen then Encoded(ToPb(p)) else []
  {
    var m := Defaults();
    m := m.(messageType := p.kind, dataType := p.dataType, hopCount := p.hopCount, epochNum := p.epoch,
            seqNum := p.seqNum, protoVersion := p.proto);
    m := m.(origin := p.origin, target := p.target, lastHop := p.lastHop);
    m := m.(data := Blob(true, |p.data|, p.data));
    if p.kind == TYPE_ENROLLMENT || p.kind == TYPE_JOIN_ACK {
      var nonZero := IsNonZero(p.key);
      if nonZero {
        m := m.(publicKey := Blob(true, KEY_CAP, p.key));
      }
    }
    assert m == ToPb(p);
    var stream := new OStream(maxLen);
    var ok := stream.Encode(m);
    bytes := if ok then stream.written else [];
  }

  /** `decode`. */
  method Decode(bytes: seq<Byte>, own: Bytes6) returns (p: Option<Packet>)
    ensures p.Some? <==> Decoded(bytes).Some?
    ensures p.Some? ==> Shaped(Decoded(bytes).value) && p.value == FromPb(Decoded(bytes).value, own)
  {
    var stream := new IStream(bytes);
    var m := stream.Decode();
    if m.None? {
      return None;
    }
    p := Some(FromPb(m.value, own));
  }

  /** Encoding into a buffer of 148 bytes or more and decoding delivers the packet. */
  method SendOverLine(p: Packet, own: Bytes6, maxLen: nat) returns (r: Option<Packet>)
    requires WholePacket(p) && maxLen >= 148
    ensures r == Some(Delivered(p, own))
  {
    SizeAtMost148(p);
    PacketRoundTrip(p, own);
    var bytes := Encode(p, maxLen);
    r := Decode(bytes, own);
  }
}
