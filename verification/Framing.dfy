/** The byte-by-byte framer of the serial line: two length bytes, then the payload. */
module Framing {
  import opened Types
  import opened Protobuf
  import opened SerialFraming

  const MAX_PAYLOAD := 256

  /** Where the framer stands between two bytes. */
  datatype Framer = Len1 | Len2(low: Byte) | Payload(length: nat, got: seq<Byte>)

  function LengthOf(low: Byte, high: Byte): nat {
    low + 0x100 * high
  }

  function AfterByte(f: Framer, b: Byte): Framer {
    match f
    case Len1 => Len2(b)
    case Len2(low) =>
      var n := LengthOf(low, b);
      if n == 0 || n > MAX_PAYLOAD then Len1 else Payload(n, [])
    case Payload(n, got) => if |got| + 1 >= n then Len1 else Payload(n, got + [b])
  }

  /** The payload this byte completes, if it does. */
  function Completed(f: Framer, b: Byte): seq<seq<Byte>> {
    if f.Payload? && |f.got| + 1 >= f.length then [f.got + [b]] else []
  }

  /** Every payload completed while `s` is fed in. */
  function Fed(f: Framer, s: seq<Byte>): seq<seq<Byte>>
    decreases |s|
  {
    if s == [] then [] else Completed(f, s[0]) + Fed(AfterByte(f, s[0]), s[1..])
  }

  // ---- The reference parser ----

  /** Reads whole frames; after a bad length it starts over right behind the two bytes. */
  function Frames(s: seq<Byte>): seq<seq<Byte>>
    decreases |s|
  {
    if |s| < 2 then []
    else
      var n := LengthOf(s[0], s[1]);
      if n == 0 || n > MAX_PAYLOAD then Frames(s[2..])
      else if |s| < 2 + n then []
      else [s[2..2 + n]] + Frames(s[2 + n..])
  }

  lemma {:induction false} PayloadFed(n: nat, got: seq<Byte>, s: seq<Byte>)
    requires |got| < n <= MAX_PAYLOAD
    ensures var left := n - |got|;
            Fed(Payload(n, got), s)
            == if |s| < left then [] else [got + s[..left]] + Fed(Len1, s[left..])
    decreases |s|
  {
    var left := n - |got|;
    if s != [] {
      if left == 1 {
        assert s[..1] == [s[0]];
      } else {
        PayloadFed(n, got + [s[0]], s[1..]);
        if |s| >= left {
          assert got + s[..left] == (got + [s[0]]) + s[1..][..left - 1];
          assert s[left..] == s[1..][left - 1..];
        }
      }
    }
  }

  /** On any bytes the framer yields exactly the frames of the reference parser. */
  lemma {:induction false} FramerRefinesParser(s: seq<Byte>)
    ensures Fed(Len1, s) == Frames(s)
    decreases |s|
  {
    if |s| >= 2 {
      var n := LengthOf(s[0], s[1]);
      assert s[1..][1..] == s[2..] && s[1..][0] == s[1];
      assert Fed(Len1, s) == Fed(Len2(s[0]), s[1..]) == Fed(AfterByte(Len2(s[0]), s[1]), s[2..]);
      if n == 0 || n > MAX_PAYLOAD {
        FramerRefinesParser(s[2..]);
      } else {
        PayloadFed(n, [], s[2..]);
        if |s| >= 2 + n {
          assert [] + s[2..][..n] == s[2..2 + n] && s[2..][n..] == s[2 + n..];
          FramerRefinesParser(s[2 + n..]);
        }
      }
    } else if |s| == 1 {
      assert s[1..] == [];
    }
  }

  // ---- Well-formed streams ----

  predicate Sendable(p: seq<Byte>) {
    1 <= |p| <= MAX_PAYLOAD
  }

  /** A payload behind its two-byte little-endian length. */
  function Framed(p: seq<Byte>): seq<Byte>
    requires Sendable(p)
  {
    Le16(|p|) + p
  }

  function FramedAll(ps: seq<seq<Byte>>): seq<Byte>
    requires forall p :: p in ps ==> Sendable(p)
  {
    if ps == [] then [] else Framed(ps[0]) + FramedAll(ps[1..])
  }

  /** Parsing a sequence of framed payloads gives back exactly those payloads. */
  lemma {:induction false} FramesOfFramed(ps: seq<seq<Byte>>)
    requires forall p :: p in ps ==> Sendable(p)
    ensures Frames(FramedAll(ps)) == ps
  {
    if ps != [] {
      var p, rest := ps[0], FramedAll(ps[1..]);
      var s := Framed(p) + rest;
      FramesOfFramed(ps[1..]);
      var l := Le16(|p|);
      assert s[0] == l[0] && s[1] == l[1] && LengthOf(l[0], l[1]) == |p|;
      assert s[2..2 + |p|] == p && s[2 + |p|..] == rest;
      assert ps == [p] + ps[1..];
    }
  }

  /** Fed from a fresh framer, a stream of framed payloads yields exactly them, in order. */
  lemma FramingExact(ps: seq<seq<Byte>>)
    requires forall p :: p in ps ==> Sendable(p)
    ensures Fed(Len1, FramedAll(ps)) == ps
  {
    FramesOfFramed(ps);
    FramerRefinesParser(FramedAll(ps));
  }

  // ---- The class ----

  datatype FrameState = AwaitingLen1 | AwaitingLen2 | AwaitingPayload

  class SerialFramer {
    var frameState: FrameState
    var frameLength: U16
    var frameIndex: nat
    const payloadBuffer: array<Byte>

    ghost predicate Valid()
      reads this, payloadBuffer
    {
      && payloadBuffer.Length == MAX_PAYLOAD && frameIndex <= MAX_PAYLOAD
      && (frameState == AwaitingLen2 ==> frameLength < 0x100)
      && (frameState == AwaitingPayload ==> frameIndex < frameLength <= MAX_PAYLOAD)
    }

    ghost function View(): Framer
      requires Valid()
      reads this, payloadBuffer
    {
      match frameState
      case AwaitingLen1 => Len1
      case AwaitingLen2 => Len2(frameLength)
      case AwaitingPayload => Payload(frameLength, payloadBuffer[..frameIndex])
    }

    /** `frameBuffer()` and `frameLen()`. */
    function Frame(): seq<Byte>
      requires frameIndex <= payloadBuffer.Length
      reads this, payloadBuffer
    {
      payloadBuffer[..frameIndex]
    }

    constructor ()
      ensures Valid() && View() == Len1 && fresh(payloadBuffer)
    {
      frameState, frameLength, frameIndex := AwaitingLen1, 0, 0;
      payloadBuffer := new Byte[MAX_PAYLOAD](i => 0);
    }

    /** True when this byte completes a frame, which then stands in the buffer. The overflow
        branch is never taken. */
    method InjectByte(b: Byte) returns (complete: bool)
      requires Valid()
      modifies this, payloadBuffer
      ensures Valid() && View() == AfterByte(old(View()), b)
      ensures (if complete then [Frame()] else []) == Completed(old(View()), b)
    {
      match frameState {
        case AwaitingLen1 =>
          frameIndex := 0;
          frameLength := b;
          frameState := AwaitingLen2;
        case AwaitingLen2 =>
          frameLength := frameLength + 0x100 * b;
          if frameLength == 0 || frameLength > MAX_PAYLOAD {
            frameState := AwaitingLen1;
            frameLength := 0;
            frameIndex := 0;
          } else {
            frameIndex := 0;
            frameState := AwaitingPayload;
          }
        case AwaitingPayload =>
          if frameIndex >= MAX_PAYLOAD {
            assert false;
          }
          ghost var got := payloadBuffer[..frameIndex];
          payloadBuffer[frameIndex] := b;
          frameIndex := frameIndex + 1;
          assert payloadBuffer[..frameIndex] == got + [b];
          if frameIndex >= frameLength {
            frameState := AwaitingLen1;
            frameLength := 0;
            return true;
          }
      }
      return false;
    }

    /** The receive loop of `SerialAdapter::loop`: every byte in turn, every completed frame
        handed on. */
    method Receive(s: seq<Byte>) returns (frames: seq<seq<Byte>>)
      requires Valid()
      modifies this, payloadBuffer
      ensures Valid() && frames == Fed(old(View()), s)
    {
      frames := [];
      for i := 0 to |s|
        invariant Valid()
        invariant frames + Fed(View(), s[i..]) == Fed(old(View()), s)
      {
        assert s[i..][1..] == s[i + 1..];
        ghost var before := View();
        var complete := InjectByte(s[i]);
        assert Fed(before, s[i..]) == Completed(before, s[i]) + Fed(View(), s[i + 1..]);
        if complete {
          frames := frames + [Frame()];
        }
      }
    }
  }

  // ---- Packets over the line ----

  /** The framed encodings of a list of packets. */
  function Payloads(ps: seq<Packet>): (r: seq<seq<Byte>>)
    requires forall p :: p in ps ==> WholePacket(p)
    ensures |r| == |ps| && forall i :: 0 <= i < |ps| ==> r[i] == Encoded(ToPb(ps[i]))
  {
    seq(|ps|, i requires 0 <= i < |ps| => assert ps[i] in ps; Encoded(ToPb(ps[i])))
  }

  lemma PayloadsSendable(ps: seq<Packet>)
    requires forall p :: p in ps ==> WholePacket(p)
    ensures forall s :: s in Payloads(ps) ==> Sendable(s)
  {
    forall i | 0 <= i < |ps|
      ensures Sendable(Payloads(ps)[i])
    {
      assert ps[i] in ps;
      SizeAtMost148(ps[i]);
      SizeIsExact(ps[i]);
    }
  }

  /** A list of packets written to the line arrives as exactly those packets, one frame each, in
      order. */
  lemma PacketsOverLine(ps: seq<Packet>, own: Bytes6)
    requires forall p :: p in ps ==> WholePacket(p)
    ensures forall s :: s in Payloads(ps) ==> Sendable(s)
    ensures var frames := Fed(Len1, FramedAll(Payloads(ps)));
            && |frames| == |ps|
            && forall i :: 0 <= i < |ps| ==>
                 Decoded(frames[i]).Some? && Shaped(Decoded(frames[i]).value)
                 && FromPb(Decoded(frames[i]).value, own) == Delivered(ps[i], own)
  {
    PayloadsSendable(ps);
    FramingExact(Payloads(ps));
    forall i | 0 <= i < |ps|
      ensures Decoded(Payloads(ps)[i]).Some? && Shaped(Decoded(Payloads(ps)[i]).value)
              && FromPb(Decoded(Payloads(ps)[i]).value, own) == Delivered(ps[i], own)
    {
      assert ps[i] in ps;
      PacketRoundTrip(ps[i], own);
    }
  }
}
