/** Big-endian device IDs, the six-byte ID frame and the twelve-byte swarm header. */
module Codec {
  import opened SwarmTypes

  /** The four bytes of an ID, most significant first. */
  function Encode(id: U32): (bytes: seq<byte>)
    ensures |bytes| == 4
  {
    [id / 0x100_0000, id / 0x1_0000 % 0x100, id / 0x100 % 0x100, id % 0x100]
  }

  /** The ID held by the first four bytes. */
  function Decode(bytes: seq<byte>): U32
    requires |bytes| >= 4
  {
    var (b0: int, b1: int, b2: int, b3: int) := (bytes[0], bytes[1], bytes[2], bytes[3]);
    b0 * 0x100_0000 + b1 * 0x1_0000 + b2 * 0x100 + b3
  }

  lemma BytesOfWord(b0: int, b1: int, b2: int, b3: int)
    requires 0 <= b0 < 0x100 && 0 <= b1 < 0x100 && 0 <= b2 < 0x100 && 0 <= b3 < 0x100
    ensures var w := b0 * 0x100_0000 + b1 * 0x1_0000 + b2 * 0x100 + b3;
            && w / 0x100_0000 == b0 && w / 0x1_0000 % 0x100 == b1
            && w / 0x100 % 0x100 == b2 && w % 0x100 == b3
  {
    var w := b0 * 0x100_0000 + b1 * 0x1_0000 + b2 * 0x100 + b3;
    assert w / 0x100 == b0 * 0x1_0000 + b1 * 0x100 + b2;
    assert w / 0x1_0000 == b0 * 0x100 + b1;
    assert w / 0x100_0000 == b0;
  }

  lemma DecodeEncode(id: U32)
    ensures Decode(Encode(id)) == id
  {
    var w: int := id;
    assert w / 0x1_0000 / 0x100 == w / 0x100_0000;
    assert w / 0x100 / 0x100 == w / 0x1_0000;
    assert w == w / 0x100 * 0x100 + w % 0x100;
    assert w / 0x100 == w / 0x1_0000 * 0x100 + w / 0x100 % 0x100;
    assert w / 0x1_0000 == w / 0x100_0000 * 0x100 + w / 0x1_0000 % 0x100;
  }

  lemma EncodeDecode(bytes: seq<byte>)
    requires |bytes| == 4
    ensures Encode(Decode(bytes)) == bytes
  {
    BytesOfWord(bytes[0], bytes[1], bytes[2], bytes[3]);
  }

  /** The ID codec is a bijection between 32-bit words and quadruples of bytes. */
  lemma CodecInverse(id: U32, bytes: seq<byte>)
    requires |bytes| == 4
    ensures Decode(bytes) == id <==> Encode(id) == bytes
  {
    DecodeEncode(id);
    EncodeDecode(bytes);
  }

  /** The first byte in which they differ decides. */
  ghost predicate LexBefore(a: seq<byte>, b: seq<byte>) {
    exists i :: 0 <= i < |a| && i < |b| && DiffersFirst(a, b, i) && a[i] < b[i]
  }

  ghost predicate DiffersFirst(a: seq<byte>, b: seq<byte>, i: nat)
    requires i < |a| && i < |b|
  {
    a[i] != b[i] && forall j | 0 <= j < i :: a[j] == b[j]
  }

  /** Most significant byte first: IDs compare as their bytes do. With `CodecInverse` no other codec does that. */
  lemma EncodeKeepsOrder(id: U32, other: U32)
    ensures id < other <==> LexBefore(Encode(id), Encode(other))
  {
    var (a, b) := (Encode(id), Encode(other));
    DecodeEncode(id);
    DecodeEncode(other);
    if a != b {
      var i := if a[0] != b[0] then 0 else if a[1] != b[1] then 1 else if a[2] != b[2] then 2 else 3;
      assert DiffersFirst(a, b, i);
    }
  }

  function IdFrame(id: U32): (frame: seq<byte>)
    ensures |frame| == 6
  {
    [TAG_I, TAG_D] + Encode(id)
  }

  /** How both ends of the handshake read an ID frame: it is turned away only when both tag bytes are wrong. */
  function ParseId(data: seq<byte>): Option<U32>
    requires |data| >= 6
  {
    if data[0] != TAG_I && data[1] != TAG_D then None else Some(Decode(data[2..]))
  }

  /** An ID frame survives a receive into any buffer of at least six bytes, whatever the buffer held. */
  lemma HandshakeRoundTrip(id: U32, junk: seq<byte>)
    requires |junk| >= 6
    ensures ParseId(ReceivedInto(junk, IdFrame(id))) == Some(id)
  {
    var data := ReceivedInto(junk, IdFrame(id));
    assert data[..6] == IdFrame(id);
    assert data[2..6] == Encode(id);
    DecodeEncode(id);
  }

  /** Exactly which frames the handshake takes: those with at least one tag byte right. */
  lemma AcceptsMoreThanIdFrames(data: seq<byte>)
    requires |data| == 6
    ensures ParseId(data).Some? <==> data[0] == TAG_I || data[1] == TAG_D
    ensures ParseId(data).Some? ==> Encode(ParseId(data).value) == data[2..6]
    ensures (exists id :: data == IdFrame(id)) <==> data[0] == TAG_I && data[1] == TAG_D
  {
    EncodeDecode(data[2..]);
    if data[0] == TAG_I && data[1] == TAG_D {
      assert data == IdFrame(Decode(data[2..]));
    }
  }

  function Header(src: U32, dst: U32): (header: seq<byte>)
    ensures |header| == 12
  {
    IdFrame(src) + IdFrame(dst)
  }

  /** What the swarm framer emits. */
  function Frame(src: U32, dst: U32, payload: seq<byte>): (frame: seq<byte>)
    ensures |frame| == 12 + |payload|
  {
    Header(src, dst) + payload
  }

  /** What the swarm deframer hands up: the source it reports and the bytes after the header. */
  datatype Delivery = Delivery(src: U32, payload: seq<byte>)

  function Deframe(frame: seq<byte>): Option<Delivery>
    requires |frame| >= 12
  {
    if frame[0] == TAG_I && frame[6] == TAG_I && frame[1] == TAG_D && frame[7] == TAG_D then
      Some(Delivery(Decode(frame[2..]), frame[12..]))
    else
      None
  }

  function DestinationOf(frame: seq<byte>): U32
    requires |frame| >= 12
  {
    Decode(frame[8..])
  }

  lemma DeframeFrame(src: U32, dst: U32, payload: seq<byte>)
    ensures Deframe(Frame(src, dst, payload)) == Some(Delivery(src, payload))
    ensures DestinationOf(Frame(src, dst, payload)) == dst
  {
    var f := Frame(src, dst, payload);
    assert f[2..6] == Encode(src);
    assert f[8..12] == Encode(dst);
    assert f[12..] == payload;
    DecodeEncode(src);
    DecodeEncode(dst);
  }

  lemma FrameDeframe(frame: seq<byte>)
    requires |frame| >= 12
    requires Deframe(frame).Some?
    ensures var d := Deframe(frame).value;
            frame == Frame(d.src, DestinationOf(frame), d.payload)
  {
    EncodeDecode(frame[2..6]);
    EncodeDecode(frame[8..12]);
    var d := Deframe(frame).value;
    assert Decode(frame[2..]) == Decode(frame[2..6]);
    assert Decode(frame[8..]) == Decode(frame[8..12]);
    assert frame == frame[..2] + frame[2..6] + frame[6..8] + frame[8..12] + frame[12..];
  }

  /** Framing is a bijection onto the accepted buffers: nothing else is accepted, and no two inputs collide. */
  lemma FramingBijection(frame: seq<byte>, src: U32, dst: U32, payload: seq<byte>)
    requires |frame| >= 12
    ensures frame == Frame(src, dst, payload)
            <==> Deframe(frame) == Some(Delivery(src, payload)) && DestinationOf(frame) == dst
  {
    DeframeFrame(src, dst, payload);
    if Deframe(frame).Some? {
      FrameDeframe(frame);
    }
  }
}
