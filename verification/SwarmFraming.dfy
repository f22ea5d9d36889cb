/** The swarm framer and deframer components. */
module SwarmFraming {
  import opened SwarmTypes
  import opened Codec

  /** A write cursor over an allocated buffer. */
  class Serializer {
    const buffer: array<byte>
    var length: nat

    ghost predicate Valid()
      reads this
    {
      length <= buffer.Length
    }

    function Contents(): seq<byte>
      reads this, buffer
      requires Valid()
    {
      buffer[..length]
    }

    constructor (capacity: nat)
      ensures Valid() && Contents() == [] && buffer.Length == capacity && fresh(buffer)
    {
      buffer := new byte[capacity];
      length := 0;
    }

    /** Appends the bytes without a length prefix; refuses, changing nothing, when they do not fit. */
    method Append(bytes: seq<byte>) returns (ok: bool)
      requires Valid()
      modifies this, buffer
      ensures Valid()
      ensures ok == (old(length) + |bytes| <= buffer.Length)
      ensures Contents() == if ok then old(Contents()) + bytes else old(Contents())
    {
      ok := length + |bytes| <= buffer.Length;
      if ok {
        forall i | 0 <= i < |bytes| {
          buffer[length + i] := bytes[i];
        }
        length := length + |bytes|;
      }
    }
  }

  class SwarmFramer {
    var sourceId: U32
    var destId: U32

    /** The source ID is whatever memory holds until SetSourceId; frames go to everyone until SetDestId. */
    constructor (uninitialised: U32)
      ensures sourceId == uninitialised && destId == BROADCAST
    {
      sourceId, destId := uninitialised, BROADCAST;
    }

    method SetSourceId(id: U32)
      modifies this`sourceId
      ensures sourceId == id
    {
      sourceId := id;
    }

    method SetDestId(id: U32)
      modifies this`destId
      ensures destId == id
    {
      destId := id;
    }

    /** Overwrites the ID bytes of a header entry. */
    static method WriteId(entry: array<byte>, id: U32)
      requires entry.Length == 6 && entry[0] == TAG_I && entry[1] == TAG_D
      modifies entry
      ensures entry[..] == IdFrame(id)
    {
      entry[2], entry[3] := id / 0x100_0000, id / 0x1_0000 % 0x100;
      entry[4], entry[5] := id / 0x100 % 0x100, id % 0x100;
    }

    /** `capacity` is the size of the buffer the allocator returned; None is a failed assertion.
        The size asked for is a 32-bit sum, so an oversized payload would be cut off after the wrapped size. */
    method FrameData(data: seq<byte>, capacity: nat) returns (framed: Option<seq<byte>>)
      requires |data| < 0x1_0000_0000
      ensures framed.Some? <==> 12 + |data| <= capacity
      ensures framed.Some? ==> framed.value == Frame(sourceId, destId, data)[..(|data| + 12) % 0x1_0000_0000]
      ensures framed.Some? && |data| + 12 < 0x1_0000_0000 ==> framed.value == Frame(sourceId, destId, data)
    {
      var totalSize := (|data| + 12) % 0x1_0000_0000;
      var serializer := new Serializer(capacity);

      var entry := new byte[6];
      entry[0], entry[1] := TAG_I, TAG_D;
      WriteId(entry, sourceId);
      var ok := serializer.Append(entry[..]);
      if !ok {
        return None;
      }

      WriteId(entry, destId);
      ok := serializer.Append(entry[..]);
      if !ok {
        return None;
      }
      assert serializer.Contents() == Header(sourceId, destId);

      ok := serializer.Append(data);
      if !ok {
        return None;
      }
      assert serializer.Contents() == Frame(sourceId, destId, data);
      framed := Some(serializer.Contents()[..totalSize]);
    }
  }

  /** What the deframer does with its ports, in order. */
  datatype DeframerEvent = ReportSource(src: U32) | Emit(payload: seq<byte>) | Deallocate

  /** Where the deframer takes the payload to end: its size is a 32-bit difference, so that of a buffer of less than
      twelve bytes wraps around. */
  function FrameEnd(size: U32): (end: nat)
    ensures size >= 12 ==> end == size
    ensures size < 12 ==> end == size + 0x1_0000_0000
  {
    12 + (size - 12) % 0x1_0000_0000
  }

  /** `mem` is the memory from the buffer's start: the deframer looks at the header and at the payload's bytes without
      comparing them with the size. */
  method FramedIn(mem: seq<byte>, size: U32) returns (events: seq<DeframerEvent>)
    requires |mem| >= FrameEnd(size)
    ensures events == match Deframe(mem[..FrameEnd(size)])
                      case Some(d) => [ReportSource(d.src), Emit(d.payload), Deallocate]
                      case None => [Deallocate]
  {
    var payloadSize := (size - 12) % 0x1_0000_0000;
    events := [];
    if mem[0] == TAG_I && mem[6] == TAG_I && mem[1] == TAG_D && mem[7] == TAG_D {
      var (b2: int, b3: int, b4: int, b5: int) := (mem[2], mem[3], mem[4], mem[5]);
      var sourceNodeId := b2 * 0x100_0000 + b3 * 0x1_0000 + b4 * 0x100 + b5;
      events := events + [ReportSource(sourceNodeId)];
      events := events + [Emit(mem[12..12 + payloadSize])];
      assert mem[..FrameEnd(size)][12..] == mem[12..12 + payloadSize];
    }
    events := events + [Deallocate];
  }
}
