/** The capture writer (src/ibdf/outfile.go). The container file it owns is
    modelled by the list of chunks appended to it so far. */
module Writer {
  import opened Octets
  import opened Container
  import opened Codec

  /** The pkt1 chunks that carry `packets`, in order. */
  function PacketChunks(packets: seq<Packet>): (cs: seq<Chunk>)
    ensures |cs| == |packets|
    ensures forall i :: 0 <= i < |packets| ==>
              cs[i] == Chunk(PacketTag, PacketPayload(packets[i].direction, packets[i].time, packets[i].payload))
  {
    if packets == [] then []
    else
      var p := packets[|packets| - 1];
      PacketChunks(packets[..|packets| - 1]) + [Chunk(PacketTag, PacketPayload(p.direction, p.time, p.payload))]
  }

  /** What the public writer methods can produce: one schema chunk, then one
      pkt1 chunk per packet written, each with a known direction. */
  ghost predicate WellFormedCapture(chunks: seq<Chunk>, packets: seq<Packet>) {
    |chunks| >= 1 && chunks[0].tag == SchemaTag
    && chunks[1..] == PacketChunks(packets)
    && forall i :: 0 <= i < |packets| ==> IsDirection(packets[i].direction)
  }

  class OutPacketFile {
    var chunks: seq<Chunk>
    ghost var packets: seq<Packet>  // the packets written so far, as a reader decodes them

    ghost predicate Valid()
      reads this
    {
      WellFormedCapture(chunks, packets)
    }

    /** NewOutPacketFile: the schema chunk is the first chunk of the file. */
    constructor (schemaPayload: seq<Byte>)
      ensures Valid()
      ensures chunks == [Chunk(SchemaTag, schemaPayload)] && packets == []
    {
      chunks := [Chunk(SchemaTag, schemaPayload)];
      packets := [];
    }

    /** writePacket: one pkt1 chunk holding the direction octet, the timestamp
        reinterpreted as uint64, and the application octets. Nothing checks
        that timestamps grow. */
    method WritePacket(cmd: Byte, monotonicTimeMs: Int64, b: seq<Byte>)
      modifies this
      ensures chunks == old(chunks) + [Chunk(PacketTag, PacketPayload(cmd, ToUint64(monotonicTimeMs), b))]
      ensures |chunks[|chunks| - 1].payload| == |b| + PacketHeaderOctetCount
      ensures packets == old(packets) + [Packet(cmd, ToUint64(monotonicTimeMs), b)]
      ensures old(Valid()) && IsDirection(cmd) ==> Valid()
    {
      var s: seq<Byte> := [];
      s := s + [cmd];
      s := s + Enc64(ToUint64(monotonicTimeMs));
      s := s + b;
      assert s == PacketPayload(cmd, ToUint64(monotonicTimeMs), b);
      chunks := chunks + [Chunk(PacketTag, s)];
      packets := packets + [Packet(cmd, ToUint64(monotonicTimeMs), b)];
    }

    method DebugIncomingPacket(b: seq<Byte>, monotonicTimeMs: Int64)
      requires Valid()
      modifies this
      ensures Valid()
      ensures chunks == old(chunks)
                        + [Chunk(PacketTag, PacketPayload(CmdIncomingPacket, ToUint64(monotonicTimeMs), b))]
      ensures packets == old(packets) + [Packet(CmdIncomingPacket, ToUint64(monotonicTimeMs), b)]
    {
      WritePacket(CmdIncomingPacket, monotonicTimeMs, b);
    }

    method DebugOutgoingPacket(b: seq<Byte>, monotonicTimeMs: Int64)
      requires Valid()
      modifies this
      ensures Valid()
      ensures chunks == old(chunks)
                        + [Chunk(PacketTag, PacketPayload(CmdOutgoingPacket, ToUint64(monotonicTimeMs), b))]
      ensures packets == old(packets) + [Packet(CmdOutgoingPacket, ToUint64(monotonicTimeMs), b)]
    {
      WritePacket(CmdOutgoingPacket, monotonicTimeMs, b);
    }
  }
}
