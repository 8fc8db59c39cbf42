/** The forward-only stream reader (src/ibdf/instream.go): it peeks at the
    pending chunk's tag and consumes one chunk per read, decoding it with the
    chunk decoders. Nothing checks the order of chunks; a caller peeks first.
    The chunk stream never moves backwards. */
module Stream {
  import opened Octets
  import opened Container
  import opened Codec

  class InStream {
    const stream: ChunkStream

    /** NewInPacketStream over the chunks a forward-only source delivers. */
    constructor (chunks: seq<Chunk>)
      ensures fresh(stream) && stream.Valid() && stream.chunks == chunks && stream.next == 0
    {
      stream := new ChunkStream(chunks);
    }

    /** The tag classification the four IsNext* predicates share: the kind of
        the pending chunk, judged by its tag. */
    function PendingKind(): ChunkKind
      reads stream
    {
      KindOf(stream.PendingTag())
    }

    function IsNextSchema(): (b: bool)
      reads stream
      ensures b <==> PendingKind() == SchemaKind
      ensures b ==> !stream.IsEOF() && stream.chunks[stream.next].tag == SchemaTag
    {
      stream.PendingTag() == SchemaTag
    }

    function IsNextState(): (b: bool)
      reads stream
      ensures b <==> PendingKind() == StateKind
      ensures b ==> !stream.IsEOF() && stream.chunks[stream.next].tag == StateTag
    {
      stream.PendingTag() == StateTag
    }

    function IsNextPacket(): (b: bool)
      reads stream
      ensures b <==> PendingKind() == PacketKind
      ensures b ==> !stream.IsEOF() && stream.chunks[stream.next].tag == PacketTag
    {
      stream.PendingTag() == PacketTag
    }

    function IsNextFileHeader(): (b: bool)
      reads stream
      ensures b <==> PendingKind() == FileHeaderKind
      ensures b ==> !stream.IsEOF() && stream.chunks[stream.next].tag == FileHeaderTag
    {
      stream.PendingTag() == FileHeaderTag
    }

    function IsEOF(): (b: bool)
      reads stream
      ensures b <==> stream.next >= |stream.chunks|
    {
      stream.IsEOF()
    }

    /** Consumes one chunk and decodes it as a packet; it succeeds only on a pkt1 chunk. */
    method ReadNextPacket() returns (r: Result<Packet>)
      requires stream.Valid()
      modifies stream
      ensures stream.Valid() && stream.next >= old(stream.next)
      ensures old(IsEOF()) ==> r == Err(EndOfFile) && stream.next == old(stream.next)
      ensures !old(IsEOF()) ==>
                stream.next == old(stream.next) + 1
                && r == DeserializePacketFromPayload(stream.chunks[old(stream.next)].tag,
                                                     stream.chunks[old(stream.next)].payload)
      ensures r.Ok? ==> old(IsNextPacket())
    {
      r := DeserializePacketFromStream(stream);
    }

    /** Consumes one chunk and decodes it as a state; it succeeds only on a sta1 chunk. */
    method ReadNextStatePacket() returns (r: Result<StateRecord>)
      requires stream.Valid()
      modifies stream
      ensures stream.Valid() && stream.next >= old(stream.next)
      ensures old(IsEOF()) ==> r == Err(EndOfFile) && stream.next == old(stream.next)
      ensures !old(IsEOF()) ==>
                stream.next == old(stream.next) + 1
                && r == DeserializeStatePacketFromPayload(stream.chunks[old(stream.next)].tag,
                                                          stream.chunks[old(stream.next)].payload)
      ensures r.Ok? ==> old(IsNextState())
    {
      r := DeserializeStatePacketFromStream(stream);
    }

    /** Consumes one chunk and hands its payload back verbatim, whatever its tag. */
    method ReadNextSchemaTextPacket() returns (r: Result<seq<Byte>>)
      requires stream.Valid()
      modifies stream
      ensures stream.Valid() && stream.next >= old(stream.next)
      ensures old(IsEOF()) ==> r == Err(EndOfFile) && stream.next == old(stream.next)
      ensures !old(IsEOF()) ==>
                stream.next == old(stream.next) + 1 && r == Ok(stream.chunks[old(stream.next)].payload)
    {
      r := DeserializeSchemaTextFromStream(stream);
    }
  }
}
