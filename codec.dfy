/** The payload layouts of the capture chunks and their decoders
    (src/ibdf/headers.go), with the layouts the writer produces.

      pkt1: [direction][8-octet timestamp][application octets]
      sta1: [8-octet timestamp][application octets]
      sch1: opaque schema text */
module Codec {
  import opened Octets
  import opened Container

  const SchemaTag: string := "sch1"
  const StateTag: string := "sta1"
  const PacketTag: string := "pkt1"
  const FileHeaderTag: string := "pac1"

  /** pktHeaderOctetCount and pktHeaderStateOctetCount. */
  const PacketHeaderOctetCount: nat := 1 + 8
  const StateHeaderOctetCount: nat := 8

  const CmdIncomingPacket: Byte := 0x01
  const CmdOutgoingPacket: Byte := 0x81

  predicate IsDirection(b: Byte) {
    b == CmdIncomingPacket || b == CmdOutgoingPacket
  }

  datatype PacketHeader = PacketHeader(direction: Byte, time: Uint64)
  datatype Packet = Packet(direction: Byte, time: Uint64, payload: seq<Byte>)
  datatype StateRecord = StateRecord(time: Uint64, payload: seq<Byte>)

  /** What a pending chunk is, judged by its tag alone. */
  datatype ChunkKind = FileHeaderKind | SchemaKind | PacketKind | StateKind | UnknownKind

  function KindOf(tag: string): (k: ChunkKind)
    ensures k == FileHeaderKind <==> tag == FileHeaderTag
    ensures k == SchemaKind <==> tag == SchemaTag
    ensures k == PacketKind <==> tag == PacketTag
    ensures k == StateKind <==> tag == StateTag
  {
    if tag == FileHeaderTag then FileHeaderKind
    else if tag == SchemaTag then SchemaKind
    else if tag == PacketTag then PacketKind
    else if tag == StateTag then StateKind
    else UnknownKind
  }

  /** The payload of a pkt1 chunk, octet by octet as the writer builds it. */
  function PacketPayload(direction: Byte, time: Uint64, app: seq<Byte>): (p: seq<Byte>)
    ensures |p| == |app| + PacketHeaderOctetCount
    ensures p[0] == direction && p[1..9] == Enc64(time) && p[9..] == app
  {
    [direction] + Enc64(time) + app
  }

  /** The payload of a sta1 chunk. No writer for it is part of the source;
      this is the layout the state decoder expects. */
  function StatePayload(time: Uint64, app: seq<Byte>): (p: seq<Byte>)
    ensures |p| == |app| + StateHeaderOctetCount
    ensures p[..8] == Enc64(time) && p[8..] == app
  {
    Enc64(time) + app
  }

  /** deserializeStateHeader: checks the tag and the length, then reads the timestamp. */
  function DeserializeStateHeader(tag: string, payload: seq<Byte>): (r: Result<Uint64>)
    ensures tag != StateTag ==> r == Err(WrongTypeId(StateTag, tag))
    ensures tag == StateTag && |payload| < StateHeaderOctetCount ==> r == Err(WrongHeaderSize)
    ensures r.Ok? <==> tag == StateTag && |payload| >= StateHeaderOctetCount
    ensures r.Ok? ==> Enc64(r.value) == payload[..8]
  {
    if tag != StateTag then Err(WrongTypeId(StateTag, tag))
    else if |payload| < StateHeaderOctetCount then Err(WrongHeaderSize)
    else Ok(Dec64(payload[..8]))
  }

  /** deserializePacketHeader: checks the tag, the length and the direction octet. */
  function DeserializePacketHeader(tag: string, payload: seq<Byte>): (r: Result<PacketHeader>)
    ensures tag != PacketTag ==> r == Err(WrongTypeId(PacketTag, tag))
    ensures tag == PacketTag && |payload| < PacketHeaderOctetCount ==> r == Err(WrongHeaderSize)
    ensures tag == PacketTag && |payload| >= PacketHeaderOctetCount && !IsDirection(payload[0]) ==>
              r == Err(UnknownDirection(payload[0]))
    ensures r.Ok? <==> tag == PacketTag && |payload| >= PacketHeaderOctetCount && IsDirection(payload[0])
    ensures r.Ok? ==> IsDirection(r.value.direction) && payload[..9] == [r.value.direction] + Enc64(r.value.time)
  {
    if tag != PacketTag then Err(WrongTypeId(PacketTag, tag))
    else if |payload| < PacketHeaderOctetCount then Err(WrongHeaderSize)
    else if !IsDirection(payload[0]) then Err(UnknownDirection(payload[0]))
    else
      var time := Dec64(payload[1..9]);
      assert payload[..9] == [payload[0]] + payload[1..9];
      Ok(PacketHeader(payload[0], time))
  }

  /** deserializePacketFromPiffPayload: the payload is sliced to its first nine
      octets before anything is checked, so a shorter payload is a slice panic
      whatever its tag; otherwise the header decoder decides, and the
      application octets are everything after the header. */
  function DeserializePacketFromPayload(tag: string, payload: seq<Byte>): (r: Result<Packet>)
    ensures |payload| < PacketHeaderOctetCount ==> r == Err(SliceOutOfRange)
    ensures |payload| >= PacketHeaderOctetCount ==>
              (r.Ok? <==> tag == PacketTag && IsDirection(payload[0]))
    ensures |payload| >= PacketHeaderOctetCount && r.Err? ==>
              DeserializePacketHeader(tag, payload[..9]) == Err(r.error)
    ensures r.Ok? ==> tag == PacketTag && IsDirection(r.value.direction)
                      && payload == PacketPayload(r.value.direction, r.value.time, r.value.payload)
  {
    if |payload| < PacketHeaderOctetCount then Err(SliceOutOfRange)
    else
      match DeserializePacketHeader(tag, payload[..PacketHeaderOctetCount])
      case Err(e) => Err(e)
      case Ok(h) =>
        assert payload == payload[..9] + payload[9..];
        Ok(Packet(h.direction, h.time, payload[PacketHeaderOctetCount..]))
  }

  /** deserializeStatePacketFromPiffPayload: as for packets, with the eight-octet state header. */
  function DeserializeStatePacketFromPayload(tag: string, payload: seq<Byte>): (r: Result<StateRecord>)
    ensures |payload| < StateHeaderOctetCount ==> r == Err(SliceOutOfRange)
    ensures |payload| >= StateHeaderOctetCount ==> (r.Ok? <==> tag == StateTag)
    ensures |payload| >= StateHeaderOctetCount && tag != StateTag ==> r == Err(WrongTypeId(StateTag, tag))
    ensures r.Ok? ==> tag == StateTag && payload == StatePayload(r.value.time, r.value.payload)
  {
    if |payload| < StateHeaderOctetCount then Err(SliceOutOfRange)
    else
      match DeserializeStateHeader(tag, payload[..StateHeaderOctetCount])
      case Err(e) => Err(e)
      case Ok(time) =>
        assert payload == payload[..8] + payload[8..];
        Ok(StateRecord(time, payload[StateHeaderOctetCount..]))
  }

  /** deserializeSchemaTextFromPiffPayload: never fails, does not look at the tag,
      and hands the payload back unchanged. */
  function DeserializeSchemaText(tag: string, payload: seq<Byte>): (r: Result<seq<Byte>>)
    ensures r.Ok? && r.value == payload
  {
    Ok(payload)
  }

  /** Round trip: a pkt1 chunk laid out by the writer with a known direction
      decodes to the direction, timestamp and application octets written. */
  lemma PacketRoundTrip(direction: Byte, time: Uint64, app: seq<Byte>)
    requires IsDirection(direction)
    ensures DeserializePacketFromPayload(PacketTag, PacketPayload(direction, time, app))
            == Ok(Packet(direction, time, app))
  {
    var p := PacketPayload(direction, time, app);
    var r := DeserializePacketFromPayload(PacketTag, p);
    assert r.Ok?;
    assert p[..9] == [direction] + Enc64(time) == [r.value.direction] + Enc64(r.value.time);
    assert Enc64(r.value.time) == p[1..9];
    Enc64Injective(r.value.time, time);
  }

  /** Round trip for the state layout. */
  lemma StateRoundTrip(time: Uint64, app: seq<Byte>)
    ensures DeserializeStatePacketFromPayload(StateTag, StatePayload(time, app))
            == Ok(StateRecord(time, app))
  {
    var p := StatePayload(time, app);
    var r := DeserializeStatePacketFromPayload(StateTag, p);
    assert r.Ok?;
    assert Enc64(r.value.time) == p[..8] == Enc64(time);
    Enc64Injective(r.value.time, time);
  }

  /** A packet decoded from the stream of chunks: consumes one chunk, whatever it holds. */
  method DeserializePacketFromStream(stream: ChunkStream) returns (r: Result<Packet>)
    requires stream.Valid()
    modifies stream
    ensures stream.Valid()
    ensures old(stream.next) == |stream.chunks| ==> r == Err(EndOfFile) && stream.next == old(stream.next)
    ensures old(stream.next) < |stream.chunks| ==>
              stream.next == old(stream.next) + 1
              && r == DeserializePacketFromPayload(stream.chunks[old(stream.next)].tag,
                                                   stream.chunks[old(stream.next)].payload)
  {
    var chunk := stream.ReadChunk();
    if chunk.Err? {
      return Err(chunk.error);
    }
    r := DeserializePacketFromPayload(chunk.value.tag, chunk.value.payload);
  }

  method DeserializeStatePacketFromStream(stream: ChunkStream) returns (r: Result<StateRecord>)
    requires stream.Valid()
    modifies stream
    ensures stream.Valid()
    ensures old(stream.next) == |stream.chunks| ==> r == Err(EndOfFile) && stream.next == old(stream.next)
    ensures old(stream.next) < |stream.chunks| ==>
              stream.next == old(stream.next) + 1
              && r == DeserializeStatePacketFromPayload(stream.chunks[old(stream.next)].tag,
                                                        stream.chunks[old(stream.next)].payload)
  {
    var chunk := stream.ReadChunk();
    if chunk.Err? {
      return Err(chunk.error);
    }
    r := DeserializeStatePacketFromPayload(chunk.value.tag, chunk.value.payload);
  }

  /** The state header alone, from a partial read of the pending chunk's first eight octets. */
  method DeserializeStateHeaderFromStream(stream: ChunkStream) returns (r: Result<Uint64>)
    requires stream.Valid()
    modifies stream
    ensures stream.Valid()
    ensures old(stream.next) == |stream.chunks| ==> r == Err(EndOfFile) && stream.next == old(stream.next)
    ensures old(stream.next) < |stream.chunks| ==>
              stream.next == old(stream.next) + 1
              && r == DeserializeStateHeader(stream.chunks[old(stream.next)].tag,
                                             Prefix(stream.chunks[old(stream.next)].payload, StateHeaderOctetCount))
  {
    var chunk := stream.ReadPartChunk(StateHeaderOctetCount);
    if chunk.Err? {
      return Err(chunk.error);
    }
    r := DeserializeStateHeader(chunk.value.tag, chunk.value.payload);
  }

  method DeserializeSchemaTextFromStream(stream: ChunkStream) returns (r: Result<seq<Byte>>)
    requires stream.Valid()
    modifies stream
    ensures stream.Valid()
    ensures old(stream.next) == |stream.chunks| ==> r == Err(EndOfFile) && stream.next == old(stream.next)
    ensures old(stream.next) < |stream.chunks| ==>
              stream.next == old(stream.next) + 1 && r == Ok(stream.chunks[old(stream.next)].payload)
  {
    var chunk := stream.ReadChunk();
    if chunk.Err? {
      return Err(chunk.error);
    }
    r := DeserializeSchemaText(chunk.value.tag, chunk.value.payload);
  }
}
