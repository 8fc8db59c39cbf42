/** The indexed reader (src/ibdf/infile.go): opens a container, checks the
    schema chunk, classifies every chunk into an index entry, finds the state
    nearest before a timestamp, and reads packets and states by ordinal. */
module InFile {
  import opened Octets
  import opened Container
  import opened Codec

  /** PacketTypeState, PacketTypeNormal, PacketTypeOther. */
  datatype PacketType = State | Normal | Other

  /** One index entry per chunk. */
  datatype HeaderInfo = HeaderInfo(
    packetIndex: nat,
    packetType: PacketType,
    timestamp: Int64,
    direction: Byte,
    octetCount: nat)

  /** The entry the scan builds for chunk `i`: the body of the switch in scanAllChunks.
      The scan reads only the first eight (state) or nine (packet) octets of a payload. */
  function ClassifyChunk(i: nat, chunk: Chunk): (r: Result<HeaderInfo>)
    ensures r.Ok? ==> r.value.packetIndex == i
    ensures r.Ok? <==>
              chunk.tag == SchemaTag
              || (chunk.tag == StateTag && |chunk.payload| >= StateHeaderOctetCount)
              || (chunk.tag == PacketTag && |chunk.payload| >= PacketHeaderOctetCount && IsDirection(chunk.payload[0]))
    ensures r.Err? ==> !r.error.MissingState?
    ensures chunk.tag != StateTag && chunk.tag != PacketTag && chunk.tag != SchemaTag ==>
              r == Err(UnknownTypeId(chunk.tag))
    ensures chunk.tag == SchemaTag ==> r == Ok(HeaderInfo(i, Other, 0, CmdIncomingPacket, 0))
    ensures (r.Ok? && r.value.packetType == State) <==>
              chunk.tag == StateTag && |chunk.payload| >= StateHeaderOctetCount
    ensures r.Ok? && r.value.packetType == State ==>
              Enc64(ToUint64(r.value.timestamp)) == chunk.payload[..8]
              && r.value.direction == 0 && r.value.octetCount == |chunk.payload|
    ensures (r.Ok? && r.value.packetType == Normal) <==>
              chunk.tag == PacketTag && |chunk.payload| >= PacketHeaderOctetCount && IsDirection(chunk.payload[0])
    ensures r.Ok? && r.value.packetType == Normal ==>
              chunk.payload[..9] == [r.value.direction] + Enc64(ToUint64(r.value.timestamp))
              && r.value.octetCount == |chunk.payload|
  {
    if chunk.tag == StateTag then
      var octets := Prefix(chunk.payload, StateHeaderOctetCount);
      if |octets| < 8 then Err(ShortRead)
      else Ok(HeaderInfo(i, State, ToInt64(Dec64(octets)), 0, |chunk.payload|))
    else if chunk.tag == PacketTag then
      match DeserializePacketHeader(chunk.tag, Prefix(chunk.payload, PacketHeaderOctetCount))
      case Err(e) => Err(e)
      case Ok(h) => Ok(HeaderInfo(i, Normal, ToInt64(h.time), h.direction, |chunk.payload|))
    else if chunk.tag == SchemaTag then
      Ok(HeaderInfo(i, Other, 0, CmdIncomingPacket, 0))
    else
      Err(UnknownTypeId(chunk.tag))
  }

  ghost predicate HasState(infos: seq<HeaderInfo>) {
    exists j :: 0 <= j < |infos| && infos[j].packetType == State
  }

  /** The position of the first state entry later than `t` at or after `from`, or |infos|. */
  function FirstStateAfter(infos: seq<HeaderInfo>, t: int, from: nat): (p: nat)
    requires from <= |infos|
    ensures from <= p <= |infos|
    ensures forall j :: from <= j < p && infos[j].packetType == State ==> infos[j].timestamp <= t
    ensures p < |infos| ==> infos[p].packetType == State && infos[p].timestamp > t
    decreases |infos| - from
  {
    if from == |infos| then from
    else if infos[from].packetType == State && infos[from].timestamp > t then from
    else FirstStateAfter(infos, t, from + 1)
  }

  /** The position of the last state entry among the first `n` entries. */
  function LastStateBefore(infos: seq<HeaderInfo>, n: nat): (r: Option<nat>)
    requires n <= |infos|
    ensures r.None? <==> forall j :: 0 <= j < n ==> infos[j].packetType != State
    ensures r.Some? ==> r.value < n && infos[r.value].packetType == State
                        && forall j :: r.value < j < n ==> infos[j].packetType != State
  {
    if n == 0 then None
    else if infos[n - 1].packetType == State then Some(n - 1)
    else LastStateBefore(infos, n - 1)
  }

  /** The entry FindClosestStateBeforeOrAt answers with: the last state seen
      before the scan meets a state later than `t`. */
  function ClosestStateIndex(infos: seq<HeaderInfo>, t: int): (r: Option<nat>)
    ensures r.Some? ==> r.value < |infos| && infos[r.value].packetType == State && infos[r.value].timestamp <= t
  {
    LastStateBefore(infos, FirstStateAfter(infos, t, 0))
  }

  /** The timestamps of the state entries never decrease, as the writer's callers promise. */
  ghost predicate StatesSorted(infos: seq<HeaderInfo>) {
    forall i, j :: 0 <= i < j < |infos| && infos[i].packetType == State && infos[j].packetType == State ==>
      infos[i].timestamp <= infos[j].timestamp
  }

  /** Nearest-state correctness: with sorted state timestamps, the lookup finds
      nothing exactly when every state is later than `t`, and otherwise finds
      the last state whose timestamp is at most `t`. */
  lemma ClosestStateIsLatestAtOrBefore(infos: seq<HeaderInfo>, t: int)
    requires StatesSorted(infos)
    ensures ClosestStateIndex(infos, t).None? <==>
              forall j :: 0 <= j < |infos| && infos[j].packetType == State ==> infos[j].timestamp > t
    ensures ClosestStateIndex(infos, t).Some? ==>
              forall j :: 0 <= j < |infos| && infos[j].packetType == State && infos[j].timestamp <= t ==>
                j <= ClosestStateIndex(infos, t).value
  {
  }

  class InPacketFile {
    const chunks: seq<Chunk>
    var schemaPayload: seq<Byte>
    var infos: seq<HeaderInfo>

    constructor (chunks: seq<Chunk>)
      ensures this.chunks == chunks && schemaPayload == [] && infos == []
    {
      this.chunks := chunks;
      schemaPayload := [];
      infos := [];
    }

    /** Every entry of the index describes the chunk at its position. */
    ghost predicate Indexed()
      reads this
    {
      |infos| <= |chunks|
      && forall i :: 0 <= i < |infos| ==> ClassifyChunk(i, chunks[i]) == Ok(infos[i])
    }

    /** The index covers the whole container. */
    ghost predicate FullIndex()
      reads this
    {
      Indexed() && |infos| == |chunks|
    }

    /** readSchema: chunk 0 must exist and be a schema chunk. */
    function ReadSchema(): (r: Result<seq<Byte>>)
      ensures |chunks| == 0 ==> r == Err(ChunkNotFound(0))
      ensures |chunks| > 0 && chunks[0].tag != SchemaTag ==> r == Err(WrongSchemaTypeId(chunks[0].tag))
      ensures r.Ok? <==> |chunks| > 0 && chunks[0].tag == SchemaTag
      ensures r.Ok? ==> r.value == chunks[0].payload
    {
      match FindChunk(chunks, 0)
      case Err(e) => Err(e)
      case Ok(header) =>
        if header.tag != SchemaTag then Err(WrongSchemaTypeId(header.tag)) else Ok(header.payload)
    }

    /** scanAllChunks: the index is stored only when every chunk classifies;
        the first chunk that does not aborts the scan with its error. A
        complete index without any state is stored too, and reported with
        MissingState. */
    method ScanAllChunks() returns (err: Option<Error>)
      modifies this`infos
      ensures err.None? ==> FullIndex() && HasState(infos)
      ensures err == Some(MissingState) ==> FullIndex() && !HasState(infos)
      ensures err.Some? && !err.value.MissingState? ==>
                infos == old(infos)
                && exists k :: 0 <= k < |chunks| && ClassifyChunk(k, chunks[k]) == Err(err.value)
                               && forall j :: 0 <= j < k ==> ClassifyChunk(j, chunks[j]).Ok?
    {
      var acc: seq<HeaderInfo> := [];
      var foundSomeState := false;
      var i := 0;
      while i < |chunks|
        invariant 0 <= i <= |chunks| && |acc| == i
        invariant forall j :: 0 <= j < i ==> ClassifyChunk(j, chunks[j]) == Ok(acc[j])
        invariant foundSomeState <==> HasState(acc)
      {
        var info := ClassifyChunk(i, chunks[i]);
        if info.Err? {
          return Some(info.error);
        }
        acc := acc + [info.value];
        if info.value.packetType == State {
          foundSomeState := true;
        }
        assert HasState(acc) ==> foundSomeState by {
          if HasState(acc) {
            var j :| 0 <= j < |acc| && acc[j].packetType == State;
            assert j < i ==> HasState(acc[..i]);
          }
        }
        i := i + 1;
      }
      infos := acc;
      if !foundSomeState {
        return Some(MissingState);
      }
      return None;
    }

    /** End of file: no index entry at this position. On a valid index a
        position that is not at end of file names an existing chunk. */
    predicate IsEOF(packetIndex: nat)
      reads this
      ensures !IsEOF(packetIndex) <==> packetIndex < |infos|
      ensures Indexed() && !IsEOF(packetIndex) ==> FindChunk(chunks, packetIndex) == Ok(chunks[packetIndex])
    {
      packetIndex >= |infos|
    }

    function IsState(packetIndex: nat): (r: bool)
      reads this
      ensures r ==> !IsEOF(packetIndex)
      ensures !IsEOF(packetIndex) ==> (r <==> infos[packetIndex].packetType == State)
    {
      if IsEOF(packetIndex) then false else infos[packetIndex].packetType == State
    }

    function IsPacket(packetIndex: nat): (r: bool)
      reads this
      ensures r ==> !IsEOF(packetIndex) && !IsState(packetIndex)
      ensures !IsEOF(packetIndex) ==> (r <==> infos[packetIndex].packetType == Normal)
    {
      if IsEOF(packetIndex) then false else infos[packetIndex].packetType == Normal
    }

    /** One forward pass over the index that stops at the first state later than `timestamp`. */
    method FindClosestStateBeforeOrAt(timestamp: Int64) returns (r: Option<HeaderInfo>)
      ensures r.Some? ==> r.value.packetType == State && r.value.timestamp <= timestamp
      ensures match ClosestStateIndex(infos, timestamp)
              case None => r.None?
              case Some(k) => r == Some(infos[k])
    {
      var foundStateInfo: Option<HeaderInfo> := None;
      var i := 0;
      while i < |infos|
        invariant 0 <= i <= |infos|
        invariant forall j :: 0 <= j < i && infos[j].packetType == State ==> infos[j].timestamp <= timestamp
        invariant match LastStateBefore(infos, i)
                  case None => foundStateInfo.None?
                  case Some(k) => foundStateInfo == Some(infos[k])
      {
        var info := infos[i];
        if info.packetType != State {
          i := i + 1;
          continue;
        }
        if info.timestamp > timestamp {
          assert FirstStateAfter(infos, timestamp, 0) == i;
          return foundStateInfo;
        }
        foundStateInfo := Some(info);
        i := i + 1;
      }
      assert FirstStateAfter(infos, timestamp, 0) == |infos|;
      return foundStateInfo;
    }

    /** ReadPacket: end of file at or past the end, an error on a state entry,
        otherwise the chunk is read whole and decoded as a packet. */
    function ReadPacket(packetIndex: nat): (r: Result<Packet>)
      reads this
      ensures IsEOF(packetIndex) ==> r == Err(EndOfFile)
      ensures IsState(packetIndex) ==> r == Err(WrongPacketType(packetIndex))
      ensures r.Ok? ==>
                !IsEOF(packetIndex) && !IsState(packetIndex) && packetIndex < |chunks|
                && chunks[packetIndex] == Chunk(PacketTag, PacketPayload(r.value.direction, r.value.time, r.value.payload))
                && IsDirection(r.value.direction)
    {
      if IsEOF(packetIndex) then Err(EndOfFile)
      else if IsState(packetIndex) then Err(WrongPacketType(packetIndex))
      else
        match FindChunk(chunks, packetIndex)
        case Err(e) => Err(e)
        case Ok(chunk) => DeserializePacketFromPayload(chunk.tag, chunk.payload)
    }

    /** ReadStatePacket: end of file at or past the end, an error on any entry
        that is not a state, otherwise the chunk is decoded as a state. */
    function ReadStatePacket(packetIndex: nat): (r: Result<StateRecord>)
      reads this
      ensures IsEOF(packetIndex) ==> r == Err(EndOfFile)
      ensures !IsEOF(packetIndex) && !IsState(packetIndex) ==> r == Err(WrongPacketType(packetIndex))
      ensures r.Ok? ==>
                IsState(packetIndex) && packetIndex < |chunks|
                && chunks[packetIndex] == Chunk(StateTag, StatePayload(r.value.time, r.value.payload))
    {
      if IsEOF(packetIndex) then Err(EndOfFile)
      else if !IsState(packetIndex) then Err(WrongPacketType(packetIndex))
      else
        match FindChunk(chunks, packetIndex)
        case Err(e) => Err(e)
        case Ok(chunk) => DeserializeStatePacketFromPayload(chunk.tag, chunk.payload)
    }
  }

  /** Reading a packet entry of a valid index gives back what the index
      promised: its direction and timestamp, and the octets after the header. */
  lemma ReadPacketAtNormalEntry(f: InPacketFile, i: nat)
    requires f.Indexed() && i < |f.infos| && f.infos[i].packetType == Normal
    ensures f.ReadPacket(i)
            == Ok(Packet(f.infos[i].direction, ToUint64(f.infos[i].timestamp), f.chunks[i].payload[9..]))
  {
    var c := f.chunks[i];
    assert ClassifyChunk(i, c) == Ok(f.infos[i]);
    var r := f.ReadPacket(i);
    assert r.Ok?;
    assert c.payload[..9] == [r.value.direction] + Enc64(r.value.time);
    assert c.payload[..9] == [f.infos[i].direction] + Enc64(ToUint64(f.infos[i].timestamp));
    assert Enc64(r.value.time) == c.payload[1..9] == Enc64(ToUint64(f.infos[i].timestamp));
    Enc64Injective(r.value.time, ToUint64(f.infos[i].timestamp));
  }

  /** Reading a state entry of a valid index never fails and gives its timestamp. */
  lemma ReadStatePacketAtStateEntry(f: InPacketFile, i: nat)
    requires f.Indexed() && i < |f.infos| && f.infos[i].packetType == State
    ensures f.ReadStatePacket(i)
            == Ok(StateRecord(ToUint64(f.infos[i].timestamp), f.chunks[i].payload[8..]))
  {
    var c := f.chunks[i];
    assert ClassifyChunk(i, c) == Ok(f.infos[i]);
    var r := f.ReadStatePacket(i);
    assert r.Ok?;
    assert Enc64(r.value.time) == c.payload[..8] == Enc64(ToUint64(f.infos[i].timestamp));
    Enc64Injective(r.value.time, ToUint64(f.infos[i].timestamp));
  }

  /** NewInPacketFileFromSeeker: no reader without a schema chunk first; a scan
      error is returned together with the reader, whose index is then left
      empty unless the error is MissingState. */
  method NewInPacketFileFromChunks(chunks: seq<Chunk>) returns (f: InPacketFile?, err: Option<Error>)
    ensures |chunks| == 0 ==> f == null && err == Some(ChunkNotFound(0))
    ensures |chunks| > 0 && chunks[0].tag != SchemaTag ==> f == null && err == Some(WrongSchemaTypeId(chunks[0].tag))
    ensures |chunks| > 0 && chunks[0].tag == SchemaTag ==>
              f != null && fresh(f) && f.chunks == chunks && f.schemaPayload == chunks[0].payload && f.Indexed()
    ensures f != null && err.None? ==> f.FullIndex() && HasState(f.infos)
    ensures f != null && err == Some(MissingState) ==> f.FullIndex() && !HasState(f.infos)
    ensures f != null && err.Some? && !err.value.MissingState? ==>
              f.infos == [] && exists k :: 0 <= k < |chunks| && ClassifyChunk(k, chunks[k]) == Err(err.value)
  {
    var c := new InPacketFile(chunks);
    var schemaOctets := c.ReadSchema();
    if schemaOctets.Err? {
      return null, Some(schemaOctets.error);
    }
    c.schemaPayload := schemaOctets.value;
    var scanChunksErr := c.ScanAllChunks();
    return c, scanChunksErr;
  }
}
