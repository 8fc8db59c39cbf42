/** What the writer produces, read back through the indexed reader and the
    cursor (the scenario of src/ibdf/outfile_test.go). */
module RoundTrip {
  import opened Octets
  import opened Container
  import opened Codec
  import opened Writer
  import opened InFile
  import opened Sequence

  /** The scan classifies every chunk the writer produced: the schema chunk as
      Other, and each packet chunk as a Normal entry carrying exactly the
      direction and the int64 timestamp that were written. */
  lemma IndexOfWrittenCapture(chunks: seq<Chunk>, packets: seq<Packet>, i: nat)
    requires WellFormedCapture(chunks, packets) && i < |chunks|
    ensures ClassifyChunk(i, chunks[i]).Ok?
    ensures i == 0 ==> ClassifyChunk(i, chunks[i]).value.packetType == Other
    ensures i > 0 ==>
              var info := ClassifyChunk(i, chunks[i]).value;
              info.packetType == Normal && info.direction == packets[i - 1].direction
              && info.timestamp == ToInt64(packets[i - 1].time)
  {
    if i > 0 {
      var p := packets[i - 1];
      assert chunks[i] == chunks[1..][i - 1];
      var payload := PacketPayload(p.direction, p.time, p.payload);
      assert chunks[i] == Chunk(PacketTag, payload);
      var info := ClassifyChunk(i, chunks[i]).value;
      assert payload[..9] == [info.direction] + Enc64(ToUint64(info.timestamp));
      assert Enc64(ToUint64(info.timestamp)) == payload[1..9] == Enc64(p.time);
      Enc64Injective(ToUint64(info.timestamp), p.time);
      Int64RoundTrip(info.timestamp);
    }
  }

  /** Round trip through the indexed reader: a complete index of what the
      writer produced has no state, so every seek by time finds nothing, and
      entry k (k >= 1) is read back as the k-th packet written, with no state
      to skip in front of it. */
  lemma ReadBackWrittenCapture(f: InPacketFile, packets: seq<Packet>)
    requires f.FullIndex() && WellFormedCapture(f.chunks, packets)
    ensures !HasState(f.infos)
    ensures forall t :: ClosestStateIndex(f.infos, t).None?
    ensures forall k :: 1 <= k < |f.infos| ==>
              SkipStates(f.infos, k) == k && f.ReadPacket(k) == Ok(packets[k - 1])
  {
    forall k | 0 <= k < |f.infos|
      ensures f.infos[k].packetType != State
      ensures k >= 1 ==> f.infos[k].packetType == Normal && f.ReadPacket(k) == Ok(packets[k - 1])
    {
      IndexOfWrittenCapture(f.chunks, packets, k);
      if k >= 1 {
        var p := packets[k - 1];
        ReadPacketAtNormalEntry(f, k);
        assert f.chunks[k] == f.chunks[1..][k - 1];
        assert f.chunks[k].payload[9..] == PacketPayload(p.direction, p.time, p.payload)[9..] == p.payload;
      }
    }
  }

  /** "this is a string" and "this is a state", the octets of the test's texts. */
  const Text: seq<Byte> := [116, 104, 105, 115, 32, 105, 115, 32, 97, 32, 115, 116, 114, 105, 110, 103]
  const StateText: seq<Byte> := [116, 104, 105, 115, 32, 105, 115, 32, 97, 32, 115, 116, 97, 116, 101]

  /** The container of src/ibdf/outfile_test.go: the writer's schema chunk and
      its outgoing packet at 42, with a state at 41 between them. The source
      has no state writer, so that chunk is laid out with the state layout. */
  function ScenarioChunks(): seq<Chunk> {
    [Chunk(SchemaTag, []),
     Chunk(StateTag, StatePayload(41, StateText)),
     Chunk(PacketTag, PacketPayload(CmdOutgoingPacket, 42, Text))]
  }

  /** The index the scan builds for that container. */
  function ScenarioInfos(): seq<HeaderInfo> {
    [HeaderInfo(0, Other, 0, CmdIncomingPacket, 0),
     HeaderInfo(1, State, 41, 0, |StateText| + 8),
     HeaderInfo(2, Normal, 42, CmdOutgoingPacket, |Text| + 9)]
  }

  /** Every chunk of the scenario classifies into its expected entry. */
  lemma ScenarioClassification(i: nat)
    requires i < 3
    ensures ClassifyChunk(i, ScenarioChunks()[i]) == Ok(ScenarioInfos()[i])
  {
    var c := ScenarioChunks()[i];
    var r := ClassifyChunk(i, c);
    if i == 1 {
      assert r.Ok? && r.value.packetType == State;
      Enc64Injective(ToUint64(r.value.timestamp), 41);
      Int64RoundTrip(r.value.timestamp);
    } else if i == 2 {
      assert r.Ok? && r.value.packetType == Normal;
      assert Enc64(ToUint64(r.value.timestamp)) == c.payload[1..9] == Enc64(42);
      Enc64Injective(ToUint64(r.value.timestamp), 42);
      Int64RoundTrip(r.value.timestamp);
    }
  }

  /** Opening the scenario's container succeeds and builds exactly its index. */
  lemma ScenarioIndex(f: InPacketFile)
    requires f.chunks == ScenarioChunks() && f.Indexed() && |f.infos| == 3
    ensures f.infos == ScenarioInfos()
  {
    forall i | 0 <= i < 3
      ensures f.infos[i] == ScenarioInfos()[i]
    {
      ScenarioClassification(i);
    }
  }

  /** The writer half of the test: a schema and one outgoing packet at 42
      give the first and last chunk of the scenario. */
  method WriteScenario() returns (chunks: seq<Chunk>)
    ensures chunks == ScenarioChunks()
  {
    var w := new OutPacketFile([]);
    w.DebugOutgoingPacket(Text, 42);
    chunks := [w.chunks[0], Chunk(StateTag, StatePayload(41, StateText)), w.chunks[1]];
  }

  /** Opening the scenario's container: no error, and the full index. */
  method OpenScenario() returns (pf: InPacketFile)
    ensures fresh(pf) && pf.chunks == ScenarioChunks() && pf.infos == ScenarioInfos()
  {
    var chunks := WriteScenario();
    var f, openErr := NewInPacketFileFromChunks(chunks);
    forall i | 0 <= i < 3
      ensures ClassifyChunk(i, chunks[i]) == Ok(ScenarioInfos()[i])
    {
      ScenarioClassification(i);
    }
    assert f != null;
    if |f.infos| == 3 {
      assert f.infos[1].packetType == State;
    }
    assert openErr.None?;
    ScenarioIndex(f);
    pf := f;
  }

  /** Opening the scenario's container gives a valid index. */
  lemma ScenarioIndexed(f: InPacketFile)
    requires f.chunks == ScenarioChunks() && f.infos == ScenarioInfos()
    ensures f.Indexed()
  {
    forall i | 0 <= i < 3
      ensures ClassifyChunk(i, f.chunks[i]) == Ok(f.infos[i])
    {
      ScenarioClassification(i);
    }
  }

  /** The nearest-state lookups of the test: 51 finds the state at 41, 10 finds none. */
  lemma ScenarioLookups()
    ensures ClosestStateIndex(ScenarioInfos(), 51) == Some(1)
    ensures ClosestStateIndex(ScenarioInfos(), 10) == None
  {
    var infos := ScenarioInfos();
    assert FirstStateAfter(infos, 51, 2) == 3;
    assert FirstStateAfter(infos, 51, 0) == 3;
    assert FirstStateAfter(infos, 10, 0) == 1;
  }

  /** The reader half of the test, on one cursor: read the state, then the
      packet, then hit the end; from there seek back to the state at or
      before 51 and read the packet again; finally fail to seek to 10, which
      is before every state. */
  method TestReadAndSeekBack(pf: InPacketFile)
    requires pf.chunks == ScenarioChunks() && pf.infos == ScenarioInfos()
  {
    ScenarioIndexed(pf);
    ScenarioLookups();
    var i := new InPacketFileSequence(pf);
    assert i.CursorAtState();
    ReadStatePacketAtStateEntry(pf, 1);
    var state := i.ReadNextStatePacket();
    assert state == Ok(StateRecord(41, StateText));

    assert i.CursorAtPacket();
    var packet := i.ReadNextPacket();
    assert packet == Ok(Packet(CmdOutgoingPacket, 42, Text));

    var next := i.ReadNextPacket();
    assert next == Err(EndOfFile) && i.cursorPacketIndex == 3;

    var seeked := i.SeekAndGetState(41 + 10);
    assert seeked == Ok(StateRecord(41, StateText)) && i.cursorPacketIndex == 2;

    var afterState := i.ReadNextPacket();
    assert afterState == Ok(Packet(CmdOutgoingPacket, 42, Text));

    var tooEarly := i.SeekAndGetState(10);
    assert tooEarly == Err(NoStateAt(10)) && i.cursorPacketIndex == 3;
  }

  /** src/ibdf/outfile_test.go, writer and reader together. */
  method TestReadWritePacket() {
    var pf := OpenScenario();
    TestReadAndSeekBack(pf);
  }
}
