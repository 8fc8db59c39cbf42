/** The sequential cursor over an indexed reader (src/ibdf/infile_sequence.go).
    Its only state is the cursor position; the reader and its index are
    never changed by it. */
module Sequence {
  import opened Octets
  import opened Container
  import opened Codec
  import opened InFile

  /** The first position at or after `k` that does not hold a state entry. */
  function SkipStates(infos: seq<HeaderInfo>, k: nat): (j: nat)
    requires k <= |infos|
    ensures k <= j <= |infos|
    ensures forall m :: k <= m < j ==> infos[m].packetType == State
    ensures j < |infos| ==> infos[j].packetType != State
    decreases |infos| - k
  {
    if k == |infos| || infos[k].packetType != State then k else SkipStates(infos, k + 1)
  }

  class InPacketFileSequence {
    const inFile: InPacketFile
    var cursorPacketIndex: nat

    /** NewInPacketFileSequenceFromInFile: the cursor starts just past the schema entry. */
    constructor (inFile: InPacketFile)
      ensures this.inFile == inFile && cursorPacketIndex == 1
    {
      this.inFile := inFile;
      cursorPacketIndex := 1;
    }

    function IsEOF(): (r: bool)
      reads this, inFile
      ensures r <==> inFile.IsEOF(cursorPacketIndex)
    {
      cursorPacketIndex >= |inFile.infos|
    }

    function CursorAtState(): (r: bool)
      reads this, inFile
      ensures r ==> !IsEOF()
      ensures r <==> inFile.IsState(cursorPacketIndex)
    {
      if IsEOF() then false else inFile.infos[cursorPacketIndex].packetType == State
    }

    function CursorAtPacket(): (r: bool)
      reads this, inFile
      ensures r ==> !IsEOF() && !CursorAtState()
      ensures r <==> inFile.IsPacket(cursorPacketIndex)
    {
      if IsEOF() then false else inFile.infos[cursorPacketIndex].packetType == Normal
    }

    method AdvanceCursor()
      modifies this
      ensures cursorPacketIndex == old(cursorPacketIndex) + 1
    {
      cursorPacketIndex := cursorPacketIndex + 1;
    }

    /** seekToClosestState: moves the cursor to the nearest state at or before
        `timestamp`, or fails and leaves it where it was. */
    method SeekToClosestState(timestamp: Int64) returns (err: Option<Error>)
      modifies this
      ensures ClosestStateIndex(inFile.infos, timestamp).None? ==>
                err == Some(NoStateAt(timestamp)) && cursorPacketIndex == old(cursorPacketIndex)
      ensures ClosestStateIndex(inFile.infos, timestamp).Some? ==>
                err.None? && cursorPacketIndex == inFile.infos[ClosestStateIndex(inFile.infos, timestamp).value].packetIndex
    {
      var headerInfo := inFile.FindClosestStateBeforeOrAt(timestamp);
      if headerInfo.None? {
        return Some(NoStateAt(timestamp));
      }
      cursorPacketIndex := headerInfo.value.packetIndex;
      return None;
    }

    /** SeekAndGetState: seek, then read the state found; on a valid index the
        read cannot fail, and the cursor ends just past that state. */
    method SeekAndGetState(timestamp: Int64) returns (r: Result<StateRecord>)
      modifies this
      ensures ClosestStateIndex(inFile.infos, timestamp).None? ==>
                r == Err(NoStateAt(timestamp)) && cursorPacketIndex == old(cursorPacketIndex)
      ensures ClosestStateIndex(inFile.infos, timestamp).Some? && inFile.Indexed() ==>
                var k := ClosestStateIndex(inFile.infos, timestamp).value;
                r == Ok(StateRecord(ToUint64(inFile.infos[k].timestamp), inFile.chunks[k].payload[8..]))
                && cursorPacketIndex == k + 1
    {
      var err := SeekToClosestState(timestamp);
      if err.Some? {
        return Err(err.value);
      }
      if inFile.Indexed() {
        ReadStatePacketAtStateEntry(inFile, cursorPacketIndex);
      }
      r := ReadNextStatePacket();
    }

    /** ReadNextPacket: state entries under the cursor are stepped over; the
        packet after them is read, and the cursor moves past it only when the
        read succeeds. */
    method ReadNextPacket() returns (r: Result<Packet>)
      modifies this
      ensures old(IsEOF()) ==> r == Err(EndOfFile) && cursorPacketIndex == old(cursorPacketIndex)
      ensures !old(IsEOF()) ==>
                var j := SkipStates(inFile.infos, old(cursorPacketIndex));
                if j == |inFile.infos| then r == Err(EndOfFile) && cursorPacketIndex == j
                else r == inFile.ReadPacket(j) && cursorPacketIndex == (if r.Ok? then j + 1 else j)
      ensures !old(IsEOF()) && inFile.Indexed() ==>
                var j := SkipStates(inFile.infos, old(cursorPacketIndex));
                j < |inFile.infos| && inFile.infos[j].packetType == Normal ==>
                  r == Ok(Packet(inFile.infos[j].direction, ToUint64(inFile.infos[j].timestamp),
                                 inFile.chunks[j].payload[9..]))
    {
      if IsEOF() {
        return Err(EndOfFile);
      }
      while CursorAtState()
        invariant old(cursorPacketIndex) <= cursorPacketIndex <= |inFile.infos|
        invariant SkipStates(inFile.infos, cursorPacketIndex) == SkipStates(inFile.infos, old(cursorPacketIndex))
        decreases |inFile.infos| - cursorPacketIndex
      {
        AdvanceCursor();
      }
      if IsEOF() {
        return Err(EndOfFile);
      }
      if inFile.Indexed() && inFile.infos[cursorPacketIndex].packetType == Normal {
        ReadPacketAtNormalEntry(inFile, cursorPacketIndex);
      }
      r := inFile.ReadPacket(cursorPacketIndex);
      if r.Err? {
        return r;
      }
      AdvanceCursor();
    }

    /** ReadNextStatePacket: reads the state under the cursor and steps past
        it; on any error the cursor stays. */
    method ReadNextStatePacket() returns (r: Result<StateRecord>)
      modifies this
      ensures old(IsEOF()) ==> r == Err(EndOfFile)
      ensures !old(IsEOF()) ==> r == inFile.ReadStatePacket(old(cursorPacketIndex))
      ensures cursorPacketIndex == if r.Ok? then old(cursorPacketIndex) + 1 else old(cursorPacketIndex)
    {
      if IsEOF() {
        return Err(EndOfFile);
      }
      r := inFile.ReadStatePacket(cursorPacketIndex);
      if r.Err? {
        return r;
      }
      AdvanceCursor();
    }
  }
}
