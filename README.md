# ibdf: a verified model of the packet-capture format

ibdf records a network session as a sequence of chunks in a chunk container
(piff). The first chunk is the schema (`sch1`). After it come packets
(`pkt1`), which hold a direction octet (0x01 incoming, 0x81 outgoing), an
8-octet millisecond timestamp and the application octets. Full-state
snapshots (`sta1`) hold an 8-octet timestamp and the state octets.

The library has these parts:

- A writer (`OutPacketFile`).
- An indexed reader (`InPacketFile`). It checks the schema, builds one
  index entry per chunk, finds the nearest state at or before a timestamp,
  and reads packets and states by ordinal.
- A cursor over the indexed reader (`InPacketFileSequence`). It skips
  states when asked for a packet, and it can seek to a state by time.
- A forward-only stream reader (`InStream`).
- A reader adapter that pretends to be seekable (`ForwardReadSeeker`).

The model has one module per source file:

- `Octets`: the 8-octet integer encoding and Go's int64/uint64 casts.
- `Container`: the chunk container, seen only at its interface.
- `Codec`: `headers.go`.
- `Writer`: `outfile.go`.
- `InFile`: `infile.go`.
- `Sequence`: `infile_sequence.go`.
- `Stream`: `instream.go`.
- `Seeker`: `forward_read_seeker.go`.
- `RoundTrip`: what the writer produces read back through the reader, and
  the scenario of `src/ibdf/outfile_test.go`.

The imperative parts are classes whose methods change their fields:

- The writer's chunk list.
- The reader's index.
- The cursor position.
- The stream position.
- The seeker's octet count.

The decoders are pure functions.

Modelling choices:

- **Errors.** Go errors become a `Result`/`Option` over one `Error`
  datatype. Go runtime panics are modelled as errors too:
  - Slicing `payload[:9]` or `payload[:8]` on a shorter payload gives
    `SliceOutOfRange`.
  - `panic("not supported")` in the seeker gives `UnsupportedSeek`.

  This is done so that callers that can reach those panics (for example
  `ReadPacket` on the schema entry, whose payload may be short) stay total.
- **Integer encoding.** The 8-octet integer encoding comes from a library
  that is not part of this model. It is taken to be big-endian. Only its
  round trip and injectivity are used.
- **Chunk container (piff).** The container is a sequence of
  `Chunk(tag, payload)` values.
  - `FindChunk` is random access.
  - `FindPartialChunk(i, n)` is taken to return the first `n` octets, or
    fewer when the payload is shorter.
  - `ReadChunk` and `ReadPartChunk` each consume one chunk.
  - At the end of the stream the pending chunk header has an empty tag,
    so every `IsNext*` answers false.
  - A header's `OctetCount` is its payload length.
- **Index entry numbers.** `HeaderInfo.packetIndex` is a `nat`.
- **Writer's file.** The file the writer owns is the list of chunks
  appended so far. A ghost list of the packets written so far lets the
  reader's results be compared with what was written.

## Model

| member | source | states |
|---|---|---|
| Octets.Enc64 | src/ibdf/outfile.go:53 | a uint64 timestamp is written as exactly 8 octets (defined big-endian); `Dec64Enc64` proves reading them gives it back |
| Octets.Dec64 | src/ibdf/headers.go:46-47 | reading an 8-octet timestamp is the inverse of writing it: `Enc64(Dec64(s)) == s` for every 8 octets |
| Octets.Dec64Enc64 | src/ibdf/outfile.go:53 | a timestamp written as 8 octets reads back unchanged |
| Octets.Enc64Injective | src/ibdf/outfile.go:53 | two timestamps with the same 8 octets are equal, so the encoding loses nothing |
| Octets.DecodeEncodeBE | src/ibdf/outfile.go:53 | big-endian encoding into n octets round-trips for every value below 256^n |
| Octets.EncodeDecodeBE | src/ibdf/headers.go:46-47 | big-endian decoding of any octet string re-encodes to the same string |
| Octets.ToUint64 | src/ibdf/outfile.go:53 | `uint64(t)` keeps the bits: the result agrees with t modulo 2^64 and lies in the uint64 range |
| Octets.ToInt64 | src/ibdf/infile.go:126 | `int64(u)` keeps the bits and is undone by `uint64(...)` |
| Octets.WrapInt64 | src/ibdf/forward_read_seeker.go:46 | Go's int64 sum: the result agrees with the mathematical sum modulo 2^64, and equals it whenever it fits in int64 |
| Octets.Int64RoundTrip | src/ibdf/infile.go:137 | `int64(uint64(t)) == t` for every int64, so timestamps survive the write/index cast pair |
| Codec.KindOf | src/ibdf/instream.go:50-68 | a pending chunk is a file header, schema, packet or state exactly when its tag is pac1, sch1, pkt1 or sta1 |
| Codec.PacketPayload | src/ibdf/outfile.go:50-55 | the packet layout: length is 9 plus the application length; octet 0 is the direction, octets 1..9 the encoded timestamp, the rest the application octets |
| Codec.StatePayload | src/ibdf/headers.go:112-118 | the state layout the decoder expects: the 8 encoded timestamp octets, then the state octets |
| Codec.DeserializeStateHeader | src/ibdf/headers.go:39-52 | wrong tag is "wrong typeid", fewer than 8 octets is "wrong serialized header size", it succeeds exactly otherwise, and the timestamp re-encodes to the first 8 octets |
| Codec.DeserializePacketHeader | src/ibdf/headers.go:62-85 | wrong tag, short header and an unknown direction octet each give their error; it succeeds exactly on pkt1 with 9 octets and a known direction, and the first 9 octets are the direction plus the encoded timestamp |
| Codec.DeserializePacketFromPayload | src/ibdf/headers.go:95-102 | a payload shorter than 9 octets fails (the slice panic); otherwise the result is the header decoder's verdict, and on success the payload is exactly the packet layout of the result |
| Codec.DeserializeStatePacketFromPayload | src/ibdf/headers.go:112-119 | a payload shorter than 8 octets fails; otherwise it succeeds exactly on a sta1 tag, and on success the payload is exactly the state layout of the result |
| Codec.DeserializeSchemaText | src/ibdf/headers.go:129-131 | never fails, ignores the tag and returns the payload unchanged |
| Codec.PacketRoundTrip | src/ibdf/headers.go:95-102 | decoding the payload the writer lays out returns the same direction, timestamp and application octets |
| Codec.StateRoundTrip | src/ibdf/headers.go:112-119 | decoding a state laid out with a timestamp and octets returns them unchanged |
| Codec.DeserializePacketFromStream | src/ibdf/headers.go:87-93 | at end of stream it gives EndOfFile and does not move; otherwise it consumes exactly one chunk and returns the payload decoder's result for it |
| Codec.DeserializeStatePacketFromStream | src/ibdf/headers.go:104-110 | the same for states |
| Codec.DeserializeStateHeaderFromStream | src/ibdf/headers.go:54-60 | at end of stream it gives EndOfFile; otherwise it consumes one chunk and decodes the header from at most its first 8 octets |
| Codec.DeserializeSchemaTextFromStream | src/ibdf/headers.go:121-127 | at end of stream it gives EndOfFile; otherwise it consumes one chunk and returns its payload |
| Writer.PacketChunks | src/ibdf/outfile.go:50-56 | one pkt1 chunk per packet, in order, each with the packet layout of that packet |
| Writer.OutPacketFile.constructor | src/ibdf/outfile.go:38-48 | a new capture holds exactly one sch1 chunk with the schema payload and no packets, and is well formed |
| Writer.OutPacketFile.WritePacket | src/ibdf/outfile.go:50-56 | exactly one pkt1 chunk with the packet layout of (cmd, uint64(time), octets) is appended and nothing else changes; a well-formed capture stays well formed for a known direction |
| Writer.OutPacketFile.DebugIncomingPacket | src/ibdf/outfile.go:58-60 | appends an incoming (0x01) packet chunk and keeps the capture well formed |
| Writer.OutPacketFile.DebugOutgoingPacket | src/ibdf/outfile.go:62-64 | appends an outgoing (0x81) packet chunk and keeps the capture well formed |
| InFile.ClassifyChunk | src/ibdf/infile.go:112-143 | the entry for one chunk, which exists exactly for sch1, for sta1 with at least 8 octets, and for pkt1 whose 9-octet header decodes with a known direction (any other chunk aborts the scan with an error): sch1 is Other with direction 0x01; sta1 is a State with the timestamp its first 8 octets encode and direction 0; pkt1 is Normal exactly when its header decodes; any other tag is "unknown type id"; a State or Normal entry records the payload length |
| InFile.FirstStateAfter | src/ibdf/infile.go:176-182 | the first state later than t, or the end, with every earlier state at or before t |
| InFile.LastStateBefore | src/ibdf/infile.go:183 | the last state among the first n entries, none exactly when there is no state there |
| InFile.ClosestStateIndex | src/ibdf/infile.go:174-186 | what the lookup finds is a state whose timestamp is at most t |
| InFile.ClosestStateIsLatestAtOrBefore | src/ibdf/infile.go:174-186 | with state timestamps in order, the lookup finds nothing exactly when every state is later than t, and otherwise finds the last state at or before t |
| InFile.InPacketFile.ReadSchema | src/ibdf/infile.go:97-107 | a missing chunk 0 or a chunk 0 that is not sch1 gives its error; otherwise the schema payload |
| InFile.InPacketFile.ScanAllChunks | src/ibdf/infile.go:109-152 | success means every chunk is indexed and some entry is a state; MissingState means every chunk is indexed and none is a state; any other error is that of the first chunk that fails to classify, and the index is left as it was |
| InFile.InPacketFile.IsEOF | src/ibdf/infile.go:217-219 | true exactly when the position is at or past the last index entry; on a valid index any other position names an existing chunk |
| InFile.InPacketFile.IsState | src/ibdf/infile.go:158-164 | false at or past the end, otherwise whether the entry is a state |
| InFile.InPacketFile.IsPacket | src/ibdf/infile.go:166-172 | false at or past the end, otherwise whether the entry is a packet; never both a state and a packet |
| InFile.InPacketFile.FindClosestStateBeforeOrAt | src/ibdf/infile.go:174-186 | the forward pass that stops at the first later state returns exactly the entry `ClosestStateIndex` names, which is a state at or before the timestamp |
| InFile.InPacketFile.ReadPacket | src/ibdf/infile.go:221-233 | EndOfFile at or past the end, "wrong packet type" on a state; a packet read is exactly a pkt1 chunk with that packet's layout and a known direction |
| InFile.InPacketFile.ReadStatePacket | src/ibdf/infile.go:235-247 | EndOfFile at or past the end, "wrong packet type" on anything that is not a state; a state read is exactly a sta1 chunk with that state's layout |
| InFile.ReadPacketAtNormalEntry | src/ibdf/infile.go:221-233 | on a valid index, reading a packet entry cannot fail and returns the direction and timestamp the index recorded, and the octets after the header |
| InFile.ReadStatePacketAtStateEntry | src/ibdf/infile.go:235-247 | on a valid index, reading a state entry cannot fail and returns the timestamp the index recorded, and the octets after it |
| InFile.NewInPacketFileFromChunks | src/ibdf/infile.go:196-215 | no reader without a sch1 chunk 0; otherwise a reader with the schema payload, whose index is complete on success or MissingState, and empty beside any other scan error |
| Sequence.SkipStates | src/ibdf/infile_sequence.go:97-99 | the first position at or after k that is not a state, with only states in between |
| Sequence.InPacketFileSequence.constructor | src/ibdf/infile_sequence.go:76-83 | the cursor starts at entry 1, just past the schema |
| Sequence.InPacketFileSequence.IsEOF | src/ibdf/infile_sequence.go:89-91 | the cursor is at end of file exactly when the reader says its position is |
| Sequence.InPacketFileSequence.CursorAtState | src/ibdf/infile_sequence.go:39-45 | agrees with the reader's IsState at the cursor |
| Sequence.InPacketFileSequence.CursorAtPacket | src/ibdf/infile_sequence.go:47-53 | agrees with the reader's IsPacket at the cursor |
| Sequence.InPacketFileSequence.AdvanceCursor | src/ibdf/infile_sequence.go:85-87 | the cursor moves forward by one |
| Sequence.InPacketFileSequence.SeekToClosestState | src/ibdf/infile_sequence.go:55-62 | with no state at or before the timestamp it fails and leaves the cursor where it was; otherwise the cursor lands on the entry `ClosestStateIndex` names |
| Sequence.InPacketFileSequence.SeekAndGetState | src/ibdf/infile_sequence.go:64-70 | the seek's failure is passed on; on a valid index the state found is read without error, and the cursor ends just past it |
| Sequence.InPacketFileSequence.ReadNextPacket | src/ibdf/infile_sequence.go:93-109 | states under the cursor are skipped; then end of file, or the reader's packet at the first non-state position, and the cursor moves past that position only on success |
| Sequence.InPacketFileSequence.ReadNextStatePacket | src/ibdf/infile_sequence.go:111-121 | EndOfFile at the end, otherwise the reader's state at the cursor; the cursor advances only on success |
| Stream.InStream.constructor | src/ibdf/instream.go:40-48 | the stream starts before the first chunk |
| Stream.InStream.IsNextSchema | src/ibdf/instream.go:50-53 | true exactly when a chunk is pending and its tag is sch1 |
| Stream.InStream.IsNextState | src/ibdf/instream.go:55-58 | true exactly when a chunk is pending and its tag is sta1 |
| Stream.InStream.IsNextPacket | src/ibdf/instream.go:60-63 | true exactly when a chunk is pending and its tag is pkt1 |
| Stream.InStream.IsNextFileHeader | src/ibdf/instream.go:65-68 | true exactly when a chunk is pending and its tag is pac1 |
| Stream.InStream.IsEOF | src/ibdf/instream.go:91-93 | true exactly when no chunk is left |
| Stream.InStream.ReadNextPacket | src/ibdf/instream.go:70-72 | consumes one chunk unless at the end and decodes it; the stream never moves back, and success means a pkt1 chunk was pending |
| Stream.InStream.ReadNextStatePacket | src/ibdf/instream.go:74-76 | the same for states, with success only on a pending sta1 chunk |
| Stream.InStream.ReadNextSchemaTextPacket | src/ibdf/instream.go:78-80 | consumes one chunk unless at the end and returns its payload whatever its tag |
| Seeker.ForwardReadSeeker.constructor | src/ibdf/forward_read_seeker.go:36-38 | the octet count starts at zero |
| Seeker.ForwardReadSeeker.RequestedPosition | src/ibdf/forward_read_seeker.go:41-49 | SeekCurrent is relative to the current position, as an int64 sum that wraps (and equals the plain sum when it fits); any other whence takes the offset as absolute |
| Seeker.ForwardReadSeeker.Seek | src/ibdf/forward_read_seeker.go:40-56 | SeekEnd and any request behind the current position are refused; any other request answers 0 without moving |
| Seeker.ForwardReadSeeker.Read | src/ibdf/forward_read_seeker.go:58-65 | an error from the underlying reader is passed on with a count of 0 and the position unchanged; otherwise the position is the int64 sum of the old position and the octets delivered, which is their plain sum when it fits |
| Seeker.OverflowingSeekCurrentIsRefused | src/ibdf/forward_read_seeker.go:45-53 | at position 1, a SeekCurrent by the largest int64 wraps to the smallest int64 and is therefore behind the position, so `Seek` refuses it |
| RoundTrip.IndexOfWrittenCapture | src/ibdf/infile.go:109-152 | every chunk the writer produces classifies: the schema as Other, each packet as Normal with the direction and int64 timestamp that were written |
| RoundTrip.ReadBackWrittenCapture | src/ibdf/outfile.go:50-64 | a complete index of a writer's capture has no state, so every seek by time finds nothing, and entry k reads back as the k-th packet written |
| RoundTrip.ScenarioClassification | src/ibdf/outfile_test.go:40-53 | each chunk of the test's capture (schema, state at 41, outgoing packet at 42) classifies into its expected entry |
| RoundTrip.ScenarioIndex | src/ibdf/outfile_test.go:56-59 | a valid three-entry index of that capture is exactly the expected index |
| RoundTrip.ScenarioIndexed | src/ibdf/outfile_test.go:56-59 | the expected index is a valid index of that capture |
| RoundTrip.ScenarioLookups | src/ibdf/outfile_test.go:108-117 | the nearest state at or before 51 is the state at 41; at or before 10 there is none |
| RoundTrip.WriteScenario | src/ibdf/outfile_test.go:40-54 | the writer's schema chunk and its outgoing packet at 42 are the first and last chunks of the test's capture |
| RoundTrip.OpenScenario | src/ibdf/outfile_test.go:56-59 | opening the test's capture succeeds and builds exactly the expected index |

The test methods `RoundTrip.TestReadAndSeekBack` and
`RoundTrip.TestReadWritePacket` have no contract of their own. On one
cursor, as `src/ibdf/outfile_test.go:60-128` does, they assert:

- The cursor starts on the state.
- The state reads back as 41 with "this is a state".
- The packet reads back as outgoing, 42, "this is a string".
- The next read hits the end, with the cursor at entry 3.
- Seeking to 51 from there moves the cursor back and gives the state at 41
  again, leaving the cursor at entry 2.
- The packet after it reads back again.

They also check one case the test does not: seeking to 10 fails and leaves
the cursor where it was.

## Left out

- I/O: creating, writing, opening and closing files (`NewOutPacketFile`'s
  filename, `NewInPacketFile(filename)`, both `Close` methods). Their errors
  come from the operating system and are not modelled.
- The container library (piff): its framing, chunk directory, seek-based
  reading and the errors of `FindChunk`/`FindPartialChunk` other than a
  missing chunk. The container is modelled only by its interface.
- The 8-octet integer library: taken to be big-endian. No other layout
  detail is used.
- `InStream.ReadNextFileHeader`, `readHeader` and the `Header` type (pac1).
  `readHeader` and `Header` are not part of this model.
- `Writer.OutPacketFile.WritePacket`: the writer's file errors are not
  modelled, so the method always succeeds.
- The state writer `DebugState` that `src/ibdf/outfile_test.go:46` calls is
  not defined in `src/ibdf/outfile.go`. The scenario lays the sta1 chunk out
  by hand with the layout the state decoder expects.
- `InFile.ClassifyChunk`: `PacketIndex` is a 32-bit unsigned integer in the
  source. The model uses a `nat`, so wrap-around past 2^32 chunks is not
  modelled.
- `Seeker.ForwardReadSeeker.Read`: the underlying reader is replaced by the
  count or error it returns. Because the int64 count wraps as in Go, the
  method promises that the position grows only when the sum fits in int64.
- `Seeker.ForwardReadSeeker.Seek`: the panics are errors (`UnsupportedSeek`)
  rather than aborts.
- `Codec.DeserializePacketFromPayload` and
  `Codec.DeserializeStatePacketFromPayload`: a short payload is an error
  (`SliceOutOfRange`), not a runtime panic. The model does not capture a Go
  slice whose capacity exceeds its length, where `payload[:9]` would not
  panic.
- `Codec.DeserializeSchemaText`: the schema text is kept as octets, not
  converted to a Go string.
- `InStream` construction through `NewForwardReadSeeker` and
  `piff.NewInStreamReadSeeker`: the stream is built directly over the
  chunks.
- `HeaderInfo.String`, the accessors, `AllHeaders`, `SchemaPayload`,
  `Cursor` and `getInfo`: plain field reads.
- The `startTime` and `endTime` fields: they are never set.
- The command-line viewer `src/ibdf-view/main.go`.
- The model does not assume that state timestamps are in order. Nothing in
  the source enforces it. `ClosestStateIsLatestAtOrBefore` states the
  lookup's meaning under that assumption. `ClosestStateIndex` describes
  what the lookup does in any case.
