/** The chunk container the capture format sits on, seen only at its interface:
    a sequence of chunks, each a four-character type tag and a payload.
    Its framing, file I/O and chunk directory are not part of this model. */
module Container {
  import opened Octets

  datatype Chunk = Chunk(tag: string, payload: seq<Byte>)

  datatype Option<T> = None | Some(value: T)

  /** Every error this layer and the capture format report. */
  datatype Error =
    | EndOfFile                                     // io.EOF
    | ChunkNotFound(index: nat)                     // the container has no such chunk
    | WrongTypeId(expected: string, actual: string) // "wrong typeid"
    | WrongHeaderSize                               // "wrong serialized header size"
    | UnknownDirection(value: Byte)                 // "unknown direction"
    | SliceOutOfRange                               // runtime panic of payload[:n]
    | ShortRead                                     // ReadUint64 past the end of the octets
    | WrongSchemaTypeId(actual: string)             // "wrong schema typeid"
    | UnknownTypeId(actual: string)                 // "unknown type id"
    | MissingState                                  // MissingStateError
    | WrongPacketType(index: nat)                   // "wrong packet type"
    | NoStateAt(timestamp: int)                     // "couldn't find any states at timestamp"
    | UnsupportedSeek                               // panic("not supported")

  datatype Result<T> = Ok(value: T) | Err(error: Error)

  /** The first `n` octets of `s`, or all of them when there are fewer. */
  function Prefix(s: seq<Byte>, n: nat): (p: seq<Byte>)
    ensures |p| == if |s| < n then |s| else n
    ensures p <= s
  {
    if |s| < n then s else s[..n]
  }

  /** Random access to a whole chunk by its ordinal. */
  function FindChunk(chunks: seq<Chunk>, index: nat): (r: Result<Chunk>)
    ensures r.Ok? <==> index < |chunks|
    ensures r.Ok? ==> r.value == chunks[index]
  {
    if index < |chunks| then Ok(chunks[index]) else Err(ChunkNotFound(index))
  }

  /** A forward-only reader of chunks: the pending chunk is `chunks[next]`. */
  class ChunkStream {
    const chunks: seq<Chunk>
    var next: nat

    ghost predicate Valid()
      reads this
    {
      next <= |chunks|
    }

    constructor (chunks: seq<Chunk>)
      ensures Valid() && this.chunks == chunks && next == 0
    {
      this.chunks := chunks;
      next := 0;
    }

    predicate IsEOF()
      reads this
    {
      next >= |chunks|
    }

    /** The type tag of the pending chunk header; empty once the stream is exhausted. */
    function PendingTag(): string
      reads this
    {
      if next < |chunks| then chunks[next].tag else ""
    }

    /** Consumes the pending chunk and hands it out whole. */
    method ReadChunk() returns (r: Result<Chunk>)
      requires Valid()
      modifies this
      ensures Valid()
      ensures old(next) == |chunks| ==> r == Err(EndOfFile) && next == old(next)
      ensures old(next) < |chunks| ==> r == Ok(chunks[old(next)]) && next == old(next) + 1
    {
      if next == |chunks| {
        return Err(EndOfFile);
      }
      r := Ok(chunks[next]);
      next := next + 1;
    }

    /** Consumes the pending chunk and hands out its tag and the first `n` octets of its payload. */
    method ReadPartChunk(n: nat) returns (r: Result<Chunk>)
      requires Valid()
      modifies this
      ensures Valid()
      ensures old(next) == |chunks| ==> r == Err(EndOfFile) && next == old(next)
      ensures old(next) < |chunks| ==>
                r == Ok(Chunk(chunks[old(next)].tag, Prefix(chunks[old(next)].payload, n)))
                && next == old(next) + 1
    {
      if next == |chunks| {
        return Err(EndOfFile);
      }
      var c := chunks[next];
      r := Ok(Chunk(c.tag, Prefix(c.payload, n)));
      next := next + 1;
    }
  }
}
