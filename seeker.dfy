/** A reader that pretends to be seekable (src/ibdf/forward_read_seeker.go):
    it counts the octets it has delivered and accepts only those seeks that do
    not go back. The underlying reader is represented by what one call to it
    returns: an octet count, or an error. Positions and offsets are int64, and
    sums of them wrap as Go's int64 arithmetic does. */
module Seeker {
  import opened Octets
  import opened Container

  /** io.SeekStart, io.SeekCurrent and io.SeekEnd. */
  const SeekStart: int := 0
  const SeekCurrent: int := 1
  const SeekEnd: int := 2

  class ForwardReadSeeker {
    var position: Int64

    /** NewForwardReadSeeker */
    constructor ()
      ensures position == 0
    {
      position := 0;
    }

    /** The position a seek asks for: relative to the current position for
        SeekCurrent, taken as absolute for SeekStart and any other whence.
        The relative sum is an int64 sum, so it wraps. */
    function RequestedPosition(offset: Int64, whence: int): (p: Int64)
      reads this
      ensures whence == SeekCurrent ==> (p - (position + offset)) % TWO_64 == 0
      ensures whence == SeekCurrent && position + offset < TWO_63 && -TWO_63 <= position + offset ==>
                p == position + offset
      ensures whence != SeekCurrent ==> p == offset
    {
      if whence == SeekCurrent then WrapInt64(position + offset) else offset
    }

    /** Seek moves nothing: it answers 0 when the request is at or beyond the
        current position, and fails (a panic in the source) for SeekEnd or for
        a request behind the current position. */
    method Seek(offset: Int64, whence: int) returns (r: Result<int>)
      ensures whence == SeekEnd ==> r == Err(UnsupportedSeek)
      ensures whence != SeekEnd ==> (r.Ok? <==> RequestedPosition(offset, whence) >= position)
      ensures r.Err? ==> r.error == UnsupportedSeek
      ensures r.Ok? ==> r.value == 0
    {
      var requestedPosition := offset;
      if whence == SeekStart {
        // the offset is already absolute
      } else if whence == SeekCurrent {
        requestedPosition := WrapInt64(position + offset);
      } else if whence == SeekEnd {
        return Err(UnsupportedSeek);
      }
      if requestedPosition < position {
        return Err(UnsupportedSeek);
      }
      return Ok(0);
    }

    /** Read passes the call on to the underlying reader, which delivered
        `delivered` octets into a buffer of `capacity` octets or failed with
        `readErr`. On failure nothing is counted, even octets it delivered.
        The count is an int64 sum, so it wraps past the int64 range. */
    method Read(capacity: nat, delivered: nat, readErr: Option<Error>) returns (n: nat, err: Option<Error>)
      requires delivered <= capacity
      modifies this
      ensures readErr.Some? ==> n == 0 && err == readErr && position == old(position)
      ensures readErr.None? ==> n == delivered && err.None? && position == WrapInt64(old(position) + delivered)
      ensures readErr.None? && old(position) + delivered < TWO_63 ==> position == old(position) + delivered
    {
      if readErr.Some? {
        return 0, readErr;
      }
      position := WrapInt64(position + delivered);
      return delivered, None;
    }
  }

  /** A SeekCurrent request whose int64 sum overflows wraps to a negative
      position and is refused, although it points forward mathematically. */
  lemma OverflowingSeekCurrentIsRefused(f: ForwardReadSeeker)
    requires f.position == 1
    ensures f.RequestedPosition(TWO_63 - 1, SeekCurrent) == -TWO_63
    ensures f.RequestedPosition(TWO_63 - 1, SeekCurrent) < f.position
  {
  }
}
