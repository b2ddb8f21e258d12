/**
 * A blob held in memory: one ByteBuffer that a writable view fills from position 0
 * up to its capacity and that closing flips for reading.
 */
module VolatileBlobs {
  import opened JavaInts
  import opened ByteBuffers
  import opened Wrappers

  /** The IOException("write failed: capacity exceeded") every write raises. */
  datatype BlobError = CapacityExceeded

  function Min(a: int, b: int): int
  {
    if a <= b then a else b
  }

  /** An InputStream: the bytes it has still to give; `Read` answers -1 at the end. */
  class InputStream {
    var rest: seq<Byte>

    constructor(s: seq<Byte>)
      ensures rest == s
    {
      rest := s;
    }

    method Read() returns (b: int)
      modifies this
      ensures old(rest) == [] ==> b == -1 && rest == []
      ensures old(rest) != [] ==> b == old(rest)[0] as int && rest == old(rest)[1..]
    {
      if rest == [] {
        b := -1;
      } else {
        b := rest[0] as int;
        rest := rest[1..];
      }
    }
  }

  /**
   * What write(InputStream) answers, as written, for a stream of `available` bytes
   * and `room` bytes left in the blob: the count when the stream ends before the
   * blob is full, the capacity error as soon as the blob is full.
   */
  function StreamWriteOutcome(available: nat, room: nat): (r: Result<int, BlobError>)
    ensures r.Ok? <==> available < room
    ensures r.Ok? ==> r.value == available
  {
    if available < room then Ok(available) else Err(CapacityExceeded)
  }

  /**
   * As written, a stream that exactly fills the blob is refused: all of its bytes
   * have been stored, yet the capacity error is raised because the end of the
   * stream is never looked for once no room is left.
   */
  lemma StreamExactFillAsWritten(n: nat)
    ensures StreamWriteOutcome(n, n) == Err(CapacityExceeded)
  {
  }

  /** What write(InputStream) evidently means: the count whenever the stream fits. */
  function StreamWriteOutcomeIntended(available: nat, room: nat): (r: Result<int, BlobError>)
    ensures r.Ok? <==> available <= room
    ensures r.Ok? ==> r.value == available
  {
    if available <= room then Ok(available) else Err(CapacityExceeded)
  }

  /**
   * What write(InputStream, size) answers: the capacity error when `size` exceeds
   * the room left, otherwise the number of bytes read, at most `size` and at most
   * what the stream has (none for a negative `size`).
   */
  function SizedWriteOutcome(available: nat, room: nat, size: int): (r: Result<int, BlobError>)
    ensures r.Ok? <==> size <= room
    ensures r.Ok? ==> 0 <= r.value <= available && r.value <= room && (size >= 0 ==> r.value <= size)
    ensures r.Ok? && size >= 0 && available >= size ==> r.value == size
  {
    if size > room then Err(CapacityExceeded)
    else if size <= 0 then Ok(0)
    else Ok(Min(size, available))
  }

  class VolatileBlob {
    var data: ByteBuffer

    ghost predicate Valid()
      reads this, data
    {
      data.Valid()
    }

    /** size(): the buffer's limit. */
    function Size(): (n: nat)
      reads this, data
      requires Valid()
      ensures n <= data.Capacity()
    {
      data.limit
    }

    /** What observe() hands out: a view of the bytes between position and limit. */
    function Observe(): (s: seq<Byte>)
      reads this, data, data.hb
      requires Valid()
      ensures |s| == Size() - data.position
    {
      data.Readable()
    }

    /** VolatileBlob(int expectedSize): an empty buffer of that capacity. */
    constructor WithExpectedSize(expectedSize: nat)
      ensures Valid() && fresh(data) && fresh(data.hb)
      ensures data.Capacity() == expectedSize && Size() == expectedSize && data.position == 0
    {
      data := new ByteBuffer.Allocate(expectedSize);
    }

    /** VolatileBlob(byte[]): a blob over (and sharing) the given array. */
    constructor FromArray(a: array<Byte>)
      ensures Valid() && fresh(data) && data.hb == a
      ensures Size() == a.Length && data.position == 0
      ensures Observe() == a[..]
    {
      data := new ByteBuffer.Wrap(a);
    }

    /** VolatileBlob(ByteBuffer): a copy of the source's remaining bytes; the source is consumed. */
    constructor FromBuffer(src: ByteBuffer)
      requires src.Valid()
      modifies src
      ensures Valid() && fresh(data) && fresh(data.hb)
      ensures Observe() == old(src.Readable()) && Size() == |old(src.Readable())|
      ensures src.Valid() && src.position == old(src.limit)
      ensures src.hb == old(src.hb) && src.limit == old(src.limit)
    {
      var buffer := new ByteBuffer.Allocate(src.Remaining());
      data := buffer;
      new;
      var ok := buffer.PutBuffer(src);
      buffer.SetPosition(0);
    }

    /**
     * map(open, function, close): the blob becomes a new buffer holding what the
     * opening buffer, the mapped data and the closing buffer have remaining, in that
     * order, read from position 0 with the mark set there. The three buffers are the
     * values the suppliers and the function return.
     */
    method Map(opening: ByteBuffer, mapped: ByteBuffer, closing: ByteBuffer)
      requires Valid() && opening.Valid() && mapped.Valid() && closing.Valid()
      requires opening != mapped && mapped != closing && opening != closing
      modifies this, opening, mapped, closing
      ensures Valid() && fresh(data) && fresh(data.hb)
      ensures Observe() == old(opening.Readable()) + old(mapped.Readable()) + old(closing.Readable())
      ensures Size() == |old(opening.Readable())| + |old(mapped.Readable())| + |old(closing.Readable())|
      ensures data.position == 0 && data.markPos == 0
    {
      ghost var a, b, c := opening.Readable(), mapped.Readable(), closing.Readable();
      var ret := new ByteBuffer.Allocate(opening.Remaining() + mapped.Remaining() + closing.Remaining());
      var ok := ret.PutBuffer(opening);
      assert ret.Written() == a && ret.Remaining() == |b| + |c|;
      assert mapped.Readable() == b && closing.Readable() == c;
      ok := ret.PutBuffer(mapped);
      assert ret.Written() == a + b && ret.Remaining() == |c|;
      assert closing.Readable() == c;
      ok := ret.PutBuffer(closing);
      assert ret.Written() == a + b + c && ret.position == ret.limit;
      data := ret;
      data.SetPosition(0);
      data.Mark();
    }

    /** getWritableBlob(): a writer whose creation rewinds the buffer to its whole capacity. */
    method GetWritableBlob() returns (w: WritableBlob)
      requires Valid()
      modifies data
      ensures Valid() && w.Valid() && fresh(w) && w.blob == this
      ensures data.hb == old(data.hb) && data.position == 0 && data.limit == data.Capacity()
      ensures data.markPos == if old(data.markPos) > 0 then -1 else old(data.markPos)
    {
      data.SetPosition(0);
      data.SetLimit(data.Capacity());
      w := new WritableBlob(this);
    }
  }

  /** The writer getWritableBlob hands out: every write goes to the blob's buffer. */
  class WritableBlob {
    const blob: VolatileBlob

    constructor(b: VolatileBlob)
      ensures blob == b
    {
      blob := b;
    }

    ghost predicate Valid()
      reads this, blob, blob.data
    {
      blob.Valid()
    }

    /** What has been written since the buffer was rewound. */
    function Written(): seq<Byte>
      reads this, blob, blob.data, blob.data.hb
      requires Valid()
    {
      blob.data.Written()
    }

    function Room(): nat
      reads this, blob, blob.data
      requires Valid()
    {
      blob.data.Remaining()
    }

    /** dispose(): the buffer is cleared. */
    method Dispose()
      requires Valid()
      modifies blob.data
      ensures Valid() && blob.data.hb == old(blob.data.hb)
      ensures blob.data.position == 0 && blob.data.limit == blob.data.Capacity()
    {
      blob.data.Clear();
    }

    /** write(byte): 1, or the capacity error with nothing written. */
    method WriteByte(b: Byte) returns (r: Result<int, BlobError>)
      requires Valid()
      modifies blob.data, blob.data.hb
      ensures Valid() && blob.data.hb == old(blob.data.hb) && blob.data.limit == old(blob.data.limit)
      ensures r == if old(Room()) >= 1 then Ok(1) else Err(CapacityExceeded)
      ensures Written() == if r.Ok? then old(Written()) + [b] else old(Written())
    {
      var ok := blob.data.Put(b);
      if !ok {
        return Err(CapacityExceeded);
      }
      return Ok(1);
    }

    /** write(byte[]): the array's length, or the capacity error with nothing written. */
    method WriteBytes(a: seq<Byte>) returns (r: Result<int, BlobError>)
      requires Valid()
      modifies blob.data, blob.data.hb
      ensures Valid() && blob.data.hb == old(blob.data.hb) && blob.data.limit == old(blob.data.limit)
      ensures r == if |a| <= old(Room()) then Ok(|a|) else Err(CapacityExceeded)
      ensures Written() == if r.Ok? then old(Written()) + a else old(Written())
    {
      var ok := blob.data.PutBytes(a);
      if !ok {
        return Err(CapacityExceeded);
      }
      return Ok(|a|);
    }

    /** write(ByteBuffer): the source's remaining count, or the capacity error with nothing moved. */
    method WriteBuffer(src: ByteBuffer) returns (r: Result<int, BlobError>)
      requires Valid() && src.Valid() && src != blob.data
      modifies blob.data, blob.data.hb, src
      ensures Valid() && src.Valid() && blob.data.hb == old(blob.data.hb) && blob.data.limit == old(blob.data.limit)
      ensures src.hb == old(src.hb) && src.limit == old(src.limit)
      ensures r == if old(src.Remaining()) <= old(Room()) then Ok(old(src.Remaining())) else Err(CapacityExceeded)
      ensures Written() == if r.Ok? then old(Written()) + old(src.Readable()) else old(Written())
      ensures src.position == if r.Ok? then old(src.limit) else old(src.position)
    {
      var size := src.Remaining();
      var ok := blob.data.PutBuffer(src);
      if !ok {
        return Err(CapacityExceeded);
      }
      return Ok(size);
    }

    /**
     * write(InputStream): copies the stream until it ends or the blob is full. The
     * bytes copied are the stream's first min(length, room) bytes either way.
     */
    method WriteStream(stream: InputStream) returns (r: Result<int, BlobError>)
      requires Valid()
      modifies blob.data, blob.data.hb, stream
      ensures Valid() && blob.data.hb == old(blob.data.hb) && blob.data.limit == old(blob.data.limit)
      ensures r == StreamWriteOutcome(|old(stream.rest)|, old(Room()))
      ensures Written() == old(Written()) + old(stream.rest)[..Min(|old(stream.rest)|, old(Room()))]
      ensures stream.rest == old(stream.rest)[Min(|old(stream.rest)|, old(Room()))..]
    {
      var data := blob.data;
      var remaining := data.Remaining();
      var size := remaining;
      while remaining > 0
        invariant 0 <= remaining <= size == old(Room())
        invariant size - remaining <= |old(stream.rest)|
        invariant data.Valid() && data.hb == old(data.hb) && data.limit == old(data.limit)
        invariant data.Remaining() == remaining
        invariant stream.rest == old(stream.rest)[size - remaining..]
        invariant data.Written() == old(data.Written()) + old(stream.rest)[..size - remaining]
      {
        var b := stream.Read();
        if b == -1 {
          return Ok(size - remaining);
        }
        var ok := data.Put(b as Byte);
        assert old(stream.rest)[..size - remaining + 1] == old(stream.rest)[..size - remaining] + [b as Byte];
        remaining := remaining - 1;
      }
      return Err(CapacityExceeded);
    }

    /**
     * The same copy, ending with the count when the stream ends exactly as the blob
     * fills: one more read tells a finished stream from a longer one.
     */
    method WriteStreamIntended(stream: InputStream) returns (r: Result<int, BlobError>)
      requires Valid()
      modifies blob.data, blob.data.hb, stream
      ensures Valid() && blob.data.hb == old(blob.data.hb) && blob.data.limit == old(blob.data.limit)
      ensures r == StreamWriteOutcomeIntended(|old(stream.rest)|, old(Room()))
      ensures Written() == old(Written()) + old(stream.rest)[..Min(|old(stream.rest)|, old(Room()))]
    {
      var data := blob.data;
      var remaining := data.Remaining();
      var size := remaining;
      while remaining > 0
        invariant 0 <= remaining <= size == old(Room())
        invariant size - remaining <= |old(stream.rest)|
        invariant data.Valid() && data.hb == old(data.hb) && data.limit == old(data.limit)
        invariant data.Remaining() == remaining
        invariant stream.rest == old(stream.rest)[size - remaining..]
        invariant data.Written() == old(data.Written()) + old(stream.rest)[..size - remaining]
      {
        var b := stream.Read();
        if b == -1 {
          return Ok(size - remaining);
        }
        var ok := data.Put(b as Byte);
        assert old(stream.rest)[..size - remaining + 1] == old(stream.rest)[..size - remaining] + [b as Byte];
        remaining := remaining - 1;
      }
      ghost var written := data.Written();
      var b := stream.Read();
      assert data.Written() == written;
      if b == -1 {
        assert |old(stream.rest)| == size;
        return Ok(size);
      }
      return Err(CapacityExceeded);
    }

    /**
     * write(InputStream, size): refused when `size` exceeds the room left; otherwise
     * copies up to `size` bytes, stopping early at the end of the stream.
     */
    method WriteStreamSized(stream: InputStream, size: int) returns (r: Result<int, BlobError>)
      requires Valid()
      modifies blob.data, blob.data.hb, stream
      ensures Valid() && blob.data.hb == old(blob.data.hb) && blob.data.limit == old(blob.data.limit)
      ensures r == SizedWriteOutcome(|old(stream.rest)|, old(Room()), size)
      ensures r.Ok? ==> (Written() == old(Written()) + old(stream.rest)[..r.value] &&
                         stream.rest == old(stream.rest)[r.value..])
      ensures r.Err? ==> Written() == old(Written()) && stream.rest == old(stream.rest)
    {
      var data := blob.data;
      if size > data.Remaining() {
        return Err(CapacityExceeded);
      }
      var remaining := size;
      while remaining > 0
        invariant size > 0 ==> 0 <= remaining <= size
        invariant size <= 0 ==> remaining == size
        invariant size - remaining <= |old(stream.rest)|
        invariant data.Valid() && data.hb == old(data.hb) && data.limit == old(data.limit)
        invariant size > 0 ==> data.Remaining() == old(data.Remaining()) - (size - remaining)
        invariant stream.rest == old(stream.rest)[size - remaining..]
        invariant data.Written() == old(data.Written()) + old(stream.rest)[..size - remaining]
      {
        var b := stream.Read();
        if b == -1 {
          break;
        }
        var ok := data.Put(b as Byte);
        assert old(stream.rest)[..size - remaining + 1] == old(stream.rest)[..size - remaining] + [b as Byte];
        remaining := remaining - 1;
      }
      return Ok(size - remaining);
    }

    /** close(): flipped for reading from 0, the mark set there; the size is what was written. */
    method Close()
      requires Valid()
      modifies blob.data
      ensures Valid() && blob.data.hb == old(blob.data.hb)
      ensures blob.Size() == |old(Written())| && blob.data.position == 0 && blob.data.markPos == 0
      ensures blob.Observe() == old(Written())
    {
      blob.data.Flip();
      blob.data.Mark();
    }
  }
}
