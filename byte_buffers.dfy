/**
 * The part of java.nio.ByteBuffer that the encoder and the volatile blob rely on:
 * a backing array with a position, a limit and a mark, and relative puts that
 * either transfer everything or throw BufferOverflowException (reported here as
 * `ok == false`) without transferring anything.
 */
module ByteBuffers {
  import opened JavaInts

  /** 256 to the power `w`. */
  function Pow256(w: nat): (r: nat)
    ensures r >= 1
  {
    if w == 0 then 1 else 256 * Pow256(w - 1)
  }

  /**
   * The `w` bytes that putShort (w = 2), putInt (w = 4) and putLong (w = 8) write for a
   * value whose bit pattern is `n`: most significant byte first, the default byte order.
   */
  function BigEndian(n: int, w: nat): (r: seq<Byte>)
    ensures |r| == w
    decreases w
  {
    if w == 0 then [] else BigEndian(n / 256, w - 1) + [LowByte(n)]
  }

  /** The unsigned number that a big-endian byte sequence spells. */
  function FromBigEndian(s: seq<Byte>): nat
  {
    if s == [] then 0 else FromBigEndian(s[..|s| - 1]) * 256 + s[|s| - 1] as int
  }

  lemma {:induction false} FromBigEndianBound(s: seq<Byte>)
    ensures FromBigEndian(s) < Pow256(|s|)
  {
    if s != [] {
      FromBigEndianBound(s[..|s| - 1]);
    }
  }

  /** Writing a value in `w` big-endian bytes and reading them back gives the value. */
  lemma {:induction false} BigEndianRoundTrip(n: int, w: nat)
    requires 0 <= n < Pow256(w)
    ensures FromBigEndian(BigEndian(n, w)) == n
  {
    if w > 0 {
      BigEndianRoundTrip(n / 256, w - 1);
      var r := BigEndian(n, w);
      assert r[..w - 1] == BigEndian(n / 256, w - 1);
    }
  }

  class ByteBuffer {
    /** The backing array; its length is the capacity. */
    var hb: array<Byte>
    var position: nat
    var limit: nat
    /** The mark, -1 when undefined. */
    var markPos: int

    ghost predicate Valid()
      reads this
    {
      -1 <= markPos <= position <= limit <= hb.Length
    }

    function Capacity(): nat
      reads this
    {
      hb.Length
    }

    function Remaining(): nat
      reads this
      requires Valid()
    {
      limit - position
    }

    /** The bytes before the position: what a writer has put so far. */
    function Written(): seq<Byte>
      reads this, hb
      requires Valid()
    {
      hb[..position]
    }

    /** The bytes between position and limit: what a reader would get. */
    function Readable(): seq<Byte>
      reads this, hb
      requires Valid()
    {
      hb[position..limit]
    }

    /** ByteBuffer.allocate: a zero-filled buffer, position 0, limit at capacity. */
    constructor Allocate(capacity: nat)
      ensures Valid() && fresh(hb)
      ensures hb[..] == seq(capacity, _ => 0 as Byte)
      ensures position == 0 && limit == capacity && markPos == -1
    {
      hb := new Byte[capacity](_ => 0);
      position, limit, markPos := 0, capacity, -1;
    }

    /** ByteBuffer.wrap: a buffer backed by (and sharing) the given array. */
    constructor Wrap(a: array<Byte>)
      ensures Valid() && hb == a
      ensures position == 0 && limit == a.Length && markPos == -1
    {
      hb := a;
      position, limit, markPos := 0, a.Length, -1;
    }

    /** Relative put of one byte. */
    method Put(b: Byte) returns (ok: bool)
      requires Valid()
      modifies this, hb
      ensures Valid() && hb == old(hb) && limit == old(limit) && markPos == old(markPos)
      ensures ok <==> old(position) < old(limit)
      ensures ok ==> position == old(position) + 1 && hb[..] == old(hb[..])[old(position) := b]
      ensures !ok ==> position == old(position) && hb[..] == old(hb[..])
      ensures Written() == if ok then old(Written()) + [b] else old(Written())
    {
      ok := position < limit;
      if ok {
        hb[position] := b;
        position := position + 1;
      }
    }

    /** Relative bulk put of a byte array (also putShort, putInt and putLong on their bytes). */
    method PutBytes(s: seq<Byte>) returns (ok: bool)
      requires Valid()
      modifies this, hb
      ensures Valid() && hb == old(hb) && limit == old(limit) && markPos == old(markPos)
      ensures ok <==> |s| <= old(Remaining())
      ensures ok ==> (position == old(position) + |s| &&
                      hb[..] == old(hb[..])[..old(position)] + s + old(hb[..])[old(position) + |s|..])
      ensures !ok ==> position == old(position) && hb[..] == old(hb[..])
      ensures Written() == if ok then old(Written()) + s else old(Written())
    {
      ok := |s| <= limit - position;
      if ok {
        var p := position;
        forall i | 0 <= i < |s| {
          hb[p + i] := s[i];
        }
        position := p + |s|;
        assert hb[..] == old(hb[..])[..p] + s + old(hb[..])[p + |s|..];
        assert Written() == hb[..][..position];
      }
    }

    /**
     * Relative bulk put of another buffer's remaining bytes; on success the source's
     * position moves to its limit.
     */
    method PutBuffer(src: ByteBuffer) returns (ok: bool)
      requires Valid() && src.Valid() && src != this
      modifies this, hb, src
      ensures Valid() && src.Valid() && hb == old(hb) && limit == old(limit) && markPos == old(markPos)
      ensures src.hb == old(src.hb) && src.limit == old(src.limit) && src.markPos == old(src.markPos)
      ensures ok <==> old(src.Remaining()) <= old(Remaining())
      ensures ok ==> src.position == old(src.limit) && position == old(position) + old(src.Remaining())
      ensures !ok ==> src.position == old(src.position) && position == old(position) && hb[..] == old(hb[..])
      ensures Written() == if ok then old(Written()) + old(src.Readable()) else old(Written())
      ensures hb[position..] == old(hb[..])[position..]
    {
      var s := src.hb[src.position..src.limit];
      ok := PutBytes(s);
      if ok {
        src.position := src.limit;
      }
    }

    /** ByteBuffer.flip: the written bytes become the readable ones. */
    method Flip()
      requires Valid()
      modifies this
      ensures Valid() && hb == old(hb)
      ensures limit == old(position) && position == 0 && markPos == -1
      ensures Readable() == old(Written())
    {
      limit, position, markPos := position, 0, -1;
    }

    /** ByteBuffer.clear: position 0, limit at capacity, contents untouched. */
    method Clear()
      requires Valid()
      modifies this
      ensures Valid() && hb == old(hb)
      ensures position == 0 && limit == hb.Length && markPos == -1
    {
      position, limit, markPos := 0, hb.Length, -1;
    }

    /** ByteBuffer.mark: remember the current position. */
    method Mark()
      requires Valid()
      modifies this
      ensures Valid() && hb == old(hb) && position == old(position) && limit == old(limit)
      ensures markPos == position
    {
      markPos := position;
    }

    /** ByteBuffer.position(int): a mark beyond the new position is discarded. */
    method SetPosition(p: nat)
      requires Valid() && p <= limit
      modifies this
      ensures Valid() && hb == old(hb) && limit == old(limit) && position == p
      ensures markPos == if old(markPos) > p then -1 else old(markPos)
    {
      position := p;
      if markPos > p {
        markPos := -1;
      }
    }

    /** ByteBuffer.limit(int): the position and the mark are pulled back to the new limit. */
    method SetLimit(l: nat)
      requires Valid() && l <= hb.Length
      modifies this
      ensures Valid() && hb == old(hb) && limit == l
      ensures position == if old(position) > l then l else old(position)
      ensures markPos == if old(markPos) > l then -1 else old(markPos)
    {
      limit := l;
      if position > l {
        position := l;
      }
      if markPos > l {
        markPos := -1;
      }
    }
  }
}
