/**
 * The hop-count extension block: a count incremented at every hop and a limit set
 * by the source, both Java longs.
 */
module HopCount {
  import opened JavaInts

  const HOP_COUNT_BLOCK_TYPE: int := 10

  /** getHopsToLive as written: the long subtraction `limit - count` may wrap. */
  function HopsToLiveOf(limit: Long, count: Long): (h: Long)
    ensures count >= 0 ==> h >= 0
    ensures 0 <= count <= limit ==> h == limit - count
    ensures limit < count ==> h == 0
  {
    if limit < count then 0 else WrapLong(limit - count)
  }

  /**
   * As written, a negative count (a hop count read from a CBOR unsigned integer at
   * or above 2^63) can make the hops to live negative: the subtraction wraps.
   */
  lemma HopsToLiveWraps()
    ensures HopsToLiveOf(LONG_MAX, -1) == LONG_MIN
  {
  }

  /** The hops left, never negative: the difference saturates at the largest long. */
  function HopsToLiveIntended(limit: Long, count: Long): (h: Long)
    ensures h >= 0
    ensures limit < count ==> h == 0
    ensures count <= limit && limit - count <= LONG_MAX ==> h == limit - count
  {
    if limit < count then 0 else if limit - count > LONG_MAX then LONG_MAX else limit - count
  }

  /** The two agree whenever the count is not negative. */
  lemma HopsToLiveAgree(limit: Long, count: Long)
    requires count >= 0
    ensures HopsToLiveOf(limit, count) == HopsToLiveIntended(limit, count)
  {
  }

  class HopCountBlock {
    var count: Long
    var limit: Long

    /** A new block has count 0 and limit 0, so no hop left. */
    constructor()
      ensures count == 0 && limit == 0 && HopsToLive() == 0
    {
      count, limit := 0, 0;
    }

    /**
     * getHopsToLive, on the corrected difference: never negative, 0 once the count
     * passes the limit, and the long difference limit - count otherwise; for a count
     * that is not negative this is the value the wrapping subtraction gives.
     */
    function HopsToLive(): (h: Long)
      reads this
      ensures h >= 0
      ensures limit < count ==> h == 0
      ensures 0 <= count <= limit ==> h == limit - count
      ensures count >= 0 ==> h == HopsToLiveOf(limit, count)
    {
      HopsToLiveIntended(limit, count)
    }

    /** increment(hops): `count += hops` on longs. */
    method Increment(hops: Long)
      modifies this
      ensures count == WrapLong(old(count) + hops) && limit == old(limit)
    {
      count := WrapLong(count + hops);
    }

    /** setLimit(hops): a fresh limit, the count back at zero. */
    method SetLimit(hops: Long)
      modifies this
      ensures count == 0 && limit == hops
      ensures hops >= 0 ==> HopsToLive() == hops
    {
      count := 0;
      limit := hops;
    }
  }

  /** One hop less to live after each hop, until none is left. */
  lemma IncrementOneHop(limit: Long, count: Long)
    requires 0 <= count < LONG_MAX
    ensures HopsToLiveIntended(limit, count + 1) == if HopsToLiveIntended(limit, count) == 0 then 0 else HopsToLiveIntended(limit, count) - 1
  {
  }
}
