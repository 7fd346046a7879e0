/**
 * The single-slot cache of the category listing: one snapshot and the clock
 * reading at which it was stored. A read returns the snapshot while it is
 * younger than ten minutes and there is one; otherwise it misses. Storing
 * overwrites both fields, clearing empties both. The clock (`Date.now()`, in
 * milliseconds) is a parameter.
 */
module Cache {
  import opened Values
  import Aggregation

  /** What the cache holds: the listing as served. */
  type Snapshot = seq<Aggregation.CategoryView>

  /** Ten minutes, in milliseconds. */
  const CacheDuration: int := 10 * 60 * 1000

  /**
   * `getCache()` on the two variables at clock `now`. A stored list, even an
   * empty one, is truthy; a stamp of 0 is falsy and reads as a miss.
   */
  function Read(data: Option<Snapshot>, stamp: Option<int>, now: int): (r: Option<Snapshot>)
    ensures r.Some? ==> r == data
    ensures r.Some? <==> data.Some? && stamp.Some? && stamp.value != 0 && now - stamp.value < CacheDuration
  {
    if data.Some? && stamp.Some? && stamp.value != 0 && now - stamp.value < CacheDuration then data else None
  }

  class CategoriesCache {
    /** `categoriesCache`: the stored listing, or null. */
    var data: Option<Snapshot>
    /** `cacheTimestamp`: the clock reading when it was stored, or null. */
    var stamp: Option<int>

    /** At start-up both variables are null. */
    constructor ()
      ensures data == None && stamp == None
      ensures forall now :: Get(now) == None
    {
      data := None;
      stamp := None;
    }

    /** `getCache()` at clock `now`. */
    function Get(now: int): (r: Option<Snapshot>)
      reads this
    {
      Read(data, stamp, now)
    }

    /**
     * `clearCache()`: both variables null, so every read misses until the
     * next store. The new state does not depend on the old one, so clearing
     * twice is clearing once.
     */
    method Clear()
      modifies this
      ensures data == None && stamp == None
      ensures forall now :: Get(now) == None
    {
      data := None;
      stamp := None;
    }

    /**
     * `setCache(snapshot)` at clock `now`: a read at `later` returns exactly
     * `snapshot` (also when it is the empty list) while fewer than ten minutes
     * have passed, and misses from ten minutes on. A store at clock reading 0
     * is never read back.
     */
    method Set(snapshot: Snapshot, now: int)
      modifies this
      ensures data == Some(snapshot) && stamp == Some(now)
      ensures forall later :: now != 0 && later - now < CacheDuration ==> Get(later) == Some(snapshot)
      ensures forall later :: later - now >= CacheDuration ==> Get(later) == None
      ensures now == 0 ==> forall later :: Get(later) == None
    {
      data := Some(snapshot);
      stamp := Some(now);
    }
  }
}
