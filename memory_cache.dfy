/**
 * The TTL- and capacity-bounded order cache (internal/repository/cache/memory_cache.go).
 *
 * Wall-clock time is the explicit parameter `now`, an instant in nanoseconds;
 * durations are nanoseconds too, as Go's time.Duration is. Go's randomised
 * map iteration order is a nondeterministic choice of the next key.
 */
module MemoryCache {
  import opened Domain

  const Minute: int := 60_000_000_000

  /** Values set by NewOrderCache. */
  const InitialTTL: int := 20 * Minute
  const InitialMaxSize: int := 1000

  /** Go's zero time.Time, which evictOldest uses to mean "no entry seen yet". */
  const ZeroInstant: int := 0

  datatype CacheItem = CacheItem(order: Order, expiresAt: int)

  datatype CacheStats = CacheStats(hits: int, misses: int, size: int)

  // ---------------------------------------------------------------------------
  // Specification functions over the entry map

  /** What Get finds for `uid` at `now`. */
  datatype Lookup = Hit(order: Order) | Absent | Expired

  function LookupAt(items: map<string, CacheItem>, uid: string, now: int): (l: Lookup)
    ensures l.Hit? <==> uid in items && now <= items[uid].expiresAt
    ensures l.Hit? ==> l.order == items[uid].order
    ensures l.Absent? <==> uid !in items
  {
    if uid !in items then Absent
    else if now > items[uid].expiresAt then Expired
    else Hit(items[uid].order)
  }

  /** The entries GetAll reports at `now`: those whose expiry is strictly later. */
  function Live(items: map<string, CacheItem>, now: int): (m: map<string, Order>)
    ensures forall k :: k in m <==> k in items && now < items[k].expiresAt
    ensures forall k | k in m :: m[k] == items[k].order
  {
    map k | k in items && now < items[k].expiresAt :: items[k].order
  }

  /** The entries a sweep at `now` keeps: those not yet past their expiry. */
  function Swept(items: map<string, CacheItem>, now: int): (m: map<string, CacheItem>)
    ensures forall k :: k in m <==> k in items && now <= items[k].expiresAt
    ensures forall k | k in m :: m[k] == items[k]
  {
    map k | k in items && now <= items[k].expiresAt :: items[k]
  }

  /** `k` holds an earliest expiry among the entries. */
  ghost predicate Soonest(items: map<string, CacheItem>, k: string) {
    k in items && forall k' | k' in items :: items[k].expiresAt <= items[k'].expiresAt
  }

  /** No entry expires at the instant evictOldest reads as "nothing seen yet". */
  predicate NoZeroExpiry(items: map<string, CacheItem>) {
    forall k | k in items :: items[k].expiresAt != ZeroInstant
  }

  // ---------------------------------------------------------------------------
  // Lemmas relating the operations

  /**
   * Get and GetAll disagree exactly at the expiry instant: at `now ==
   * expiresAt` Get reports a hit (it expires only when `now > expiresAt`)
   * while GetAll omits the entry (it keeps only `now < expiresAt`).
   */
  lemma GetAndGetAllDisagreeAtExpiry(items: map<string, CacheItem>, uid: string, now: int)
    ensures (LookupAt(items, uid, now).Hit? && uid !in Live(items, now))
            <==> (uid in items && now == items[uid].expiresAt)
    ensures uid in Live(items, now) ==> LookupAt(items, uid, now) == Hit(Live(items, now)[uid])
  {
  }

  /** An entry written at `now` with `ttl` is a hit up to `now + ttl` inclusive and expired after. */
  lemma TtlExpiry(items: map<string, CacheItem>, o: Order, now: int, ttl: int, t: int)
    requires o.orderUid in items && items[o.orderUid] == CacheItem(o, now + ttl)
    ensures t <= now + ttl ==> LookupAt(items, o.orderUid, t) == Hit(o)
    ensures t > now + ttl ==> LookupAt(items, o.orderUid, t) == Expired
  {
  }

  /**
   * A sweep only removes what is already expired: for any later read, Get
   * reports the same hits and GetAll the same snapshot as without the sweep.
   */
  lemma SweepNeverRevivesOrHides(items: map<string, CacheItem>, swept: int, now: int, uid: string)
    requires swept <= now
    ensures LookupAt(Swept(items, swept), uid, now).Hit? <==> LookupAt(items, uid, now).Hit?
    ensures LookupAt(items, uid, now).Hit? ==> LookupAt(Swept(items, swept), uid, now) == LookupAt(items, uid, now)
    ensures Live(Swept(items, swept), now) == Live(items, now)
  {
    var a := Live(Swept(items, swept), now);
    var b := Live(items, now);
    assert forall k :: k in a <==> k in b;
    assert forall k | k in a :: a[k] == b[k];
  }

  /** Sweeping twice at the same instant removes nothing more. */
  lemma SweepIdempotent(items: map<string, CacheItem>, now: int)
    ensures Swept(Swept(items, now), now) == Swept(items, now)
  {
    var a := Swept(Swept(items, now), now);
    assert forall k :: k in a <==> k in Swept(items, now);
  }

  // ---------------------------------------------------------------------------
  // The cache object

  /**
   * What a Set does to the entries, whichever victim it evicts: `uid` holds
   * `item`, every other remaining entry is unchanged, at most one entry is
   * added, and below capacity nothing is lost.
   */
  predicate SetEffect(prev: map<string, CacheItem>, next: map<string, CacheItem>, uid: string, item: CacheItem,
                      maxSize: int)
  {
    && uid in next && next[uid] == item
    && (forall k | k in next && k != uid :: k in prev && next[k] == prev[k])
    && |next| <= |prev| + 1
    && (|prev| < maxSize ==> prev.Keys <= next.Keys)
  }

  class OrderCache {
    var items: map<string, CacheItem>
    var defaultTTL: int
    var maxSize: int
    var stats: CacheStats

    /** The statistics agree with the map after every public operation. */
    ghost predicate Valid()
      reads this
    {
      stats.size == |items| && stats.hits >= 0 && stats.misses >= 0
    }

    /** NewOrderCache, without the background sweeper it starts (see Sweep). */
    constructor ()
      ensures Valid()
      ensures items == map[] && stats == CacheStats(0, 0, 0)
      ensures defaultTTL == InitialTTL && maxSize == InitialMaxSize
    {
      items := map[];
      defaultTTL := InitialTTL;
      maxSize := InitialMaxSize;
      stats := CacheStats(0, 0, 0);
    }

    method SetMaxSize(size: int)
      modifies this`maxSize
      ensures maxSize == size
    {
      maxSize := size;
    }

    method SetDefaultTTL(ttl: int)
      modifies this`defaultTTL
      ensures defaultTTL == ttl
    {
      defaultTTL := ttl;
    }

    /**
     * evictOldest: scan every entry, keep the first one met whose expiry is
     * strictly before the best so far (or any entry while the best is still
     * the zero instant), then delete it unless its key is "". The chosen key
     * is returned as ghost so that callers can speak of it.
     */
    method EvictOldest() returns (ghost chosen: string)
      modifies this`items
      ensures old(items) == map[] ==> chosen == ""
      ensures old(items) != map[] ==> chosen in old(items)
      ensures old(items) != map[] && NoZeroExpiry(old(items)) ==> Soonest(old(items), chosen)
      ensures items == if chosen == "" then old(items) else old(items) - {chosen}
    {
      var all := items;
      var oldestUid := "";
      var oldestTime := ZeroInstant;
      var pending := all.Keys;
      while pending != {}
        invariant pending <= all.Keys
        invariant pending == all.Keys ==> oldestUid == "" && oldestTime == ZeroInstant
        invariant pending != all.Keys ==> oldestUid in all && all[oldestUid].expiresAt == oldestTime
        invariant NoZeroExpiry(all) ==>
                    forall k | k in all && k !in pending :: oldestTime <= all[k].expiresAt
        decreases pending
      {
        var uid :| uid in pending;
        if oldestTime == ZeroInstant || all[uid].expiresAt < oldestTime {
          oldestTime := all[uid].expiresAt;
          oldestUid := uid;
        }
        pending := pending - {uid};
      }
      if oldestUid != "" {
        items := all - {oldestUid};
      }
      chosen := oldestUid;
    }

    /**
     * SetWithTTL: when the map already holds `maxSize` or more entries, one
     * eviction attempt is made first; then the entry for the order's uid is
     * written with expiry `now + ttl` and the size statistic refreshed.
     * `evicted` is the key the eviction attempt chose, if one was made.
     */
    method SetWithTTL(order: Order, ttl: int, now: int) returns (ghost evicted: Wrappers.Option<string>)
      requires Valid()
      modifies this`items, this`stats
      ensures Valid()
      ensures evicted.Some? <==> |old(items)| >= maxSize
      ensures order.orderUid in items && items[order.orderUid] == CacheItem(order, now + ttl)
      ensures evicted.None? ==> items == old(items)[order.orderUid := CacheItem(order, now + ttl)]
      ensures evicted.Some? ==>
                var kept := if evicted.value == "" then old(items) else old(items) - {evicted.value};
                items == kept[order.orderUid := CacheItem(order, now + ttl)]
      ensures evicted.Some? && old(items) != map[] ==> evicted.value in old(items)
      ensures evicted.Some? && old(items) != map[] && NoZeroExpiry(old(items)) ==>
                Soonest(old(items), evicted.value)
      ensures stats == old(stats).(size := |items|)
      ensures |items| <= |old(items)| + 1
      ensures evicted.Some? && evicted.value != "" && old(items) != map[] ==> |items| <= |old(items)|
      ensures SetEffect(old(items), items, order.orderUid, CacheItem(order, now + ttl), maxSize)
    {
      evicted := Wrappers.None;
      if |items| >= maxSize {
        var chosen := EvictOldest();
        evicted := Wrappers.Some(chosen);
      }
      items := items[order.orderUid := CacheItem(order, now + ttl)];
      stats := stats.(size := |items|);
    }

    /** Set: SetWithTTL with the default TTL. */
    method Set(order: Order, now: int) returns (ghost evicted: Wrappers.Option<string>)
      requires Valid()
      modifies this`items, this`stats
      ensures Valid()
      ensures evicted.Some? <==> |old(items)| >= maxSize
      ensures order.orderUid in items && items[order.orderUid] == CacheItem(order, now + defaultTTL)
      ensures evicted.None? ==> items == old(items)[order.orderUid := CacheItem(order, now + defaultTTL)]
      ensures evicted.Some? ==>
                var kept := if evicted.value == "" then old(items) else old(items) - {evicted.value};
                items == kept[order.orderUid := CacheItem(order, now + defaultTTL)]
      ensures evicted.Some? && old(items) != map[] ==> evicted.value in old(items)
      ensures evicted.Some? && old(items) != map[] && NoZeroExpiry(old(items)) ==>
                Soonest(old(items), evicted.value)
      ensures stats == old(stats).(size := |items|)
      ensures SetEffect(old(items), items, order.orderUid, CacheItem(order, now + defaultTTL), maxSize)
    {
      evicted := SetWithTTL(order, defaultTTL, now);
    }

    /**
     * Get: a missing key and a key with `now > expiresAt` are misses (the
     * latter deleted as well); anything else is a hit. Each call moves
     * exactly one of the two counters.
     */
    method Get(uid: string, now: int) returns (o: Order, found: bool)
      requires Valid()
      modifies this`items, this`stats
      ensures Valid()
      ensures var l := LookupAt(old(items), uid, now);
              && (found <==> l.Hit?)
              && (l.Hit? ==> o == l.order && items == old(items))
              && (l.Absent? ==> o == ZeroOrder && items == old(items))
              && (l.Expired? ==> o == ZeroOrder && items == old(items) - {uid})
      ensures found ==> stats == old(stats).(hits := old(stats.hits) + 1)
      ensures !found ==> stats == old(stats).(misses := old(stats.misses) + 1, size := |items|)
      ensures stats.hits + stats.misses == old(stats.hits + stats.misses) + 1
    {
      if uid !in items {
        stats := stats.(misses := stats.misses + 1);
        return ZeroOrder, false;
      }
      var item := items[uid];
      if now > item.expiresAt {
        Delete(uid);
        stats := stats.(misses := stats.misses + 1);
        return ZeroOrder, false;
      }
      stats := stats.(hits := stats.hits + 1);
      return item.order, true;
    }

    /** GetAll: a snapshot of the entries whose expiry is strictly after `now`; nothing changes. */
    method GetAll(now: int) returns (orders: map<string, Order>)
      ensures orders == Live(items, now)
    {
      orders := map[];
      var pending := items.Keys;
      while pending != {}
        invariant pending <= items.Keys
        invariant forall k :: k in orders <==> k in items && k !in pending && now < items[k].expiresAt
        invariant forall k | k in orders :: orders[k] == items[k].order
        decreases pending
      {
        var uid :| uid in pending;
        if now < items[uid].expiresAt {
          orders := orders[uid := items[uid].order];
        }
        pending := pending - {uid};
      }
      assert forall k :: k in orders <==> k in Live(items, now);
    }

    method Delete(uid: string)
      requires Valid()
      modifies this`items, this`stats
      ensures Valid()
      ensures items == old(items) - {uid}
      ensures stats == old(stats).(size := |items|)
    {
      items := items - {uid};
      stats := stats.(size := |items|);
    }

    /** Clear: an empty map and all three statistics back to zero. */
    method Clear()
      modifies this`items, this`stats
      ensures Valid()
      ensures items == map[] && stats == CacheStats(0, 0, 0)
    {
      items := map[];
      stats := CacheStats(0, 0, 0);
    }

    method GetStats() returns (s: CacheStats)
      requires Valid()
      ensures s == stats && s.size == |items|
    {
      s := stats;
    }

    /**
     * One tick of cleanupExpired: delete every entry with `now > expiresAt`,
     * then refresh the size statistic.
     */
    method Sweep(now: int)
      requires Valid()
      modifies this`items, this`stats
      ensures Valid()
      ensures items == Swept(old(items), now)
      ensures stats == old(stats).(size := |items|)
    {
      var pending := items.Keys;
      while pending != {}
        invariant pending <= old(items).Keys
        invariant items.Keys <= old(items).Keys
        invariant forall k :: k in items <==>
                    k in old(items) && (k in pending || now <= old(items)[k].expiresAt)
        invariant forall k | k in items :: items[k] == old(items)[k]
        invariant stats == old(stats)
        decreases pending
      {
        var uid :| uid in pending;
        if now > items[uid].expiresAt {
          items := items - {uid};
        }
        pending := pending - {uid};
      }
      assert forall k :: k in items <==> k in Swept(old(items), now);
      stats := stats.(size := |items|);
    }
  }
}
