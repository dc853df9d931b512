/**
 * The read path of the HTTP handler (internal/delivery/http/handler.go):
 * the order-id rule, getOrder (cache first, then the store, back-filling the
 * cache) and the display helpers formatDate, getStatusClass and
 * getStatusText used by the order page.
 */
module Handler {
  import opened Wrappers
  import opened Domain
  import MemoryCache
  import opened OrderRepo

  // ---------------------------------------------------------------------------
  // The order-id rule

  /** The longest id the handler accepts, counted in runes. */
  const MaxUidRunes := 255

  /** The characters an id may use: ASCII letters, digits, '-' and '_'. */
  predicate IdChar(c: char) {
    'a' <= c <= 'z' || 'A' <= c <= 'Z' || '0' <= c <= '9' || c == '-' || c == '_'
  }

  /** An acceptable id: 1 to 255 runes, all of them id characters. */
  predicate ValidUid(s: string) {
    1 <= |s| <= MaxUidRunes && forall i | 0 <= i < |s| :: IdChar(s[i])
  }

  /** isValidOrderUID: refuse "" and overlong ids first, then scan the runes, stopping at the first bad one. */
  method IsValidOrderUID(s: string) returns (ok: bool)
    ensures ok <==> ValidUid(s)
    ensures s == "" || |s| > MaxUidRunes ==> !ok
  {
    if s == "" || |s| > MaxUidRunes {
      return false;
    }
    var i := 0;
    while i < |s|
      invariant 0 <= i <= |s|
      invariant forall j | 0 <= j < i :: IdChar(s[j])
    {
      if !IdChar(s[i]) {
        return false;
      }
      i := i + 1;
    }
    return true;
  }

  /** An accepted id is plain ASCII, so its byte length is its rune count. */
  lemma ValidUidByteLen(s: string)
    requires ValidUid(s)
    ensures ByteLen(s) == |s|
  {
    assert forall i | 0 <= i < |s| :: s[i] as int < 0x80 by {
      forall i | 0 <= i < |s|
        ensures s[i] as int < 0x80
      {
        assert IdChar(s[i]);
      }
    }
  }

  /**
   * The handler lets ids of 101 to 255 runes through, but the store refuses
   * every id over 100 bytes before reading it.
   */
  lemma LongValidUidRefused(t: Tables, s: string, fault: Option<ReadStep>)
    requires ValidUid(s) && |s| > MaxOrderUidBytes
    ensures ReadOrder(t, s, fault) == Err(InvalidUid)
  {
    ValidUidByteLen(s);
  }

  // ---------------------------------------------------------------------------
  // getOrder

  /**
   * The entries a Get at `now` leaves behind when it misses: an expired
   * entry for `uid` is deleted, anything else stays.
   */
  function AfterMiss(items: map<string, MemoryCache.CacheItem>, uid: string, now: int): map<string, MemoryCache.CacheItem> {
    if MemoryCache.LookupAt(items, uid, now).Expired? then items - {uid} else items
  }

  /**
   * What the back-filling Set does to the entries `mid` left by the miss:
   * when the cache is full it evicts one key, the one with the soonest
   * expiry when no entry has a zero expiry, and then it stores `entry`
   * under `uid`.
   */
  ghost predicate Backfilled(mid: map<string, MemoryCache.CacheItem>, items: map<string, MemoryCache.CacheItem>,
                       uid: string, entry: MemoryCache.CacheItem, maxSize: int, evicted: Option<string>)
  {
    && (evicted.Some? <==> |mid| >= maxSize)
    && (evicted.None? ==> items == mid[uid := entry])
    && (evicted.Some? ==>
          var kept := if evicted.value == "" then mid else mid - {evicted.value};
          items == kept[uid := entry])
    && (evicted.Some? && mid != map[] ==> evicted.value in mid)
    && (evicted.Some? && mid != map[] && MemoryCache.NoZeroExpiry(mid) ==> MemoryCache.Soonest(mid, evicted.value))
  }

  /**
   * getOrder: a live cache entry is returned as is; otherwise the order is
   * read from the store and, on success, cached with the default TTL and
   * returned. Every store error, not only "no rows", yields the zero order
   * and false, and nothing is cached for it. `evicted` is the key the
   * back-filling Set chose to evict, if it had to.
   */
  method GetOrder(uid: string, cache: MemoryCache.OrderCache, db: Db, fault: Option<ReadStep>, now: int)
    returns (order: Order, found: bool, ghost evicted: Option<string>)
    requires cache.Valid() && db.Valid()
    modifies cache`items, cache`stats
    ensures cache.Valid()
    ensures var l := MemoryCache.LookupAt(old(cache.items), uid, now);
            l.Hit? ==>
              && found && order == l.order && evicted.None?
              && cache.items == old(cache.items)
              && cache.stats == old(cache.stats).(hits := old(cache.stats.hits) + 1)
    ensures var l := MemoryCache.LookupAt(old(cache.items), uid, now);
            !l.Hit? ==> cache.stats == old(cache.stats).(misses := old(cache.stats.misses) + 1, size := |cache.items|)
    ensures var l := MemoryCache.LookupAt(old(cache.items), uid, now);
            var r := ReadOrder(db.tables, uid, fault);
            !l.Hit? && r.Err? ==>
              && !found && order == ZeroOrder && evicted.None?
              && cache.items == AfterMiss(old(cache.items), uid, now)
    ensures var l := MemoryCache.LookupAt(old(cache.items), uid, now);
            var r := ReadOrder(db.tables, uid, fault);
            var mid := AfterMiss(old(cache.items), uid, now);
            var entry := MemoryCache.CacheItem(order, now + cache.defaultTTL);
            !l.Hit? && r.Ok? ==>
              && found && order == r.value && order.orderUid == uid
              && Backfilled(mid, cache.items, uid, entry, cache.maxSize, evicted)
    ensures !found ==> uid !in cache.items
  {
    ghost var before := cache.items;
    var cached, ok := cache.Get(uid, now);
    if ok {
      return cached, true, None;
    }
    assert cache.items == AfterMiss(before, uid, now);
    order, found, evicted := ReadThrough(uid, cache, db, fault, now);
  }

  /** The miss path of getOrder: read the store and cache a successful read. */
  method ReadThrough(uid: string, cache: MemoryCache.OrderCache, db: Db, fault: Option<ReadStep>, now: int)
    returns (order: Order, found: bool, ghost evicted: Option<string>)
    requires cache.Valid() && db.Valid()
    modifies cache`items, cache`stats
    ensures cache.Valid()
    ensures cache.stats == old(cache.stats).(size := |cache.items|)
    ensures var r := ReadOrder(db.tables, uid, fault);
            r.Err? ==> !found && order == ZeroOrder && evicted.None? && cache.items == old(cache.items)
    ensures var r := ReadOrder(db.tables, uid, fault);
            var entry := MemoryCache.CacheItem(order, now + cache.defaultTTL);
            r.Ok? ==>
              && found && order == r.value && order.orderUid == uid
              && Backfilled(old(cache.items), cache.items, uid, entry, cache.maxSize, evicted)
  {
    var r := db.GetOrderFromDB(uid, fault);
    if r.Err? {
      return ZeroOrder, false, None;
    }
    var e := cache.Set(r.value, now);
    evicted := if e.Some? then Some(e.value) else None;
    return r.value, true, evicted;
  }

  /** After a successful getOrder, a Get at the same instant hits and returns the same order without a store read. */
  method GetOrderThenGet(uid: string, cache: MemoryCache.OrderCache, db: Db, fault: Option<ReadStep>, now: int)
    returns (order: Order, found: bool, again: Order, hit: bool)
    requires cache.Valid() && db.Valid() && cache.defaultTTL >= 0
    modifies cache`items, cache`stats
    ensures found ==> hit && again == order
    ensures !found ==> !hit && again == ZeroOrder
  {
    ghost var evicted;
    order, found, evicted := GetOrder(uid, cache, db, fault, now);
    again, hit := cache.Get(uid, now);
  }

  // ---------------------------------------------------------------------------
  // Display helpers

  /** What the page shows for a missing date. */
  const NotSpecified := "Не указана"

  /** strings.Replace(s, from, to, 1) for single characters: only the first `from` becomes `to`. */
  function ReplaceFirst(s: string, from: char, to: char): (r: string)
    ensures |r| == |s|
    ensures IndexOf(s, from) < 0 ==> r == s
    ensures IndexOf(s, from) >= 0 ==>
              var k := IndexOf(s, from);
              r[k] == to && forall i | 0 <= i < |s| && i != k :: r[i] == s[i]
  {
    if s == [] then []
    else if s[0] == from then [to] + s[1..]
    else
      var rest := ReplaceFirst(s[1..], from, to);
      assert forall i | 1 <= i < |s| :: s[1..][i - 1] == s[i];
      [s[0]] + rest
  }

  /** formatDate: the placeholder for "", otherwise the first 'T' becomes a space. */
  function FormatDate(s: string): (r: string)
    ensures s == "" ==> r == NotSpecified
    ensures s != "" ==> |r| == |s|
    ensures s != "" && IndexOf(s, 'T') < 0 ==> r == s
    ensures s != "" && IndexOf(s, 'T') >= 0 ==>
              var k := IndexOf(s, 'T');
              r[k] == ' ' && forall i | 0 <= i < |s| && i != k :: r[i] == s[i]
  {
    if s == "" then NotSpecified else ReplaceFirst(s, 'T', ' ')
  }

  /** Only the first 'T' is replaced: any later 'T' survives. */
  lemma FormatDateKeepsLaterTs(s: string, i: int)
    requires 0 <= i < |s| && s[i] == 'T' && i != IndexOf(s, 'T')
    ensures FormatDate(s)[i] == 'T'
  {
  }

  /** The status bands of the order page. */
  datatype Band = Delivered | Pending | Cancelled

  /** 200 and above is delivered, 100 to 199 pending, anything lower cancelled. */
  function BandOf(status: int): (b: Band)
    ensures b == Delivered <==> 200 <= status
    ensures b == Pending <==> 100 <= status < 200
    ensures b == Cancelled <==> status < 100
  {
    if status >= 200 then Delivered else if status >= 100 then Pending else Cancelled
  }

  /** getStatusClass. */
  function StatusClass(status: int): (c: string)
    ensures c == (match BandOf(status) case Delivered => "delivered" case Pending => "pending" case Cancelled => "cancelled")
  {
    if status >= 200 then "delivered" else if status >= 100 then "pending" else "cancelled"
  }

  /** getStatusText. */
  function StatusText(status: int): (t: string)
    ensures t == (match BandOf(status) case Delivered => "Доставлен" case Pending => "В обработке" case Cancelled => "Отменен")
  {
    if status >= 200 then "Доставлен" else if status >= 100 then "В обработке" else "Отменен"
  }

  /** The CSS class and the label always agree: two statuses share a class exactly when they share a label. */
  lemma StatusClassMatchesText(a: int, b: int)
    ensures StatusClass(a) == StatusClass(b) <==> StatusText(a) == StatusText(b)
    ensures StatusClass(a) == StatusClass(b) <==> BandOf(a) == BandOf(b)
  {
    assert "delivered" != "pending" && "delivered"[0] != "cancelled"[0] && "pending" != "cancelled";
    assert "Доставлен"[0] != "В обработке"[0] && "Доставлен" != "Отменен" && "В обработке" != "Отменен";
  }
}
