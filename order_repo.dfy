/**
 * The persistence gateway (internal/repository/postgres/order_repo.go) over
 * an abstract store.
 *
 * The four tables are values of `Tables`; a header row is keyed by order uid,
 * the delivery, payment and item tables are sequences of rows in insertion
 * order. SQL execution is an oracle: the caller names the one statement that
 * the database rejects, if any (`fault`), and every statement before it
 * succeeds. A transaction works on a copy of the tables that replaces them only
 * at Commit, so leaving early is the deferred Rollback.
 */
module OrderRepo {
  import opened Wrappers
  import opened Domain
  import MemoryCache

  datatype Header = Header(orderUid: string, trackNumber: string, entry: string, locale: string,
                           internalSignature: string, customerId: string, deliveryService: string,
                           shardkey: string, smId: int, dateCreated: string, oofShard: string)

  datatype DeliveryRow = DeliveryRow(orderUid: string, delivery: Delivery)
  datatype PaymentRow = PaymentRow(orderUid: string, payment: Payment)
  datatype ItemRow = ItemRow(orderUid: string, item: Item)

  datatype Tables = Tables(orders: map<string, Header>, deliveries: seq<DeliveryRow>,
                           payments: seq<PaymentRow>, items: seq<ItemRow>)

  /** Every header row sits under its own uid (order_uid is the primary key). */
  predicate HeadersKeyed(t: Tables) {
    forall k | k in t.orders :: t.orders[k].orderUid == k
  }

  /** The columns of the `orders` row for `o`. */
  function HeaderOf(o: Order): Header {
    Header(o.orderUid, o.trackNumber, o.entry, o.locale, o.internalSignature, o.customerId,
           o.deliveryService, o.shardkey, o.smId, o.dateCreated, o.oofShard)
  }

  /** The order the four reads put together. */
  function AssembleOrder(h: Header, d: Delivery, p: Payment, items: seq<Item>): Order {
    Order(h.orderUid, h.trackNumber, h.entry, d, p, items, h.locale, h.internalSignature,
          h.customerId, h.deliveryService, h.shardkey, h.smId, h.dateCreated, h.oofShard)
  }

  /** One `items` row per element of `items`, in order. */
  function ItemRowsOf(uid: string, items: seq<Item>): (rows: seq<ItemRow>)
    ensures |rows| == |items|
    ensures forall i | 0 <= i < |items| :: rows[i] == ItemRow(uid, items[i])
  {
    seq(|items|, i requires 0 <= i < |items| => ItemRow(uid, items[i]))
  }

  // ---------------------------------------------------------------------------
  // SaveOrderTx

  /** The statements of the save transaction, in the order they run. */
  datatype TxStep = BeginTx | InsertHeader | InsertDelivery | InsertPayment | InsertItem(index: nat) | CommitTx

  datatype SaveError = ValidationFailed(cause: OrderError) | StatementFailed(step: TxStep)

  /** Whether the transaction for `o` runs statement `s` at all. */
  predicate Runs(o: Order, s: TxStep) {
    match s
    case InsertItem(i) => i < |o.items|
    case _ => true
  }

  /** What SaveOrderTx returns: validation first, then the first statement that fails. */
  function SaveResult(o: Order, dateOk: DateParser, fault: Option<TxStep>): Outcome<SaveError> {
    match ValidateOrder(o, dateOk)
    case Fail(e) => Fail(ValidationFailed(e))
    case Pass => if fault.Some? && Runs(o, fault.value) then Fail(StatementFailed(fault.value)) else Pass
  }

  /** The tables after a committed save of `o`: the header only if its uid is new, then one delivery row, one payment row and the item rows. */
  function Committed(t: Tables, o: Order): Tables {
    Tables(if o.orderUid in t.orders then t.orders else t.orders[o.orderUid := HeaderOf(o)],
           t.deliveries + [DeliveryRow(o.orderUid, o.delivery)],
           t.payments + [PaymentRow(o.orderUid, o.payment)],
           t.items + ItemRowsOf(o.orderUid, o.items))
  }

  // ---------------------------------------------------------------------------
  // GetOrderFromDB

  /** The reads of GetOrderFromDB, in the order they run. */
  datatype ReadStep = BeginRead | ScanHeader | ScanDelivery | ScanPayment | QueryItems | ScanItem(index: nat) | CommitRead

  datatype ReadError = InvalidUid | NoRows | ReadFailed(step: ReadStep)

  /** The first delivery row of `uid` (what QueryRow scans). */
  function FirstDelivery(rows: seq<DeliveryRow>, uid: string): (d: Option<Delivery>)
    ensures d.None? <==> forall i | 0 <= i < |rows| :: rows[i].orderUid != uid
    ensures d.Some? ==> exists i | 0 <= i < |rows| :: rows[i] == DeliveryRow(uid, d.value) &&
                          forall j | 0 <= j < i :: rows[j].orderUid != uid
  {
    if rows == [] then None
    else if rows[0].orderUid == uid then Some(rows[0].delivery)
    else
      var d := FirstDelivery(rows[1..], uid);
      assert forall i | 1 <= i < |rows| :: rows[1..][i - 1] == rows[i];
      d
  }

  /** The first payment row of `uid`. */
  function FirstPayment(rows: seq<PaymentRow>, uid: string): (p: Option<Payment>)
    ensures p.None? <==> forall i | 0 <= i < |rows| :: rows[i].orderUid != uid
    ensures p.Some? ==> exists i | 0 <= i < |rows| :: rows[i] == PaymentRow(uid, p.value) &&
                          forall j | 0 <= j < i :: rows[j].orderUid != uid
  {
    if rows == [] then None
    else if rows[0].orderUid == uid then Some(rows[0].payment)
    else
      var p := FirstPayment(rows[1..], uid);
      assert forall i | 1 <= i < |rows| :: rows[1..][i - 1] == rows[i];
      p
  }

  /** The items of `uid`, in row order (what the items query yields). */
  function ItemsFor(rows: seq<ItemRow>, uid: string): (items: seq<Item>)
    ensures |items| <= |rows|
  {
    if rows == [] then []
    else if rows[|rows| - 1].orderUid == uid then ItemsFor(rows[..|rows| - 1], uid) + [rows[|rows| - 1].item]
    else ItemsFor(rows[..|rows| - 1], uid)
  }

  /** What GetOrderFromDB returns for `uid` against tables `t` when read `fault` fails. */
  function ReadOrder(t: Tables, uid: string, fault: Option<ReadStep>): (r: Result<Order, ReadError>)
    ensures uid == "" || ByteLen(uid) > MaxOrderUidBytes ==> r == Err(InvalidUid)
    ensures r.Ok? ==> uid in t.orders && r.value.orderUid == t.orders[uid].orderUid
    ensures r.Ok? ==> r.value.items == ItemsFor(t.items, uid)
  {
    if uid == "" || ByteLen(uid) > MaxOrderUidBytes then Err(InvalidUid)
    else if fault == Some(BeginRead) then Err(ReadFailed(BeginRead))
    else if fault == Some(ScanHeader) then Err(ReadFailed(ScanHeader))
    else if uid !in t.orders then Err(NoRows)
    else if fault == Some(ScanDelivery) then Err(ReadFailed(ScanDelivery))
    else if FirstDelivery(t.deliveries, uid).None? then Err(NoRows)
    else if fault == Some(ScanPayment) then Err(ReadFailed(ScanPayment))
    else if FirstPayment(t.payments, uid).None? then Err(NoRows)
    else if fault == Some(QueryItems) then Err(ReadFailed(QueryItems))
    else
      var items := ItemsFor(t.items, uid);
      if fault.Some? && fault.value.ScanItem? && fault.value.index < |items| then Err(ReadFailed(fault.value))
      else if fault == Some(CommitRead) then Err(ReadFailed(CommitRead))
      else Ok(AssembleOrder(t.orders[uid], FirstDelivery(t.deliveries, uid).value,
                            FirstPayment(t.payments, uid).value, items))
  }

  // ---------------------------------------------------------------------------
  // Lemmas about the store

  lemma {:induction false} ItemsForAppend(a: seq<ItemRow>, b: seq<ItemRow>, uid: string)
    ensures ItemsFor(a + b, uid) == ItemsFor(a, uid) + ItemsFor(b, uid)
    decreases |b|
  {
    if b != [] {
      var b' := b[..|b| - 1];
      assert (a + b)[..|a + b| - 1] == a + b';
      ItemsForAppend(a, b', uid);
    } else {
      assert a + b == a;
    }
  }

  lemma {:induction false} ItemsForOwnRows(uid: string, items: seq<Item>)
    ensures ItemsFor(ItemRowsOf(uid, items), uid) == items
  {
    if items != [] {
      var init := items[..|items| - 1];
      assert ItemRowsOf(uid, items)[..|items| - 1] == ItemRowsOf(uid, init);
      ItemsForOwnRows(uid, init);
      assert items == init + [items[|items| - 1]];
    }
  }

  lemma {:induction false} ItemsForNone(rows: seq<ItemRow>, uid: string)
    requires forall i | 0 <= i < |rows| :: rows[i].orderUid != uid
    ensures ItemsFor(rows, uid) == []
  {
    if rows != [] {
      ItemsForNone(rows[..|rows| - 1], uid);
    }
  }

  /** Nothing in `t` belongs to `uid` yet. */
  predicate Fresh(t: Tables, uid: string) {
    && uid !in t.orders
    && (forall i | 0 <= i < |t.deliveries| :: t.deliveries[i].orderUid != uid)
    && (forall i | 0 <= i < |t.payments| :: t.payments[i].orderUid != uid)
    && (forall i | 0 <= i < |t.items| :: t.items[i].orderUid != uid)
  }

  /**
   * Round trip: after a committed save of a valid order whose uid the store
   * has not seen, reading that uid without a fault returns the order itself.
   */
  lemma ReadAfterSave(t: Tables, o: Order, dateOk: DateParser)
    requires ValidateOrder(o, dateOk).Pass?
    requires Fresh(t, o.orderUid)
    ensures ReadOrder(Committed(t, o), o.orderUid, None) == Ok(o)
  {
    ValidOrderShape(o, dateOk);
    ReadCommittedFresh(t, o);
  }

  /** The read half of ReadAfterSave: any order with an acceptable uid reads back as saved. */
  lemma ReadCommittedFresh(t: Tables, o: Order)
    requires o.orderUid != "" && ByteLen(o.orderUid) <= MaxOrderUidBytes
    requires Fresh(t, o.orderUid)
    ensures ReadOrder(Committed(t, o), o.orderUid, None) == Ok(o)
  {
    var uid := o.orderUid;
    var c := Committed(t, o);
    FirstDeliveryAfterFresh(t.deliveries, uid, o.delivery);
    FirstPaymentAfterFresh(t.payments, uid, o.payment);
    ItemsForAfterFresh(t.items, uid, o.items);
    assert c.orders[uid] == HeaderOf(o);
    assert AssembleOrder(HeaderOf(o), o.delivery, o.payment, o.items) == o;
  }

  lemma FirstDeliveryAfterFresh(rows: seq<DeliveryRow>, uid: string, d: Delivery)
    requires forall i | 0 <= i < |rows| :: rows[i].orderUid != uid
    ensures FirstDelivery(rows + [DeliveryRow(uid, d)], uid) == Some(d)
  {
    var rows' := rows + [DeliveryRow(uid, d)];
    assert rows'[|rows|] == DeliveryRow(uid, d);
  }

  lemma FirstPaymentAfterFresh(rows: seq<PaymentRow>, uid: string, p: Payment)
    requires forall i | 0 <= i < |rows| :: rows[i].orderUid != uid
    ensures FirstPayment(rows + [PaymentRow(uid, p)], uid) == Some(p)
  {
    var rows' := rows + [PaymentRow(uid, p)];
    assert rows'[|rows|] == PaymentRow(uid, p);
  }

  lemma ItemsForAfterFresh(rows: seq<ItemRow>, uid: string, items: seq<Item>)
    requires forall i | 0 <= i < |rows| :: rows[i].orderUid != uid
    ensures ItemsFor(rows + ItemRowsOf(uid, items), uid) == items
  {
    ItemsForAppend(rows, ItemRowsOf(uid, items), uid);
    ItemsForNone(rows, uid);
    ItemsForOwnRows(uid, items);
  }

  /**
   * Saving the same order twice keeps exactly the first header row
   * (ON CONFLICT DO NOTHING), while the delivery, payment and item rows are
   * written a second time: the items read back twice over.
   */
  lemma ResaveKeepsHeaderDuplicatesItems(t: Tables, o: Order)
    requires Fresh(t, o.orderUid)
    ensures var once := Committed(t, o);
            var twice := Committed(once, o);
            && twice.orders == once.orders
            && once.orders == t.orders[o.orderUid := HeaderOf(o)]
            && |twice.deliveries| == |t.deliveries| + 2
            && ItemsFor(twice.items, o.orderUid) == o.items + o.items
  {
    var uid := o.orderUid;
    var once := Committed(t, o);
    ItemsForAppend(t.items, ItemRowsOf(uid, o.items), uid);
    ItemsForAppend(once.items, ItemRowsOf(uid, o.items), uid);
    ItemsForNone(t.items, uid);
    ItemsForOwnRows(uid, o.items);
  }

  /**
   * The header insert never fails on a uid already stored: a valid order
   * saved without a failing statement commits whether or not its uid has a
   * header, and a stored header is kept as it was, not overwritten.
   */
  lemma SaveKeepsStoredHeader(t: Tables, o: Order, dateOk: DateParser)
    requires ValidateOrder(o, dateOk).Pass?
    ensures SaveResult(o, dateOk, None) == Pass
    ensures o.orderUid in t.orders ==> Committed(t, o).orders == t.orders
    ensures o.orderUid !in t.orders ==> Committed(t, o).orders == t.orders[o.orderUid := HeaderOf(o)]
    ensures o.orderUid in Committed(t, o).orders
  {
  }

  /** The read step that fails for `uid`, if any. */
  function FaultOf(readFaults: map<string, ReadStep>, uid: string): Option<ReadStep> {
    if uid in readFaults then Some(readFaults[uid]) else None
  }

  /** Every entry of `after` that is new or different from `before` holds the order read for its key, expiring at `expires`. */
  ghost predicate LoadedFrom(t: Tables, before: map<string, MemoryCache.CacheItem>, after: map<string, MemoryCache.CacheItem>,
                             readFaults: map<string, ReadStep>, expires: int)
  {
    forall k | k in after && (k !in before || after[k] != before[k]) ::
      ReadOrder(t, k, FaultOf(readFaults, k)) == Ok(after[k].order) && after[k].expiresAt == expires
  }

  lemma LoadedFromTrans(t: Tables, before: map<string, MemoryCache.CacheItem>, mid: map<string, MemoryCache.CacheItem>,
                        after: map<string, MemoryCache.CacheItem>, readFaults: map<string, ReadStep>, expires: int)
    requires LoadedFrom(t, before, mid, readFaults, expires)
    requires LoadedFrom(t, mid, after, readFaults, expires)
    ensures LoadedFrom(t, before, after, readFaults, expires)
  {
    forall k | k in after && (k !in before || after[k] != before[k])
      ensures ReadOrder(t, k, FaultOf(readFaults, k)) == Ok(after[k].order) && after[k].expiresAt == expires
    {
      if k in mid && after[k] == mid[k] {
        assert k !in before || mid[k] != before[k];
      }
    }
  }

  /** Every key of `keys` whose read succeeds is in `cache`. */
  ghost predicate AllReadable(t: Tables, keys: set<string>, cache: map<string, MemoryCache.CacheItem>,
                              readFaults: map<string, ReadStep>)
  {
    forall k | k in keys && ReadOrder(t, k, FaultOf(readFaults, k)).Ok? :: k in cache
  }

  /** Every entry added or changed since `before` came from a successful read, so its key is a stored uid. */
  lemma LoadedKeys(t: Tables, before: map<string, MemoryCache.CacheItem>, after: map<string, MemoryCache.CacheItem>,
                   readFaults: map<string, ReadStep>, expires: int)
    requires LoadedFrom(t, before, after, readFaults, expires)
    ensures after.Keys <= before.Keys + t.orders.Keys
  {
    forall k | k in after
      ensures k in before || k in t.orders
    {
      if k !in before {
        assert ReadOrder(t, k, FaultOf(readFaults, k)).Ok?;
      }
    }
  }

  /** Every uid among the first `n` rows whose read succeeds is in `cache`. */
  ghost predicate PrefixCached(t: Tables, uids: seq<string>, n: int, cache: map<string, MemoryCache.CacheItem>,
                               readFaults: map<string, ReadStep>)
  {
    forall j | 0 <= j < n && j < |uids| && ReadOrder(t, uids[j], FaultOf(readFaults, uids[j])).Ok? :: uids[j] in cache
  }

  /**
   * The loop invariant of LoadCacheFromDB after the first `n` rows `uids`:
   * only read orders were added, and while the cache has room for every
   * stored order nothing is evicted and every readable uid seen is cached.
   */
  ghost predicate Loading(t: Tables, before: map<string, MemoryCache.CacheItem>, items: map<string, MemoryCache.CacheItem>,
                          uids: seq<string>, n: int, readFaults: map<string, ReadStep>, expires: int, roomy: bool)
  {
    && LoadedFrom(t, before, items, readFaults, expires)
    && (roomy ==> |items| <= |before| + n && before.Keys <= items.Keys && PrefixCached(t, uids, n, items, readFaults))
  }

  /** Once all rows are seen and they list exactly the stored uids, every readable stored order is cached. */
  lemma AllRowsCached(t: Tables, uids: seq<string>, cache: map<string, MemoryCache.CacheItem>,
                      readFaults: map<string, ReadStep>)
    requires PrefixCached(t, uids, |uids|, cache, readFaults)
    requires forall k :: k in t.orders <==> k in uids
    ensures AllReadable(t, t.orders.Keys, cache, readFaults)
  {
    forall k | k in t.orders.Keys && ReadOrder(t, k, FaultOf(readFaults, k)).Ok?
      ensures k in cache
    {
      var j :| 0 <= j < |uids| && uids[j] == k;
    }
  }

  /** Row `n` being cached while no earlier key leaves the cache extends the cached prefix by one row. */
  lemma PrefixGrows(t: Tables, uids: seq<string>, n: nat, prev: map<string, MemoryCache.CacheItem>,
                    next: map<string, MemoryCache.CacheItem>, readFaults: map<string, ReadStep>)
    requires n < |uids| && uids[n] in next && prev.Keys <= next.Keys
    requires PrefixCached(t, uids, n, prev, readFaults)
    ensures PrefixCached(t, uids, n + 1, next, readFaults)
  {
    forall j | 0 <= j < n + 1 && j < |uids| && ReadOrder(t, uids[j], FaultOf(readFaults, uids[j])).Ok?
      ensures uids[j] in next
    {
      if j < n {
        assert uids[j] in prev;
      }
    }
  }

  /** The loop invariant survives caching the order read for row `n`, with or without an eviction first. */
  lemma CachedStep(t: Tables, before: map<string, MemoryCache.CacheItem>, prev: map<string, MemoryCache.CacheItem>,
                   next: map<string, MemoryCache.CacheItem>, order: Order, uids: seq<string>, n: nat,
                   readFaults: map<string, ReadStep>, expires: int, roomy: bool, maxSize: int)
    requires n < |uids| && uids[n] == order.orderUid
    requires Loading(t, before, prev, uids, n, readFaults, expires, roomy)
    requires roomy ==> |before| + n < maxSize
    requires ReadOrder(t, order.orderUid, FaultOf(readFaults, order.orderUid)) == Ok(order)
    requires MemoryCache.SetEffect(prev, next, order.orderUid, MemoryCache.CacheItem(order, expires), maxSize)
    ensures Loading(t, before, next, uids, n + 1, readFaults, expires, roomy)
  {
    assert LoadedFrom(t, prev, next, readFaults, expires);
    LoadedFromTrans(t, before, prev, next, readFaults, expires);
    if roomy {
      PrefixGrows(t, uids, n, prev, next, readFaults);
    }
  }

  /** The loop invariant survives a row whose read fails: nothing is cached for it. */
  lemma SkippedStep(t: Tables, before: map<string, MemoryCache.CacheItem>, items: map<string, MemoryCache.CacheItem>,
                    uids: seq<string>, n: nat, readFaults: map<string, ReadStep>, expires: int, roomy: bool)
    requires n < |uids| && ReadOrder(t, uids[n], FaultOf(readFaults, uids[n])).Err?
    requires Loading(t, before, items, uids, n, readFaults, expires, roomy)
    ensures Loading(t, before, items, uids, n + 1, readFaults, expires, roomy)
  {
    if roomy {
      forall j | 0 <= j < n + 1 && j < |uids| && ReadOrder(t, uids[j], FaultOf(readFaults, uids[j])).Ok?
        ensures uids[j] in items
      {
        assert j != n;
      }
    }
  }

  // ---------------------------------------------------------------------------
  // The database handle

  datatype LoadError = QueryFailed | ScanFailed

  class Db {
    var tables: Tables

    ghost predicate Valid()
      reads this
    {
      HeadersKeyed(tables)
    }

    constructor (t: Tables)
      requires HeadersKeyed(t)
      ensures Valid() && tables == t
    {
      tables := t;
    }

    /**
     * SaveOrderTx: validate before opening the transaction, insert the header
     * (doing nothing on a uid conflict), the delivery, the payment and the
     * items one by one, then commit. Any failure returns at once and the
     * tables stay exactly as they were.
     */
    method SaveOrderTx(order: Order, dateOk: DateParser, fault: Option<TxStep>) returns (r: Outcome<SaveError>)
      requires Valid()
      modifies this
      ensures Valid()
      ensures r == SaveResult(order, dateOk, fault)
      ensures r.Pass? ==> tables == Committed(old(tables), order)
      ensures r.Fail? ==> tables == old(tables)
      ensures ValidateOrder(order, dateOk).Fail? ==> r == Fail(ValidationFailed(ValidateOrder(order, dateOk).error))
    {
      var v := ValidateOrder(order, dateOk);
      if v.Fail? {
        return Fail(ValidationFailed(v.error));
      }
      if fault == Some(BeginTx) {
        return Fail(StatementFailed(BeginTx));
      }
      var tx := tables;
      if fault == Some(InsertHeader) {
        return Fail(StatementFailed(InsertHeader));
      }
      if order.orderUid !in tx.orders {
        tx := tx.(orders := tx.orders[order.orderUid := HeaderOf(order)]);
      }
      if fault == Some(InsertDelivery) {
        return Fail(StatementFailed(InsertDelivery));
      }
      tx := tx.(deliveries := tx.deliveries + [DeliveryRow(order.orderUid, order.delivery)]);
      if fault == Some(InsertPayment) {
        return Fail(StatementFailed(InsertPayment));
      }
      tx := tx.(payments := tx.payments + [PaymentRow(order.orderUid, order.payment)]);
      var i := 0;
      while i < |order.items|
        invariant 0 <= i <= |order.items|
        invariant tables == old(tables)
        invariant tx == Committed(tables, order).(items := tables.items + ItemRowsOf(order.orderUid, order.items[..i]))
        invariant fault.Some? && fault.value.InsertItem? ==> fault.value.index >= i
      {
        if fault == Some(InsertItem(i)) {
          return Fail(StatementFailed(InsertItem(i)));
        }
        assert ItemRowsOf(order.orderUid, order.items[..i + 1])
            == ItemRowsOf(order.orderUid, order.items[..i]) + [ItemRow(order.orderUid, order.items[i])];
        tx := tx.(items := tx.items + [ItemRow(order.orderUid, order.items[i])]);
        i := i + 1;
      }
      assert order.items[..i] == order.items;
      if fault == Some(CommitTx) {
        return Fail(StatementFailed(CommitTx));
      }
      tables := tx;
      return Pass;
    }

    /**
     * GetOrderFromDB: refuse an empty uid or one over 100 bytes before
     * touching the store, then read the header, the delivery, the payment and
     * the items (appending one item per row) inside one read transaction.
     */
    method GetOrderFromDB(uid: string, fault: Option<ReadStep>) returns (r: Result<Order, ReadError>)
      ensures r == ReadOrder(tables, uid, fault)
      ensures uid == "" || ByteLen(uid) > MaxOrderUidBytes ==> r == Err(InvalidUid)
    {
      if uid == "" || ByteLen(uid) > MaxOrderUidBytes {
        return Err(InvalidUid);
      }
      if fault == Some(BeginRead) || fault == Some(ScanHeader) {
        return Err(ReadFailed(fault.value));
      }
      if uid !in tables.orders {
        return Err(NoRows);
      }
      var header := tables.orders[uid];
      if fault == Some(ScanDelivery) {
        return Err(ReadFailed(ScanDelivery));
      }
      var delivery := FirstDelivery(tables.deliveries, uid);
      if delivery.None? {
        return Err(NoRows);
      }
      if fault == Some(ScanPayment) {
        return Err(ReadFailed(ScanPayment));
      }
      var payment := FirstPayment(tables.payments, uid);
      if payment.None? {
        return Err(NoRows);
      }
      if fault == Some(QueryItems) {
        return Err(ReadFailed(QueryItems));
      }
      var rows := ItemsFor(tables.items, uid);
      var items: seq<Item> := [];
      var i := 0;
      while i < |rows|
        invariant 0 <= i <= |rows|
        invariant items == rows[..i]
        invariant fault.Some? && fault.value.ScanItem? ==> fault.value.index >= i
      {
        if fault == Some(ScanItem(i)) {
          return Err(ReadFailed(ScanItem(i)));
        }
        items := items + [rows[i]];
        i := i + 1;
      }
      assert items == rows;
      if fault == Some(CommitRead) {
        return Err(ReadFailed(CommitRead));
      }
      return Ok(AssembleOrder(header, delivery.value, payment.value, items));
    }

    /**
     * LoadCacheFromDB: list the stored uids (in no particular order), stop
     * with an error if the query or a row scan fails, and put into the cache
     * every order whose read succeeds, skipping the others. `scanFault` is
     * the position of the row whose scan fails, `readFault` the failing read
     * step for each uid.
     */
    method LoadCacheFromDB(cache: MemoryCache.OrderCache, queryFails: bool, scanFault: Option<nat>,
                           readFaults: map<string, ReadStep>, now: int)
      returns (r: Outcome<LoadError>)
      requires Valid() && cache.Valid()
      modifies cache`items, cache`stats
      ensures cache.Valid()
      ensures r == (if queryFails then Fail(QueryFailed)
                    else if scanFault.Some? && scanFault.value < |tables.orders| then Fail(ScanFailed)
                    else Pass)
      ensures queryFails ==> cache.items == old(cache.items)
      ensures cache.stats.hits == old(cache.stats.hits) && cache.stats.misses == old(cache.stats.misses)
      ensures cache.items.Keys <= old(cache.items).Keys + tables.orders.Keys
      ensures LoadedFrom(tables, old(cache.items), cache.items, readFaults, now + cache.defaultTTL)
      ensures r.Pass? && |old(cache.items)| + |tables.orders| <= cache.maxSize ==>
                AllReadable(tables, tables.orders.Keys, cache.items, readFaults)
    {
      if queryFails {
        return Fail(QueryFailed);
      }
      var uids := OrderUids();
      ghost var n;
      r, n := LoadRows(cache, uids, scanFault, readFaults, now);
      LoadedKeys(tables, old(cache.items), cache.items, readFaults, now + cache.defaultTTL);
      if r.Pass? && |old(cache.items)| + |tables.orders| <= cache.maxSize {
        AllRowsCached(tables, uids, cache.items, readFaults);
      }
    }

    /** The rows of the uid query: every stored uid once, in no particular order. */
    method OrderUids() returns (uids: seq<string>)
      ensures |uids| == |tables.orders|
      ensures forall i, j | 0 <= i < j < |uids| :: uids[i] != uids[j]
      ensures forall k :: k in tables.orders <==> k in uids
    {
      uids := [];
      var pending := tables.orders.Keys;
      while pending != {}
        invariant pending <= tables.orders.Keys
        invariant |uids| + |pending| == |tables.orders.Keys|
        invariant forall i, j | 0 <= i < j < |uids| :: uids[i] != uids[j]
        invariant forall k :: k in uids <==> k in tables.orders && k !in pending
        decreases pending
      {
        var uid :| uid in pending;
        uids := uids + [uid];
        pending := pending - {uid};
      }
    }

    /** The row loop of LoadCacheFromDB over the rows `uids` of the uid query. */
    method LoadRows(cache: MemoryCache.OrderCache, uids: seq<string>, scanFault: Option<nat>,
                    readFaults: map<string, ReadStep>, now: int)
      returns (r: Outcome<LoadError>, ghost n: nat)
      requires Valid() && cache.Valid()
      modifies cache`items, cache`stats
      ensures cache.Valid()
      ensures r == (if scanFault.Some? && scanFault.value < |uids| then Fail(ScanFailed) else Pass)
      ensures cache.stats.hits == old(cache.stats.hits) && cache.stats.misses == old(cache.stats.misses)
      ensures n <= |uids| && (r.Pass? ==> n == |uids|) && (r.Fail? ==> n == scanFault.value)
      ensures Loading(tables, old(cache.items), cache.items, uids, n, readFaults, now + cache.defaultTTL,
                      |old(cache.items)| + |uids| <= cache.maxSize)
    {
      ghost var before := cache.items;
      ghost var roomy := |before| + |uids| <= cache.maxSize;
      var i := 0;
      while i < |uids|
        invariant 0 <= i <= |uids|
        invariant scanFault.Some? ==> scanFault.value >= i
        invariant cache.Valid() && cache.stats.hits == old(cache.stats.hits) && cache.stats.misses == old(cache.stats.misses)
        invariant Loading(tables, before, cache.items, uids, i, readFaults, now + cache.defaultTTL, roomy)
      {
        if scanFault == Some(i) {
          return Fail(ScanFailed), i;
        }
        LoadOne(cache, uids, i, readFaults, now, before, roomy);
        i := i + 1;
      }
      return Pass, i;
    }

    /** Row `i` of LoadCacheFromDB: read the order and cache it if the read succeeds. */
    method LoadOne(cache: MemoryCache.OrderCache, uids: seq<string>, i: nat, readFaults: map<string, ReadStep>, now: int,
                   ghost before: map<string, MemoryCache.CacheItem>, ghost roomy: bool)
      requires Valid() && cache.Valid()
      requires i < |uids|
      requires roomy ==> |before| + i < cache.maxSize
      requires Loading(tables, before, cache.items, uids, i, readFaults, now + cache.defaultTTL, roomy)
      modifies cache`items, cache`stats
      ensures cache.Valid()
      ensures cache.stats.hits == old(cache.stats.hits) && cache.stats.misses == old(cache.stats.misses)
      ensures Loading(tables, before, cache.items, uids, i + 1, readFaults, now + cache.defaultTTL, roomy)
      ensures var read := ReadOrder(tables, uids[i], FaultOf(readFaults, uids[i]));
              && (read.Err? ==> cache.items == old(cache.items))
              && (read.Ok? ==> uids[i] in cache.items &&
                                 cache.items[uids[i]] == MemoryCache.CacheItem(read.value, now + cache.defaultTTL))
    {
      var res := GetOrderFromDB(uids[i], FaultOf(readFaults, uids[i]));
      if res.Ok? {
        CacheRead(cache, res.value, uids, i, readFaults, now, before, roomy);
      } else {
        SkippedStep(tables, before, cache.items, uids, i, readFaults, now + cache.defaultTTL, roomy);
      }
    }

    /** The cache.Set of the order read for row `i`. */
    method CacheRead(cache: MemoryCache.OrderCache, order: Order, uids: seq<string>, i: nat,
                     readFaults: map<string, ReadStep>, now: int,
                     ghost before: map<string, MemoryCache.CacheItem>, ghost roomy: bool)
      requires cache.Valid()
      requires i < |uids| && uids[i] == order.orderUid
      requires roomy ==> |before| + i < cache.maxSize
      requires ReadOrder(tables, order.orderUid, FaultOf(readFaults, order.orderUid)) == Ok(order)
      requires Loading(tables, before, cache.items, uids, i, readFaults, now + cache.defaultTTL, roomy)
      modifies cache`items, cache`stats
      ensures cache.Valid()
      ensures cache.stats.hits == old(cache.stats.hits) && cache.stats.misses == old(cache.stats.misses)
      ensures Loading(tables, before, cache.items, uids, i + 1, readFaults, now + cache.defaultTTL, roomy)
      ensures order.orderUid in cache.items && cache.items[order.orderUid] == MemoryCache.CacheItem(order, now + cache.defaultTTL)
    {
      ghost var prev := cache.items;
      ghost var evicted := cache.Set(order, now);
      CachedStep(tables, before, prev, cache.items, order, uids, i, readFaults, now + cache.defaultTTL, roomy,
                 cache.maxSize);
    }
  }
}
