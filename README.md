# WBtech_l0 order service — a Dafny model

WBtech_l0 is an order-display service. Orders arrive on a Kafka topic, are
validated and stored in PostgreSQL inside one transaction, are kept in an
in-memory cache with a time-to-live and a size bound, and are served by an
HTTP handler that looks in the cache first and falls back to the database.

This project models the core of that service and proves properties of the
model:

- `Domain` (domain.dfy) holds the order records and their validators: `Order.Validate`, `Delivery.Validate` with its e-mail regular expression, `Payment.Validate` and `Item.Validate`. Each validator is a guard chain, and beside each chain sits a declarative reading of it. `Breaks(x, e)` says that error `e` names a rule that `x` breaks, and a rank orders the rules as the chain checks them.
- `MemoryCache` (memory_cache.dfy) is the TTL cache `OrderCache`, a class over a map of entries plus its statistics. It covers `SetWithTTL`/`Set` with eviction at capacity, `Get` with lazy expiry, `GetAll`, `Delete`, `Clear`, `GetStats`, the setters, `evictOldest`, and one tick of `cleanupExpired` (modelled as `Sweep`).
- `OrderRepo` (order_repo.dfy) works over abstract tables. It holds the transactional `SaveOrderTx`, the guarded `GetOrderFromDB`, and `LoadCacheFromDB`, which warms the cache.
- `Handler` (handler.dfy) holds the order-id rule, `getOrder` (cache first, then the store, back-filling the cache), `formatDate` and the status helpers.
- `Ingestion` (ingestion.dfy) models the Kafka message loop of the first service generation.
- `BackendCache` (backend_cache.dfy) and `CashCache` (cash_cache.dfy) are the plain map caches.
- `Wrappers` (wrappers.dfy) holds `Option`, `Result` and `Outcome`.

The model makes these choices:

- **Strings and time.** Strings are `seq<char>`. Go's `len` on a string counts UTF-8 bytes, which the model writes as `ByteLen`. Instants and durations are integer nanoseconds. The clock is a `now` parameter.
- **Oracles.** `time.Parse(time.RFC3339, …)` is an uninterpreted predicate `DateParser`. A failing SQL statement is an oracle `fault`, naming the first step whose execution fails. Kafka fetch, JSON decoding, the save and the commit are given per round as an `Input`.
- **Map iteration.** Go's map iteration order is modelled by a nondeterministic choice (`:|`) in each loop over a map.
- **Transactions.** `SaveOrderTx` works on a local copy of the tables. The copy is written back only at commit, so a failed transaction leaves the tables as they were.

## Model

| member | source | states |
|---|---|---|
| Domain.ByteLen | internal/domain/order.go:72 | The UTF-8 byte length of a string lies between its rune count and four times that, and equals the rune count exactly when every rune is ASCII. |
| Domain.EmailPatternIsShape | internal/domain/order.go:128-129 | The e-mail pattern `^[a-z0-9._%+\-]+@[a-z0-9.\-]+\.[a-z]{2,}$` accepts exactly the strings that the scan reading accepts. The scan: a non-empty local part before the first '@', host characters after it, and a final label of at least two lower-case letters after the last '.'. |
| Domain.EmailPatternFacts | internal/domain/order.go:128-129 | A matching address has exactly one '@' and no upper-case letter, and ends in a label of at least two lower-case letters. |
| Domain.ValidateItem | internal/domain/order.go:154-174 | A reported error names a rule the item breaks, and no rule the chain checks earlier is broken. Pass means no rule is broken. |
| Domain.ValidatePayment | internal/domain/order.go:137-151 | A reported error names a rule the payment breaks, and no rule the chain checks earlier is broken. Pass means no rule is broken. |
| Domain.ValidateDelivery | internal/domain/order.go:114-134 | A reported error names a rule the delivery breaks, and no rule the chain checks earlier is broken. Pass means no rule is broken. The e-mail rule is the pattern above. |
| Domain.ValidateItems | internal/domain/order.go:104-108 | Passes exactly when every item passes. Otherwise it reports the first failing index together with that item's own error. |
| Domain.ValidateOrder | internal/domain/order.go:68-111 | A reported error names a rule the order breaks, and no rule the chain checks earlier is broken. The order of the chain is: uid, uid length, track number, entry, date, delivery, payment, items present, each item. Pass means no rule is broken. |
| Domain.ValidOrderShape | internal/domain/order.go:69-102 | A valid order has a uid of 1 to 100 bytes, at least one item, items whose price, total price and nm id are all positive, a delivery name, and an empty or parseable date. |
| MemoryCache.OrderCache.constructor | internal/repository/cache/memory_cache.go:33-43 | A new cache is empty, with zero statistics, a 20-minute TTL and a capacity of 1000. |
| BackendCache.OrderCache.constructor | backend/cache.go:12-17 | A new cache is empty. |
| CashCache.Cache.constructor | back/cash/cache.go:16-21 | A new cache is empty. |
| MemoryCache.OrderCache.SetMaxSize | internal/repository/cache/memory_cache.go:46-50 | Only the capacity changes. |
| MemoryCache.OrderCache.SetDefaultTTL | internal/repository/cache/memory_cache.go:53-57 | Only the default TTL changes. |
| MemoryCache.OrderCache.EvictOldest | internal/repository/cache/memory_cache.go:171-185 | The chosen key is a stored key, or "" for an empty map. When no entry expires at the zero instant, it is an entry with the earliest expiry. That entry is deleted unless its key is "". |
| MemoryCache.OrderCache.SetWithTTL | internal/repository/cache/memory_cache.go:65-79 | At or over capacity, one eviction is attempted first. Then the uid maps to the order with expiry now + ttl, and every other surviving entry is unchanged. The size statistic is refreshed and the counters are kept. |
| MemoryCache.OrderCache.Set | internal/repository/cache/memory_cache.go:60-62 | `SetWithTTL` with the default TTL. An eviction happens exactly when the cache is at or over capacity. The evicted key was stored, and when no entry expires at the zero instant it is one with the earliest expiry. |
| MemoryCache.OrderCache.Get | internal/repository/cache/memory_cache.go:82-108 | The result is a hit exactly when the key is present and `now <= expiresAt`. A hit returns the stored order. An absent key is a miss with no change. An expired entry is deleted and counted as a miss. Exactly one of hits or misses grows by one. |
| MemoryCache.OrderCache.GetAll | internal/repository/cache/memory_cache.go:111-125 | Returns exactly the entries with `now < expiresAt`, and changes nothing. |
| MemoryCache.OrderCache.Delete | internal/repository/cache/memory_cache.go:128-133 | Removes the key, refreshes the size statistic, and changes nothing else. |
| MemoryCache.OrderCache.Clear | internal/repository/cache/memory_cache.go:136-143 | Leaves an empty map with all three statistics at zero. |
| MemoryCache.OrderCache.GetStats | internal/repository/cache/memory_cache.go:146-150 | Returns the statistics, whose size is the number of entries. |
| MemoryCache.OrderCache.Sweep | internal/repository/cache/memory_cache.go:157-167 | One cleanup tick deletes exactly the entries with `now > expiresAt` and refreshes the size statistic. |
| MemoryCache.GetAndGetAllDisagreeAtExpiry | internal/repository/cache/memory_cache.go:95-119 | `Get` and `GetAll` disagree on an entry exactly when `now` equals its expiry instant; elsewhere they report the same order. |
| MemoryCache.TtlExpiry | internal/repository/cache/memory_cache.go:74-77 | An entry written at `now` with `ttl` is a hit up to `now + ttl` inclusive, and expired afterwards. |
| MemoryCache.SweepNeverRevivesOrHides | internal/repository/cache/memory_cache.go:157-167 | A sweep at an earlier or equal instant changes no later `Get` hit and no later `GetAll` snapshot. |
| MemoryCache.SweepIdempotent | internal/repository/cache/memory_cache.go:160-164 | A second sweep at the same instant removes nothing more. |
| OrderRepo.Db.SaveOrderTx | internal/repository/postgres/order_repo.go:49-115 | Validation runs before the transaction. The header insert does nothing when the uid is present. The delivery, payment and one item row per item are appended. The outcome is the first failing step, and on any failure the tables are unchanged. |
| OrderRepo.Db.GetOrderFromDB | internal/repository/postgres/order_repo.go:118-199 | An empty uid or one over 100 bytes is refused before any read. Otherwise the result is the specification `ReadOrder`: the header, the first delivery, the first payment and every item row of the uid, in row order, or the first failing or missing step. |
| OrderRepo.ReadAfterSave | internal/repository/postgres/order_repo.go:49-199 | Saving a valid order whose uid has no rows yet, then reading it back, returns exactly that order. |
| OrderRepo.ResaveKeepsHeaderDuplicatesItems | internal/repository/postgres/order_repo.go:63-111 | Saving the same order twice keeps one header and appends a second delivery, payment and set of item rows, so a later read sees the items twice. |
| OrderRepo.SaveKeepsStoredHeader | internal/repository/postgres/order_repo.go:51-73 | A valid order with no failing step is saved whether or not its uid already has a header. An existing header is kept unchanged, and a new uid gets the order's header. |
| OrderRepo.ItemsForAppend | internal/repository/postgres/order_repo.go:182-190 | The items read for a uid from two concatenated row lists are the items of each list, in order. |
| OrderRepo.Db.LoadRows | internal/repository/postgres/order_repo.go:35-45 | The row loop of the warm-up. It stops with a scan failure exactly when a row scan fails, having handled exactly the rows before that one. Otherwise it passes after every row. Each entry it adds or changes holds the order read for its key, with expiry now + default TTL. When there is room for every row, each readable row before the stopping point is cached and no earlier entry is dropped. The hit and miss counters are kept. |
| OrderRepo.Db.LoadOne | internal/repository/postgres/order_repo.go:40-43 | One row: a failed read leaves the cache unchanged. A successful read is stored under the row's uid with expiry now + default TTL, whether or not the cache has room. Either way the invariant of `LoadRows` now holds for one more row. |
| OrderRepo.Db.CacheRead | internal/repository/postgres/order_repo.go:42 | The `cache.Set` of a successfully read order. The order is stored under its uid with expiry now + default TTL, whether or not the cache has room. Every added entry still holds the order read for its key. When there is room, no earlier row is dropped. |
| OrderRepo.Db.LoadCacheFromDB | internal/repository/postgres/order_repo.go:28-46 | A failed query or row scan is reported. Every entry it adds holds the order `GetOrderFromDB` reads for its key, with expiry now + default TTL. Reads that fail are skipped. When the cache has room for all stored orders and every row scanned, every readable stored order is cached. |
| OrderRepo.Db.OrderUids | internal/repository/postgres/order_repo.go:29-37 | The uid query lists every stored uid exactly once. |
| OrderRepo.LoadedKeys | internal/repository/postgres/order_repo.go:40-43 | The warm-up adds only keys that are stored uids. |
| Handler.IsValidOrderUID | internal/delivery/http/handler.go:107-120 | Accepts exactly the ids of 1 to 255 runes made of ASCII letters, digits, '-' and '_'. |
| Handler.LongValidUidRefused | internal/delivery/http/handler.go:108 | An id the handler accepts but which is over 100 runes is refused by the store's guard, so the store never reads it. |
| Handler.GetOrder | internal/delivery/http/handler.go:60-80 | A hit returns the cached order, leaves the entries unchanged and adds one hit. Every other path adds one miss and refreshes the size. After a miss, the entries are those `Get` left, with an expired entry for the uid deleted. Any store error then returns the zero order and false, and nothing more changes. A store success is returned and stored under the uid with expiry now + default TTL. At most one other entry is evicted first, exactly when the cache is full; it was stored, and it has the earliest expiry when no entry expires at the zero instant. |
| Handler.ReadThrough | internal/delivery/http/handler.go:67-78 | The miss path on its own. A store error changes no entry. A store success is stored with the default TTL after at most one eviction, as `Set` promises. The size statistic is refreshed and the counters are kept. |
| Handler.GetOrderThenGet | internal/delivery/http/handler.go:76-79 | When the default TTL is not negative, a `Get` at the same instant after a successful `getOrder` hits and returns the same order. After a failed one, it misses. |
| Handler.FormatDate | internal/delivery/http/handler.go:144-150 | "" becomes "Не указана". Otherwise only the first 'T' becomes a space, and every other character, including later 'T's, is kept. |
| Handler.ReplaceFirst | internal/delivery/http/handler.go:149 | The length is kept. Without the character, the string is unchanged. Otherwise its first occurrence becomes the replacement, and every other position is unchanged. |
| Handler.FormatDateKeepsLaterTs | internal/delivery/http/handler.go:149 | A 'T' after the first one survives formatting. |
| Handler.BandOf | internal/delivery/http/handler.go:158-175 | Status 200 and above is delivered, 100 to 199 is pending, and anything lower is cancelled. |
| Handler.StatusClass | internal/delivery/http/handler.go:158-166 | The CSS class is "delivered", "pending" or "cancelled" as the status falls in the delivered, pending or cancelled band. |
| Handler.StatusText | internal/delivery/http/handler.go:167-175 | The label is "Доставлен", "В обработке" or "Отменен" as the status falls in the delivered, pending or cancelled band. |
| Handler.StatusClassMatchesText | internal/delivery/http/handler.go:158-175 | Two statuses share a CSS class exactly when they share a label, and exactly when they fall in the same band. |
| Ingestion.Consumer.Step | backend/kafka.go:21-60 | One loop iteration. A fetch error, undecodable JSON, an empty uid or a failed save has no effect. Otherwise the order is saved, then cached, then its offset is committed if the commit succeeds. |
| Ingestion.Consumer.Run | backend/kafka.go:21-60 | Running the rounds in sequence yields the concatenated effects and the accumulated cache. |
| Ingestion.RunWellOrdered | backend/kafka.go:43-59 | In any run, every cache write immediately follows the save of the same uid, and every commit immediately follows such a cache write. |
| Ingestion.CommittedWasSaved | backend/kafka.go:43-59 | Every committed offset belongs to a message that decoded, had a uid, was saved and was committed successfully. |
| Ingestion.SkippedRoundHasNoEffect | backend/kafka.go:23-48 | A fetch error, invalid JSON, a missing uid or a failed save causes no save, no cache write and no commit. |
| Ingestion.FailedCommitKeepsWrites | backend/kafka.go:55-59 | A failed commit leaves the save and the cache write in place. |
| Ingestion.LastSaveIsCached | backend/kafka.go:43-51 | After a run, the cache holds the last order saved under each uid. |
| Ingestion.UnsavedUidNotCached | backend/kafka.go:43-51 | A uid absent from the starting cache that no round saved stays absent. |
| Ingestion.RunFresh | backend/kafka.go:21-60 | A consumer started with an empty log produces exactly the effects of its rounds, in well-ordered sequence. |
| BackendCache.OrderCache.Set | backend/cache.go:19-24 | The uid now maps to the order, and no other key changes. |
| BackendCache.OrderCache.Get | backend/cache.go:26-31 | Returns the stored order and true, or the zero order and false for a key never set. |
| BackendCache.SetThenGet | backend/cache.go:19-31 | A `Get` after a `Set` of the same uid returns that order. |
| CashCache.Cache.Set | back/cash/cache.go:23-28 | The uid now maps to the order, and no other key changes. |
| CashCache.Cache.Get | back/cash/cache.go:30-35 | Read-only. Returns the stored order and true, or the zero order and false. |
| CashCache.Cache.GetAll | back/cash/cache.go:38-48 | Returns as many orders as there are keys, every stored order appears in the result and nothing else does, and each key contributes exactly one element. Nothing changes. |
| CashCache.Cache.LoadFromSlice | back/cash/cache.go:51-59 | Old contents are dropped. The new key set is exactly the uids of the slice, and the cache equals the slice folded in order. |
| CashCache.FromSliceLastWins | back/cash/cache.go:56-58 | For a uid that repeats in the slice, the last occurrence is the one stored. |
| CashCache.FromSliceSize | back/cash/cache.go:51-66 | After a bulk load, the size is the number of distinct uids in the slice. |
| CashCache.Cache.Size | back/cash/cache.go:62-66 | The size is the number of distinct keys stored. |

## Where the model follows the code rather than its description

- **Get expires strictly.** `Get` treats an entry as expired only when `now > expiresAt`. `GetAll` keeps an entry only while `now < expiresAt`, so the two disagree at the expiry instant. `MemoryCache.GetAndGetAllDisagreeAtExpiry` states this.
- **getOrder hides store errors.** `getOrder` turns every store error into "not found", not only "no rows".
- **Malformed messages are not committed.** The Kafka loop makes no commit for a message it cannot decode, for one without a uid, or for one whose save fails.
- **The date check comes early.** `Order.Validate` checks the date before the delivery, payment and items.
- **evictOldest can skip.** `evictOldest` deletes nothing when its choice is the key "". When an entry expires at the zero instant, it may also choose an entry other than the one with the earliest expiry.
- **A resave duplicates rows.** Saving an order again keeps the header, because the header insert does nothing on conflict. The delivery, payment and item rows are inserted again without a conflict clause. The model assumes the tables accept them, so a re-read sees the items twice (`OrderRepo.ResaveKeepsHeaderDuplicatesItems`).
- **The two uid limits differ.** The handler accepts ids of up to 255 runes, but the store refuses anything over 100 bytes (`Handler.LongValidUidRefused`).

## Left out

- **Locking and background work.** The `sync.RWMutex` locking, the `cleanupExpired` goroutine and its five-minute ticker are left out. The operations are sequential, and one tick is `Sweep(now)`.
- **Date parsing.** `time.Parse` with the RFC 3339 layout is an uninterpreted predicate. Its grammar is not modelled.
- **SQL.** The SQL text, the driver, `defer tx.Rollback()` and the repeatable-read isolation level are left out. The store is the `Tables` value. SQL failures are the `fault` oracle, limited to failures of `Begin`, `Exec`, `QueryRow.Scan`, `Query`, `rows.Scan` and `Commit`.
- **Row iteration errors.** `rows.Err()` is never checked in the source, so an iteration error would silently end a row loop early. The model treats the end of the rows as the end of the table.
- **Row order.** Rows of a table are kept in insertion order. `QueryRow` reads the first matching row.
- **Integer width.** `int64` wrap-around of the statistics counters and of `now + ttl` is not modelled, because the integers are unbounded.
- **Invalid UTF-8.** Strings are sequences of code points, so invalid UTF-8 in a Go string is not represented.
- **Error text.** Only the error kind and the failing item's index are modelled. The text of error messages is not, including the `string(rune(i))` item message.
- **Display helpers.** `formatCurrency` (a type switch with a `float64` branch) and `formatPaymentDate` (`time.Unix` formatting) are not modelled.
- **HTTP and templates.** `MakeOrderHandler`, `renderOrderTemplate`, `renderOrderNotFound`, `loadTemplate` and `getTemplatePath` are not modelled. They are routing, file access and HTML output.
- **Code not in this model.** The following are not part of this model:
  - back/storage/database.go and back/service/order.go, which do not compile as written;
  - the configuration and seeding programs;
  - the JSON and static-file handlers;
  - the Kafka reader itself.
- **Column types.** No schema is part of the source. The model assumes each column stores its Go value verbatim and returns it unchanged, which the exact round trip of `OrderRepo.ReadAfterSave` relies on. A `timestamp` or fixed-width `char(n)` column would break that.
- **Record types.** The backend and back/models `Order` records are modelled by the one `Domain.Order` record, because their fields play no part in the cache and loop logic.
- **Broker semantics.** Redelivery, the reader's advancing fetch position and the cumulative meaning of a committed offset are not modelled. An `Input` gives each round's fetch directly, and a `Committed(offset)` event records only an explicit commit call.
- **One instant per operation.** The source reads the clock at each step. The model uses one `now` for the `Get` and the back-filling `Set` of a `getOrder`, and one `now` for every `Set` of a warm-up. So all entries loaded by one warm-up share an expiry, and when the warm-up evicts, ties among them are broken by the choice `evictOldest` makes, not by load order.
- **The backend save.** The `SaveOrderTx` called by the Kafka loop is not part of this model. Its outcome is the `saveOk` oracle of each round.
- Ingestion.Consumer.Run: models a finite prefix of the infinite `for` loop as a sequence of rounds.
- Domain.ValidateOrder: the iff with `OrderBreaks` is stated as two implications plus a first-error clause; the same holds for Domain.ValidateDelivery, Domain.ValidatePayment and Domain.ValidateItem.
- MemoryCache.OrderCache.EvictOldest: proves the earliest-expiry choice only when no entry expires at the zero instant, because with such an entry the source's choice depends on map iteration order.
- OrderRepo.Db.LoadCacheFromDB: proves that every readable order is cached only when the cache has room for all stored orders. Otherwise evictions during the warm-up may drop earlier entries.
