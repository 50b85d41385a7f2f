# Offline replica and sync engine of the rep dashboard

This project models, in Dafny, the offline core of a field-sales dashboard:

- **The local replica** (`src/services/offline.ts`). Nine keyed tables live in an IndexedDB database. `OfflineService` writes business records into them and logs every pending write as a new entry in a sync queue.
- **The sync coordinator** (`src/services/sync.ts`). It holds two flags, `isOnline` and `syncInProgress`. A cycle snapshots the queue and replays each entry against the remote database. A success removes the entry; a failure bumps its retry count and stamps its attempt time. The cycle then pulls clients and products from the server.

The project has six modules, one per file:

| file | module | what it holds |
|---|---|---|
| `records.dfy` | `Records` | The record types of `src/types/index.ts`, the spread patch of a `Partial<T>`, and the queue-entry shape. |
| `index_order.dfy` | `IndexOrder` | The order in which an IndexedDB index lists a table, and `Listing`, a method that sorts an index's keys into that order. |
| `replica.dfy` | `Replica` | The tables as a value. Dexie's `put`, `bulkPut` and `delete` as functions. One function per `OfflineService` write path giving its effect on the tables. Predicates that state what the queries return. The lemmas about all of these. |
| `offline.dfy` | `Offline` | Class `OfflineDatabase`, with one `map` field per table, and class `OfflineService`, whose methods update those fields in place. Each method is proved to have exactly the effect of its `Replica` function and to keep every record under its own key. |
| `cycle.dfy` | `SyncCycle` | Dispatch on `table_name`, the remote gateway as an oracle, and the push loop and the pull phase as functions. The lemmas about one cycle. |
| `sync.dfy` | `Sync` | Class `SyncService`, with the two flags and methods for the cycle, the pull, `forceSyncNow` and the three triggers. Each method is proved against `SyncCycle`. |

**Oracles.** The remote gateway, the clock and `crypto.randomUUID` are inputs:

- A `Stamp` is one reading of the id generator and the clock. Each `addToSyncQueue` call takes one.
- A `Gateway` says whether the call made for the i-th snapshot entry succeeds, and what the two fetches return. `None` stands for a fetch that throws.
- `now` is the clock reading used for `last_attempt`.

**Timestamps.** Queue timestamps (`created_at`, `last_attempt`) are natural numbers. The source writes them as `toISOString()` strings, whose code-unit order is the same as their time order.

**Listing order.** IndexedDB breaks ties in `orderBy` by primary key. So the queue is listed by `(created_at, id)` and the clients by `(name, id)`. Strings are compared as JavaScript compares them: by their UTF-16 code units, so a character outside the Basic Multilingual Plane sorts by its surrogate pair.

**Two consequences of the code that are easy to miss:**

- Replay order is by `created_at` and then by the random entry id, not by enqueue order. Entries stamped in the same millisecond are replayed in id order. `Replica.SameInstantListedById` shows an order's item entry listed, and so replayed, before the order's own entry.
- `syncSingleItem` looks only at `table_name`, never at `operation`. So an update and an insert for the same table reach the same remote call. See `SyncCycle.DispatchRoutes`.

## Model

| member | source | states |
|---|---|---|
| IndexOrder.StrLessTransitive | src/services/offline.ts:44 | String order, as an index compares names and ids, is transitive. |
| IndexOrder.StrLessTotal | src/services/offline.ts:44 | Any two different strings are ordered one way or the other. |
| IndexOrder.Utf16Injective | src/services/offline.ts:44 | Two strings with the same UTF-16 encoding are equal, so comparing encodings orders strings. |
| IndexOrder.SurrogatesSortBeforeHighBmp | src/services/offline.ts:44 | A character above U+FFFF sorts before U+FF61, because its high surrogate is below 0xFF61. Code-point order would say the opposite. |
| IndexOrder.BeforeTransitive | src/services/offline.ts:44 | The listing order (index value, then primary key) is transitive. |
| IndexOrder.BeforeTotal | src/services/offline.ts:44 | Two different primary keys are always ordered, so a listing is fully determined. |
| IndexOrder.ChainSortedIsSorted | src/services/offline.ts:44 | A list where each key precedes the next is sorted pairwise. |
| IndexOrder.Insert | src/services/offline.ts:44 | Inserting a new key into a sorted key list keeps it sorted, adds exactly that key and grows it by one. |
| IndexOrder.Listing | src/services/offline.ts:125-127 | The keys of an index, each exactly once, sorted by index value and then by key. This is `orderBy(...).toArray()`. |
| Replica.BulkPutEffect | src/services/offline.ts:39-41 | `bulkPut`: a key is present iff it was present before or is in the batch. Keys that are not in the batch keep their records. Each batch key holds the last record of the batch with that key. |
| Replica.BulkPutKeyed | src/services/offline.ts:91-93 | A bulk put keeps every record under its own id. |
| Replica.EnqueueNeverMerges | src/services/offline.ts:111-123 | `addToSyncQueue` adds one new entry, never merges, and keeps every old entry. The record it names gets one more entry. |
| Replica.EnqueueAllFresh | src/services/offline.ts:79-84 | Enqueueing a batch with fresh ids stores each entry under its id and keeps the old entries. The queue grows by the size of the batch. |
| Replica.EnqueueAllKeyed | src/services/offline.ts:111-123 | Enqueueing keeps every entry under its own id. |
| Replica.OrderEntries | src/services/offline.ts:79-84 | `saveOrder` builds 1 + \|items\| entries. Each has the id and the timestamp of its own stamp. |
| Replica.OrderEntriesAt | src/services/offline.ts:79-84 | The first entry is the order's insert; entry i + 1 is the insert of item i. |
| Replica.OrderEntriesEnqueued | src/services/offline.ts:79-84 | Enqueueing an order's entries with fresh stamps keeps the old entries and adds exactly the order's insert and one insert per item, each under its own stamp. |
| Replica.RemoveEntryEffect | src/services/offline.ts:129-131 | After a delete, no entry has that id and every other entry is unchanged. The size drops by one iff the id was present. |
| Replica.UpdateEntryEffect | src/services/offline.ts:133-138 | An update of an absent id is a no-op. On a present id, when the patch keeps the id, only the patched fields of that entry change. The keys stay the same. |
| Replica.UpdatedTaskIsPending | src/services/offline.ts:98 | The merged task is pending whatever `updates.sync_status` says. It equals the spread with `sync_status: 'pending'` appended. |
| Replica.SaveVisitEffect | src/services/offline.ts:60-65 | The visit is stored under its id and nothing else changes except the queue. Every old entry is kept. The queue grows by one exactly when the visit is pending, by the visits/insert entry carrying the visit. |
| Replica.SaveOrderRecords | src/services/offline.ts:75-78 | The order and every item are upserted, and no other table changes. Nothing is enqueued when the order is not pending. |
| Replica.SaveOrderQueue | src/services/offline.ts:79-84 | A pending order, whatever its items' status, appends exactly 1 + \|items\| entries: the order's insert, then one insert per item, each under its own stamp. Old entries are kept. |
| Replica.UpdateTaskEffect | src/services/offline.ts:95-102 | For an absent task id, no table changes. For a present one, the stored record becomes existing ⊕ updates, forced pending. Exactly one rep_tasks/update entry carrying the merged task is added under the fresh stamp, every old entry is kept, and no other table changes. |
| Replica.SaveVisitKeepsKeys | src/services/offline.ts:60-65 | Saving a visit keeps every record under its own key. |
| Replica.SaveOrderKeepsKeys | src/services/offline.ts:75-85 | Saving an order keeps every record under its own key. |
| Replica.UpdateTaskKeepsKeys | src/services/offline.ts:95-102 | Updating a task keeps every record under its own key. |
| Replica.QueueListingOfKeys | src/services/offline.ts:125-127 | Reading the queue in `created_at` index order gives every entry once, ascending by `created_at`. |
| Replica.QueueListingUnique | src/services/offline.ts:126 | A queue has only one listing, so the snapshot of a cycle is determined by the queue. |
| Replica.QueueListingTail | src/services/offline.ts:126 | A listing without its first entry lists the rest of the queue. |
| Replica.QueueBeforeAsymmetric | src/services/offline.ts:126 | No two entries are each listed before the other. |
| Replica.SameInstantListedById | src/services/offline.ts:119-126 | Two entries stamped in the same instant are listed by id, not in enqueue order. |
| Replica.ClientListingOfKeys | src/services/offline.ts:43-49 | `getClients(region)` returns exactly the clients of the region, or all clients when the region is absent or empty, sorted by name and then id. |
| Replica.SaveVisitStats | src/services/offline.ts:165 | Saving a visit raises `pendingSync` by one iff the visit is pending, and leaves the order count alone. |
| Offline.OfflineDatabase.constructor | src/services/offline.ts:15-29 | A new database has nine empty tables. |
| Offline.OfflineService.SaveClients | src/services/offline.ts:39-41 | Only the clients table changes, as `ClientsSaved` (a bulk put) says. |
| Offline.OfflineService.SaveProducts | src/services/offline.ts:91-93 | Only the products table changes, as `ProductsSaved` says. |
| Offline.OfflineService.AddToSyncQueue | src/services/offline.ts:111-123 | Puts the new entry (retry count 0, no attempt) under its fresh id, and keeps the queue keyed. |
| Offline.OfflineService.SaveVisit | src/services/offline.ts:60-65 | The new tables are `VisitSaved` of the old ones, and the tables stay keyed. |
| Offline.OfflineService.SaveOrder | src/services/offline.ts:75-85 | The new tables are `OrderSaved` of the old ones, and the tables stay keyed. |
| Offline.OfflineService.EnqueueOrder | src/services/offline.ts:79-84 | The order's entry, then the loop's item entries in item order, appended to the queue. |
| Offline.OfflineService.UpdateTask | src/services/offline.ts:95-102 | The new tables are `TaskUpdated` of the old ones, and the tables stay keyed. |
| Offline.OfflineService.RemoveSyncQueueItem | src/services/offline.ts:129-131 | Only the queue changes, by `RemoveEntry`. |
| Offline.OfflineService.UpdateSyncQueueItem | src/services/offline.ts:133-138 | Only the queue changes, by `UpdateEntry`, and the tables stay keyed. |
| Offline.OfflineService.GetSyncQueue | src/services/offline.ts:125-127 | Returns the queue's listing: every entry once, ascending by `created_at`. |
| Offline.OfflineService.GetClients | src/services/offline.ts:43-49 | Returns the client listing of the region. |
| Offline.OfflineService.GetPendingCount | src/services/offline.ts:140-142 | Returns the number of queue entries, which is the dashboard's `pendingSync`. |
| Offline.OfflineService.GetDashboardStats | src/services/offline.ts:144-174 | Returns the three per-rep counts and the queue size. |
| SyncCycle.DispatchRoutes | src/services/sync.ts:63-80 | Dispatch throws exactly for a table outside visits, orders, order_items and rep_tasks. It depends only on table, record id and data, never on `operation`. rep_tasks goes to `updateTask(record_id, data)` and order_items to `syncOrderItems([data])`. |
| SyncCycle.WrittenEntriesDispatch | src/services/sync.ts:63-80 | Every entry that `saveVisit`, `saveOrder` or `updateTask` enqueues dispatches to a remote call. |
| SyncCycle.FailurePatchRetries | src/services/sync.ts:46-49 | A failure patch raises the retry count by one from the snapshot's value and stamps `last_attempt`. Every other field is unchanged. |
| SyncCycle.RetriedKeepsOrder | src/services/sync.ts:46-49 | A retried entry keeps its place in the queue's listing order, so it is retried ahead of entries created later. |
| SyncCycle.AttemptEffect | src/services/sync.ts:41-50 | One iteration removes the entry on success. On failure it patches the entry in place. No other entry changes. |
| SyncCycle.DrainStep | src/services/sync.ts:40-51 | The loop handles the snapshot entries one after the other, in snapshot order. |
| SyncCycle.ListingIsSnapshot | src/services/sync.ts:37 | The listing the cycle reads holds distinct entries, as stored. |
| SyncCycle.SucceededInSnapshot | src/services/sync.ts:40-51 | Only snapshot entries are counted as successes. |
| SyncCycle.SucceededIds | src/services/sync.ts:40-51 | A snapshot entry is among the successes iff its call succeeded. |
| SyncCycle.SucceededCount | src/services/sync.ts:40-51 | Successes are queue ids, each counted once. |
| SyncCycle.DrainKeyed | src/services/sync.ts:40-51 | The push loop keeps every entry under its own id. |
| SyncCycle.DrainKeys | src/services/sync.ts:40-51 | After the loop, the queue keys are the old keys minus the successes. Entries outside the snapshot are untouched. |
| SyncCycle.DrainReachesEntry | src/services/sync.ts:40-42 | When the loop reaches an entry, the entry is still queued as snapshotted. |
| SyncCycle.DrainRetries | src/services/sync.ts:44-50 | Every failed entry is still queued, retried once from its snapshot copy. |
| SyncCycle.DrainEffect | src/services/sync.ts:40-51 | Successes are removed and failures are retried once. Other entries are untouched. Final size = initial size − successes. |
| SyncCycle.PullFrame | src/services/sync.ts:82-96 | The pull phase writes only clients and products. It writes nothing if the clients fetch fails, and writes products only if both fetches succeeded. |
| SyncCycle.PullClients | src/services/sync.ts:85-86 | Clients become a bulk put of the fetched list: fetched ids hold their fetched record, other local clients stay. |
| SyncCycle.PullProducts | src/services/sync.ts:89-90 | The same for products, when both fetches succeed. |
| SyncCycle.PullKeepsKeys | src/services/sync.ts:82-96 | The pull phase keeps every record under its own key. |
| SyncCycle.CycleEffect | src/services/sync.ts:31-61 | A cycle over the listing never touches visits, orders, items, tasks, task types or reasons. Exactly the failed entries stay, each retried once. The queue shrinks by the number of successes and stays keyed. |
| SyncCycle.UnknownTableStays | src/services/sync.ts:77-78 | An entry for an unknown table survives every cycle with one more retry. |
| SyncCycle.OneFailureIsIsolated | src/services/sync.ts:40-51 | With three entries of which only the second fails, only the second remains, with retry count 1. |
| Sync.SyncService.constructor | src/services/sync.ts:6-7 | The flags start as the connection state and not in progress. |
| Sync.SyncService.GetConnectionStatus | src/services/sync.ts:27-29 | Returns `isOnline`. |
| Sync.SyncService.SyncSingleItem | src/services/sync.ts:63-80 | Succeeds exactly when dispatch finds a call and the gateway accepts it. It always fails for an unknown table. |
| Sync.SyncService.SyncPendingData | src/services/sync.ts:31-61 | Offline or already syncing: nothing changes and the flag is untouched. Otherwise the old queue's listing is replayed and the tables become `Cycle` of the old ones. The flag is false at the end. |
| Sync.SyncService.PushPhase | src/services/sync.ts:40-51 | The loop leaves the queue as `Drain` of the snapshot. |
| Sync.SyncService.SyncFromServer | src/services/sync.ts:82-96 | The tables become `Pull` of the old ones. |
| Sync.SyncService.ForceSyncNow | src/services/sync.ts:98-104 | Returns true iff online at the call, even when a cycle in progress skips the sync. When offline, nothing changes. |
| Sync.SyncService.OnOnline | src/services/sync.ts:10-13 | Sets `isOnline` and runs a cycle unless one is in progress. |
| Sync.SyncService.OnOffline | src/services/sync.ts:15-17 | Clears `isOnline`. |
| Sync.SyncService.OnTick | src/services/sync.ts:20-24 | Runs a cycle only when online and not already syncing. |

## Left out

- Dexie persistence, durability and crash recovery are not modelled. Tables are in-memory maps. Each method's writes happen in sequence within one call, and no atomicity is claimed across the separate awaits of the source.
- Async interleaving, `setInterval` and the `window` listeners are out. The triggers are sequential method calls, so `syncInProgress` is only ever seen as true when a caller passes it in that state.
- The Supabase client is not modelled. `src/services/database.ts` is an oracle: one outcome per replayed entry and one optional list per fetch.
- Local storage errors are not modelled: a failing `getSyncQueue`, a failing `removeSyncQueueItem` handled by the inner catch, and the outer catch.
- SyncCycle.Drain: one clock reading `now` stamps every failure of a cycle. The source reads the clock once per failure.
- `crypto.randomUUID` and `new Date()` in `addToSyncQueue` are `Stamp` parameters. Their freshness is a precondition.
- Replica.VisitsToday: today's date is a parameter. The `startsWith` test is a prefix test on the stored string.
- `saveClient` is left out. It is a single-record put of a client (src/services/offline.ts:35-37) that nothing in the source calls; `SaveClients` models the batch form.
- `searchClients`, `getVisits`, `getProducts` and `getTasks` are UI reads outside this core. `searchClients` would also need Unicode case folding.
- The `data: any` payload is limited to the four record kinds the write paths enqueue. `number` fields are carried as `real` and never computed with. The one exception is the queue's `retry_count` (src/types/index.ts:102), an `int` that a failed attempt increments (src/services/sync.ts:47).
- The `console` logging is left out.
- All React components, `src/services/pdf.ts` and `src/contexts/AuthContext.tsx` are presentation and are not part of this model.
