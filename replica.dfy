/**
 * The local replica as a value: the nine keyed tables of the offline database
 * (src/services/offline.ts:18-28), the primitive writes Dexie performs on them
 * (`put`, `bulkPut`, `delete`), and the effect of each write path of
 * `OfflineService` as a function of the tables before the call. The methods of
 * module Offline are proved to have exactly these effects.
 */
module Replica {
  import opened Records
  import opened IndexOrder

  datatype Tables = Tables(
    clients: map<string, Client>,
    visits: map<string, Visit>,
    orders: map<string, Order>,
    orderItems: map<string, OrderItem>,
    products: map<string, Product>,
    repTasks: map<string, RepTask>,
    taskTypes: map<string, TaskType>,
    stockDiscountReasons: map<string, StockDiscountReason>,
    syncQueue: map<string, SyncQueueEntry>)

  const EmptyTables := Tables(map[], map[], map[], map[], map[], map[], map[], map[], map[])

  // The primary key of each table is the record's `id` (inbound keys).
  function ClientId(c: Client): string { c.id }
  function VisitId(v: Visit): string { v.id }
  function OrderId(o: Order): string { o.id }
  function OrderItemId(i: OrderItem): string { i.id }
  function ProductId(p: Product): string { p.id }
  function TaskId(t: RepTask): string { t.id }
  function TaskTypeId(t: TaskType): string { t.id }
  function ReasonId(r: StockDiscountReason): string { r.id }

  /** Every record is stored under its own primary key. */
  ghost predicate KeyedBy<T>(m: map<string, T>, key: T -> string)
  {
    forall k :: k in m ==> key(m[k]) == k
  }

  /** Every queue entry is stored under its own `id`. */
  ghost predicate QueueKeyed(q: map<string, SyncQueueEntry>)
  {
    forall k :: k in q ==> q[k].id == k
  }

  ghost predicate Keyed(t: Tables)
  {
    && (forall k :: k in t.clients ==> t.clients[k].id == k)
    && (forall k :: k in t.visits ==> t.visits[k].id == k)
    && (forall k :: k in t.orders ==> t.orders[k].id == k)
    && (forall k :: k in t.orderItems ==> t.orderItems[k].id == k)
    && (forall k :: k in t.products ==> t.products[k].id == k)
    && (forall k :: k in t.repTasks ==> t.repTasks[k].id == k)
    && (forall k :: k in t.taskTypes ==> t.taskTypes[k].id == k)
    && (forall k :: k in t.stockDiscountReasons ==> t.stockDiscountReasons[k].id == k)
    && QueueKeyed(t.syncQueue)
  }

  /** Some record of `records` has primary key `k`. */
  ghost predicate Mentions<T>(records: seq<T>, key: T -> string, k: string)
  {
    exists i :: 0 <= i < |records| && key(records[i]) == k
  }

  /** `records[i]` is the last record of the batch with its primary key. */
  ghost predicate LastOfKey<T>(records: seq<T>, key: T -> string, i: int)
    requires 0 <= i < |records|
  {
    forall j :: i < j < |records| ==> key(records[j]) != key(records[i])
  }

  /** Dexie `bulkPut`: the records of the batch put one after the other. */
  function BulkPut<T>(m: map<string, T>, records: seq<T>, key: T -> string): map<string, T>
    decreases |records|
  {
    if records == [] then m
    else BulkPut(m[key(records[0]) := records[0]], records[1..], key)
  }

  /**
   * After a bulk put, each key of the batch holds the last record of the batch
   * with that key, every other key is untouched, and no other key appears.
   */
  lemma {:induction false} BulkPutEffect<T>(m: map<string, T>, records: seq<T>, key: T -> string)
    ensures forall k :: k in BulkPut(m, records, key) <==> k in m || Mentions(records, key, k)
    ensures forall k :: k in m && !Mentions(records, key, k) ==> BulkPut(m, records, key)[k] == m[k]
    ensures forall i :: 0 <= i < |records| ==> key(records[i]) in BulkPut(m, records, key)
    ensures forall i :: 0 <= i < |records| && LastOfKey(records, key, i) ==>
              BulkPut(m, records, key)[key(records[i])] == records[i]
    decreases |records|
  {
    if records != [] {
      var head, tail := records[0], records[1..];
      BulkPutEffect(m[key(head) := head], tail, key);
      assert forall k :: Mentions(tail, key, k) ==> Mentions(records, key, k) by {
        forall k | Mentions(tail, key, k) ensures Mentions(records, key, k) {
          var i :| 0 <= i < |tail| && key(tail[i]) == k;
          assert key(records[i + 1]) == k;
        }
      }
      assert forall k :: Mentions(records, key, k) ==> k == key(head) || Mentions(tail, key, k) by {
        forall k | Mentions(records, key, k) && k != key(head) ensures Mentions(tail, key, k) {
          var i :| 0 <= i < |records| && key(records[i]) == k;
          assert i > 0 && key(tail[i - 1]) == k;
        }
      }
      assert forall i :: 0 < i < |records| && LastOfKey(records, key, i) ==> LastOfKey(tail, key, i - 1) by {
        forall i | 0 < i < |records| && LastOfKey(records, key, i) ensures LastOfKey(tail, key, i - 1) {
          forall j | i - 1 < j < |tail| ensures key(tail[j]) != key(tail[i - 1]) {
            assert tail[j] == records[j + 1] && tail[i - 1] == records[i];
          }
        }
      }
      assert LastOfKey(records, key, 0) ==> forall i :: 0 <= i < |tail| ==> key(tail[i]) != key(head) by {
        if LastOfKey(records, key, 0) {
          forall i | 0 <= i < |tail| ensures key(tail[i]) != key(head) {
            assert tail[i] == records[i + 1];
          }
        }
      }
    }
  }

  /** A bulk put keeps every record under its own primary key. */
  lemma {:induction false} BulkPutKeyed<T>(m: map<string, T>, records: seq<T>, key: T -> string)
    requires KeyedBy(m, key)
    ensures KeyedBy(BulkPut(m, records, key), key)
    decreases |records|
  {
    if records != [] {
      BulkPutKeyed(m[key(records[0]) := records[0]], records[1..], key);
    }
  }

  /** A reading of the fresh-id oracle and the clock, one per `addToSyncQueue` call. */
  datatype Stamp = Stamp(id: string, at: nat)

  /** The ids of the stamps are pairwise distinct and not yet used in the queue. */
  ghost predicate FreshStamps(q: map<string, SyncQueueEntry>, stamps: seq<Stamp>)
  {
    && (forall i :: 0 <= i < |stamps| ==> stamps[i].id !in q)
    && (forall i, j :: 0 <= i < j < |stamps| ==> stamps[i].id != stamps[j].id)
  }

  /** The entry `addToSyncQueue` builds: never retried, never attempted. */
  function NewEntry(table: string, recordId: string, op: Operation, data: Payload, stamp: Stamp): SyncQueueEntry
  {
    SyncQueueEntry(stamp.id, table, recordId, op, data, 0, None, stamp.at)
  }

  /** `syncQueue.put(entry)`. */
  function Enqueue(q: map<string, SyncQueueEntry>, e: SyncQueueEntry): map<string, SyncQueueEntry>
  {
    q[e.id := e]
  }

  /** The ids of the entries for one record of one table. */
  function EntriesFor(q: map<string, SyncQueueEntry>, table: string, recordId: string): set<string>
  {
    set k | k in q && q[k].table_name == table && q[k].record_id == recordId
  }

  /**
   * `addToSyncQueue` never merges: with a fresh id it keeps every entry, adds
   * exactly one, and the record it names has one entry more than before.
   */
  lemma EnqueueNeverMerges(q: map<string, SyncQueueEntry>, e: SyncQueueEntry)
    requires e.id !in q
    ensures |Enqueue(q, e)| == |q| + 1
    ensures Enqueue(q, e).Keys == q.Keys + {e.id} && Enqueue(q, e)[e.id] == e
    ensures forall k :: k in q ==> k in Enqueue(q, e) && Enqueue(q, e)[k] == q[k]
    ensures EntriesFor(Enqueue(q, e), e.table_name, e.record_id) == EntriesFor(q, e.table_name, e.record_id) + {e.id}
    ensures |EntriesFor(Enqueue(q, e), e.table_name, e.record_id)| == |EntriesFor(q, e.table_name, e.record_id)| + 1
  {
    EnqueueFresh(q, e);
    EnqueueFreshEntriesFor(q, e);
  }

  lemma EnqueueFresh(q: map<string, SyncQueueEntry>, e: SyncQueueEntry)
    requires e.id !in q
    ensures |Enqueue(q, e)| == |q| + 1
    ensures Enqueue(q, e).Keys == q.Keys + {e.id} && Enqueue(q, e)[e.id] == e
    ensures forall k :: k in q ==> k in Enqueue(q, e) && Enqueue(q, e)[k] == q[k]
  {
    assert Enqueue(q, e).Keys == q.Keys + {e.id};
  }

  lemma EnqueueFreshEntriesFor(q: map<string, SyncQueueEntry>, e: SyncQueueEntry)
    requires e.id !in q
    ensures EntriesFor(Enqueue(q, e), e.table_name, e.record_id) == EntriesFor(q, e.table_name, e.record_id) + {e.id}
    ensures |EntriesFor(Enqueue(q, e), e.table_name, e.record_id)| == |EntriesFor(q, e.table_name, e.record_id)| + 1
  {
    assert e.id !in EntriesFor(q, e.table_name, e.record_id);
    assert EntriesFor(Enqueue(q, e), e.table_name, e.record_id) == EntriesFor(q, e.table_name, e.record_id) + {e.id};
  }

  /** The entries put one after the other. */
  function EnqueueAll(q: map<string, SyncQueueEntry>, es: seq<SyncQueueEntry>): map<string, SyncQueueEntry>
    decreases |es|
  {
    if es == [] then q
    else Enqueue(EnqueueAll(q, es[..|es| - 1]), es[|es| - 1])
  }

  /** Some entry of the batch has id `k`. */
  ghost predicate HasId(es: seq<SyncQueueEntry>, k: string)
  {
    exists i :: 0 <= i < |es| && es[i].id == k
  }

  /** The ids of the entries are pairwise distinct and not yet used in the queue. */
  ghost predicate FreshEntries(q: map<string, SyncQueueEntry>, es: seq<SyncQueueEntry>)
  {
    && (forall i :: 0 <= i < |es| ==> es[i].id !in q)
    && (forall i, j :: 0 <= i < j < |es| ==> es[i].id != es[j].id)
  }

  /**
   * Enqueueing a batch with fresh ids adds every entry of the batch under its
   * own id, grows the queue by the size of the batch and keeps every old entry.
   */
  lemma EnqueueAllFresh(q: map<string, SyncQueueEntry>, es: seq<SyncQueueEntry>)
    requires FreshEntries(q, es)
    ensures |EnqueueAll(q, es)| == |q| + |es|
    ensures forall k :: k in EnqueueAll(q, es) <==> k in q || HasId(es, k)
    ensures forall k :: k in q ==> EnqueueAll(q, es)[k] == q[k]
    ensures forall i :: 0 <= i < |es| ==> es[i].id in EnqueueAll(q, es) && EnqueueAll(q, es)[es[i].id] == es[i]
  {
    EnqueueAllKeys(q, es);
    EnqueueAllKeeps(q, es);
    EnqueueAllStores(q, es);
    EnqueueAllSize(q, es);
  }

  lemma {:induction false} EnqueueAllKeys(q: map<string, SyncQueueEntry>, es: seq<SyncQueueEntry>)
    ensures forall k :: k in EnqueueAll(q, es) <==> k in q || HasId(es, k)
    decreases |es|
  {
    if es != [] {
      EnqueueAllKeys(q, es[..|es| - 1]);
      HasIdSnoc(es);
    }
  }

  lemma {:induction false} EnqueueAllKeeps(q: map<string, SyncQueueEntry>, es: seq<SyncQueueEntry>)
    requires forall i :: 0 <= i < |es| ==> es[i].id !in q
    ensures forall k :: k in q ==> k in EnqueueAll(q, es) && EnqueueAll(q, es)[k] == q[k]
    decreases |es|
  {
    if es != [] {
      var n := |es| - 1;
      assert forall i :: 0 <= i < n ==> es[..n][i] == es[i];
      EnqueueAllKeeps(q, es[..n]);
      EnqueueAllKeys(q, es[..n]);
    }
  }

  lemma {:induction false} EnqueueAllStores(q: map<string, SyncQueueEntry>, es: seq<SyncQueueEntry>)
    requires forall i, j :: 0 <= i < j < |es| ==> es[i].id != es[j].id
    ensures forall i :: 0 <= i < |es| ==> es[i].id in EnqueueAll(q, es) && EnqueueAll(q, es)[es[i].id] == es[i]
    decreases |es|
  {
    if es != [] {
      var n := |es| - 1;
      var init := es[..n];
      assert forall i :: 0 <= i < n ==> init[i] == es[i];
      EnqueueAllStores(q, init);
      forall i | 0 <= i < n ensures es[i].id in EnqueueAll(q, es) && EnqueueAll(q, es)[es[i].id] == es[i] {
        assert init[i] == es[i] && es[i].id != es[n].id;
      }
    }
  }

  lemma {:induction false} EnqueueAllSize(q: map<string, SyncQueueEntry>, es: seq<SyncQueueEntry>)
    requires FreshEntries(q, es)
    ensures |EnqueueAll(q, es)| == |q| + |es|
    decreases |es|
  {
    if es != [] {
      var n := |es| - 1;
      FreshPrefix(q, es);
      EnqueueAllSize(q, es[..n]);
      EnqueueAllKeys(q, es[..n]);
      assert es[n].id !in EnqueueAll(q, es[..n]);
    }
  }

  lemma FreshPrefix(q: map<string, SyncQueueEntry>, es: seq<SyncQueueEntry>)
    requires FreshEntries(q, es) && |es| > 0
    ensures FreshEntries(q, es[..|es| - 1])
    ensures !HasId(es[..|es| - 1], es[|es| - 1].id)
    ensures forall i :: 0 <= i < |es| - 1 ==> es[i].id != es[|es| - 1].id
  {
    var init := es[..|es| - 1];
    forall i, j | 0 <= i < j < |init| ensures init[i].id != init[j].id {
      assert init[i] == es[i] && init[j] == es[j];
    }
    forall i | 0 <= i < |init| ensures init[i].id != es[|es| - 1].id {
      assert init[i] == es[i];
    }
  }

  /** Enqueueing keeps every entry under its own id. */
  lemma {:induction false} EnqueueAllKeyed(q: map<string, SyncQueueEntry>, es: seq<SyncQueueEntry>)
    requires QueueKeyed(q)
    ensures QueueKeyed(EnqueueAll(q, es))
    decreases |es|
  {
    if es != [] {
      EnqueueAllKeyed(q, es[..|es| - 1]);
    }
  }

  lemma HasIdSnoc(es: seq<SyncQueueEntry>)
    requires |es| > 0
    ensures forall k :: HasId(es, k) <==> HasId(es[..|es| - 1], k) || k == es[|es| - 1].id
  {
    var n := |es| - 1;
    forall k ensures HasId(es, k) <==> HasId(es[..n], k) || k == es[n].id {
      if HasId(es, k) && k != es[n].id {
        var i :| 0 <= i < |es| && es[i].id == k;
        assert es[..n][i].id == k;
      }
      if HasId(es[..n], k) {
        var i :| 0 <= i < n && es[..n][i].id == k;
        assert es[i].id == k;
      }
    }
  }

  /** The entries `saveOrder` enqueues: the order, then each item in item order. */
  function OrderEntries(order: Order, items: seq<OrderItem>, stamps: seq<Stamp>): (es: seq<SyncQueueEntry>)
    requires |stamps| == |items| + 1
    ensures |es| == |stamps|
    ensures forall i :: 0 <= i < |es| ==> es[i].id == stamps[i].id && es[i].created_at == stamps[i].at
  {
    var tail := seq(|items|, i requires 0 <= i < |items| =>
                  NewEntry("order_items", items[i].id, Insert, OrderItemData(items[i]), stamps[i + 1]));
    var es := [NewEntry("orders", order.id, Insert, OrderData(order), stamps[0])] + tail;
    assert forall i :: 0 <= i < |es| ==> es[i].id == stamps[i].id && es[i].created_at == stamps[i].at by {
      forall i | 0 <= i < |es| ensures es[i].id == stamps[i].id && es[i].created_at == stamps[i].at {
        if i > 0 {
          assert es[i] == tail[i - 1];
        }
      }
    }
    es
  }

  /** The order's insert comes first, then the item inserts in item order. */
  lemma OrderEntriesAt(order: Order, items: seq<OrderItem>, stamps: seq<Stamp>)
    requires |stamps| == |items| + 1
    ensures OrderEntries(order, items, stamps)[0] == NewEntry("orders", order.id, Insert, OrderData(order), stamps[0])
    ensures forall i :: 0 <= i < |items| ==>
              OrderEntries(order, items, stamps)[i + 1]
                == NewEntry("order_items", items[i].id, Insert, OrderItemData(items[i]), stamps[i + 1])
  {
  }

  /** Enqueueing the entries of an order with fresh stamps. */
  lemma OrderEntriesEnqueued(q: map<string, SyncQueueEntry>, order: Order, items: seq<OrderItem>, stamps: seq<Stamp>)
    requires |stamps| == |items| + 1 && FreshStamps(q, stamps)
    ensures var q' := EnqueueAll(q, OrderEntries(order, items, stamps));
      && |q'| == |q| + 1 + |items|
      && (forall k :: k in q ==> k in q' && q'[k] == q[k])
      && stamps[0].id in q'
      && q'[stamps[0].id] == NewEntry("orders", order.id, Insert, OrderData(order), stamps[0])
      && (forall i :: 0 <= i < |items| ==>
            stamps[i + 1].id in q' &&
            q'[stamps[i + 1].id] == NewEntry("order_items", items[i].id, Insert, OrderItemData(items[i]), stamps[i + 1]))
  {
    var es := OrderEntries(order, items, stamps);
    OrderEntriesFresh(q, order, items, stamps);
    EnqueueAllFresh(q, es);
    OrderEntriesAt(order, items, stamps);
    var q' := EnqueueAll(q, es);
    forall i | 0 <= i < |items|
      ensures stamps[i + 1].id in q'
      ensures q'[stamps[i + 1].id] == NewEntry("order_items", items[i].id, Insert, OrderItemData(items[i]), stamps[i + 1])
    {
      assert es[i + 1].id == stamps[i + 1].id;
    }
  }

  lemma OrderEntriesFresh(q: map<string, SyncQueueEntry>, order: Order, items: seq<OrderItem>, stamps: seq<Stamp>)
    requires |stamps| == |items| + 1 && FreshStamps(q, stamps)
    ensures FreshEntries(q, OrderEntries(order, items, stamps))
  {
  }

  /** The first entry `saveOrder` enqueues is the order's. */
  lemma OrderEntriesFirst(q: map<string, SyncQueueEntry>, order: Order, items: seq<OrderItem>, stamps: seq<Stamp>)
    requires |stamps| == |items| + 1
    ensures EnqueueAll(q, OrderEntries(order, items, stamps)[..1])
         == Enqueue(q, NewEntry("orders", order.id, Insert, OrderData(order), stamps[0]))
  {
    var es := OrderEntries(order, items, stamps);
    assert es[..1][..0] == [];
  }

  /** Each later entry is the next item's, so the loop of `saveOrder` extends the prefix by one. */
  lemma OrderEntriesStep(q: map<string, SyncQueueEntry>, order: Order, items: seq<OrderItem>, stamps: seq<Stamp>, i: nat)
    requires |stamps| == |items| + 1 && i < |items|
    ensures EnqueueAll(q, OrderEntries(order, items, stamps)[..i + 2])
         == Enqueue(EnqueueAll(q, OrderEntries(order, items, stamps)[..i + 1]),
                    NewEntry("order_items", items[i].id, Insert, OrderItemData(items[i]), stamps[i + 1]))
  {
    var es := OrderEntries(order, items, stamps);
    assert es[..i + 2][..i + 1] == es[..i + 1];
    assert es[..i + 2][i + 1] == es[i + 1];
  }

  /** `syncQueue.delete(id)`. */
  function RemoveEntry(q: map<string, SyncQueueEntry>, id: string): map<string, SyncQueueEntry>
  {
    q - {id}
  }

  /** `updateSyncQueueItem`: if the entry exists, put `{ ...existing, ...updates }`. */
  function UpdateEntry(q: map<string, SyncQueueEntry>, id: string, updates: QueuePatch): map<string, SyncQueueEntry>
  {
    if id in q then
      var merged := SpreadEntry(q[id], updates);
      q[merged.id := merged]
    else q
  }

  /** Removing an entry leaves no entry with that id and every other entry as it was. */
  lemma RemoveEntryEffect(q: map<string, SyncQueueEntry>, id: string)
    ensures id !in RemoveEntry(q, id)
    ensures forall k :: k != id ==> (k in RemoveEntry(q, id) <==> k in q)
    ensures forall k :: k in q && k != id ==> RemoveEntry(q, id)[k] == q[k]
    ensures |RemoveEntry(q, id)| == if id in q then |q| - 1 else |q|
  {
  }

  /**
   * Updating an absent entry changes nothing; updating a present one, with a
   * patch that keeps the id, changes only the patched fields of that entry.
   */
  lemma UpdateEntryEffect(q: map<string, SyncQueueEntry>, id: string, updates: QueuePatch)
    requires QueueKeyed(q)
    requires updates.id.None? || updates.id == Some(id)
    ensures id !in q ==> UpdateEntry(q, id, updates) == q
    ensures UpdateEntry(q, id, updates).Keys == q.Keys
    ensures forall k :: k in q && k != id ==> UpdateEntry(q, id, updates)[k] == q[k]
    ensures id in q ==> UpdateEntry(q, id, updates)[id] == SpreadEntry(q[id], updates)
    ensures id in q && updates == NoQueueUpdates ==> UpdateEntry(q, id, updates) == q
    ensures QueueKeyed(UpdateEntry(q, id, updates))
  {
    if id in q {
      assert SpreadEntry(q[id], updates).id == id;
    }
  }

  /** What `updateTask` stores: `{ ...existing, ...updates, sync_status: 'pending' }`. */
  function UpdatedTask(existing: RepTask, updates: TaskPatch): RepTask
  {
    SpreadTask(existing, updates).(sync_status := Pending)
  }

  /** Whatever `updates` says about `sync_status`, the stored task is pending. */
  lemma UpdatedTaskIsPending(existing: RepTask, updates: TaskPatch, status: Option<SyncStatus>)
    ensures UpdatedTask(existing, updates).sync_status == Pending
    ensures UpdatedTask(existing, updates) == UpdatedTask(existing, updates.(sync_status := status))
    ensures UpdatedTask(existing, updates) == SpreadTask(existing, updates.(sync_status := Some(Pending)))
    ensures updates.id.None? ==> UpdatedTask(existing, updates).id == existing.id
  {
  }

  // ---- The write paths of OfflineService as functions of the tables ----

  /** `saveClients`. */
  function ClientsSaved(t: Tables, clients: seq<Client>): Tables
  {
    t.(clients := BulkPut(t.clients, clients, ClientId))
  }

  /** `saveProducts`. */
  function ProductsSaved(t: Tables, products: seq<Product>): Tables
  {
    t.(products := BulkPut(t.products, products, ProductId))
  }

  /** `saveVisit`: put the visit; if it is pending, enqueue its insert. */
  function VisitSaved(t: Tables, visit: Visit, stamp: Stamp): Tables
  {
    var withVisit := t.(visits := t.visits[visit.id := visit]);
    if visit.sync_status == Pending then
      withVisit.(syncQueue := Enqueue(t.syncQueue, NewEntry("visits", visit.id, Insert, VisitData(visit), stamp)))
    else withVisit
  }

  /** `saveOrder`: put the order and the items; if the order is pending, enqueue all of them. */
  function OrderSaved(t: Tables, order: Order, items: seq<OrderItem>, stamps: seq<Stamp>): Tables
    requires |stamps| == |items| + 1
  {
    var withRecords := OrderRecordsPut(t, order, items);
    if order.sync_status == Pending then
      withRecords.(syncQueue := EnqueueAll(t.syncQueue, OrderEntries(order, items, stamps)))
    else withRecords
  }

  /** `saveOrder`'s effect, table by table. */
  lemma OrderSavedFields(t: Tables, order: Order, items: seq<OrderItem>, stamps: seq<Stamp>)
    requires |stamps| == |items| + 1
    ensures OrderSaved(t, order, items, stamps)
         == Tables(t.clients, t.visits, t.orders[order.id := order], BulkPut(t.orderItems, items, OrderItemId),
                   t.products, t.repTasks, t.taskTypes, t.stockDiscountReasons,
                   if order.sync_status == Pending then EnqueueAll(t.syncQueue, OrderEntries(order, items, stamps)) else t.syncQueue)
  {
  }

  /** The two puts of `saveOrder`, before anything is enqueued. */
  function OrderRecordsPut(t: Tables, order: Order, items: seq<OrderItem>): Tables
  {
    t.(orders := t.orders[order.id := order], orderItems := BulkPut(t.orderItems, items, OrderItemId))
  }

  /** `updateTask`: if a task with that id exists, put the merged pending task and enqueue its update. */
  function TaskUpdated(t: Tables, taskId: string, updates: TaskPatch, stamp: Stamp): Tables
  {
    if taskId in t.repTasks then
      var updated := UpdatedTask(t.repTasks[taskId], updates);
      t.(repTasks := t.repTasks[updated.id := updated],
         syncQueue := Enqueue(t.syncQueue, NewEntry("rep_tasks", taskId, Update, TaskData(updated), stamp)))
    else t
  }

  /** `saveVisit` stores the visit and enqueues exactly one insert exactly when it is pending. */
  lemma SaveVisitEffect(t: Tables, visit: Visit, stamp: Stamp)
    requires stamp.id !in t.syncQueue
    ensures var t' := VisitSaved(t, visit, stamp);
      && t'.visits == t.visits[visit.id := visit]
      && t'.(visits := t.visits, syncQueue := t.syncQueue) == t
      && (visit.sync_status == Pending <==> |t'.syncQueue| == |t.syncQueue| + 1)
      && (visit.sync_status != Pending ==> t'.syncQueue == t.syncQueue)
      && (forall k :: k in t.syncQueue ==> k in t'.syncQueue && t'.syncQueue[k] == t.syncQueue[k])
      && (visit.sync_status == Pending ==>
            && t'.syncQueue.Keys == t.syncQueue.Keys + {stamp.id}
            && t'.syncQueue[stamp.id] == SyncQueueEntry(stamp.id, "visits", visit.id, Insert, VisitData(visit), 0, None, stamp.at))
  {
    if visit.sync_status == Pending {
      EnqueueNeverMerges(t.syncQueue, NewEntry("visits", visit.id, Insert, VisitData(visit), stamp));
    }
  }

  /**
   * `saveOrder` upserts the order and every item, touches no other table, and
   * enqueues nothing when the order is not pending.
   */
  lemma SaveOrderRecords(t: Tables, order: Order, items: seq<OrderItem>, stamps: seq<Stamp>)
    requires |stamps| == |items| + 1
    ensures var t' := OrderSaved(t, order, items, stamps);
      && t'.orders == t.orders[order.id := order]
      && t'.orderItems == BulkPut(t.orderItems, items, OrderItemId)
      && t'.(orders := t.orders, orderItems := t.orderItems, syncQueue := t.syncQueue) == t
      && (order.sync_status != Pending ==> t'.syncQueue == t.syncQueue)
  {
    var withRecords := t.(orders := t.orders[order.id := order],
                          orderItems := BulkPut(t.orderItems, items, OrderItemId));
    assert withRecords.(orders := t.orders, orderItems := t.orderItems) == t;
    if order.sync_status == Pending {
      assert OrderSaved(t, order, items, stamps) == withRecords.(syncQueue := EnqueueAll(t.syncQueue, OrderEntries(order, items, stamps)));
    } else {
      assert OrderSaved(t, order, items, stamps) == withRecords;
    }
  }

  /**
   * When the order is pending (whatever its items say), `saveOrder` enqueues
   * exactly 1 + |items| entries: the order's insert and one insert per item,
   * each under its own fresh id, and keeps every entry already queued.
   */
  lemma SaveOrderQueue(t: Tables, order: Order, items: seq<OrderItem>, stamps: seq<Stamp>)
    requires |stamps| == |items| + 1 && FreshStamps(t.syncQueue, stamps)
    requires order.sync_status == Pending
    ensures var q' := OrderSaved(t, order, items, stamps).syncQueue;
      && |q'| == |t.syncQueue| + 1 + |items|
      && (forall k :: k in t.syncQueue ==> k in q' && q'[k] == t.syncQueue[k])
      && stamps[0].id in q'
      && q'[stamps[0].id] == NewEntry("orders", order.id, Insert, OrderData(order), stamps[0])
      && (forall i :: 0 <= i < |items| ==>
            stamps[i + 1].id in q' &&
            q'[stamps[i + 1].id] == NewEntry("order_items", items[i].id, Insert, OrderItemData(items[i]), stamps[i + 1]))
  {
    OrderEntriesEnqueued(t.syncQueue, order, items, stamps);
    assert OrderSaved(t, order, items, stamps).syncQueue == EnqueueAll(t.syncQueue, OrderEntries(order, items, stamps));
  }

  /**
   * `updateTask` on an absent id changes nothing; on a present one it stores
   * the merged task, forced pending, and enqueues exactly one update carrying it.
   */
  lemma UpdateTaskEffect(t: Tables, taskId: string, updates: TaskPatch, stamp: Stamp)
    requires KeyedBy(t.repTasks, TaskId) && stamp.id !in t.syncQueue
    ensures taskId !in t.repTasks ==> TaskUpdated(t, taskId, updates, stamp) == t
    ensures taskId in t.repTasks ==>
      var t' := TaskUpdated(t, taskId, updates, stamp);
      var updated := SpreadTask(t.repTasks[taskId], updates).(sync_status := Pending);
      && t'.repTasks == t.repTasks[updated.id := updated]
      && (updates.id.None? ==> t'.repTasks[taskId] == updated)
      && t'.repTasks[updated.id].sync_status == Pending
      && t'.(repTasks := t.repTasks, syncQueue := t.syncQueue) == t
      && |t'.syncQueue| == |t.syncQueue| + 1
      && t'.syncQueue.Keys == t.syncQueue.Keys + {stamp.id}
      && (forall k :: k in t.syncQueue ==> t'.syncQueue[k] == t.syncQueue[k])
      && t'.syncQueue[stamp.id] == SyncQueueEntry(stamp.id, "rep_tasks", taskId, Update, TaskData(updated), 0, None, stamp.at)
  {
    if taskId in t.repTasks {
      var updated := UpdatedTask(t.repTasks[taskId], updates);
      var e := NewEntry("rep_tasks", taskId, Update, TaskData(updated), stamp);
      EnqueueNeverMerges(t.syncQueue, e);
      assert TaskUpdated(t, taskId, updates, stamp)
        == t.(repTasks := t.repTasks[updated.id := updated], syncQueue := Enqueue(t.syncQueue, e));
    }
  }

  /** The write paths keep every record under its own primary key. */
  lemma SaveVisitKeepsKeys(t: Tables, visit: Visit, stamp: Stamp)
    requires Keyed(t)
    ensures Keyed(VisitSaved(t, visit, stamp))
  {
    var e := NewEntry("visits", visit.id, Insert, VisitData(visit), stamp);
    var withVisit := t.(visits := t.visits[visit.id := visit]);
    assert Keyed(withVisit);
    if visit.sync_status == Pending {
      assert VisitSaved(t, visit, stamp) == withVisit.(syncQueue := t.syncQueue[e.id := e]);
    }
  }

  lemma OrderRecordsPutKeyed(t: Tables, order: Order, items: seq<OrderItem>)
    requires Keyed(t)
    ensures Keyed(OrderRecordsPut(t, order, items))
  {
    assert KeyedBy(t.orderItems, OrderItemId);
    BulkPutKeyed(t.orderItems, items, OrderItemId);
  }

  lemma SaveOrderKeepsKeys(t: Tables, order: Order, items: seq<OrderItem>, stamps: seq<Stamp>)
    requires Keyed(t) && |stamps| == |items| + 1
    ensures Keyed(OrderSaved(t, order, items, stamps))
  {
    var es := OrderEntries(order, items, stamps);
    var withRecords := t.(orders := t.orders[order.id := order],
                          orderItems := BulkPut(t.orderItems, items, OrderItemId));
    assert KeyedBy(t.orderItems, OrderItemId);
    BulkPutKeyed(t.orderItems, items, OrderItemId);
    assert Keyed(withRecords);
    if order.sync_status == Pending {
      EnqueueAllKeyed(t.syncQueue, es);
      assert OrderSaved(t, order, items, stamps) == withRecords.(syncQueue := EnqueueAll(t.syncQueue, es));
    }
  }

  lemma UpdateTaskKeepsKeys(t: Tables, taskId: string, updates: TaskPatch, stamp: Stamp)
    requires Keyed(t)
    ensures Keyed(TaskUpdated(t, taskId, updates, stamp))
  {
  }

  // ---- Queries ----

  /** The queue's listing order: by `created_at`, equal timestamps by entry id. */
  predicate QueueBefore(a: SyncQueueEntry, b: SyncQueueEntry)
  {
    a.created_at < b.created_at || (a.created_at == b.created_at && StrLess(a.id, b.id))
  }

  /**
   * `entries` is what `syncQueue.orderBy('created_at').toArray()` returns:
   * every entry of the queue exactly once, ascending by `created_at`.
   */
  ghost predicate IsQueueListing(q: map<string, SyncQueueEntry>, entries: seq<SyncQueueEntry>)
  {
    && |entries| == |q|
    && (forall i :: 0 <= i < |entries| ==> entries[i].id in q && q[entries[i].id] == entries[i])
    && (forall k :: k in q ==> exists i :: 0 <= i < |entries| && entries[i].id == k)
    && (forall i, j :: 0 <= i < j < |entries| ==> QueueBefore(entries[i], entries[j]))
  }

  lemma QueueBeforeAsymmetric(a: SyncQueueEntry, b: SyncQueueEntry)
    ensures !(QueueBefore(a, b) && QueueBefore(b, a))
  {
    if QueueBefore(a, b) && QueueBefore(b, a) {
      StrLessTransitive(a.id, b.id, a.id);
      StrLessIrreflexive(a.id);
    }
  }

  /** In a listing, the first entry has an id no later entry has. */
  lemma QueueListingFirstUnique(q: map<string, SyncQueueEntry>, entries: seq<SyncQueueEntry>)
    requires IsQueueListing(q, entries) && |entries| > 0
    ensures forall i :: 0 < i < |entries| ==> entries[i].id != entries[0].id
  {
    StrLessIrreflexive(entries[0].id);
    forall i | 0 < i < |entries| ensures entries[i].id != entries[0].id {
      assert QueueBefore(entries[0], entries[i]);
    }
  }

  /** Without its first entry, a listing lists the rest of the queue. */
  lemma QueueListingTail(q: map<string, SyncQueueEntry>, entries: seq<SyncQueueEntry>)
    requires IsQueueListing(q, entries) && |entries| > 0
    ensures IsQueueListing(q - {entries[0].id}, entries[1..])
  {
    var rest, q' := entries[1..], q - {entries[0].id};
    QueueListingFirstUnique(q, entries);
    assert |q'| == |q| - 1;
    forall i | 0 <= i < |rest| ensures rest[i].id in q' && q'[rest[i].id] == rest[i] {
      assert rest[i] == entries[i + 1];
    }
    forall i, j | 0 <= i < j < |rest| ensures QueueBefore(rest[i], rest[j]) {
      assert rest[i] == entries[i + 1] && rest[j] == entries[j + 1];
    }
    QueueListingTailCovers(q, entries);
  }

  lemma QueueListingTailCovers(q: map<string, SyncQueueEntry>, entries: seq<SyncQueueEntry>)
    requires |entries| > 0
    requires forall k :: k in q ==> exists i :: 0 <= i < |entries| && entries[i].id == k
    ensures forall k :: k in q && k != entries[0].id ==> exists i :: 0 <= i < |entries| - 1 && entries[1..][i].id == k
  {
    forall k | k in q && k != entries[0].id ensures exists i :: 0 <= i < |entries| - 1 && entries[1..][i].id == k {
      var i :| 0 <= i < |entries| && entries[i].id == k;
      assert entries[1..][i - 1] == entries[i];
    }
  }

  /** Two listings of one queue start with the same entry. */
  lemma QueueListingFirst(q: map<string, SyncQueueEntry>, s1: seq<SyncQueueEntry>, s2: seq<SyncQueueEntry>)
    requires IsQueueListing(q, s1) && IsQueueListing(q, s2) && |s1| > 0
    ensures |s2| > 0 && s1[0] == s2[0]
  {
    var a, b := s1[0], s2[0];
    var j :| 0 <= j < |s2| && s2[j].id == a.id;
    var i :| 0 <= i < |s1| && s1[i].id == b.id;
    if j > 0 && i > 0 {
      assert QueueBefore(b, s2[j]) && QueueBefore(a, s1[i]);
      QueueBeforeAsymmetric(a, b);
    }
  }

  /**
   * The queue's listing is unique: `getSyncQueue` has exactly one possible
   * answer for a given queue, so a cycle is determined by the tables.
   */
  lemma {:induction false} QueueListingUnique(q: map<string, SyncQueueEntry>, s1: seq<SyncQueueEntry>, s2: seq<SyncQueueEntry>)
    requires IsQueueListing(q, s1) && IsQueueListing(q, s2)
    ensures s1 == s2
    decreases |s1|
  {
    if |s1| > 0 {
      QueueListingFirst(q, s1, s2);
      QueueListingTail(q, s1);
      QueueListingTail(q, s2);
      QueueListingUnique(q - {s1[0].id}, s1[1..], s2[1..]);
      HeadTailEqual(s1, s2);
    }
  }

  lemma HeadTailEqual<T>(a: seq<T>, b: seq<T>)
    requires |a| > 0 && |b| > 0 && a[0] == b[0] && a[1..] == b[1..]
    ensures a == b
  {
    assert a == [a[0]] + a[1..] && b == [b[0]] + b[1..];
  }

  /**
   * Entries stamped in the same instant are listed by id, not by insertion:
   * when an order and its item get the same `created_at` and the item's
   * random id sorts first, the item's entry is listed (and replayed) first.
   */
  lemma SameInstantListedById(order: Order, item: OrderItem, at: nat)
    ensures
      var eo := NewEntry("orders", order.id, Insert, OrderData(order), Stamp("b", at));
      var ei := NewEntry("order_items", item.id, Insert, OrderItemData(item), Stamp("a", at));
      var q := map["b" := eo, "a" := ei];
      IsQueueListing(q, [ei, eo]) && !IsQueueListing(q, [eo, ei])
  {
    var eo := NewEntry("orders", order.id, Insert, OrderData(order), Stamp("b", at));
    var ei := NewEntry("order_items", item.id, Insert, OrderItemData(item), Stamp("a", at));
    var q := map["b" := eo, "a" := ei];
    assert StrLess("a", "b") && !StrLess("b", "a");
    assert q.Keys == {"a", "b"};
    var s := [ei, eo];
    forall k | k in q ensures exists i :: 0 <= i < |s| && s[i].id == k {
      if k == "a" { assert s[0].id == k; } else { assert s[1].id == k; }
    }
  }

  /** JavaScript truthiness of the optional `region` argument: absent and "" are false. */
  predicate Truthy(region: Option<string>)
  {
    region.Some? && region.value != ""
  }

  /** The filter `getClients` applies. */
  predicate InRegion(region: Option<string>, c: Client)
  {
    Truthy(region) ==> c.region == region.value
  }

  /** The clients' listing order: by `name`, equal names by id. */
  predicate ClientBefore(a: Client, b: Client)
  {
    StrLess(a.name, b.name) || (a.name == b.name && StrLess(a.id, b.id))
  }

  /** `clients` is what `getClients(region)` returns. */
  ghost predicate IsClientListing(m: map<string, Client>, region: Option<string>, clients: seq<Client>)
  {
    && (forall i :: 0 <= i < |clients| ==> clients[i].id in m && m[clients[i].id] == clients[i] && InRegion(region, clients[i]))
    && (forall k :: k in m && InRegion(region, m[k]) ==> exists i :: 0 <= i < |clients| && clients[i].id == k)
    && (forall i, j :: 0 <= i < j < |clients| ==> ClientBefore(clients[i], clients[j]))
  }

  /** The `created_at` index of the queue. */
  function CreatedIndex(q: map<string, SyncQueueEntry>): map<string, IndexKey>
  {
    map k | k in q :: NumKey(q[k].created_at)
  }

  /** The `name` index of the clients that pass the region filter. */
  function NameIndex(m: map<string, Client>, region: Option<string>): map<string, IndexKey>
  {
    map k | k in m && InRegion(region, m[k]) :: StrKey(m[k].name)
  }

  /** The records stored under the keys `ks`, in that order. */
  function Lookup<T>(m: map<string, T>, ks: seq<string>): seq<T>
    requires forall i :: 0 <= i < |ks| ==> ks[i] in m
  {
    seq(|ks|, i requires 0 <= i < |ks| => m[ks[i]])
  }

  /** Reading the queue's entries in the order of its `created_at` index gives a queue listing. */
  lemma QueueListingOfKeys(q: map<string, SyncQueueEntry>, ks: seq<string>)
    requires QueueKeyed(q)
    requires Within(CreatedIndex(q), ks) && Sorted(CreatedIndex(q), ks)
    requires (forall k :: k in ks <==> k in CreatedIndex(q)) && |ks| == |CreatedIndex(q)|
    ensures IsQueueListing(q, Lookup(q, ks))
  {
    var entries := Lookup(q, ks);
    CreatedIndexSize(q);
    LookupCovers(q, ks);
    LookupInQueueOrder(q, ks);
    assert |entries| == |q|;
    forall i | 0 <= i < |entries| ensures entries[i].id in q && q[entries[i].id] == entries[i] {
      assert entries[i] == q[ks[i]];
    }
  }

  lemma CreatedIndexSize(q: map<string, SyncQueueEntry>)
    ensures CreatedIndex(q).Keys == q.Keys && |CreatedIndex(q)| == |q|
  {
    assert CreatedIndex(q).Keys == q.Keys;
  }

  lemma LookupCovers(q: map<string, SyncQueueEntry>, ks: seq<string>)
    requires QueueKeyed(q)
    requires forall k :: k in ks <==> k in q
    ensures forall i :: 0 <= i < |ks| ==> Lookup(q, ks)[i].id == ks[i]
    ensures forall k :: k in q ==> exists i :: 0 <= i < |ks| && Lookup(q, ks)[i].id == k
  {
    var entries := Lookup(q, ks);
    forall k | k in q ensures exists i :: 0 <= i < |ks| && entries[i].id == k {
      assert k in ks;
      var i :| 0 <= i < |ks| && ks[i] == k;
      assert entries[i].id == k;
    }
  }

  lemma LookupInQueueOrder(q: map<string, SyncQueueEntry>, ks: seq<string>)
    requires QueueKeyed(q)
    requires Within(CreatedIndex(q), ks) && Sorted(CreatedIndex(q), ks)
    ensures forall i, j :: 0 <= i < j < |ks| ==> QueueBefore(Lookup(q, ks)[i], Lookup(q, ks)[j])
  {
    var ix, entries := CreatedIndex(q), Lookup(q, ks);
    forall i, j | 0 <= i < j < |ks| ensures QueueBefore(entries[i], entries[j]) {
      assert Before(ix[ks[i]], ks[i], ix[ks[j]], ks[j]);
      assert entries[i].id == ks[i] && entries[j].id == ks[j];
    }
  }

  /** Reading the filtered clients in the order of the `name` index gives the `getClients` result. */
  lemma ClientListingOfKeys(m: map<string, Client>, region: Option<string>, ks: seq<string>)
    requires KeyedBy(m, ClientId)
    requires Within(NameIndex(m, region), ks) && Sorted(NameIndex(m, region), ks)
    requires forall k :: k in ks <==> k in NameIndex(m, region)
    ensures IsClientListing(m, region, Lookup(m, ks))
  {
    var ix, clients := NameIndex(m, region), Lookup(m, ks);
    assert forall i :: 0 <= i < |ks| ==> clients[i].id == ks[i];
    forall k | k in m && InRegion(region, m[k]) ensures exists i :: 0 <= i < |clients| && clients[i].id == k {
      assert k in ix && k in ks;
      var i :| 0 <= i < |ks| && ks[i] == k;
      assert clients[i].id == k;
    }
    forall i, j | 0 <= i < j < |clients| ensures ClientBefore(clients[i], clients[j]) {
      assert Before(ix[ks[i]], ks[i], ix[ks[j]], ks[j]);
    }
  }

  datatype DashboardStats = DashboardStats(
    plannedVisitsToday: nat,
    ordersPlaced: nat,
    tasksAssigned: nat,
    pendingSync: nat)

  /** The visits of the rep whose `created_at` starts with the date `today`. */
  function VisitsToday(t: Tables, repId: string, today: string): set<string>
  {
    set k | k in t.visits && t.visits[k].rep_id == repId && today <= t.visits[k].created_at
  }

  function OrdersOf(t: Tables, repId: string): set<string>
  {
    set k | k in t.orders && t.orders[k].rep_id == repId
  }

  /** The rep's tasks that are not completed. */
  function OpenTasksOf(t: Tables, repId: string): set<string>
  {
    set k | k in t.repTasks && t.repTasks[k].rep_id == repId && t.repTasks[k].status != Completed
  }

  /**
   * `getDashboardStats(repId)`, with the date prefix `today` as a parameter.
   * `pendingSync` is `getPendingCount()`: the number of queue entries.
   */
  function Stats(t: Tables, repId: string, today: string): DashboardStats
  {
    DashboardStats(|VisitsToday(t, repId, today)|, |OrdersOf(t, repId)|, |OpenTasksOf(t, repId)|, |t.syncQueue|)
  }

  /** Saving a visit moves the pending figure of the dashboard by one exactly when the visit is pending. */
  lemma SaveVisitStats(t: Tables, visit: Visit, stamp: Stamp, repId: string, today: string)
    requires stamp.id !in t.syncQueue
    ensures Stats(VisitSaved(t, visit, stamp), repId, today).pendingSync
         == Stats(t, repId, today).pendingSync + (if visit.sync_status == Pending then 1 else 0)
    ensures Stats(VisitSaved(t, visit, stamp), repId, today).ordersPlaced == Stats(t, repId, today).ordersPlaced
  {
    SaveVisitEffect(t, visit, stamp);
  }
}
