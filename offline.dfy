/**
 * The offline replica of src/services/offline.ts as mutable state: the Dexie
 * database is an object with one map per table, and `OfflineService` updates
 * it in place. Each write method is proved to have exactly the effect the
 * matching function of module Replica describes, and to keep every record
 * under its own primary key; each query is proved against a predicate stating
 * what it returns.
 */
module Offline {
  import opened Records
  import opened IndexOrder
  import opened Replica

  /** The nine tables of `RepDashboardDB` (src/services/offline.ts:4-30). */
  class OfflineDatabase {
    var clients: map<string, Client>
    var visits: map<string, Visit>
    var orders: map<string, Order>
    var orderItems: map<string, OrderItem>
    var products: map<string, Product>
    var repTasks: map<string, RepTask>
    var taskTypes: map<string, TaskType>
    var stockDiscountReasons: map<string, StockDiscountReason>
    var syncQueue: map<string, SyncQueueEntry>

    /** The tables as a value. */
    function Contents(): Tables
      reads this
    {
      Tables(clients, visits, orders, orderItems, products, repTasks, taskTypes, stockDiscountReasons, syncQueue)
    }

    /** Every table holds each record under its `id`. */
    ghost predicate Valid()
      reads this
    {
      Keyed(Contents())
    }

    constructor ()
      ensures Contents() == EmptyTables && Valid()
    {
      clients, visits, orders, orderItems, products := map[], map[], map[], map[], map[];
      repTasks, taskTypes, stockDiscountReasons, syncQueue := map[], map[], map[], map[];
    }
  }

  class OfflineService {
    const db: OfflineDatabase

    constructor (db: OfflineDatabase)
      ensures this.db == db
    {
      this.db := db;
    }

    method SaveClients(clients: seq<Client>)
      requires db.Valid()
      modifies db`clients
      ensures db.Valid()
      ensures db.Contents() == ClientsSaved(old(db.Contents()), clients)
    {
      assert KeyedBy(db.clients, ClientId);
      BulkPutKeyed(db.clients, clients, ClientId);
      db.clients := BulkPut(db.clients, clients, ClientId);
    }

    method SaveProducts(products: seq<Product>)
      requires db.Valid()
      modifies db`products
      ensures db.Valid()
      ensures db.Contents() == ProductsSaved(old(db.Contents()), products)
    {
      assert KeyedBy(db.products, ProductId);
      BulkPutKeyed(db.products, products, ProductId);
      db.products := BulkPut(db.products, products, ProductId);
    }

    /** `addToSyncQueue`, with the fresh id and the clock reading in `stamp`. */
    method AddToSyncQueue(tableName: string, recordId: string, operation: Operation, data: Payload, stamp: Stamp)
      requires QueueKeyed(db.syncQueue) && stamp.id !in db.syncQueue
      modifies db`syncQueue
      ensures QueueKeyed(db.syncQueue)
      ensures db.syncQueue == Enqueue(old(db.syncQueue), NewEntry(tableName, recordId, operation, data, stamp))
    {
      var queueItem := NewEntry(tableName, recordId, operation, data, stamp);
      db.syncQueue := db.syncQueue[queueItem.id := queueItem];
    }

    method SaveVisit(visit: Visit, stamp: Stamp)
      requires db.Valid() && stamp.id !in db.syncQueue
      modifies db`visits, db`syncQueue
      ensures db.Valid()
      ensures db.Contents() == VisitSaved(old(db.Contents()), visit, stamp)
    {
      ghost var t0 := db.Contents();
      assert QueueKeyed(t0.syncQueue);
      db.visits := db.visits[visit.id := visit];
      if visit.sync_status == Pending {
        AddToSyncQueue("visits", visit.id, Insert, VisitData(visit), stamp);
      }
      assert db.Contents() == VisitSaved(t0, visit, stamp);
      SaveVisitKeepsKeys(t0, visit, stamp);
    }

    /**
     * `saveOrder`: one stamp for the order's entry and one per item, all with
     * fresh, distinct ids.
     */
    method SaveOrder(order: Order, items: seq<OrderItem>, stamps: seq<Stamp>)
      requires db.Valid() && |stamps| == |items| + 1 && FreshStamps(db.syncQueue, stamps)
      modifies db`orders, db`orderItems, db`syncQueue
      ensures db.Valid()
      ensures db.Contents() == OrderSaved(old(db.Contents()), order, items, stamps)
    {
      ghost var t0 := db.Contents();
      assert QueueKeyed(t0.syncQueue) && FreshStamps(t0.syncQueue, stamps);
      db.orders := db.orders[order.id := order];
      db.orderItems := BulkPut(db.orderItems, items, OrderItemId);
      if order.sync_status == Pending {
        assert db.syncQueue == t0.syncQueue;
        EnqueueOrder(order, items, stamps);
      }
      OrderSavedFields(t0, order, items, stamps);
      assert db.Contents() == OrderSaved(t0, order, items, stamps);
      SaveOrderKeepsKeys(t0, order, items, stamps);
    }

    /** The pending branch of `saveOrder`: the order's entry, then one entry per item, in item order. */
    method EnqueueOrder(order: Order, items: seq<OrderItem>, stamps: seq<Stamp>)
      requires QueueKeyed(db.syncQueue) && |stamps| == |items| + 1 && FreshStamps(db.syncQueue, stamps)
      modifies db`syncQueue
      ensures db.syncQueue == EnqueueAll(old(db.syncQueue), OrderEntries(order, items, stamps))
    {
      ghost var q0 := db.syncQueue;
      ghost var es := OrderEntries(order, items, stamps);
      AddToSyncQueue("orders", order.id, Insert, OrderData(order), stamps[0]);
      OrderEntriesFirst(q0, order, items, stamps);
      var i := 0;
      while i < |items|
        invariant 0 <= i <= |items|
        invariant QueueKeyed(db.syncQueue)
        invariant db.syncQueue == EnqueueAll(q0, es[..i + 1])
        invariant forall j :: i + 1 <= j < |stamps| ==> stamps[j].id !in db.syncQueue
      {
        var item := items[i];
        OrderEntriesStep(q0, order, items, stamps, i);
        AddToSyncQueue("order_items", item.id, Insert, OrderItemData(item), stamps[i + 1]);
        i := i + 1;
      }
      assert es[..|items| + 1] == es;
    }

    method UpdateTask(taskId: string, updates: TaskPatch, stamp: Stamp)
      requires db.Valid() && stamp.id !in db.syncQueue
      modifies db`repTasks, db`syncQueue
      ensures db.Valid()
      ensures db.Contents() == TaskUpdated(old(db.Contents()), taskId, updates, stamp)
    {
      ghost var t0 := db.Contents();
      assert QueueKeyed(t0.syncQueue);
      if taskId in db.repTasks {
        var existing := db.repTasks[taskId];
        var updated := UpdatedTask(existing, updates);
        db.repTasks := db.repTasks[updated.id := updated];
        AddToSyncQueue("rep_tasks", taskId, Update, TaskData(updated), stamp);
      }
      assert db.Contents() == TaskUpdated(t0, taskId, updates, stamp);
      UpdateTaskKeepsKeys(t0, taskId, updates, stamp);
    }

    method RemoveSyncQueueItem(id: string)
      requires db.Valid()
      modifies db`syncQueue
      ensures db.Valid()
      ensures db.Contents() == old(db.Contents()).(syncQueue := RemoveEntry(old(db.syncQueue), id))
    {
      db.syncQueue := db.syncQueue - {id};
    }

    method UpdateSyncQueueItem(id: string, updates: QueuePatch)
      requires db.Valid()
      modifies db`syncQueue
      ensures db.Valid()
      ensures db.Contents() == old(db.Contents()).(syncQueue := UpdateEntry(old(db.syncQueue), id, updates))
    {
      if id in db.syncQueue {
        var existing := db.syncQueue[id];
        var merged := SpreadEntry(existing, updates);
        db.syncQueue := db.syncQueue[merged.id := merged];
      }
    }

    /** `syncQueue.orderBy('created_at').toArray()`. */
    method GetSyncQueue() returns (entries: seq<SyncQueueEntry>)
      requires db.Valid()
      ensures IsQueueListing(db.syncQueue, entries)
    {
      var q := db.syncQueue;
      var ks := Listing(CreatedIndex(q));
      entries := Lookup(q, ks);
      QueueListingOfKeys(q, ks);
    }

    /** `getClients(region)`: the clients of the region (all of them without one), by name. */
    method GetClients(region: Option<string>) returns (clients: seq<Client>)
      requires db.Valid()
      ensures IsClientListing(db.clients, region, clients)
    {
      var m := db.clients;
      var ks := Listing(NameIndex(m, region));
      clients := Lookup(m, ks);
      ClientListingOfKeys(m, region, ks);
    }

    /** `syncQueue.count()`. */
    method GetPendingCount() returns (n: nat)
      ensures n == |db.syncQueue|
      ensures n == Stats(db.Contents(), "", "").pendingSync
    {
      n := |db.syncQueue|;
    }

    /** `getDashboardStats(repId)`, with today's date (`YYYY-MM-DD`) as a parameter. */
    method GetDashboardStats(repId: string, today: string) returns (s: DashboardStats)
      ensures s == Stats(db.Contents(), repId, today)
      ensures s.pendingSync == |db.syncQueue|
    {
      s := Stats(db.Contents(), repId, today);
    }
  }
}
